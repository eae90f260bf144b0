/** Whole runs of the dialer against arbitrary transports, dial outcomes and, for the
    timing results, any monotone clock. */
module ConnectorRuns {
  import opened SipFrame
  import opened TunnelDialer

  datatype Event =
    | Submit(frame: Frame, r: SendResult)     // somebody calls send_frame
    | Tick(now: int, fate: Fate)
    | BytesIn(at: int, accepted: bool)
    | Lost
    | WsPing(ok: bool)

  function After(cfg: Config, d: Dialer, e: Event): Dialer {
    match e
    case Submit(frame, r) => AfterSend(cfg, d, Encode(frame), r)
    case Tick(now, fate) => AfterTick(cfg, d, now, fate)
    case BytesIn(_, accepted) => d.(pings := 0, pending := d.pending || !accepted)
    case Lost => d.(pending := d.pending || d.transport)
    case WsPing(ok) => d.(pending := d.pending || (d.transport && !ok))
  }

  predicate Dials(d: Dialer, now: int) {
    !Drained(d).transport && now >= Drained(d).nextAt
  }

  predicate Beats(cfg: Config, d: Dialer, now: int) {
    Drained(d).transport && BeatDue(cfg, d, now)
  }

  /** The heartbeat gives the tunnel up at this tick. */
  predicate HeartbeatDrops(cfg: Config, d: Dialer, now: int) {
    Beats(cfg, d, now) && d.pings >= cfg.maxMissed
  }

  /** The frames an event passes to send_frame, PINGs and hellos included. */
  function Submits(cfg: Config, d: Dialer, e: Event): seq<Bytes> {
    match e
    case Submit(frame, _) => [Encode(frame)]
    case Tick(now, fate) =>
      if Beats(cfg, d, now) && d.pings < cfg.maxMissed then [Encode(PingFrame())]
      else if Dials(d, now) && fate.dialed then [Encode(HelloFrame(cfg))]
      else []
    case _ => []
  }

  datatype World = World(
    d: Dialer,
    submitted: seq<Bytes>,    // everything ever passed to send_frame, in order
    clock: int,
    lastTick: int,            // when the last tick began
    heard: int,               // last inbound bytes, or installation of the transport
    firstDial: int,           // first failed dial of the current outage
    lastFail: int)            // last failed dial

  function Step(cfg: Config, w: World, e: Event): World {
    World(
      After(cfg, w.d, e),
      w.submitted + Submits(cfg, w.d, e),
      if e.Tick? then e.fate.after else if e.BytesIn? then e.at else w.clock,
      if e.Tick? then e.now else w.lastTick,
      if e.BytesIn? then e.at else if e.Tick? && Dials(w.d, e.now) && e.fate.dialed then e.fate.after else w.heard,
      if e.Tick? && Dials(w.d, e.now) && !e.fate.dialed && w.d.attempts == 0 then e.fate.after else w.firstDial,
      if e.Tick? && Dials(w.d, e.now) && !e.fate.dialed then e.fate.after else w.lastFail)
  }

  type Run = seq<Event>

  function Exec(cfg: Config, run: Run): World {
    if run == [] then World(START, [], 0, 0, 0, 0, 0)
    else Step(cfg, Exec(cfg, run[..|run| - 1]), run[|run| - 1])
  }

  /** Time never runs backwards. */
  predicate Ordered(cfg: Config, w: World, e: Event) {
    match e
    case Tick(now, fate) => w.clock <= now <= fate.after
    case BytesIn(at, _) => w.clock <= at
    case _ => true
  }

  predicate Monotone(cfg: Config, run: Run) {
    run == [] ||
    var before := run[..|run| - 1];
    Monotone(cfg, before) && Ordered(cfg, Exec(cfg, before), run[|run| - 1])
  }

  /** While a transport is up, no two consecutive ticks begin more than `gap` apart. */
  predicate TicksWithin(cfg: Config, gap: nat, run: Run) {
    run == [] ||
    var before, e := run[..|run| - 1], run[|run| - 1];
    TicksWithin(cfg, gap, before) && (e.Tick? && Exec(cfg, before).d.transport ==> e.now <= Exec(cfg, before).lastTick + gap)
  }

  // ---- hand-off -----------------------------------------------------------

  /** `a` can be obtained from `b` by leaving elements out. */
  predicate Subsequence<T(==)>(a: seq<T>, b: seq<T>) {
    if b == [] then a == []
    else
      var n := |b| - 1;
      Subsequence(a, b[..n]) || (a != [] && a[|a| - 1] == b[n] && Subsequence(a[..|a| - 1], b[..n]))
  }

  lemma SubsequenceSnoc<T>(a: seq<T>, b: seq<T>, x: T)
    requires Subsequence(a, b)
    ensures Subsequence(a + [x], b + [x]) && Subsequence(a, b + [x])
  {
    assert (b + [x])[..|b|] == b && (a + [x])[..|a|] == a;
  }

  lemma {:induction false} SubsequenceAppend(a: seq<Bytes>, b: seq<Bytes>, more: seq<Bytes>)
    requires Subsequence(a, b)
    ensures Subsequence(a, b + more)
  {
    if more == [] {
      assert b + more == b;
    } else {
      var n := |more| - 1;
      SubsequenceAppend(a, b, more[..n]);
      SubsequenceSnoc(a, b + more[..n], more[n]);
      assert b + more == b + more[..n] + [more[n]];
    }
  }

  function Encoded(frames: seq<Frame>): seq<Bytes> {
    seq(|frames|, i requires 0 <= i < |frames| => Encode(frames[i]))
  }

  /** Nothing waits while a transport is up and healthy; the buffer respects its
      bound; and what was taken followed by what waits is what was submitted, except
      for frames a full buffer refused. */
  ghost predicate HandOff(cfg: Config, d: Dialer, submitted: seq<Bytes>) {
    && (d.transport && !d.pending ==> d.outbound == [])
    && (cfg.bufferMax == 0 ==> d.wire + d.outbound == submitted)
    && (cfg.bufferMax > 0 ==> |d.outbound| <= cfg.bufferMax)
    && Subsequence(d.wire + d.outbound, submitted)
  }

  lemma HandOffSend(cfg: Config, d: Dialer, submitted: seq<Bytes>, bytes: Bytes, r: SendResult)
    requires HandOff(cfg, d, submitted)
    ensures HandOff(cfg, AfterSend(cfg, d, bytes, r), submitted + [bytes])
  {
    hide Subsequence;
    SubsequenceSnoc(d.wire + d.outbound, submitted, bytes);
    if Takes(d, r) {
      assert d.wire + [bytes] + d.outbound == d.wire + d.outbound + [bytes];
    } else {
      assert d.wire + (d.outbound + [bytes]) == d.wire + d.outbound + [bytes];
    }
  }

  /** Flushing moves frames from the buffer to the wire and loses none; it either
      empties the buffer or loses the transport. */
  lemma {:induction false} FlushMoves(d: Dialer, results: seq<SendResult>)
    requires d.transport
    ensures var e := AfterFlush(d, results);
      && e.wire + e.outbound == d.wire + d.outbound
      && |e.outbound| <= |d.outbound|
      && (e.transport ==> e == d.(outbound := [], wire := e.wire, pending := e.pending))
      && (!e.transport ==> e == Dropped(d).(outbound := e.outbound, wire := e.wire))
    decreases |d.outbound|
  {
    if d.outbound != [] && results != [] && results[0].ok {
      var next := d.(outbound := d.outbound[1..], wire := d.wire + [d.outbound[0]], pending := d.pending || results[0].lost);
      FlushMoves(next, results[1..]);
      assert next.wire + next.outbound == d.wire + d.outbound;
    }
  }

  lemma HandOffTick(cfg: Config, d: Dialer, submitted: seq<Bytes>, now: int, f: Fate)
    requires HandOff(cfg, d, submitted)
    ensures HandOff(cfg, AfterTick(cfg, d, now, f), submitted + Submits(cfg, d, Tick(now, f)))
  {
    hide Encode, AfterFlush, Subsequence;
    var e := Drained(d);
    assert HandOff(cfg, e, submitted);
    assert submitted + [] == submitted;
    if e.transport {
      if BeatDue(cfg, e, now) && e.pings < cfg.maxMissed {
        HandOffSend(cfg, e, submitted, Encode(PingFrame()), f.ping);
      }
    } else if now >= e.nextAt && f.dialed {
      var i := Installed(e, f.after);
      FlushMoves(i, f.flush);
      var g := AfterFlush(i, f.flush).(sink := true);
      assert HandOff(cfg, g, submitted);
      HandOffSend(cfg, g, submitted, Encode(HelloFrame(cfg)), f.hello);
    }
  }

  lemma {:induction false} HandOffEverywhere(cfg: Config, run: Run)
    ensures var w := Exec(cfg, run); HandOff(cfg, w.d, w.submitted)
  {
    hide Encode, AfterTick, AfterSend, Subsequence, Submits;
    if run == [] {
      EmptySubsequence();
    } else {
      var before, e := run[..|run| - 1], run[|run| - 1];
      HandOffEverywhere(cfg, before);
      HandOffStep(cfg, Exec(cfg, before).d, Exec(cfg, before).submitted, e);
    }
  }

  lemma EmptySubsequence()
    ensures Subsequence<Bytes>([] + [], [])
  {
  }

  lemma HandOffStep(cfg: Config, d: Dialer, submitted: seq<Bytes>, e: Event)
    requires HandOff(cfg, d, submitted)
    ensures HandOff(cfg, After(cfg, d, e), submitted + Submits(cfg, d, e))
  {
    hide Encode, AfterTick, AfterSend, Subsequence;
    assert submitted + [] == submitted;
    match e
    case Submit(frame, r) => HandOffSend(cfg, d, submitted, Encode(frame), r);
    case Tick(now, fate) => HandOffTick(cfg, d, submitted, now, fate);
    case _ =>
  }

  /** Exactly once, in order, over any number of drops and reconnects. */
  lemma ExactlyOnceInOrder(cfg: Config, run: Run)
    requires cfg.bufferMax == 0
    ensures var w := Exec(cfg, run); w.d.wire + w.d.outbound == w.submitted
  {
    HandOffEverywhere(cfg, run);
  }

  // ---- heartbeats ---------------------------------------------------------

  /** A tick neither installs nor drops a transport except as these say. */
  lemma TickShape(cfg: Config, d: Dialer, now: int, f: Fate)
    ensures var e := AfterTick(cfg, d, now, f);
      if Drained(d).transport then
        if HeartbeatDrops(cfg, d, now) then e == Dropped(d)
        else if Beats(cfg, d, now) then e.transport && e.pings == d.pings + 1 && e.lastBeat == now && e.attempts == d.attempts
        else e == d
      else if Dials(d, now) && f.dialed then
        e.lastBeat == f.after && e.pings == 0 && e.attempts == 0 && e.backoff == 0 && e.nextAt == 0
      else if Dials(d, now) then e == AfterFailedDial(cfg, Drained(d), f.after)
      else e == Drained(d)
  {
    hide Encode, AfterFlush;
    if !Drained(d).transport && Dials(d, now) && f.dialed {
      FlushMoves(Installed(Drained(d), f.after), f.flush);
    }
  }

  /** Outstanding PINGs are spaced by whole intervals since the peer was last heard. */
  ghost predicate Spaced(cfg: Config, w: World) {
    && w.d.lastBeat <= w.clock && w.heard <= w.clock
    && 0 <= w.d.pings && (w.d.pings == 0 || (w.d.transport && w.d.pings <= cfg.maxMissed))
    && (w.d.pings > 0 ==> cfg.interval > 0 && w.d.lastBeat >= w.heard + (w.d.pings - 1) * cfg.interval)
  }

  lemma SpacedStep(cfg: Config, w: World, e: Event)
    requires Spaced(cfg, w) && Ordered(cfg, w, e)
    ensures Spaced(cfg, Step(cfg, w, e))
  {
    hide Encode, AfterTick, Submits;
    if e.Tick? {
      TickShape(cfg, w.d, e.now, e.fate);
      if Beats(cfg, w.d, e.now) && w.d.pings > 0 {
        assert w.d.pings * cfg.interval == (w.d.pings - 1) * cfg.interval + cfg.interval;
      }
    }
  }

  lemma {:induction false} SpacedEverywhere(cfg: Config, run: Run)
    requires Monotone(cfg, run)
    ensures Spaced(cfg, Exec(cfg, run))
  {
    if run != [] {
      hide Step;
      SpacedEverywhere(cfg, run[..|run| - 1]);
      SpacedStep(cfg, Exec(cfg, run[..|run| - 1]), run[|run| - 1]);
    }
  }

  /** The heartbeat never gives up a peer that was heard within the last
      `maxMissed` intervals, and at most `maxMissed` PINGs are ever outstanding. */
  lemma NeverDroppedEarly(cfg: Config, run: Run, now: int)
    requires Monotone(cfg, run) && Exec(cfg, run).clock <= now
    requires HeartbeatDrops(cfg, Exec(cfg, run).d, now)
    ensures now - Exec(cfg, run).heard >= cfg.maxMissed * cfg.interval
  {
    hide Exec, Monotone;
    SpacedEverywhere(cfg, run);
    var w := Exec(cfg, run);
    var m := cfg.maxMissed;
    if m >= 1 {
      assert w.d.pings == m && m * cfg.interval == (m - 1) * cfg.interval + cfg.interval;
    } else {
      assert m * cfg.interval <= 0;
    }
  }

  lemma PingsBounded(cfg: Config, run: Run)
    requires Monotone(cfg, run)
    ensures 0 <= Exec(cfg, run).d.pings && (Exec(cfg, run).d.pings <= cfg.maxMissed || Exec(cfg, run).d.pings == 0)
  {
    SpacedEverywhere(cfg, run);
  }

  /** With ticks at most `gap` apart, PINGs cannot be late either. */
  ghost predicate Prompt(cfg: Config, gap: nat, w: World) {
    w.d.transport ==>
      && w.d.lastBeat <= w.heard + w.d.pings * (cfg.interval + gap)
      && w.lastTick < w.d.lastBeat + cfg.interval
  }

  lemma PromptStep(cfg: Config, gap: nat, w: World, e: Event)
    requires cfg.interval > 0 && Spaced(cfg, w) && Prompt(cfg, gap, w) && Ordered(cfg, w, e)
    requires e.Tick? && w.d.transport ==> e.now <= w.lastTick + gap
    ensures Prompt(cfg, gap, Step(cfg, w, e))
  {
    hide Encode, AfterTick, Submits;
    if e.Tick? {
      TickShape(cfg, w.d, e.now, e.fate);
      if Beats(cfg, w.d, e.now) {
        var k, period := w.d.pings, cfg.interval + gap;
        assert (k + 1) * period == k * period + period;
      }
    }
  }

  lemma {:induction false} PromptEverywhere(cfg: Config, gap: nat, run: Run)
    requires cfg.interval > 0 && Monotone(cfg, run) && TicksWithin(cfg, gap, run)
    ensures Prompt(cfg, gap, Exec(cfg, run))
  {
    if run != [] {
      hide Step;
      SpacedEverywhere(cfg, run[..|run| - 1]);
      PromptEverywhere(cfg, gap, run[..|run| - 1]);
      PromptStep(cfg, gap, Exec(cfg, run[..|run| - 1]), run[|run| - 1]);
    }
  }

  /** A transport that survives a tick heard its peer less than
      `maxMissed * (interval + gap) + interval` ago; so up to the next tick, at most
      `gap` later, a transport never outlives its peer's last bytes by
      `(maxMissed + 1) * (interval + gap)`. */
  lemma SilentPeerDropped(cfg: Config, gap: nat, run: Run)
    requires cfg.interval > 0 && cfg.maxMissed >= 0
    requires Monotone(cfg, run) && TicksWithin(cfg, gap, run)
    ensures var w := Exec(cfg, run);
      w.d.transport ==>
        && w.lastTick - w.heard < cfg.maxMissed * (cfg.interval + gap) + cfg.interval
        && w.lastTick + gap - w.heard < (cfg.maxMissed + 1) * (cfg.interval + gap)
  {
    hide Exec, Monotone, TicksWithin;
    SpacedEverywhere(cfg, run);
    PromptEverywhere(cfg, gap, run);
    var w := Exec(cfg, run);
    if w.d.transport {
      MulMonotone(w.d.pings, cfg.maxMissed, cfg.interval + gap);
      var period := cfg.interval + gap;
      assert (cfg.maxMissed + 1) * period == cfg.maxMissed * period + period;
    }
  }

  lemma MulMonotone(a: int, b: int, c: nat)
    requires a <= b
    ensures a * c <= b * c
  {
  }

  // ---- backoff ------------------------------------------------------------

  function Pow2(k: nat): nat {
    if k == 0 then 1 else 2 * Pow2(k - 1)
  }

  function Min(a: int, b: int): int {
    if a < b then a else b
  }

  /** What the configuration promises after `k` failed dials in a row. */
  function PromisedBackoff(cfg: Config, k: nat): int {
    if k == 0 then 0 else Min(cfg.initialBackoff * Pow2(k - 1), cfg.maxBackoff)
  }

  lemma {:induction false} PowGrows(a: int, k: nat)
    ensures a > 0 ==> a * Pow2(k) >= a
    ensures a < 0 ==> a * Pow2(k) <= a
  {
    if k > 0 {
      PowGrows(a, k - 1);
      assert a * Pow2(k) == 2 * (a * Pow2(k - 1));
    }
  }

  lemma NextIsPromised(cfg: Config, k: nat)
    requires cfg.initialBackoff <= cfg.maxBackoff
    ensures NextBackoff(cfg, PromisedBackoff(cfg, k)) == PromisedBackoff(cfg, k + 1)
  {
    var a := cfg.initialBackoff;
    if k == 0 {
      assert Pow2(0) == 1;
    } else {
      var p := a * Pow2(k - 1);
      assert a * Pow2(k) == 2 * p;
      PowGrows(a, k - 1);
    }
  }

  ghost predicate BackoffOk(cfg: Config, d: Dialer) {
    d.backoff == PromisedBackoff(cfg, d.attempts) && (d.transport ==> d.attempts == 0)
  }

  lemma BackoffStep(cfg: Config, d: Dialer, e: Event)
    requires cfg.initialBackoff <= cfg.maxBackoff && BackoffOk(cfg, d)
    ensures BackoffOk(cfg, After(cfg, d, e))
  {
    hide Encode, AfterTick, NextBackoff;
    if e.Tick? {
      TickShape(cfg, d, e.now, e.fate);
      TickBackoff(cfg, d, e.now, e.fate);
      NextIsPromised(cfg, d.attempts);
    }
  }

  lemma TickBackoff(cfg: Config, d: Dialer, now: int, f: Fate)
    ensures var e := AfterTick(cfg, d, now, f);
      && (Drained(d).transport ==> e.attempts == d.attempts && (e.backoff == d.backoff || e.backoff == 0))
      && (!Drained(d).transport && !(Dials(d, now) && f.dialed) ==> !e.transport)
  {
    hide Encode, AfterFlush;
  }

  lemma {:induction false} BackoffEverywhere(cfg: Config, run: Run)
    requires cfg.initialBackoff <= cfg.maxBackoff
    ensures BackoffOk(cfg, Exec(cfg, run).d)
  {
    if run != [] {
      hide After, Submits, BackoffOk;
      BackoffEverywhere(cfg, run[..|run| - 1]);
      BackoffStep(cfg, Exec(cfg, run[..|run| - 1]).d, run[|run| - 1]);
    } else {
      assert Exec(cfg, run).d == START;
    }
  }

  /** The promised backoff is kept in every reachable state exactly when the initial
      backoff does not exceed the cap: the first one is not capped. */
  lemma BackoffAsPromisedIff(cfg: Config)
    ensures (forall run: Run :: Exec(cfg, run).d.backoff == PromisedBackoff(cfg, Exec(cfg, run).d.attempts))
      <==> cfg.initialBackoff <= cfg.maxBackoff
  {
    hide Exec;
    if cfg.initialBackoff <= cfg.maxBackoff {
      forall run: Run
        ensures Exec(cfg, run).d.backoff == PromisedBackoff(cfg, Exec(cfg, run).d.attempts)
      {
        BackoffEverywhere(cfg, run);
      }
    } else {
      FirstFailure(cfg);
    }
  }

  /** One failed dial of a fresh dialer. */
  function OneFailure(): Run {
    [Tick(0, Fate(0, false, [], SendResult(false, false), SendResult(false, false)))]
  }

  lemma FirstFailure(cfg: Config)
    ensures var d := Exec(cfg, OneFailure()).d; d.attempts == 1 && d.backoff == cfg.initialBackoff
    ensures PromisedBackoff(cfg, 1) == Min(cfg.initialBackoff, cfg.maxBackoff)
  {
    var run := OneFailure();
    assert run[..0] == [];
    assert Exec(cfg, run) == Step(cfg, Exec(cfg, []), run[0]);
    assert Pow2(0) == 1;
  }

  /** The waits prescribed after the first `k` failures of an outage. */
  function TotalBackoff(cfg: Config, k: nat): int {
    if k == 0 then 0 else TotalBackoff(cfg, k - 1) + PromisedBackoff(cfg, k)
  }

  ghost predicate Paced(cfg: Config, w: World) {
    && (w.d.transport ==> w.d.attempts == 0)
    && (w.d.attempts > 0 ==> w.d.nextAt >= w.firstDial + TotalBackoff(cfg, w.d.attempts))
  }

  lemma PacedStep(cfg: Config, w: World, e: Event)
    requires cfg.initialBackoff <= cfg.maxBackoff && BackoffOk(cfg, w.d) && Paced(cfg, w) && Ordered(cfg, w, e)
    ensures Paced(cfg, Step(cfg, w, e))
  {
    assert PromisedBackoff(cfg, 0) == 0;
    hide Encode, AfterTick, NextBackoff, Submits, PromisedBackoff;
    if e.Tick? {
      TickShape(cfg, w.d, e.now, e.fate);
      TickBackoff(cfg, w.d, e.now, e.fate);
      NextIsPromised(cfg, w.d.attempts);
      var k := w.d.attempts;
      assert Drained(w.d).backoff == PromisedBackoff(cfg, k);
      assert TotalBackoff(cfg, k + 1) == TotalBackoff(cfg, k) + PromisedBackoff(cfg, k + 1);
      if Dials(w.d, e.now) && !e.fate.dialed && !Drained(w.d).transport {
        assert Step(cfg, w, e).d.nextAt == e.fate.after + PromisedBackoff(cfg, k + 1);
      }
    }
  }

  lemma {:induction false} PacedEverywhere(cfg: Config, run: Run)
    requires cfg.initialBackoff <= cfg.maxBackoff && Monotone(cfg, run)
    ensures Paced(cfg, Exec(cfg, run))
  {
    if run != [] {
      hide Step;
      PacedEverywhere(cfg, run[..|run| - 1]);
      BackoffEverywhere(cfg, run[..|run| - 1]);
      PacedStep(cfg, Exec(cfg, run[..|run| - 1]), run[|run| - 1]);
    }
  }

  /** The (k+1)-th dial of an outage starts no earlier than the first one failed plus
      the waits prescribed after each of the first k failures. */
  lemma DialsArePaced(cfg: Config, run: Run, now: int)
    requires cfg.initialBackoff <= cfg.maxBackoff && Monotone(cfg, run)
    requires Dials(Exec(cfg, run).d, now) && Exec(cfg, run).d.attempts > 0
    ensures now >= Exec(cfg, run).firstDial + TotalBackoff(cfg, Exec(cfg, run).d.attempts)
  {
    hide Exec, Monotone, TotalBackoff;
    PacedEverywhere(cfg, run);
  }

  // ---- when the next dial comes -------------------------------------------

  /** With failures behind it the next dial is due the promised backoff after the last of
      them, to the second; with none it is due at once. */
  ghost predicate Due(cfg: Config, w: World) {
    && (w.d.attempts > 0 ==> w.d.nextAt == w.lastFail + PromisedBackoff(cfg, w.d.attempts))
    && (w.d.attempts == 0 ==> w.d.nextAt == 0)
    && (w.d.transport ==> w.d.attempts == 0)
  }

  lemma DueStep(cfg: Config, w: World, e: Event)
    requires cfg.initialBackoff <= cfg.maxBackoff && BackoffOk(cfg, w.d) && Due(cfg, w)
    ensures Due(cfg, Step(cfg, w, e))
  {
    assert PromisedBackoff(cfg, 0) == 0;
    hide Encode, AfterTick, NextBackoff, Submits, PromisedBackoff;
    if e.Tick? {
      TickShape(cfg, w.d, e.now, e.fate);
      TickBackoff(cfg, w.d, e.now, e.fate);
      TickNextAt(cfg, w.d, e.now, e.fate);
      NextIsPromised(cfg, w.d.attempts);
    }
  }

  lemma TickNextAt(cfg: Config, d: Dialer, now: int, f: Fate)
    requires d.transport ==> d.nextAt == 0
    ensures var e := AfterTick(cfg, d, now, f);
      && (Drained(d).transport ==> e.nextAt == 0)
      && (!Drained(d).transport && Dials(d, now) && !f.dialed ==> e.nextAt == f.after + NextBackoff(cfg, Drained(d).backoff))
      && (!Drained(d).transport && !Dials(d, now) ==> e.nextAt == Drained(d).nextAt)
  {
    hide Encode, AfterFlush;
  }

  lemma {:induction false} DueEverywhere(cfg: Config, run: Run)
    requires cfg.initialBackoff <= cfg.maxBackoff
    ensures Due(cfg, Exec(cfg, run))
  {
    if run != [] {
      hide Step;
      DueEverywhere(cfg, run[..|run| - 1]);
      BackoffEverywhere(cfg, run[..|run| - 1]);
      DueStep(cfg, Exec(cfg, run[..|run| - 1]), run[|run| - 1]);
    }
  }

  /** A tick without a transport dials exactly when the promised backoff has passed since
      the last failure. */
  lemma DialsExactly(cfg: Config, run: Run, now: int)
    requires cfg.initialBackoff <= cfg.maxBackoff
    requires !Exec(cfg, run).d.transport && !Exec(cfg, run).d.pending && Exec(cfg, run).d.attempts > 0
    ensures var w := Exec(cfg, run);
      Dials(w.d, now) <==> now >= w.lastFail + PromisedBackoff(cfg, w.d.attempts)
  {
    hide Exec, PromisedBackoff;
    DueEverywhere(cfg, run);
  }

  /** No tick so far that should have dialed was let pass. */
  ghost predicate NotLate(cfg: Config, w: World) {
    w.d.attempts > 0 ==> w.lastTick <= w.lastFail || w.lastTick < w.lastFail + PromisedBackoff(cfg, w.d.attempts)
  }

  lemma NotLateStep(cfg: Config, w: World, e: Event)
    requires cfg.initialBackoff <= cfg.maxBackoff && Due(cfg, w) && NotLate(cfg, w) && Ordered(cfg, w, e)
    ensures NotLate(cfg, Step(cfg, w, e))
  {
    hide Encode, AfterTick, NextBackoff, Submits, PromisedBackoff;
    if e.Tick? {
      TickShape(cfg, w.d, e.now, e.fate);
      TickBackoff(cfg, w.d, e.now, e.fate);
    }
  }

  lemma {:induction false} NotLateEverywhere(cfg: Config, run: Run)
    requires cfg.initialBackoff <= cfg.maxBackoff && Monotone(cfg, run)
    ensures NotLate(cfg, Exec(cfg, run))
  {
    if run != [] {
      hide Step;
      NotLateEverywhere(cfg, run[..|run| - 1]);
      DueEverywhere(cfg, run[..|run| - 1]);
      NotLateStep(cfg, Exec(cfg, run[..|run| - 1]), run[|run| - 1]);
    }
  }

  /** If the next tick comes at most `gap` after the last one and dials, it does so within
      the promised backoff plus `gap` of the last failure. */
  lemma DialsWithin(cfg: Config, gap: nat, run: Run, now: int)
    requires 0 <= cfg.initialBackoff <= cfg.maxBackoff && Monotone(cfg, run)
    requires Exec(cfg, run).d.attempts > 0 && now <= Exec(cfg, run).lastTick + gap
    ensures var w := Exec(cfg, run); now <= w.lastFail + PromisedBackoff(cfg, w.d.attempts) + gap
  {
    hide Exec, Monotone, PromisedBackoff;
    PromisedNotNegative(cfg, Exec(cfg, run).d.attempts);
    NotLateEverywhere(cfg, run);
  }

  lemma PromisedNotNegative(cfg: Config, k: nat)
    requires 0 <= cfg.initialBackoff <= cfg.maxBackoff
    ensures PromisedBackoff(cfg, k) >= 0
  {
    if k > 0 {
      PowGrows(cfg.initialBackoff, k - 1);
    }
  }

  // ---- the demultiplexer's way back ---------------------------------------

  lemma SinkStep(cfg: Config, d: Dialer, e: Event)
    requires d.transport ==> d.sink
    ensures After(cfg, d, e).transport ==> After(cfg, d, e).sink
  {
    hide Encode, AfterFlush;
  }

  // ---- where the documentation says otherwise -----------------------------

  /** A PING that is due goes out although bytes came in just before: the interval counts
      from the last PING, not from the last inbound bytes. */
  lemma PingDespiteTraffic(cfg: Config, d: Dialer, at: int, now: int, f: Fate)
    requires d.transport && !d.pending && BeatDue(cfg, d, now) && cfg.maxMissed > 0
    ensures Submits(cfg, After(cfg, d, BytesIn(at, true)), Tick(now, f)) == [Encode(PingFrame())]
  {
  }

  /** The on-connected hook runs although the flush has just lost the transport: the
      demultiplexer is armed without one, and the hello waits behind the other frames. */
  lemma HookAfterLostFlush(cfg: Config, d: Dialer, now: int, f: Fate)
    requires Dials(d, now) && f.dialed && d.outbound != [] && f.flush == []
    ensures var e := AfterTick(cfg, d, now, f);
      && !e.transport && e.sink && Submits(cfg, d, Tick(now, f)) == [Encode(HelloFrame(cfg))]
      && (cfg.bufferMax == 0 ==> e.outbound == d.outbound + [Encode(HelloFrame(cfg))])
  {
    hide Encode;
  }
}
