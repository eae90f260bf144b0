/** Dialer and demultiplexer as one system: what the demultiplexer sends is submitted to
    the dialer, every drop of the dialer cuts the demultiplexer off, and the on-connected
    hook re-arms it. */
module TunnelRuns {
  import opened SipFrame
  import opened DemuxSpec
  import opened TunnelDialer
  import opened StreamHistory
  import ConnectorRuns

  datatype World = World(net: ConnectorRuns.World, x: Far)

  const START := World(ConnectorRuns.World(TunnelDialer.START, [], 0, 0, 0, 0, 0), Far(Outside({}, true, []), []))

  /** `results` are the transport's answers to the frames sent on the way. */
  datatype Event =
    | FromCloud(at: int, bytes: Bytes, fates: seq<DemuxSpec.Fate>, results: seq<SendResult>)
    | FromAsterisk(id: uint32, released: bool, frames: seq<Input>, results: seq<SendResult>)
    | Eof(id: uint32, reason: string, results: seq<SendResult>)
    | Elsewhere(e: ConnectorRuns.Event)

  /** Inbound bytes come with their content. */
  predicate Enabled(e: Event) {
    e.Elsewhere? ==> !e.e.BytesIn?
  }

  function FarStep(cfg: Config, w: World, e: Event): Far {
    match e
    case FromCloud(_, bytes, fates, _) => FarAfterReceive(w.x, bytes, fates)
    case FromAsterisk(id, released, frames, _) => w.x.(v := AfterInputs(w.x.v, id, released, frames))
    case Eof(id, reason, _) => w.x.(v := AfterEof(w.x.v, id, reason))
    case Elsewhere(e) => if e.Tick? then FarAfterTick(cfg, w.net.d, w.x, e.now, e.fate) else w.x
  }

  function Submissions(frames: seq<Frame>, results: seq<SendResult>): seq<ConnectorRuns.Event> {
    seq(|frames|, i requires 0 <= i < |frames| => ConnectorRuns.Submit(frames[i], ResultAt(results, i)))
  }

  /** The frames the demultiplexer sends in this step. */
  function NewFrames(cfg: Config, w: World, e: Event): seq<Frame> {
    SentStays(cfg, w, e);
    Emitted(w.x.v, FarStep(cfg, w, e).v)
  }

  /** What the dialer is asked to do in this step. */
  function Calls(cfg: Config, w: World, e: Event): seq<ConnectorRuns.Event> {
    match e
    case FromCloud(at, bytes, _, results) =>
      Submissions(NewFrames(cfg, w, e), results) + [ConnectorRuns.BytesIn(at, Parse(w.x.recv + bytes).ok)]
    case FromAsterisk(_, _, _, results) => Submissions(NewFrames(cfg, w, e), results)
    case Eof(_, _, results) => Submissions(NewFrames(cfg, w, e), results)
    case Elsewhere(e) => [e]
  }

  function StepAll(cfg: Config, net: ConnectorRuns.World, calls: seq<ConnectorRuns.Event>): ConnectorRuns.World {
    if calls == [] then net
    else ConnectorRuns.Step(cfg, StepAll(cfg, net, calls[..|calls| - 1]), calls[|calls| - 1])
  }

  function Step(cfg: Config, w: World, e: Event): World {
    World(StepAll(cfg, w.net, Calls(cfg, w, e)), FarStep(cfg, w, e))
  }

  type Run = seq<Event>

  predicate Legal(run: Run) {
    forall i :: 0 <= i < |run| ==> Enabled(run[i])
  }

  function Exec(cfg: Config, run: Run): World {
    if run == [] then START else Step(cfg, Exec(cfg, run[..|run| - 1]), run[|run| - 1])
  }

  // ---- the demultiplexer's side of a step ---------------------------------

  lemma {:induction false} SentGrowsByInputs(v: Outside, id: uint32, released: bool, frames: seq<Input>)
    ensures v.sent <= AfterInputs(v, id, released, frames).sent
    ensures AfterInputs(v, id, released, frames).tunnel == v.tunnel
    decreases |frames|
  {
    if frames != [] {
      match frames[0]
      case Payload(bytes) => SentGrowsByInputs(AfterReply(v, id, bytes), id, released, frames[1..]);
      case Control => SentGrowsByInputs(v, id, released, frames[1..]);
      case _ =>
    }
  }

  lemma TickKeepsSent(cfg: Config, d: Dialer, x: Far, now: int, f: TunnelDialer.Fate)
    ensures FarAfterTick(cfg, d, x, now, f).v.sent == x.v.sent
  {
    hide AfterFlush;
  }

  lemma SentStays(cfg: Config, w: World, e: Event)
    ensures w.x.v.sent <= FarStep(cfg, w, e).v.sent
  {
    hide Parse, AfterFrames, AfterInputs, FarAfterTick, Ascii;
    match e
    case FromCloud(_, bytes, fates, _) => SentGrows(w.x.v, Parse(w.x.recv + bytes).frames, fates);
    case FromAsterisk(id, released, frames, _) => SentGrowsByInputs(w.x.v, id, released, frames);
    case Elsewhere(c) => if c.Tick? { TickKeepsSent(cfg, w.net.d, w.x, c.now, c.fate); }
    case _ =>
  }

  /** The dialer's idea of the tunnel and the demultiplexer's change together. */
  lemma TickKeepsAgreement(cfg: Config, d: Dialer, x: Far, now: int, f: TunnelDialer.Fate)
    requires x.v.tunnel == d.sink
    ensures FarAfterTick(cfg, d, x, now, f).v.tunnel == AfterTick(cfg, d, now, f).sink
  {
    hide Encode, AfterFlush;
    var e := Drained(d);
    if !e.transport && now >= e.nextAt && f.dialed {
      ConnectorRuns.FlushMoves(Installed(e, f.after), f.flush);
    }
  }

  // ---- the dialer's side --------------------------------------------------

  lemma SubmissionsSnoc(frames: seq<Frame>, results: seq<SendResult>)
    requires frames != []
    ensures var n := |frames| - 1;
      Submissions(frames, results) == Submissions(frames[..n], results) + [ConnectorRuns.Submit(frames[n], ResultAt(results, n))]
  {
  }

  lemma StepAllSnoc(cfg: Config, net: ConnectorRuns.World, calls: seq<ConnectorRuns.Event>, c: ConnectorRuns.Event)
    ensures StepAll(cfg, net, calls + [c]) == ConnectorRuns.Step(cfg, StepAll(cfg, net, calls), c)
  {
    hide ConnectorRuns.Step;
    assert (calls + [c])[..|calls|] == calls;
  }

  lemma SubmitStep(cfg: Config, net: ConnectorRuns.World, f: Frame, r: SendResult)
    requires ConnectorRuns.HandOff(cfg, net.d, net.submitted)
    ensures var m := ConnectorRuns.Step(cfg, net, ConnectorRuns.Submit(f, r));
      && m.submitted == net.submitted + [Encode(f)] && m.d == AfterSend(cfg, net.d, Encode(f), r)
      && m.d.sink == net.d.sink && m.d.transport == net.d.transport
      && ConnectorRuns.HandOff(cfg, m.d, m.submitted)
  {
    hide Encode, ConnectorRuns.HandOff;
    ConnectorRuns.HandOffStep(cfg, net.d, net.submitted, ConnectorRuns.Submit(f, r));
  }

  /** Submitting frames one after the other. */
  lemma {:induction false} SubmitAll(cfg: Config, net: ConnectorRuns.World, frames: seq<Frame>, results: seq<SendResult>)
    requires ConnectorRuns.HandOff(cfg, net.d, net.submitted)
    ensures var m := StepAll(cfg, net, Submissions(frames, results));
      && m.submitted == net.submitted + ConnectorRuns.Encoded(frames) && m.d == AfterSends(cfg, net.d, frames, results)
      && m.d.sink == net.d.sink && m.d.transport == net.d.transport
      && ConnectorRuns.HandOff(cfg, m.d, m.submitted)
    decreases |frames|
  {
    hide ConnectorRuns.Step, ConnectorRuns.HandOff, AfterSend, Encode;
    if frames != [] {
      var n := |frames| - 1;
      SubmitAll(cfg, net, frames[..n], results);
      SubmissionsSnoc(frames, results);
      StepAllSnoc(cfg, net, Submissions(frames[..n], results), ConnectorRuns.Submit(frames[n], ResultAt(results, n)));
      SubmitStep(cfg, StepAll(cfg, net, Submissions(frames[..n], results)), frames[n], ResultAt(results, n));
      assert ConnectorRuns.Encoded(frames) == ConnectorRuns.Encoded(frames[..n]) + [Encode(frames[n])];
    } else {
      assert Submissions(frames, results) == [] && net.submitted + ConnectorRuns.Encoded(frames) == net.submitted;
    }
  }

  lemma {:induction false} SubsequenceTogether(a: seq<Bytes>, b: seq<Bytes>, more: seq<Bytes>)
    requires ConnectorRuns.Subsequence(a, b)
    ensures ConnectorRuns.Subsequence(a + more, b + more)
  {
    hide ConnectorRuns.Subsequence;
    if more == [] {
      assert a + more == a && b + more == b;
    } else {
      var n := |more| - 1;
      SubsequenceTogether(a, b, more[..n]);
      ConnectorRuns.SubsequenceSnoc(a + more[..n], b + more[..n], more[n]);
      assert a + more == a + more[..n] + [more[n]] && b + more == b + more[..n] + [more[n]];
    }
  }

  // ---- what every run keeps -----------------------------------------------

  /** The two components agree on the tunnel, which is there while a transport is; what
      the demultiplexer sent was submitted in that order; and nothing submitted is lost. */
  ghost predicate Joined(cfg: Config, w: World) {
    && w.x.v.tunnel == w.net.d.sink
    && (w.net.d.transport ==> w.net.d.sink)
    && ConnectorRuns.Subsequence(ConnectorRuns.Encoded(w.x.v.sent), w.net.submitted)
    && ConnectorRuns.HandOff(cfg, w.net.d, w.net.submitted)
  }

  lemma EncodedMore(a: seq<Frame>, b: seq<Frame>)
    requires a <= b
    ensures ConnectorRuns.Encoded(b) == ConnectorRuns.Encoded(a) + ConnectorRuns.Encoded(b[|a|..])
  {
    hide Encode;
  }

  /** Frames sent by the demultiplexer on the way from `v` to `u` are submitted. */
  lemma EmitStep(cfg: Config, net: ConnectorRuns.World, v: Outside, u: Outside, results: seq<SendResult>)
    requires v.sent <= u.sent && u.tunnel == v.tunnel && Joined(cfg, World(net, Far(v, [])))
    ensures Joined(cfg, World(StepAll(cfg, net, Submissions(Emitted(v, u), results)), Far(u, [])))
  {
    hide ConnectorRuns.Subsequence, ConnectorRuns.HandOff, ConnectorRuns.Encoded, StepAll, AfterSends;
    var frames := Emitted(v, u);
    SubmitAll(cfg, net, frames, results);
    EncodedMore(v.sent, u.sent);
    SubsequenceTogether(ConnectorRuns.Encoded(v.sent), net.submitted, ConnectorRuns.Encoded(frames));
  }

  lemma KeepsTunnel(cfg: Config, w: World, e: Event)
    requires !e.Elsewhere?
    ensures FarStep(cfg, w, e).v.tunnel == w.x.v.tunnel
  {
    hide Parse, AfterFrames, AfterInputs, Ascii;
    match e
    case FromCloud(_, bytes, fates, _) => FramesKeepTunnel(w.x.v, Parse(w.x.recv + bytes).frames, fates);
    case FromAsterisk(id, released, frames, _) => SentGrowsByInputs(w.x.v, id, released, frames);
    case _ =>
  }

  lemma JoinedBytesIn(cfg: Config, net: ConnectorRuns.World, x: Far, at: int, ok: bool)
    requires Joined(cfg, World(net, x))
    ensures Joined(cfg, World(ConnectorRuns.Step(cfg, net, ConnectorRuns.BytesIn(at, ok)), x))
  {
    hide ConnectorRuns.Subsequence, ConnectorRuns.HandOff, ConnectorRuns.Encoded;
    ConnectorRuns.HandOffStep(cfg, net.d, net.submitted, ConnectorRuns.BytesIn(at, ok));
    assert net.submitted + [] == net.submitted;
  }

  lemma JoinedElsewhere(cfg: Config, w: World, c: ConnectorRuns.Event)
    requires Joined(cfg, w) && !c.BytesIn?
    ensures Joined(cfg, World(ConnectorRuns.Step(cfg, w.net, c), FarStep(cfg, w, Elsewhere(c))))
  {
    hide ConnectorRuns.Subsequence, ConnectorRuns.HandOff, ConnectorRuns.Encoded, ConnectorRuns.Submits, AfterTick, FarAfterTick, Encode;
    ConnectorRuns.HandOffStep(cfg, w.net.d, w.net.submitted, c);
    ConnectorRuns.SinkStep(cfg, w.net.d, c);
    var more := ConnectorRuns.Submits(cfg, w.net.d, c);
    ConnectorRuns.SubsequenceAppend(ConnectorRuns.Encoded(w.x.v.sent), w.net.submitted, more);
    if c.Tick? {
      TickKeepsSent(cfg, w.net.d, w.x, c.now, c.fate);
      TickKeepsAgreement(cfg, w.net.d, w.x, c.now, c.fate);
    }
  }

  lemma JoinedStep(cfg: Config, w: World, e: Event)
    requires Joined(cfg, w) && Enabled(e)
    ensures Joined(cfg, Step(cfg, w, e))
  {
    if e.Elsewhere? {
      JoinedElsewhere(cfg, w, e.e);
      OneCall(cfg, w.net, e.e);
    } else {
      SentStays(cfg, w, e);
      KeepsTunnel(cfg, w, e);
      var y := FarStep(cfg, w, e);
      JoinedSame(cfg, w.net, w.x, Far(w.x.v, []));
      EmitStep(cfg, w.net, w.x.v, y.v, e.results);
      var submissions := Submissions(NewFrames(cfg, w, e), e.results);
      var net := StepAll(cfg, w.net, submissions);
      JoinedSame(cfg, net, Far(y.v, []), y);
      hide Joined, StepAll, FarStep, Submissions, NewFrames;
      if e.FromCloud? {
        var last := ConnectorRuns.BytesIn(e.at, Parse(w.x.recv + e.bytes).ok);
        JoinedBytesIn(cfg, net, y, last.at, last.accepted);
        StepAllSnoc(cfg, w.net, submissions, last);
      }
    }
  }

  lemma JoinedSame(cfg: Config, net: ConnectorRuns.World, x: Far, y: Far)
    requires Joined(cfg, World(net, x)) && y.v == x.v
    ensures Joined(cfg, World(net, y))
  {
  }

  lemma OneCall(cfg: Config, net: ConnectorRuns.World, c: ConnectorRuns.Event)
    ensures StepAll(cfg, net, [c]) == ConnectorRuns.Step(cfg, net, c)
  {
    hide ConnectorRuns.Step;
    assert StepAll(cfg, net, [c][..0]) == net;
  }

  lemma JoinedStart(cfg: Config)
    ensures Joined(cfg, START)
  {
    assert ConnectorRuns.Encoded([]) == [];
    ConnectorRuns.EmptySubsequence();
    assert TunnelDialer.START.wire + TunnelDialer.START.outbound == [];
  }

  /** Over every run of the composed system. */
  lemma {:induction false} JoinedEverywhere(cfg: Config, run: Run)
    requires Legal(run)
    ensures Joined(cfg, Exec(cfg, run))
  {
    hide Joined, Step, Enabled;
    if run == [] {
      JoinedStart(cfg);
    } else {
      JoinedEverywhere(cfg, run[..|run| - 1]);
      JoinedStep(cfg, Exec(cfg, run[..|run| - 1]), run[|run| - 1]);
    }
  }

  /** While the dialer has a transport, what Asterisk sends on an open stream is submitted
      to the dialer: no reply is silently dropped. */
  lemma RepliesAreNotDropped(cfg: Config, run: Run, id: uint32, bytes: Bytes, r: SendResult)
    requires Legal(run) && Exec(cfg, run).net.d.transport && id in Exec(cfg, run).x.v.open
    ensures var w := Exec(cfg, run);
      Step(cfg, w, FromAsterisk(id, false, [Payload(bytes)], [r])).net.submitted ==
      w.net.submitted + [Encode(Frame(DATA, id, bytes))]
  {
    hide Exec, Legal, Encode, ConnectorRuns.HandOff, ConnectorRuns.Subsequence;
    JoinedEverywhere(cfg, run);
    var w, e := Exec(cfg, run), FromAsterisk(id, false, [Payload(bytes)], [r]);
    assert AfterInputs(w.x.v, id, false, e.frames) == AfterReply(w.x.v, id, bytes) by {
      assert e.frames[1..] == [];
    }
    hide AfterInputs;
    var f := Frame(DATA, id, bytes);
    assert NewFrames(cfg, w, e) == [f];
    SubmitAll(cfg, w.net, [f], [r]);
    assert ConnectorRuns.Encoded([f]) == [Encode(f)];
  }

  /** With an unbounded buffer, what the demultiplexer sent has been taken by transports or
      waits for the next one, in the order it was sent. */
  lemma SentInOrder(cfg: Config, run: Run)
    requires Legal(run) && cfg.bufferMax == 0
    ensures var w := Exec(cfg, run);
      ConnectorRuns.Subsequence(ConnectorRuns.Encoded(w.x.v.sent), w.net.d.wire + w.net.d.outbound)
  {
    hide Exec, Legal, ConnectorRuns.Subsequence, ConnectorRuns.Encoded;
    JoinedEverywhere(cfg, run);
  }

  // ---- what the cloud is told ---------------------------------------------

  /** What this step makes the demultiplexer send up. A dropped tunnel says nothing: there
      is nobody to tell. */
  function SaidBy(w: World, e: Event): seq<Frame> {
    match e
    case FromCloud(_, bytes, fates, _) => SaidByFrames(w.x.v, Parse(w.x.recv + bytes).frames, fates)
    case FromAsterisk(id, released, frames, _) => SaidByInputs(w.x.v, id, released, frames)
    case Eof(id, reason, _) => SaidByEof(w.x.v, id, reason)
    case Elsewhere(_) => []
  }

  function Said(cfg: Config, run: Run): seq<Frame> {
    if run == [] then []
    else Said(cfg, run[..|run| - 1]) + SaidBy(Exec(cfg, run[..|run| - 1]), run[|run| - 1])
  }

  lemma ToldStep(cfg: Config, w: World, e: Event)
    ensures FarStep(cfg, w, e).v.sent == w.x.v.sent + SaidBy(w, e)
  {
    hide Parse, AfterFrames, AfterInputs, AfterEof, FarAfterTick, SaidByFrames, SaidByInputs, SaidByEof;
    match e
    case FromCloud(_, bytes, fates, _) => FramesTold(w.x.v, Parse(w.x.recv + bytes).frames, fates);
    case FromAsterisk(id, released, frames, _) => InputsTold(w.x.v, id, released, frames);
    case Eof(id, reason, _) => EofTold(w.x.v, id, reason);
    case Elsewhere(c) => if c.Tick? { TickKeepsSent(cfg, w.net.d, w.x, c.now, c.fate); }
  }

  /** Over every run of the whole the cloud is told exactly this, in this order: a CLOSE
      with its reason for every failed dial, failed write or end on the Asterisk side, a
      PONG for every PING, and every payload of an open stream. */
  lemma {:induction false} CloudIsTold(cfg: Config, run: Run)
    ensures Exec(cfg, run).x.v.sent == Said(cfg, run)
  {
    if run != [] {
      hide SaidBy, FarStep, StepAll, Calls;
      CloudIsTold(cfg, run[..|run| - 1]);
      ToldStep(cfg, Exec(cfg, run[..|run| - 1]), run[|run| - 1]);
    }
  }

  // ---- which streams are open ---------------------------------------------

  /** What this step does to the streams and the tunnel. A tick cuts the demultiplexer off
      when it gives up a transport: one in trouble, one whose peer is silent, or a new one
      that the flush lost; and a dial that works ends in re-arming it. */
  function NotesOf(cfg: Config, w: World, e: Event): seq<Note> {
    match e
    case FromCloud(_, bytes, fates, _) => NotesOfFrames(Parse(w.x.recv + bytes).frames, fates)
    case FromAsterisk(id, released, frames, _) => if EndsIt(released, frames) then [Ended(id)] else []
    case Eof(id, _, _) => [Ended(id)]
    case Elsewhere(c) => if c.Tick? then NotesOfTick(cfg, w.net.d, c.now, c.fate) else []
  }

  function NotesOfTick(cfg: Config, d: Dialer, now: int, f: TunnelDialer.Fate): seq<Note> {
    (if d.pending && d.transport then [StreamHistory.Cut] else []) +
    if d.transport && !d.pending then
      if cfg.interval > 0 && now - d.lastBeat >= cfg.interval && d.pings >= cfg.maxMissed then [StreamHistory.Cut] else []
    else if (!d.transport && now < d.nextAt) || (d.transport && now < 0) || !f.dialed then []
    else (if FlushRefused(d.outbound, f.flush) then [StreamHistory.Cut] else []) + [StreamHistory.Armed]
  }

  /** Some frame of the buffer is refused by the new transport. */
  predicate FlushRefused(outbound: seq<Bytes>, results: seq<SendResult>) {
    exists i: nat :: i < |outbound| && RefusedAt(results, i)
  }

  predicate RefusedAt(results: seq<SendResult>, i: nat) {
    i >= |results| || !results[i].ok
  }

  lemma {:induction false} FlushRefusedIff(d: Dialer, results: seq<SendResult>)
    requires d.transport
    ensures AfterFlush(d, results).transport <==> !FlushRefused(d.outbound, results)
    decreases |d.outbound|
  {
    if d.outbound != [] {
      if results == [] || !results[0].ok {
        assert RefusedAt(results, 0);
      } else {
        var next := d.(outbound := d.outbound[1..], wire := d.wire + [d.outbound[0]], pending := d.pending || results[0].lost);
        FlushRefusedIff(next, results[1..]);
        RefusedLater(d.outbound, results);
      }
    }
  }

  lemma RefusedLater(outbound: seq<Bytes>, results: seq<SendResult>)
    requires outbound != [] && results != [] && results[0].ok
    ensures FlushRefused(outbound, results) <==> FlushRefused(outbound[1..], results[1..])
  {
    if i: nat :| i < |outbound| && RefusedAt(results, i) {
      assert i > 0;
      assert RefusedAt(results[1..], i - 1);
    }
    if i: nat :| i < |outbound[1..]| && RefusedAt(results[1..], i) {
      assert RefusedAt(results, i + 1);
    }
  }

  lemma AgreesCut(x: Far, notes: seq<Note>)
    requires Agrees(x.v, notes)
    ensures Agrees(TunnelDialer.Cut(x).v, notes + [StreamHistory.Cut])
  {
    hide IsOpen, HasTunnel;
    AgreesMore(x.v, TunnelDialer.Cut(x).v, notes, StreamHistory.Cut);
  }

  lemma AgreesArmed(x: Far, notes: seq<Note>)
    requires Agrees(x.v, notes)
    ensures Agrees(Rearmed(x).v, notes + [StreamHistory.Armed])
  {
    hide IsOpen, HasTunnel;
    AgreesMore(x.v, Rearmed(x).v, notes, StreamHistory.Armed);
  }

  lemma AgreesDial(d: Dialer, x: Far, notes: seq<Note>, f: TunnelDialer.Fate)
    requires Agrees(x.v, notes) && f.dialed
    ensures Agrees(FarAfterDial(d, x, f).v,
                   notes + ((if FlushRefused(d.outbound, f.flush) then [StreamHistory.Cut] else []) + [StreamHistory.Armed]))
  {
    hide Agrees, AfterFlush, FlushRefused;
    var lost := FlushRefused(d.outbound, f.flush);
    FlushRefusedIff(Installed(d, f.after), f.flush);
    if lost {
      AgreesCut(x, notes);
      AgreesArmed(TunnelDialer.Cut(x), notes + [StreamHistory.Cut]);
      assert notes + ([StreamHistory.Cut] + [StreamHistory.Armed]) == notes + [StreamHistory.Cut] + [StreamHistory.Armed];
    } else {
      AgreesArmed(x, notes);
      assert notes + ([] + [StreamHistory.Armed]) == notes + [StreamHistory.Armed];
    }
  }

  lemma AgreesTick(cfg: Config, d: Dialer, x: Far, notes: seq<Note>, now: int, f: TunnelDialer.Fate)
    requires Agrees(x.v, notes)
    ensures Agrees(FarAfterTick(cfg, d, x, now, f).v, notes + NotesOfTick(cfg, d, now, f))
  {
    hide Agrees, AfterFlush, FlushRefused, FarAfterDial;
    var first: seq<Note> := if d.pending && d.transport then [StreamHistory.Cut] else [];
    var y := if d.pending && d.transport then TunnelDialer.Cut(x) else x;
    assert notes + [] == notes;
    if d.pending && d.transport { AgreesCut(x, notes); }
    assert Agrees(y.v, notes + first);
    var e := Drained(d);
    var rest := if e.transport then (if BeatDue(cfg, e, now) && e.pings >= cfg.maxMissed then [StreamHistory.Cut] else [])
      else if now < e.nextAt || !f.dialed then []
      else (if FlushRefused(e.outbound, f.flush) then [StreamHistory.Cut] else []) + [StreamHistory.Armed];
    assert NotesOfTick(cfg, d, now, f) == first + rest;
    assert notes + (first + rest) == notes + first + rest && notes + first + [] == notes + first;
    if e.transport {
      if BeatDue(cfg, e, now) && e.pings >= cfg.maxMissed { AgreesCut(y, notes + first); }
    } else if now >= e.nextAt {
      if f.dialed { AgreesDial(e, y, notes + first, f); } else { NoDial(e, y, f); }
    }
  }

  lemma NoDial(d: Dialer, x: Far, f: TunnelDialer.Fate)
    requires !f.dialed
    ensures FarAfterDial(d, x, f) == x
  {
  }

  function Notes(cfg: Config, run: Run): seq<Note> {
    if run == [] then []
    else Notes(cfg, run[..|run| - 1]) + NotesOf(cfg, Exec(cfg, run[..|run| - 1]), run[|run| - 1])
  }

  lemma NotesStep(cfg: Config, w: World, e: Event, notes: seq<Note>)
    requires Agrees(w.x.v, notes)
    ensures Agrees(FarStep(cfg, w, e).v, notes + NotesOf(cfg, w, e))
  {
    hide Agrees, Parse, AfterFrames, AfterInputs, AfterEof, FarAfterTick, EndsIt, NotesOfTick, NotesOfFrames;
    match e
    case FromCloud(_, bytes, fates, _) => AgreesFrames(w.x.v, notes, Parse(w.x.recv + bytes).frames, fates);
    case FromAsterisk(id, released, frames, _) => AgreesInputs(w.x.v, notes, id, released, frames);
    case Eof(id, reason, _) => AgreesEof(w.x.v, notes, id, reason);
    case Elsewhere(c) =>
      assert notes + [] == notes;
      if c.Tick? { AgreesTick(cfg, w.net.d, w.x, notes, c.now, c.fate); }
  }

  /** Over every run: a stream is open exactly when the last thing that concerned it was an
      OPEN whose dial worked, and the tunnel is there unless the last news of it was a drop. */
  lemma {:induction false} OpenIffOpenedLast(cfg: Config, run: Run)
    ensures Agrees(Exec(cfg, run).x.v, Notes(cfg, run))
  {
    if run != [] {
      hide Agrees, NotesOf, FarStep, StepAll, Calls;
      OpenIffOpenedLast(cfg, run[..|run| - 1]);
      NotesStep(cfg, Exec(cfg, run[..|run| - 1]), run[|run| - 1], Notes(cfg, run[..|run| - 1]));
    }
  }

  // ---- the receive buffer -------------------------------------------------

  /** The bytes from the cloud since the demultiplexer was last cut off, re-armed or gave a
      stream up as broken. */
  function Since(cfg: Config, run: Run): Bytes {
    if run == [] then []
    else
      var before, e := run[..|run| - 1], run[|run| - 1];
      var w := Exec(cfg, before);
      match e
      case FromCloud(_, bytes, _, _) => var all := Since(cfg, before) + bytes; if Parse(all).ok then all else []
      case Elsewhere(c) => if NotesOf(cfg, w, e) != [] then [] else Since(cfg, before)
      case _ => Since(cfg, before)
  }

  lemma TickRecv(cfg: Config, d: Dialer, x: Far, now: int, f: TunnelDialer.Fate)
    ensures FarAfterTick(cfg, d, x, now, f).recv == if NotesOfTick(cfg, d, now, f) != [] then [] else x.recv
  {
    hide AfterFlush, FlushRefused;
  }

  /** What waits in the receive buffer is the unfinished end of those bytes: a new tunnel
      starts on a frame boundary, whatever the old one left behind. */
  lemma {:induction false} BufferIsResidue(cfg: Config, run: Run)
    ensures Parse(Since(cfg, run)).ok && Exec(cfg, run).x.recv == Parse(Since(cfg, run)).rest
  {
    ParseNothing();
    hide Parse;
    if run != [] {
      var before, e := run[..|run| - 1], run[|run| - 1];
      BufferIsResidue(cfg, before);
      hide StepAll, Calls, NotesOfTick, FarAfterTick, AfterFrames, AfterInputs, AfterEof, NotesOfFrames;
      match e
      case FromCloud(_, bytes, _, _) =>
        ParseAppend(Since(cfg, before), bytes);
        ViolationRest(Exec(cfg, before).x.recv + bytes);
      case Elsewhere(c) =>
        if c.Tick? { TickRecv(cfg, Exec(cfg, before).net.d, Exec(cfg, before).x, c.now, c.fate); }
      case _ =>
    }
  }

  lemma {:induction false} ViolationRest(buf: Bytes)
    ensures !Parse(buf).ok ==> Parse(buf).rest == []
    decreases |buf|
  {
    hide Decode;
    if Decode(buf).Ok? {
      ViolationRest(buf[Decode(buf).consumed..]);
    }
  }

  // ---- the dialer inside --------------------------------------------------

  /** The dialer's own run in a run of the whole. */
  function DialerRun(cfg: Config, run: Run): ConnectorRuns.Run {
    if run == [] then []
    else
      var before := run[..|run| - 1];
      DialerRun(cfg, before) + Calls(cfg, Exec(cfg, before), run[|run| - 1])
  }

  lemma {:induction false} ExecMore(cfg: Config, run: ConnectorRuns.Run, calls: seq<ConnectorRuns.Event>)
    ensures ConnectorRuns.Exec(cfg, run + calls) == StepAll(cfg, ConnectorRuns.Exec(cfg, run), calls)
    decreases |calls|
  {
    hide ConnectorRuns.Step;
    if calls == [] {
      assert run + calls == run;
    } else {
      var n := |calls| - 1;
      ExecMore(cfg, run, calls[..n]);
      assert (run + calls)[..|run| + n] == run + calls[..n] && (run + calls)[|run| + n] == calls[n];
    }
  }

  /** Whatever holds of every run of the dialer holds of the dialer in the whole. */
  lemma {:induction false} DialerRuns(cfg: Config, run: Run)
    ensures Exec(cfg, run).net == ConnectorRuns.Exec(cfg, DialerRun(cfg, run))
  {
    if run != [] {
      hide Calls, FarStep, StepAll, ConnectorRuns.Exec;
      var before := run[..|run| - 1];
      DialerRuns(cfg, before);
      ExecMore(cfg, DialerRun(cfg, before), Calls(cfg, Exec(cfg, before), run[|run| - 1]));
    }
  }

  /** What the connector object does with inbound bytes is the dialer's part of the step. */
  lemma ReceiveAgrees(cfg: Config, w: World, at: int, bytes: Bytes, fates: seq<DemuxSpec.Fate>, results: seq<SendResult>)
    requires ConnectorRuns.HandOff(cfg, w.net.d, w.net.submitted)
    ensures var e := FromCloud(at, bytes, fates, results);
      && Step(cfg, w, e).x == FarAfterReceive(w.x, bytes, fates)
      && Step(cfg, w, e).net.d ==
         AfterReceive(cfg, w.net.d, Answers(w.x, bytes, fates), results, Parse(w.x.recv + bytes).ok)
  {
    hide Parse, AfterFrames, StepAll, ConnectorRuns.HandOff;
    var e := FromCloud(at, bytes, fates, results);
    var frames := Answers(w.x, bytes, fates);
    assert NewFrames(cfg, w, e) == frames;
    SubmitAll(cfg, w.net, frames, results);
    StepAllSnoc(cfg, w.net, Submissions(frames, results), ConnectorRuns.BytesIn(at, Parse(w.x.recv + bytes).ok));
    SendsIgnorePings(cfg, w.net.d, frames, results);
  }

  lemma {:induction false} SendsIgnorePings(cfg: Config, d: Dialer, frames: seq<Frame>, results: seq<SendResult>)
    ensures AfterSends(cfg, d.(pings := 0), frames, results) == AfterSends(cfg, d, frames, results).(pings := 0)
  {
    hide Encode;
    if frames != [] {
      SendsIgnorePings(cfg, d, frames[..|frames| - 1], results);
    }
  }
}
