/** What the dialer does with each thing that can happen to it, written out. */
module DialerLaws {
  import opened SipFrame
  import opened TunnelDialer
  import opened ConnectorRuns
  import FrameLayout

  // ---- trouble ------------------------------------------------------------

  /** The event, which is no tick, is news of trouble with the transport. */
  predicate Trouble(d: Dialer, e: Event) {
    match e
    case Submit(_, r) => d.transport && !d.pending && (!r.ok || r.lost)
    case BytesIn(_, accepted) => !accepted
    case Lost => d.transport
    case WsPing(ok) => d.transport && !ok
    case _ => false
  }

  /** Trouble is noted and nothing else is; a transport is never dropped but at a tick. */
  lemma NotedExactly(cfg: Config, d: Dialer, e: Event)
    requires !e.Tick?
    ensures After(cfg, d, e).pending <==> d.pending || Trouble(d, e)
    ensures After(cfg, d, e).transport == d.transport && After(cfg, d, e).sink == d.sink
  {
    hide Encode;
  }

  /** The next tick then gives the transport up: afterwards there is none, or a new one. */
  lemma NotedIsDropped(cfg: Config, d: Dialer, now: int, f: Fate)
    requires d.pending && d.transport
    ensures AfterTick(cfg, d, now, f).transport ==> f.dialed && now >= 0
    ensures !f.dialed ==> !AfterTick(cfg, d, now, f).transport && !AfterTick(cfg, d, now, f).pending
  {
    hide Encode, AfterFlush;
  }

  /** Until then nothing goes through it. */
  lemma NothingThroughALostTransport(cfg: Config, d: Dialer, e: Event)
    requires d.pending && !e.Tick?
    ensures After(cfg, d, e).wire == d.wire
  {
    hide Encode;
  }

  /** A healthy transport is kept through a tick unless the heartbeat gives up, and only
      trouble with the PING is noted. */
  lemma HealthyIsKept(cfg: Config, d: Dialer, now: int, f: Fate)
    requires d.transport && !d.pending
    ensures var due := cfg.interval > 0 && now >= d.lastBeat + cfg.interval; var e := AfterTick(cfg, d, now, f);
      if due && d.pings >= cfg.maxMissed then !e.transport
      else e.transport && (e.pending <==> due && (!f.ping.ok || f.ping.lost))
  {
    hide Encode;
  }

  /** A new transport is in trouble when a frame of the flush or the hello brought news of it. */
  lemma NewTransportNoted(cfg: Config, d: Dialer, now: int, f: Fate)
    requires !d.transport && !d.pending && d.outbound == [] && now >= d.nextAt && f.dialed
    ensures var e := AfterTick(cfg, d, now, f);
      && e.transport && e.attempts == 0 && e.lastBeat == f.after && e.pings == 0
      && (e.pending <==> !f.hello.ok || f.hello.lost)
  {
    hide Encode;
  }

  /** A loss reported in the middle of a flush is noted as well. */
  lemma {:induction false} FlushNotesLoss(d: Dialer, results: seq<SendResult>)
    requires d.transport && |results| >= |d.outbound|
    requires forall i :: 0 <= i < |d.outbound| ==> results[i].ok
    ensures AfterFlush(d, results).transport
    ensures AfterFlush(d, results).pending <==> d.pending || exists i :: 0 <= i < |d.outbound| && results[i].lost
    decreases |d.outbound|
  {
    if d.outbound != [] {
      var next := d.(outbound := d.outbound[1..], wire := d.wire + [d.outbound[0]], pending := d.pending || results[0].lost);
      FlushNotesLoss(next, results[1..]);
      assert forall i :: 0 <= i < |next.outbound| ==> results[1..][i] == results[i + 1];
      if exists i :: 0 <= i < |d.outbound| && results[i].lost {
        var i :| 0 <= i < |d.outbound| && results[i].lost;
        assert i > 0 ==> results[1..][i - 1].lost;
      }
    }
  }

  // ---- a bounded buffer ---------------------------------------------------

  lemma KeptOrFull(cfg: Config, d: Dialer, bytes: Bytes, r: SendResult)
    ensures var e := AfterSend(cfg, d, bytes, r);
      e.wire + e.outbound == d.wire + d.outbound + [bytes] || (cfg.bufferMax > 0 && |d.outbound| >= cfg.bufferMax && e.outbound == d.outbound && e.wire == d.wire)
    requires d.transport && !d.pending ==> d.outbound == []
  {
  }

  /** A frame is lost only to a full buffer: if not all that was submitted in a step is on
      the wire or waiting, the buffer is full. */
  lemma LostOnlyWhenFull(cfg: Config, d: Dialer, submitted: seq<Bytes>, e: Event)
    requires HandOff(cfg, d, submitted)
    ensures var n := After(cfg, d, e);
      n.wire + n.outbound == d.wire + d.outbound + Submits(cfg, d, e) || (cfg.bufferMax > 0 && |n.outbound| >= cfg.bufferMax)
  {
    hide Encode, AfterFlush, AfterSend, Subsequence;
    assert d.wire + d.outbound + [] == d.wire + d.outbound;
    match e
    case Submit(frame, r) => KeptOrFull(cfg, d, Encode(frame), r);
    case Tick(now, f) =>
      var x := Drained(d);
      if x.transport {
        if BeatDue(cfg, x, now) && x.pings < cfg.maxMissed { KeptOrFull(cfg, x, Encode(PingFrame()), f.ping); }
      } else if now >= x.nextAt && f.dialed {
        var i := Installed(x, f.after);
        FlushMoves(i, f.flush);
        KeptOrFull(cfg, AfterFlush(i, f.flush).(sink := true), Encode(HelloFrame(cfg)), f.hello);
      }
    case _ =>
  }

  // ---- the dialer's own frames --------------------------------------------

  /** A PING is ten bytes: version 1, op 4, stream 0, no payload. */
  lemma PingOnTheWire()
    ensures Encode(PingFrame()) == [1, 4, 0, 0, 0, 0, 0, 0, 0, 0]
  {
    FrameLayout.SmallFrame(PING, 4, 0, []);
    hide Encode;
  }

  /** The hello has op 20, stream 0 and the configured payload. */
  lemma HelloOnTheWire(cfg: Config)
    requires |cfg.hello| < 4294967296
    ensures var s := Encode(HelloFrame(cfg));
      s[0] == 1 && s[1] == 20 && FrameLayout.Big(s, 2) == 0 && FrameLayout.Big(s, 6) == |cfg.hello| && s[10..] == cfg.hello
  {
    FrameLayout.EncodedLayout(HelloFrame(cfg));
    hide Encode;
  }
}
