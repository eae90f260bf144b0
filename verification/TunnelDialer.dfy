/** The dialer that keeps the tunnel to the cloud: reconnect with exponential
    backoff, outbound buffering, heartbeats and deferred disconnects. */
module TunnelDialer {
  import opened SipFrame
  import opened DemuxSpec
  import opened Demultiplexer

  /** `hello` is the payload of the AGENT_HELLO sent from the on-connected hook. */
  datatype Config = Config(initialBackoff: int, maxBackoff: int, bufferMax: nat,
                           interval: int, maxMissed: int, hello: Bytes)

  /** What a transport did with a frame: whether it took it, and whether it
      reported its own loss from inside the call. */
  datatype SendResult = SendResult(ok: bool, lost: bool)

  datatype Dialer = Dialer(
    transport: bool,          // a transport is installed
    pending: bool,            // a disconnect was requested and waits for the next tick
    outbound: seq<Bytes>,     // encoded frames waiting for a transport
    attempts: nat,            // failed dials in a row
    backoff: int,
    nextAt: int,              // no dial before this time
    lastBeat: int,            // when the heartbeat clock was last armed
    pings: int,               // PINGs sent since the last inbound bytes
    sink: bool,               // the demultiplexer has a tunnel to answer on
    wire: seq<Bytes>)         // frames taken by transports, over all of them

  const START := Dialer(false, false, [], 0, 0, 0, 0, 0, true, [])

  /** The outcomes a tick may meet: the dial and the clock after it, the sends of
      the flush in order (none left means refused), the hello and the PING. */
  datatype Fate = Fate(after: int, dialed: bool, flush: seq<SendResult>, hello: SendResult, ping: SendResult)

  function PingFrame(): Frame { Frame(PING, 0, []) }
  function HelloFrame(cfg: Config): Frame { Frame(AGENT_HELLO, 0, cfg.hello) }

  predicate Takes(d: Dialer, r: SendResult) {
    d.transport && !d.pending && r.ok
  }

  function AfterSend(cfg: Config, d: Dialer, bytes: Bytes, r: SendResult): Dialer {
    if Takes(d, r) then d.(wire := d.wire + [bytes], pending := r.lost)
    else d.(pending := d.pending || d.transport,
            outbound := if cfg.bufferMax == 0 || |d.outbound| < cfg.bufferMax then d.outbound + [bytes] else d.outbound)
  }

  function Dropped(d: Dialer): Dialer {
    d.(transport := false, sink := false, backoff := 0, nextAt := 0, pings := 0, pending := false)
  }

  function AfterFlush(d: Dialer, results: seq<SendResult>): Dialer
    decreases |d.outbound|
  {
    if d.outbound == [] || !d.transport then d
    else if results == [] || !results[0].ok then Dropped(d)
    else AfterFlush(d.(outbound := d.outbound[1..], wire := d.wire + [d.outbound[0]],
                       pending := d.pending || results[0].lost), results[1..])
  }

  function NextBackoff(cfg: Config, backoff: int): int {
    if backoff == 0 then cfg.initialBackoff
    else if backoff * 2 < cfg.maxBackoff then backoff * 2 else cfg.maxBackoff
  }

  function AfterFailedDial(cfg: Config, d: Dialer, now: int): Dialer {
    var b := NextBackoff(cfg, d.backoff);
    d.(attempts := d.attempts + 1, backoff := b, nextAt := now + b)
  }

  function Installed(d: Dialer, now: int): Dialer {
    d.(transport := true, attempts := 0, backoff := 0, nextAt := 0, lastBeat := now, pings := 0)
  }

  /** The flush may already have lost the new transport; the on-connected hook
      runs all the same, re-arms the demultiplexer and says hello. */
  function AfterDial(cfg: Config, d: Dialer, f: Fate): Dialer {
    if !f.dialed then AfterFailedDial(cfg, d, f.after)
    else
      var e := AfterFlush(Installed(d, f.after), f.flush);
      AfterSend(cfg, e.(sink := true), Encode(HelloFrame(cfg)), f.hello)
  }

  predicate BeatDue(cfg: Config, d: Dialer, now: int) {
    cfg.interval > 0 && now - d.lastBeat >= cfg.interval
  }

  function AfterBeat(cfg: Config, d: Dialer, now: int, r: SendResult): Dialer {
    if !BeatDue(cfg, d, now) then d
    else if d.pings >= cfg.maxMissed then Dropped(d)
    else
      var e := AfterSend(cfg, d, Encode(PingFrame()), r);
      if e.transport then e.(pings := e.pings + 1, lastBeat := now) else e
  }

  function Drained(d: Dialer): Dialer {
    if !d.pending then d else if d.transport then Dropped(d) else d.(pending := false)
  }

  function AfterTick(cfg: Config, d: Dialer, now: int, f: Fate): Dialer {
    var e := Drained(d);
    if e.transport then AfterBeat(cfg, e, now, f.ping)
    else if now < e.nextAt then e
    else AfterDial(cfg, e, f)
  }

  function ResultAt(results: seq<SendResult>, i: nat): SendResult {
    if i < |results| then results[i] else SendResult(false, false)
  }

  /** Frames submitted one after the other. */
  function AfterSends(cfg: Config, d: Dialer, frames: seq<Frame>, results: seq<SendResult>): Dialer {
    if frames == [] then d
    else
      var n := |frames| - 1;
      AfterSend(cfg, AfterSends(cfg, d, frames[..n], results), Encode(frames[n]), ResultAt(results, n))
  }

  /** Inbound bytes prove the peer alive; what the demultiplexer answers is submitted, and
      a violation asks for a disconnect. */
  function AfterReceive(cfg: Config, d: Dialer, answers: seq<Frame>, results: seq<SendResult>, accepted: bool): Dialer {
    var e := AfterSends(cfg, d.(pings := 0), answers, results);
    e.(pending := e.pending || !accepted)
  }

  // ---- the demultiplexer behind the dialer --------------------------------

  datatype Far = Far(v: Outside, recv: Bytes)

  function Cut(x: Far): Far {
    Far(AfterDisconnect(x.v), [])
  }

  function Rearmed(x: Far): Far {
    Far(x.v.(tunnel := true), [])
  }

  /** Every drop cuts the demultiplexer off, and the on-connected hook re-arms it. */
  function FarAfterTick(cfg: Config, d: Dialer, x: Far, now: int, f: Fate): Far {
    var e := Drained(d);
    var y := if d.pending && d.transport then Cut(x) else x;
    if e.transport then FarAfterBeat(cfg, e, y, now)
    else if now < e.nextAt then y
    else FarAfterDial(e, y, f)
  }

  function FarAfterBeat(cfg: Config, d: Dialer, x: Far, now: int): Far {
    if BeatDue(cfg, d, now) && d.pings >= cfg.maxMissed then Cut(x) else x
  }

  function FarAfterDial(d: Dialer, x: Far, f: Fate): Far {
    if !f.dialed then x
    else Rearmed(if AfterFlush(Installed(d, f.after), f.flush).transport then x else Cut(x))
  }

  /** What the demultiplexer makes of inbound bytes. */
  function FarAfterReceive(x: Far, bytes: Bytes, fates: seq<DemuxSpec.Fate>): Far {
    var p := Parse(x.recv + bytes);
    Far(AfterFrames(x.v, p.frames, fates), p.rest)
  }

  function Answers(x: Far, bytes: Bytes, fates: seq<DemuxSpec.Fate>): seq<Frame> {
    var y := FarAfterReceive(x, bytes, fates);
    SentGrows(x.v, Parse(x.recv + bytes).frames, fates);
    Emitted(x.v, y.v)
  }

  class CloudConnector {
    const cfg: Config
    const demux: SipFrameDemux
    var transport: bool
    var disconnectPending: bool
    var outbound: seq<Bytes>
    var reconnectAttempts: nat
    var currentBackoff: int
    var nextReconnectAt: int
    var lastHeartbeat: int
    var pingsOutstanding: int
    var wire: seq<Bytes>

    function State(): Dialer reads this, demux {
      Dialer(transport, disconnectPending, outbound, reconnectAttempts, currentBackoff, nextReconnectAt,
             lastHeartbeat, pingsOutstanding, demux.tunnel, wire)
    }

    function FarSide(): Far reads this, demux {
      Far(demux.View(), demux.recv)
    }

    ghost predicate Valid() reads this, demux, demux.all, demux.adapters {
      demux.Valid()
    }

    constructor (cfg: Config, demux: SipFrameDemux)
      requires demux.Valid() && demux.tunnel
      ensures State() == START && this.cfg == cfg && this.demux == demux && Valid()
    {
      this.cfg, this.demux := cfg, demux;
      transport, disconnectPending, outbound := false, false, [];
      reconnectAttempts, currentBackoff, nextReconnectAt := 0, 0, 0;
      lastHeartbeat, pingsOutstanding, wire := 0, 0, [];
    }

    /** Hands bytes to the transport, which may call back to say it is lost. */
    method Transmit(bytes: Bytes, r: SendResult)
      requires transport
      modifies this`disconnectPending, this`wire
      ensures disconnectPending == (old(disconnectPending) || r.lost)
      ensures wire == if r.ok then old(wire) + [bytes] else old(wire)
    {
      if r.lost { OnTransportLost(); }
      if r.ok { wire := wire + [bytes]; }
    }

    method SendFrame(frame: Frame, r: SendResult)
      modifies this
      ensures State() == AfterSend(cfg, old(State()), Encode(frame), r)
    {
      var bytes := Encode(frame);
      hide Encode;
      if transport && !disconnectPending {
        Transmit(bytes, r);
        if r.ok { return; }
      }
      if transport && !disconnectPending {
        disconnectPending := true;
      }
      if cfg.bufferMax == 0 || |outbound| < cfg.bufferMax {
        outbound := outbound + [bytes];
      }
    }

    method SendFrames(frames: seq<Frame>, results: seq<SendResult>)
      modifies this
      ensures State() == AfterSends(cfg, old(State()), frames, results)
    {
      hide Encode, AfterSend;
      var i := 0;
      while i < |frames|
        invariant 0 <= i <= |frames|
        invariant State() == AfterSends(cfg, old(State()), frames[..i], results)
      {
        SendFrame(frames[i], ResultAt(results, i));
        assert frames[..i + 1][..i] == frames[..i];
        i := i + 1;
      }
      assert frames[..i] == frames;
    }

    method Tick(now: int, f: Fate)
      requires Valid()
      modifies this, demux, demux.all, demux.adapters
      ensures Valid() && demux.SameObjects(old(demux.all), old(demux.adapters))
      ensures State() == AfterTick(cfg, old(State()), now, f)
      ensures FarSide() == FarAfterTick(cfg, old(State()), old(FarSide()), now, f)
    {
      hide Encode, AfterFlush, SipFrameDemux.Valid, AfterDial, FarAfterDial, AfterBeat, FarAfterBeat;
      if disconnectPending {
        disconnectPending := false;
        if transport { MarkDisconnected(); }
      }
      if transport {
        MaybeHeartbeat(now, f.ping);
        return;
      }
      if now < nextReconnectAt { return; }
      AttemptConnect(f);
    }

    /** The demultiplexer decodes and dispatches; `fates` and `results` say how the local
        side and the transport react. What it sends on the way is handed to the transport
        here: sending reads nothing that dispatching changes, nor the other way round. */
    method OnBytesReceived(bytes: Bytes, fates: seq<DemuxSpec.Fate>, results: seq<SendResult>)
      requires Valid()
      modifies this, demux, demux.all, demux.adapters
      ensures Valid() && fresh(demux.all - old(demux.all)) && fresh(demux.adapters - old(demux.adapters))
      ensures FarSide() == FarAfterReceive(old(FarSide()), bytes, fates)
      ensures State() == AfterReceive(cfg, old(State()), Answers(old(FarSide()), bytes, fates), results,
                                      Parse(old(demux.recv) + bytes).ok)
    {
      hide Parse, AfterFrames, AfterSends, SipFrameDemux.Valid;
      pingsOutstanding := 0;
      var before := demux.sent;
      ghost var x := FarSide();
      SentGrows(x.v, Parse(x.recv + bytes).frames, fates);
      FramesKeepTunnel(x.v, Parse(x.recv + bytes).frames, fates);
      var accepted := demux.OnTunnelBytes(bytes, fates);
      SendFrames(demux.sent[|before|..], results);
      if !accepted { disconnectPending := true; }
    }

    method OnTransportLost()
      modifies this`disconnectPending
      ensures disconnectPending == (old(disconnectPending) || transport)
    {
      if transport { disconnectPending := true; }
    }

    method SendWsPing(ok: bool)
      modifies this`disconnectPending
      ensures disconnectPending == (old(disconnectPending) || (transport && !ok))
    {
      if !transport || disconnectPending { return; }
      if !ok { disconnectPending := true; }
    }

    method AttemptConnect(f: Fate)
      requires Valid()
      modifies this, demux, demux.all, demux.adapters
      ensures Valid() && demux.SameObjects(old(demux.all), old(demux.adapters))
      ensures State() == AfterDial(cfg, old(State()), f)
      ensures FarSide() == FarAfterDial(old(State()), old(FarSide()), f)
    {
      hide Encode, AfterFlush, AfterSend, SipFrameDemux.Valid, Cut, Rearmed, Installed, AfterFailedDial;
      if !f.dialed {
        BackOff(f.after);
        return;
      }
      InstallTransport(f.after);
      FlushOutbound(f.flush);
      OnConnected(f.hello);
    }

    method InstallTransport(now: int)
      modifies this
      ensures State() == Installed(old(State()), now) && transport
    {
      transport := true;
      reconnectAttempts, currentBackoff, nextReconnectAt := 0, 0, 0;
      lastHeartbeat, pingsOutstanding := now, 0;
    }

    method BackOff(now: int)
      modifies this`reconnectAttempts, this`currentBackoff, this`nextReconnectAt
      ensures State() == AfterFailedDial(cfg, old(State()), now)
    {
      reconnectAttempts := reconnectAttempts + 1;
      if currentBackoff == 0 {
        currentBackoff := cfg.initialBackoff;
      } else {
        currentBackoff := if currentBackoff * 2 < cfg.maxBackoff then currentBackoff * 2 else cfg.maxBackoff;
      }
      nextReconnectAt := now + currentBackoff;
    }

    /** The hook the agent installs: re-arm the demultiplexer, then AGENT_HELLO. */
    method OnConnected(r: SendResult)
      requires Valid()
      modifies this, demux
      ensures Valid() && demux.SameObjects(old(demux.all), old(demux.adapters))
      ensures State() == AfterSend(cfg, old(State()).(sink := true), Encode(HelloFrame(cfg)), r)
      ensures FarSide() == Rearmed(old(FarSide()))
    {
      hide Encode;
      demux.SetTunnel();
      SendFrame(HelloFrame(cfg), r);
    }

    method MarkDisconnected()
      requires Valid() && transport
      modifies this, demux, demux.all, demux.adapters
      ensures Valid() && demux.SameObjects(old(demux.all), old(demux.adapters))
      ensures State() == Dropped(old(State())) && FarSide() == Cut(old(FarSide()))
    {
      hide SipFrameDemux.Valid;
      transport := false;
      demux.OnTunnelDisconnect();
      currentBackoff, nextReconnectAt := 0, 0;
      pingsOutstanding := 0;
      disconnectPending := false;
    }

    method FlushOutbound(results: seq<SendResult>)
      requires Valid() && transport
      modifies this, demux, demux.all, demux.adapters
      ensures Valid() && demux.SameObjects(old(demux.all), old(demux.adapters))
      ensures State() == AfterFlush(old(State()), results)
      ensures FarSide() == if transport then old(FarSide()) else Cut(old(FarSide()))
    {
      hide SipFrameDemux.Valid;
      var i, refused := 0, false;
      while outbound != [] && !refused
        invariant 0 <= i <= |results| && transport
        invariant AfterFlush(old(State()), results) == AfterFlush(State(), results[i..])
        invariant refused ==> outbound != [] && !ResultAt(results, i).ok
        decreases !refused, |outbound|
        modifies this
      {
        var r := ResultAt(results, i);
        Transmit(outbound[0], r);
        if r.ok {
          outbound := outbound[1..];
          assert results[i..][1..] == results[i + 1..];
          i := i + 1;
        } else {
          refused := true;
        }
      }
      if refused { MarkDisconnected(); }
    }

    method MaybeHeartbeat(now: int, r: SendResult)
      requires Valid() && transport
      modifies this, demux, demux.all, demux.adapters
      ensures Valid() && demux.SameObjects(old(demux.all), old(demux.adapters))
      ensures State() == AfterBeat(cfg, old(State()), now, r)
      ensures FarSide() == FarAfterBeat(cfg, old(State()), old(FarSide()), now)
    {
      hide Encode, SipFrameDemux.Valid;
      if cfg.interval <= 0 { return; }
      if now - lastHeartbeat < cfg.interval { return; }
      if pingsOutstanding >= cfg.maxMissed {
        MarkDisconnected();
        return;
      }
      SendFrame(PingFrame(), r);
      if transport {
        pingsOutstanding := pingsOutstanding + 1;
        lastHeartbeat := now;
      }
    }
  }
}
