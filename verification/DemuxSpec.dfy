/** What the demultiplexer does, seen from outside: which streams are open and what
    it sends up the tunnel. */
module DemuxSpec {
  import opened SipFrame

  datatype Outside = Outside(open: set<uint32>, tunnel: bool, sent: seq<Frame>)

  /** What the local side will do with a frame: whether a dial succeeds and whether a
      write to Asterisk goes through. */
  datatype Fate = Fate(dialed: bool, wrote: bool)

  /** Close reasons travel as ASCII payloads. */
  function Ascii(s: string): Bytes {
    seq(|s|, i requires 0 <= i < |s| => if s[i] < 128 as char then s[i] as int else 63)
  }

  function Emit(v: Outside, f: Frame): Outside {
    if v.tunnel then v.(sent := v.sent + [f]) else v
  }

  function AfterOpen(v: Outside, id: uint32, dialed: bool): Outside {
    if id in v.open then v
    else if dialed then v.(open := v.open + {id})
    else Emit(v, Frame(CLOSE, id, Ascii("asterisk_unreachable")))
  }

  function AfterEof(v: Outside, id: uint32, reason: string): Outside {
    if id !in v.open then v else Emit(v.(open := v.open - {id}), Frame(CLOSE, id, Ascii(reason)))
  }

  function AfterData(v: Outside, id: uint32, wrote: bool): Outside {
    if wrote then v else AfterEof(v, id, "asterisk_write_failed")
  }

  function AfterClose(v: Outside, id: uint32): Outside {
    v.(open := v.open - {id})
  }

  function AfterReply(v: Outside, id: uint32, bytes: Bytes): Outside {
    if id in v.open then Emit(v, Frame(DATA, id, bytes)) else v
  }

  function AfterDisconnect(v: Outside): Outside {
    Outside({}, false, v.sent)
  }

  function AfterFrame(v: Outside, f: Frame, fate: Fate): Outside {
    match f.op
    case OPEN => AfterOpen(v, f.stream, fate.dialed)
    case DATA => AfterData(v, f.stream, fate.wrote)
    case CLOSE => AfterClose(v, f.stream)
    case PING => Emit(v, Frame(PONG, f.stream, []))
    case _ => v
  }

  function FateAt(fates: seq<Fate>, i: nat): Fate {
    if i < |fates| then fates[i] else Fate(false, false)
  }

  /** Frames dispatched one after the other, the i-th one meeting the i-th fate. */
  function AfterFrames(v: Outside, frames: seq<Frame>, fates: seq<Fate>): Outside {
    if frames == [] then v
    else
      var n := |frames| - 1;
      AfterFrame(AfterFrames(v, frames[..n], fates), frames[n], FateAt(fates, n))
  }

  /** A WebSocket frame from Asterisk; PING and PONG are control frames. */
  datatype Input = Payload(bytes: Bytes) | Control | CloseFrame | BadFrame

  function EofReason(input: Input): string {
    if input.CloseFrame? then "asterisk_closed" else "ws_protocol_error"
  }

  /** Frames of the socket of stream `id`, read in order. A socket that was released
      stops at the first payload, which still goes up if the id was opened again. */
  function AfterInputs(v: Outside, id: uint32, released: bool, frames: seq<Input>): Outside
    decreases |frames|
  {
    if frames == [] then v
    else
      match frames[0]
      case Payload(bytes) =>
        if released then AfterReply(v, id, bytes) else AfterInputs(AfterReply(v, id, bytes), id, released, frames[1..])
      case Control => AfterInputs(v, id, released, frames[1..])
      case _ => if released then v else AfterEof(v, id, EofReason(frames[0]))
  }

  /** The reactor may keep the socket: no frame ended it. */
  predicate Keeps(released: bool, frames: seq<Input>) {
    frames == [] ||
    match frames[0]
    case Payload(_) => !released && Keeps(released, frames[1..])
    case Control => Keeps(released, frames[1..])
    case _ => false
  }

  lemma SentGrowsByFrame(v: Outside, f: Frame, fate: Fate)
    ensures v.sent <= AfterFrame(v, f, fate).sent
  {
    hide Ascii;
  }

  /** What was sent stays sent. */
  lemma {:induction false} SentGrows(v: Outside, frames: seq<Frame>, fates: seq<Fate>)
    ensures v.sent <= AfterFrames(v, frames, fates).sent
  {
    if frames != [] {
      hide AfterFrame;
      var n := |frames| - 1;
      SentGrows(v, frames[..n], fates);
      SentGrowsByFrame(AfterFrames(v, frames[..n], fates), frames[n], FateAt(fates, n));
    }
  }

  lemma FrameKeepsTunnel(v: Outside, f: Frame, fate: Fate)
    ensures AfterFrame(v, f, fate).tunnel == v.tunnel
  {
    hide Ascii;
  }

  /** Dispatching never arms or disarms the tunnel. */
  lemma {:induction false} FramesKeepTunnel(v: Outside, frames: seq<Frame>, fates: seq<Fate>)
    ensures AfterFrames(v, frames, fates).tunnel == v.tunnel
  {
    if frames != [] {
      hide AfterFrame;
      var n := |frames| - 1;
      FramesKeepTunnel(v, frames[..n], fates);
      FrameKeepsTunnel(AfterFrames(v, frames[..n], fates), frames[n], FateAt(fates, n));
    }
  }

  /** The frames sent on the way from `v` to `w`. */
  function Emitted(v: Outside, w: Outside): seq<Frame>
    requires v.sent <= w.sent
  {
    w.sent[|v.sent|..]
  }
}
