/** What became of the streams and what the cloud was told, read off what happened. */
module StreamHistory {
  import opened SipFrame
  import opened DemuxSpec

  // ---- which streams are open ---------------------------------------------

  /** Something that concerned a stream, or all of them. */
  datatype Note = Opened(id: uint32) | Ended(id: uint32) | Cut | Armed

  /** The last thing that concerned the stream was that it was opened. */
  predicate IsOpen(notes: seq<Note>, id: uint32) {
    notes != [] &&
    var last := notes[|notes| - 1];
    if last == Opened(id) then true
    else if last == Ended(id) || last == Cut then false
    else IsOpen(notes[..|notes| - 1], id)
  }

  /** The demultiplexer has its tunnel until it is cut off, and again once re-armed. */
  predicate HasTunnel(notes: seq<Note>) {
    notes == [] ||
    var last := notes[|notes| - 1];
    if last == Cut then false else last == Armed || HasTunnel(notes[..|notes| - 1])
  }

  /** An OPEN whose dial works opens a stream; a CLOSE and a write that fails end it. */
  function NotesOfFrame(f: Frame, fate: Fate): seq<Note> {
    if f.op == OPEN && fate.dialed then [Opened(f.stream)]
    else if f.op == CLOSE || (f.op == DATA && !fate.wrote) then [Ended(f.stream)]
    else []
  }

  function NotesOfFrames(frames: seq<Frame>, fates: seq<Fate>): seq<Note> {
    if frames == [] then []
    else
      var n := |frames| - 1;
      NotesOfFrames(frames[..n], fates) + NotesOfFrame(frames[n], FateAt(fates, n))
  }

  /** A close frame or a bad one from Asterisk ends its stream. */
  predicate EndsIt(released: bool, frames: seq<Input>) {
    !released && exists i :: 0 <= i < |frames| && (frames[i].CloseFrame? || frames[i].BadFrame?)
  }

  // ---- what the cloud is told ---------------------------------------------

  /** The bytes of a text; what is not ASCII is a question mark. */
  function Letters(text: string): Bytes {
    if text == "" then []
    else [if text[0] < 128 as char then text[0] as int else 63] + Letters(text[1..])
  }

  function CloseFor(id: uint32, reason: string): Frame {
    Frame(CLOSE, id, Letters(reason))
  }

  function SaidByEof(v: Outside, id: uint32, reason: string): seq<Frame> {
    if v.tunnel && id in v.open then [CloseFor(id, reason)] else []
  }

  /** A frame from the cloud is answered when it opens a stream that cannot be dialed, when
      its data cannot be written, and when it is a PING. */
  function SaidByFrame(v: Outside, f: Frame, fate: Fate): seq<Frame> {
    if f.op == OPEN && v.tunnel && f.stream !in v.open && !fate.dialed then [CloseFor(f.stream, "asterisk_unreachable")]
    else if f.op == DATA && !fate.wrote then SaidByEof(v, f.stream, "asterisk_write_failed")
    else if f.op == PING && v.tunnel then [Frame(PONG, f.stream, [])]
    else []
  }

  function SaidByFrames(v: Outside, frames: seq<Frame>, fates: seq<Fate>): seq<Frame> {
    if frames == [] then []
    else
      var n := |frames| - 1;
      SaidByFrames(v, frames[..n], fates) + SaidByFrame(AfterFrames(v, frames[..n], fates), frames[n], FateAt(fates, n))
  }

  /** The payloads of a socket go up in order until a frame ends it, which is told with its
      reason; of a released socket only the first payload can go up. */
  function SaidByInputs(v: Outside, id: uint32, released: bool, frames: seq<Input>): seq<Frame> {
    if !v.tunnel || id !in v.open || frames == [] then []
    else
      match frames[0]
      case Payload(bytes) => [Frame(DATA, id, bytes)] + if released then [] else SaidByInputs(v, id, released, frames[1..])
      case Control => SaidByInputs(v, id, released, frames[1..])
      case CloseFrame => if released then [] else [CloseFor(id, "asterisk_closed")]
      case BadFrame => if released then [] else [CloseFor(id, "ws_protocol_error")]
  }

  lemma {:induction false} LettersAre(text: string)
    ensures Letters(text) == Ascii(text)
  {
    if text != "" {
      LettersAre(text[1..]);
    }
  }

  lemma EofTold(v: Outside, id: uint32, reason: string)
    ensures AfterEof(v, id, reason).sent == v.sent + SaidByEof(v, id, reason)
  {
    LettersAre(reason);
    hide Ascii, Letters;
  }

  lemma FrameTold(v: Outside, f: Frame, fate: Fate)
    ensures AfterFrame(v, f, fate).sent == v.sent + SaidByFrame(v, f, fate)
  {
    LettersAre("asterisk_unreachable");
    EofTold(v, f.stream, "asterisk_write_failed");
    hide Ascii, Letters, AfterEof, SaidByEof;
  }

  lemma {:induction false} FramesTold(v: Outside, frames: seq<Frame>, fates: seq<Fate>)
    ensures AfterFrames(v, frames, fates).sent == v.sent + SaidByFrames(v, frames, fates)
  {
    hide AfterFrame, SaidByFrame;
    if frames != [] {
      var n := |frames| - 1;
      FramesTold(v, frames[..n], fates);
      FrameTold(AfterFrames(v, frames[..n], fates), frames[n], FateAt(fates, n));
    }
  }

  lemma {:induction false} SaidByInputsSame(v: Outside, u: Outside, id: uint32, released: bool, frames: seq<Input>)
    requires u.open == v.open && u.tunnel == v.tunnel
    ensures SaidByInputs(u, id, released, frames) == SaidByInputs(v, id, released, frames)
  {
    if frames != [] {
      SaidByInputsSame(v, u, id, released, frames[1..]);
    }
  }

  lemma {:induction false} InputsTold(v: Outside, id: uint32, released: bool, frames: seq<Input>)
    ensures AfterInputs(v, id, released, frames).sent == v.sent + SaidByInputs(v, id, released, frames)
    decreases |frames|
  {
    hide Letters, AfterEof;
    if frames != [] {
      match frames[0]
      case Payload(bytes) =>
        var u := AfterReply(v, id, bytes);
        if !released {
          InputsTold(u, id, released, frames[1..]);
          SaidByInputsSame(v, u, id, released, frames[1..]);
          if !v.tunnel || id !in v.open { NothingSaid(v, id, released, frames[1..]); }
        }
      case Control =>
        InputsTold(v, id, released, frames[1..]);
        if !v.tunnel || id !in v.open { NothingSaid(v, id, released, frames[1..]); }
      case CloseFrame => EofTold(v, id, "asterisk_closed");
      case BadFrame => EofTold(v, id, "ws_protocol_error");
    }
  }

  lemma NothingSaid(v: Outside, id: uint32, released: bool, frames: seq<Input>)
    requires !v.tunnel || id !in v.open
    ensures SaidByInputs(v, id, released, frames) == []
  {
  }

  lemma EndsLater(frames: seq<Input>)
    requires frames != []
    ensures EndsIt(false, frames) <==> frames[0].CloseFrame? || frames[0].BadFrame? || EndsIt(false, frames[1..])
  {
    if EndsIt(false, frames[1..]) {
      var i :| 0 <= i < |frames[1..]| && (frames[1..][i].CloseFrame? || frames[1..][i].BadFrame?);
      assert frames[i + 1] == frames[1..][i];
    }
    if EndsIt(false, frames) {
      var i :| 0 <= i < |frames| && (frames[i].CloseFrame? || frames[i].BadFrame?);
      assert i > 0 ==> frames[1..][i - 1] == frames[i];
    }
  }

  // ---- the open streams agree ---------------------------------------------

  ghost predicate Agrees(v: Outside, notes: seq<Note>) {
    && (forall id :: id in v.open <==> IsOpen(notes, id))
    && (v.tunnel <==> HasTunnel(notes))
  }

  lemma OneNote(notes: seq<Note>, n: Note, id: uint32)
    ensures IsOpen(notes + [n], id) <==> n == Opened(id) || (n != Ended(id) && n != Cut && IsOpen(notes, id))
    ensures HasTunnel(notes + [n]) <==> n != Cut && (n == Armed || HasTunnel(notes))
  {
    assert (notes + [n])[..|notes|] == notes;
  }

  lemma AgreesMore(v: Outside, u: Outside, notes: seq<Note>, n: Note)
    requires Agrees(v, notes)
    requires match n
      case Opened(id) => u.open == v.open + {id} && u.tunnel == v.tunnel
      case Ended(id) => u.open == v.open - {id} && u.tunnel == v.tunnel
      case Cut => u.open == {} && !u.tunnel
      case Armed => u.open == v.open && u.tunnel
    ensures Agrees(u, notes + [n])
  {
    hide IsOpen, HasTunnel;
    OneNote(notes, n, 0);
    forall id: uint32
      ensures id in u.open <==> IsOpen(notes + [n], id)
    {
      OneNote(notes, n, id);
    }
  }

  lemma AgreesFrame(v: Outside, notes: seq<Note>, f: Frame, fate: Fate)
    requires Agrees(v, notes)
    ensures Agrees(AfterFrame(v, f, fate), notes + NotesOfFrame(f, fate))
  {
    hide Ascii, IsOpen, HasTunnel;
    var u := AfterFrame(v, f, fate);
    if NotesOfFrame(f, fate) == [] {
      assert notes + [] == notes;
    } else {
      AgreesMore(v, u, notes, NotesOfFrame(f, fate)[0]);
    }
  }

  lemma {:induction false} AgreesFrames(v: Outside, notes: seq<Note>, frames: seq<Frame>, fates: seq<Fate>)
    requires Agrees(v, notes)
    ensures Agrees(AfterFrames(v, frames, fates), notes + NotesOfFrames(frames, fates))
  {
    hide Agrees, AfterFrame, NotesOfFrame;
    if frames == [] {
      assert notes + [] == notes;
    } else {
      var n := |frames| - 1;
      AgreesFrames(v, notes, frames[..n], fates);
      var some := NotesOfFrames(frames[..n], fates);
      AgreesFrame(AfterFrames(v, frames[..n], fates), notes + some, frames[n], FateAt(fates, n));
      assert notes + some + NotesOfFrame(frames[n], FateAt(fates, n)) == notes + NotesOfFrames(frames, fates);
    }
  }

  lemma AgreesEof(v: Outside, notes: seq<Note>, id: uint32, reason: string)
    requires Agrees(v, notes)
    ensures Agrees(AfterEof(v, id, reason), notes + [Ended(id)])
  {
    hide Ascii, IsOpen, HasTunnel;
    AgreesMore(v, AfterEof(v, id, reason), notes, Ended(id));
  }

  lemma {:induction false} OpenAfterInputs(v: Outside, id: uint32, released: bool, frames: seq<Input>)
    ensures var u := AfterInputs(v, id, released, frames);
      u.open == (if EndsIt(released, frames) then v.open - {id} else v.open) && u.tunnel == v.tunnel
    decreases |frames|
  {
    hide Ascii;
    if frames != [] {
      EndsLater(frames);
      match frames[0]
      case Payload(bytes) => OpenAfterInputs(AfterReply(v, id, bytes), id, released, frames[1..]);
      case Control => OpenAfterInputs(v, id, released, frames[1..]);
      case _ =>
    }
  }

  lemma AgreesInputs(v: Outside, notes: seq<Note>, id: uint32, released: bool, frames: seq<Input>)
    requires Agrees(v, notes)
    ensures Agrees(AfterInputs(v, id, released, frames), notes + if EndsIt(released, frames) then [Ended(id)] else [])
  {
    hide IsOpen, HasTunnel, AfterInputs, EndsIt;
    var u := AfterInputs(v, id, released, frames);
    OpenAfterInputs(v, id, released, frames);
    if EndsIt(released, frames) {
      AgreesMore(v, u, notes, Ended(id));
    } else {
      assert notes + [] == notes;
    }
  }
}
