/** The tunnel's wire format: a 10-byte big-endian header and a payload of at most
    1 MiB. */
module SipFrame {

  type byte = x: int | 0 <= x < 256
  type uint32 = x: int | 0 <= x < 0x1_0000_0000
  type Bytes = seq<byte>

  const VERSION: byte := 1
  const HEADER_SIZE := 10
  const MAX_PAYLOAD := 1024 * 1024

  datatype Op =
    | OPEN | DATA | CLOSE | PING | PONG | ERR
    | PUSH_NOTIFY | CDR_PUSH | SUBSCRIBER_REVOKED | REGISTER_STATE
    | AGENT_HELLO | SOCIETY_BOOTSTRAP | ASTERISK_STATUS

  datatype Frame = Frame(op: Op, stream: uint32, payload: Bytes)

  datatype DecodeResult = Ok(frame: Frame, consumed: nat) | NeedMore | Invalid

  function OpCode(op: Op): byte {
    match op
    case OPEN => 0x01 case DATA => 0x02 case CLOSE => 0x03 case PING => 0x04 case PONG => 0x05 case ERR => 0x06
    case PUSH_NOTIFY => 0x10 case CDR_PUSH => 0x11 case SUBSCRIBER_REVOKED => 0x12 case REGISTER_STATE => 0x13
    case AGENT_HELLO => 0x14 case SOCIETY_BOOTSTRAP => 0x15 case ASTERISK_STATUS => 0x16
  }

  predicate KnownOp(b: byte) {
    0x01 <= b <= 0x06 || 0x10 <= b <= 0x16
  }

  function OpOf(b: byte): (op: Op)
    requires KnownOp(b)
    ensures OpCode(op) == b
  {
    if b == 0x01 then OPEN else if b == 0x02 then DATA else if b == 0x03 then CLOSE
    else if b == 0x04 then PING else if b == 0x05 then PONG else if b == 0x06 then ERR
    else if b == 0x10 then PUSH_NOTIFY else if b == 0x11 then CDR_PUSH else if b == 0x12 then SUBSCRIBER_REVOKED
    else if b == 0x13 then REGISTER_STATE else if b == 0x14 then AGENT_HELLO
    else if b == 0x15 then SOCIETY_BOOTSTRAP else ASTERISK_STATUS
  }

  function BigEndian(n: uint32): (s: Bytes)
    ensures |s| == 4
  {
    [n / 0x100 / 0x100 / 0x100, n / 0x100 / 0x100 % 0x100, n / 0x100 % 0x100, n % 0x100]
  }

  function Number(a: byte, b: byte, c: byte, d: byte): uint32 {
    a * 0x100_0000 + b * 0x1_0000 + c * 0x100 + d
  }

  /** The length field is a `uint32_t`: a longer payload would be announced modulo 2^32. */
  function Header(f: Frame): (h: Bytes)
    ensures |h| == HEADER_SIZE
  {
    [VERSION, OpCode(f.op)] + BigEndian(f.stream) + BigEndian(|f.payload| % 0x1_0000_0000)
  }

  function Encode(f: Frame): (s: Bytes)
    ensures |s| == HEADER_SIZE + |f.payload|
  {
    Header(f) + f.payload
  }

  function PayloadLength(buf: Bytes): uint32
    requires |buf| >= HEADER_SIZE
  {
    Number(buf[6], buf[7], buf[8], buf[9])
  }

  function Decode(buf: Bytes): (r: DecodeResult)
    ensures r.Ok? ==> HEADER_SIZE <= r.consumed <= |buf|
  {
    if |buf| < HEADER_SIZE then NeedMore
    else if buf[0] != VERSION || !KnownOp(buf[1]) || PayloadLength(buf) > MAX_PAYLOAD then Invalid
    else
      var end := HEADER_SIZE + PayloadLength(buf);
      if |buf| < end then NeedMore
      else Ok(Frame(OpOf(buf[1]), Number(buf[2], buf[3], buf[4], buf[5]), buf[HEADER_SIZE..end]), end)
  }

  // ---- one frame ----------------------------------------------------------

  lemma NumberBigEndian(n: uint32)
    ensures var s := BigEndian(n); Number(s[0], s[1], s[2], s[3]) == n
  {
    var x, y := n / 0x100, n / 0x100 / 0x100;
    assert n == x * 0x100 + n % 0x100 && x == y * 0x100 + x % 0x100 && y == y / 0x100 * 0x100 + y % 0x100;
  }

  lemma BigEndianNumber(a: byte, b: byte, c: byte, d: byte)
    ensures BigEndian(Number(a, b, c, d)) == [a, b, c, d]
  {
    SplitOff(a * 0x1_0000 + b * 0x100 + c, d);
    SplitOff(a * 0x100 + b, c);
    SplitOff(a, b);
  }

  lemma SplitOff(q: nat, r: byte)
    ensures (q * 0x100 + r) / 0x100 == q && (q * 0x100 + r) % 0x100 == r
  {
  }

  lemma EncodedHeader(f: Frame)
    requires |f.payload| < 0x1_0000_0000
    ensures var h := Header(f);
      && h[0] == VERSION && h[1] == OpCode(f.op)
      && Number(h[2], h[3], h[4], h[5]) == f.stream
      && PayloadLength(h) == |f.payload|
  {
    hide BigEndian, Number, OpCode;
    NumberBigEndian(f.stream);
    NumberBigEndian(|f.payload|);
    var s, n := BigEndian(f.stream), BigEndian(|f.payload|);
    assert Header(f) == [VERSION, OpCode(f.op)] + s + n;
  }

  lemma OpOfCode(op: Op)
    ensures KnownOp(OpCode(op)) && OpOf(OpCode(op)) == op
  {
  }

  /** Decoding what was encoded gives the frame back and consumes exactly its bytes,
      whatever follows; an oversize payload is refused. */
  lemma DecodeEncode(f: Frame, rest: Bytes)
    requires |f.payload| < 0x1_0000_0000
    ensures Decode(Encode(f) + rest) ==
      if |f.payload| <= MAX_PAYLOAD then Ok(f, |Encode(f)|) else Invalid
  {
    hide Header, OpOf, OpCode, KnownOp, Number;
    EncodedHeader(f);
    OpOfCode(f.op);
    var buf := Encode(f) + rest;
    assert buf[..HEADER_SIZE] == Header(f);
    assert PayloadLength(buf) == PayloadLength(Header(f));
    if |f.payload| <= MAX_PAYLOAD {
      assert buf[HEADER_SIZE..HEADER_SIZE + |f.payload|] == f.payload;
    }
  }

  /** Every accepted prefix is the encoding of the frame it decodes to. */
  lemma EncodeDecode(buf: Bytes)
    requires Decode(buf).Ok?
    ensures Decode(buf).consumed <= |buf| && Decode(buf).consumed >= HEADER_SIZE
    ensures buf[..Decode(buf).consumed] == Encode(Decode(buf).frame)
    ensures |Decode(buf).frame.payload| <= MAX_PAYLOAD
  {
    hide BigEndian, Number, OpOf, OpCode, KnownOp;
    BigEndianNumber(buf[2], buf[3], buf[4], buf[5]);
    BigEndianNumber(buf[6], buf[7], buf[8], buf[9]);
    var f, n := Decode(buf).frame, Decode(buf).consumed;
    assert |f.payload| == PayloadLength(buf);
    assert Header(f) == buf[..HEADER_SIZE];
    assert buf[..n] == buf[..HEADER_SIZE] + buf[HEADER_SIZE..n];
  }

  /** More bytes never change a verdict that has been reached. */
  lemma DecodeStable(a: Bytes, b: Bytes)
    requires !Decode(a).NeedMore?
    ensures Decode(a + b) == Decode(a)
  {
    hide OpOf, KnownOp, Number;
    if Decode(a).Ok? {
      var end := HEADER_SIZE + PayloadLength(a);
      assert (a + b)[HEADER_SIZE..end] == a[HEADER_SIZE..end];
    }
  }

  // ---- streams of frames --------------------------------------------------

  /** The frames at the front of a byte stream, the unfinished rest, and whether
      the stream is free of violations. */
  datatype Parsed = Parsed(frames: seq<Frame>, rest: Bytes, ok: bool)

  function Parse(buf: Bytes): Parsed
    decreases |buf|
  {
    match Decode(buf)
    case NeedMore => Parsed([], buf, true)
    case Invalid => Parsed([], [], false)
    case Ok(f, n) =>
      var p := Parse(buf[n..]);
      Parsed([f] + p.frames, p.rest, p.ok)
  }

  function EncodeAll(frames: seq<Frame>): Bytes {
    if frames == [] then [] else Encode(frames[0]) + EncodeAll(frames[1..])
  }

  lemma EncodeAllCons(f: Frame, frames: seq<Frame>)
    ensures EncodeAll([f] + frames) == Encode(f) + EncodeAll(frames)
  {
    hide Encode;
    assert ([f] + frames)[1..] == frames;
  }

  /** Parsing a stream in two pieces is parsing it whole. */
  lemma {:induction false} ParseAppend(a: Bytes, b: Bytes)
    ensures Parse(a).ok ==>
      var p := Parse(Parse(a).rest + b);
      Parse(a + b) == Parsed(Parse(a).frames + p.frames, p.rest, p.ok)
    ensures !Parse(a).ok ==> Parse(a + b) == Parse(a)
    decreases |a|
  {
    hide Decode;
    match Decode(a)
    case NeedMore =>
      assert Parse(a).rest == a;
    case Invalid =>
      DecodeStable(a, b);
    case Ok(f, n) =>
      DecodeStable(a, b);
      ParseAppend(a[n..], b);
      assert (a + b)[n..] == a[n..] + b;
  }

  /** The stream received is the frames dispatched followed by the residue. */
  lemma {:induction false} ParseConserves(buf: Bytes)
    requires Parse(buf).ok
    ensures buf == EncodeAll(Parse(buf).frames) + Parse(buf).rest
    decreases |buf|
  {
    hide Decode, Encode;
    if Decode(buf).Ok? {
      EncodeDecode(buf);
      var f, n := Decode(buf).frame, Decode(buf).consumed;
      var p := Parse(buf[n..]);
      ParseConserves(buf[n..]);
      EncodeAllCons(f, p.frames);
      assert buf == buf[..n] + buf[n..];
    }
  }

  lemma ParseCons(f: Frame, tail: Bytes)
    requires |f.payload| <= MAX_PAYLOAD
    ensures var p := Parse(tail); Parse(Encode(f) + tail) == Parsed([f] + p.frames, p.rest, p.ok)
  {
    hide Decode, Encode;
    DecodeEncode(f, tail);
    assert (Encode(f) + tail)[|Encode(f)|..] == tail;
  }

  /** Encoded frames are read back exactly, and reading goes on behind them. */
  lemma {:induction false} ParseEncodeAll(frames: seq<Frame>, rest: Bytes)
    requires forall i :: 0 <= i < |frames| ==> |frames[i].payload| <= MAX_PAYLOAD
    ensures var p := Parse(rest); Parse(EncodeAll(frames) + rest) == Parsed(frames + p.frames, p.rest, p.ok)
  {
    hide Encode, Parse;
    var p := Parse(rest);
    if frames == [] {
      assert EncodeAll(frames) + rest == rest;
    } else {
      var f, others := frames[0], frames[1..];
      ParseEncodeAll(others, rest);
      ParseCons(f, EncodeAll(others) + rest);
      assert EncodeAll(frames) + rest == Encode(f) + (EncodeAll(others) + rest);
      assert [f] + (others + p.frames) == frames + p.frames;
    }
  }

  // ---- chunked delivery ---------------------------------------------------

  function Concat(chunks: seq<Bytes>): Bytes {
    if chunks == [] then [] else chunks[0] + Concat(chunks[1..])
  }

  /** Feeding chunks one after the other, keeping the residue between them and
      stopping at the first violation. */
  function Feed(buffer: Bytes, chunks: seq<Bytes>): Parsed
    decreases |chunks|
  {
    if chunks == [] then Parsed([], buffer, true)
    else
      var p := Parse(buffer + chunks[0]);
      if !p.ok then p
      else
        var q := Feed(p.rest, chunks[1..]);
        Parsed(p.frames + q.frames, q.rest, q.ok)
  }

  /** How the stream is cut into chunks makes no difference. */
  lemma {:induction false} ChunkingIrrelevant(buffer: Bytes, chunks: seq<Bytes>)
    requires Parse(buffer) == Parsed([], buffer, true)
    ensures Feed(buffer, chunks) == Parse(buffer + Concat(chunks))
    decreases |chunks|
  {
    hide Decode;
    if chunks == [] {
      assert buffer + Concat(chunks) == buffer;
    } else {
      var a, b := buffer + chunks[0], Concat(chunks[1..]);
      assert buffer + Concat(chunks) == a + b;
      ParseAppend(a, b);
      var p := Parse(a);
      if p.ok {
        RestIsUnfinished(a);
        ChunkingIrrelevant(p.rest, chunks[1..]);
      }
    }
  }

  lemma {:induction false} RestIsUnfinished(buf: Bytes)
    requires Parse(buf).ok
    ensures Parse(Parse(buf).rest) == Parsed([], Parse(buf).rest, true)
    decreases |buf|
  {
    hide Decode;
    if Decode(buf).Ok? {
      RestIsUnfinished(buf[Decode(buf).consumed..]);
    }
  }

  /** Any list of frames, encoded and cut up in any way, is received exactly. */
  lemma FramesSurviveFragmentation(frames: seq<Frame>, chunks: seq<Bytes>)
    requires forall i :: 0 <= i < |frames| ==> |frames[i].payload| <= MAX_PAYLOAD
    requires Concat(chunks) == EncodeAll(frames)
    ensures Feed([], chunks) == Parsed(frames, [], true)
  {
    hide Parse, Feed, Encode;
    ParseNothing();
    ChunkingIrrelevant([], chunks);
    ParseEncodeAll(frames, []);
    assert [] + Concat(chunks) == EncodeAll(frames) + [];
  }

  lemma ParseNothing()
    ensures Parse([]) == Parsed([], [], true)
  {
  }
}
