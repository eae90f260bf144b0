/** The wire layout of the tunnel's frames, written out in bytes and plain arithmetic. */
module FrameLayout {
  import opened SipFrame

  /** The op table. */
  predicate CodeIs(op: Op, code: int) {
    match op
    case OPEN => code == 1
    case DATA => code == 2
    case CLOSE => code == 3
    case PING => code == 4
    case PONG => code == 5
    case ERR => code == 6
    case PUSH_NOTIFY => code == 16
    case CDR_PUSH => code == 17
    case SUBSCRIBER_REVOKED => code == 18
    case REGISTER_STATE => code == 19
    case AGENT_HELLO => code == 20
    case SOCIETY_BOOTSTRAP => code == 21
    case ASTERISK_STATUS => code == 22
  }

  lemma CodesAre(op: Op)
    ensures CodeIs(op, OpCode(op))
  {
  }

  /** The number four bytes make, the most significant first. */
  function Big(s: Bytes, at: nat): int
    requires at + 4 <= |s|
  {
    16777216 * (s[at] as int) + 65536 * (s[at + 1] as int) + 256 * (s[at + 2] as int) + s[at + 3]
  }

  /** Version, op, stream and length, big-endian, then the payload. */
  lemma EncodedLayout(f: Frame)
    requires |f.payload| < 4294967296
    ensures var s := Encode(f);
      && |s| == 10 + |f.payload|
      && s[0] == 1 && CodeIs(f.op, s[1])
      && Big(s, 2) == f.stream && Big(s, 6) == |f.payload|
      && s[10..] == f.payload
  {
    EncodedHeader(f);
    CodesAre(f.op);
    var s, h := Encode(f), Header(f);
    assert s[..10] == h;
    assert forall i :: 0 <= i < 10 ==> s[i] == h[i];
    hide Header, BigEndian, CodeIs, OpCode;
  }

  /** Bytes are refused from the tenth on exactly when the version is not 1, the op is none
      of the table or the length exceeds a mebibyte. */
  lemma RefusedIff(s: Bytes)
    ensures Decode(s).Invalid? <==>
      |s| >= 10 && (s[0] != 1 || !(1 <= s[1] <= 6 || 16 <= s[1] <= 22) || Big(s, 6) > 1048576)
  {
  }

  /** They are a frame exactly when all of it is there. */
  lemma AcceptedIff(s: Bytes)
    ensures Decode(s).Ok? <==>
      |s| >= 10 && s[0] == 1 && (1 <= s[1] <= 6 || 16 <= s[1] <= 22) && Big(s, 6) <= 1048576 && |s| >= 10 + Big(s, 6)
  {
  }

  /** And then it is the frame the layout says. */
  lemma DecodedLayout(s: Bytes)
    requires Decode(s).Ok?
    ensures var f, n := Decode(s).frame, Decode(s).consumed;
      && CodeIs(f.op, s[1]) && f.stream == Big(s, 2)
      && n == 10 + Big(s, 6) && f.payload == s[10..n]
  {
    CodesAre(Decode(s).frame.op);
    hide CodeIs;
  }

  /** A small frame, byte by byte. */
  lemma SmallFrame(op: Op, code: byte, stream: byte, payload: Bytes)
    requires CodeIs(op, code) && |payload| < 256
    ensures Encode(Frame(op, stream, payload)) == [1, code, 0, 0, 0, stream, 0, 0, 0, |payload|] + payload
  {
    CodesAre(op);
    assert OpCode(op) == code;
    hide CodeIs, OpCode;
  }
}
