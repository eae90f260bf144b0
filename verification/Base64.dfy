/** The two base64 encoders of the agent, on bytes and with the source's own shifts and
    masks, and the decoder of section 4 of RFC 4648. */
module Base64 {
  import opened Options
  import opened UrlCodec

  type Bytes = seq<bv8>

  /** The alphabet `A-Za-z0-9+/` by its runs. */
  function LetterAt(k: nat): (c: char)
    requires k < 64
    ensures c != '='
  {
    if k < 26 then 'A' + k as char
    else if k < 52 then 'a' + (k - 26) as char
    else if k < 62 then '0' + (k - 52) as char
    else if k == 62 then '+'
    else '/'
  }

  function Letter(x: bv8): char
    requires x < 64
  {
    LetterAt(x as int)
  }

  function Low(x: bv32): char {
    Letter((x & 0x3F) as bv8)
  }

  // ---- byte by byte -------------------------------------------------------

  function Triple(b0: bv8, b1: bv8, b2: bv8): (t: string)
    ensures |t| == 4
  {
    [Low(b0 as bv32 >> 2),
     Low((b0 as bv32 << 4) | (b1 as bv32 >> 4)),
     Low((b1 as bv32 << 2) | (b2 as bv32 >> 6)),
     Low(b2 as bv32)]
  }

  function Tail(s: Bytes): string
    requires |s| < 3
  {
    if |s| == 0 then ""
    else if |s| == 1 then [Low(s[0] as bv32 >> 2), Low(s[0] as bv32 << 4), '=', '=']
    else
      [Low(s[0] as bv32 >> 2),
       Low((s[0] as bv32 << 4) | (s[1] as bv32 >> 4)),
       Low(s[1] as bv32 << 2),
       '=']
  }

  function Encoded(s: Bytes): string {
    if |s| < 3 then Tail(s) else Triple(s[0], s[1], s[2]) + Encoded(s[3..])
  }

  method Base64Encode(input: Bytes) returns (out: string)
    ensures out == Encoded(input)
  {
    hide Triple, Tail;
    out := "";
    var i := 0;
    while i + 3 <= |input|
      invariant 0 <= i <= |input|
      invariant Encoded(input) == out + Encoded(input[i..])
    {
      assert input[i..][3..] == input[i + 3..];
      out := out + Triple(input[i], input[i + 1], input[i + 2]);
      i := i + 3;
    }
    if i < |input| {
      out := out + Tail(input[i..]);
    } else {
      EmptyTail();
    }
  }

  // ---- packed into 24 bits ------------------------------------------------

  function Word(s: Bytes): bv32
    requires s != []
  {
    (s[0] as bv32 << 16)
    | (if |s| > 1 then s[1] as bv32 << 8 else 0)
    | (if |s| > 2 then s[2] as bv32 else 0)
  }

  function Group(s: Bytes): string
    requires s != []
  {
    [Low(Word(s) >> 18),
     Low(Word(s) >> 12),
     if |s| > 1 then Low(Word(s) >> 6) else '=',
     if |s| > 2 then Low(Word(s)) else '=']
  }

  function Packed(s: Bytes): string {
    if |s| > 3 then Group(s) + Packed(s[3..]) else if s == [] then "" else Group(s)
  }

  /** The loop of the key generator, on any number of raw bytes. */
  method PackedEncode(raw: Bytes) returns (out: string)
    ensures out == Packed(raw)
  {
    hide Group, Word;
    out := "";
    var i := 0;
    while i < |raw|
      invariant 0 <= i
      invariant Packed(raw) == out + Packed(if i < |raw| then raw[i..] else [])
      decreases |raw| - i
    {
      if i + 3 < |raw| {
        assert raw[i..][3..] == raw[i + 3..];
      }
      out := out + Group(raw[i..]);
      i := i + 3;
    }
  }

  // ---- agreement ----------------------------------------------------------

  lemma GroupIsTriple(s: Bytes)
    requires |s| >= 3
    ensures Group(s) == Triple(s[0], s[1], s[2])
  {
  }

  lemma GroupIsTail(s: Bytes)
    requires 0 < |s| < 3
    ensures Group(s) == Tail(s)
  {
  }

  /** The two encoders agree on every input. */
  lemma {:induction false} EncodersAgree(s: Bytes)
    ensures Packed(s) == Encoded(s)
  {
    hide Group, Triple, Tail;
    if |s| >= 3 {
      GroupIsTriple(s);
      EncodersAgree(s[3..]);
    } else if s != [] {
      GroupIsTail(s);
    } else {
      EmptyTail();
    }
  }

  lemma EmptyTail()
    ensures Tail([]) == ""
  {
  }

  lemma {:induction false} EncodedLength(s: Bytes)
    ensures |Encoded(s)| == 4 * ((|s| + 2) / 3)
  {
    if |s| >= 3 {
      EncodedLength(s[3..]);
    }
  }

  // ---- decoding -----------------------------------------------------------

  /** The place of a letter in the alphabet; None for any other character. */
  function Place(c: char): (k: Option<nat>)
    ensures k.Some? ==> k.value < 64 && LetterAt(k.value) == c
  {
    if 'A' <= c <= 'Z' then Some((c - 'A') as int)
    else if 'a' <= c <= 'z' then Some((c - 'a') as int + 26)
    else if '0' <= c <= '9' then Some((c - '0') as int + 52)
    else if c == '+' then Some(62)
    else if c == '/' then Some(63)
    else None
  }

  function Value(c: char): (v: Option<bv8>)
    ensures v.Some? ==> v.value < 64 && Letter(v.value) == c
    ensures c == '=' ==> v.None?
  {
    match Place(c) case None => None case Some(k) => Some(Sextet(k))
  }

  function Sextet(k: nat): (x: bv8)
    requires k < 64
    ensures x < 64 && x as int == k
  {
    k as bv8
  }

  lemma PlaceOfLetter(k: nat)
    requires k < 64
    ensures Place(LetterAt(k)) == Some(k)
  {
  }

  lemma ValueOfLetter(x: bv8)
    requires x < 64
    ensures Value(Letter(x)) == Some(x)
  {
    PlaceOfLetter(x as int);
    hide Place, LetterAt;
  }

  lemma ValueOfLow(x: bv32)
    ensures Value(Low(x)) == Some((x & 0x3F) as bv8)
  {
    hide Value, Letter;
    ValueOfLetter((x & 0x3F) as bv8);
  }

  // The bytes that four sextets carry.
  function First(p: bv8, q: bv8): bv8 { (p << 2) | (q >> 4) }
  function Second(q: bv8, r: bv8): bv8 { (q << 4) | (r >> 2) }
  function Third(r: bv8, t: bv8): bv8 { (r << 6) | t }

  /** Four characters carry three bytes, or two with one pad, or one with two pads; the
      bits the pads leave over must be zero. */
  function Quad(c0: char, c1: char, c2: char, c3: char): (b: Option<Bytes>)
    ensures b.Some? ==> 0 < |b.value| <= 3
  {
    var (p, q, r, t) := (Value(c0), Value(c1), Value(c2), Value(c3));
    if p.None? || q.None? then None
    else if c2 == '=' then
      if c3 == '=' && q.value & 0x0F == 0 then Some([First(p.value, q.value)]) else None
    else if r.None? then None
    else if c3 == '=' then
      if r.value & 0x03 == 0 then Some([First(p.value, q.value), Second(q.value, r.value)]) else None
    else if t.None? then None
    else Some([First(p.value, q.value), Second(q.value, r.value), Third(r.value, t.value)])
  }

  /** Section 4 of RFC 4648: only the last group may be padded. */
  function Decoded(s: string): Option<Bytes> {
    if s == "" then Some([])
    else if |s| < 4 then None
    else Followed(Quad(s[0], s[1], s[2], s[3]), |s| == 4, Decoded(s[4..]))
  }

  function Followed(group: Option<Bytes>, last: bool, rest: Option<Bytes>): Option<Bytes> {
    if group.None? || rest.None? || (!last && |group.value| < 3) then None
    else Some(group.value + rest.value)
  }

  lemma QuadOfTriple(b0: bv8, b1: bv8, b2: bv8)
    ensures var s := Triple(b0, b1, b2); Quad(s[0], s[1], s[2], s[3]) == Some([b0, b1, b2])
  {
    hide Low, Value;
    ValueOfLow(b0 as bv32 >> 2);
    ValueOfLow((b0 as bv32 << 4) | (b1 as bv32 >> 4));
    ValueOfLow((b1 as bv32 << 2) | (b2 as bv32 >> 6));
    ValueOfLow(b2 as bv32);
  }

  lemma QuadOfTail(s: Bytes)
    requires 0 < |s| < 3
    ensures |Tail(s)| == 4 && var t := Tail(s); Quad(t[0], t[1], t[2], t[3]) == Some(s)
  {
    hide Low, Value;
    ValueOfLow(s[0] as bv32 >> 2);
    if |s| == 1 {
      ValueOfLow(s[0] as bv32 << 4);
      assert s == [s[0]];
    } else {
      ValueOfLow((s[0] as bv32 << 4) | (s[1] as bv32 >> 4));
      ValueOfLow(s[1] as bv32 << 2);
      assert s == [s[0], s[1]];
    }
  }

  /** Every byte string is recovered from its encoding. */
  lemma {:induction false} EncodeThenDecode(s: Bytes)
    ensures Decoded(Encoded(s)) == Some(s)
  {
    hide Triple, Tail, Quad;
    if |s| >= 3 {
      var head, rest := Triple(s[0], s[1], s[2]), Encoded(s[3..]);
      QuadOfTriple(s[0], s[1], s[2]);
      EncodeThenDecode(s[3..]);
      assert |head| == 4 && (head + rest)[4..] == rest;
      assert s == [s[0], s[1], s[2]] + s[3..];
    } else if s != [] {
      QuadOfTail(s);
      assert Tail(s)[4..] == "";
      assert s + [] == s;
    } else {
      EmptyTail();
    }
  }

  lemma TripleOfQuad(c0: char, c1: char, c2: char, c3: char)
    requires Quad(c0, c1, c2, c3).Some? && |Quad(c0, c1, c2, c3).value| == 3
    ensures var b := Quad(c0, c1, c2, c3).value; Triple(b[0], b[1], b[2]) == [c0, c1, c2, c3]
  {
    hide Value, Letter;
  }

  lemma TailOfQuad(c0: char, c1: char, c2: char, c3: char)
    requires Quad(c0, c1, c2, c3).Some? && |Quad(c0, c1, c2, c3).value| < 3
    ensures Tail(Quad(c0, c1, c2, c3).value) == [c0, c1, c2, c3]
  {
    hide Value, Letter;
  }

  /** What the decoder accepts is exactly what the encoder writes. */
  lemma {:induction false} DecodeThenEncode(s: string)
    requires Decoded(s).Some?
    ensures Encoded(Decoded(s).value) == s
  {
    hide Triple, Tail, Quad;
    if s == "" {
      EmptyTail();
    } else {
      var group, rest := Quad(s[0], s[1], s[2], s[3]).value, Decoded(s[4..]).value;
      assert s == [s[0], s[1], s[2], s[3]] + s[4..];
      if |group| < 3 {
        TailOfQuad(s[0], s[1], s[2], s[3]);
        assert group + rest == group;
      } else {
        TripleOfQuad(s[0], s[1], s[2], s[3]);
        DecodeThenEncode(s[4..]);
        assert (group + rest)[3..] == rest;
      }
    }
  }

  predicate IsBase64Char(c: char) {
    IsAlnum(c) || c == '+' || c == '/' || c == '='
  }

  lemma LowIsBase64(x: bv32)
    ensures IsBase64Char(Low(x))
  {
  }

  /** An encoding holds no character that could end a header line. */
  lemma {:induction false} EncodedChars(s: Bytes)
    ensures forall i :: 0 <= i < |Encoded(s)| ==> IsBase64Char(Encoded(s)[i])
  {
    forall x: bv32 ensures IsBase64Char(Low(x)) { LowIsBase64(x); }
    hide Low;
    if |s| >= 3 {
      EncodedChars(s[3..]);
    }
  }

  // ---- the alphabet and known encodings -----------------------------------

  /** The alphabet of section 4 of RFC 4648. */
  lemma AlphabetIs()
    ensures "ABCDEFGHIJKLMNOPQRSTUVWXYZabcdefghijklmnopqrstuvwxyz0123456789+/" == [
      LetterAt(0), LetterAt(1), LetterAt(2), LetterAt(3), LetterAt(4), LetterAt(5), LetterAt(6), LetterAt(7),
      LetterAt(8), LetterAt(9), LetterAt(10), LetterAt(11), LetterAt(12), LetterAt(13), LetterAt(14), LetterAt(15),
      LetterAt(16), LetterAt(17), LetterAt(18), LetterAt(19), LetterAt(20), LetterAt(21), LetterAt(22), LetterAt(23),
      LetterAt(24), LetterAt(25), LetterAt(26), LetterAt(27), LetterAt(28), LetterAt(29), LetterAt(30), LetterAt(31),
      LetterAt(32), LetterAt(33), LetterAt(34), LetterAt(35), LetterAt(36), LetterAt(37), LetterAt(38), LetterAt(39),
      LetterAt(40), LetterAt(41), LetterAt(42), LetterAt(43), LetterAt(44), LetterAt(45), LetterAt(46), LetterAt(47),
      LetterAt(48), LetterAt(49), LetterAt(50), LetterAt(51), LetterAt(52), LetterAt(53), LetterAt(54), LetterAt(55),
      LetterAt(56), LetterAt(57), LetterAt(58), LetterAt(59), LetterAt(60), LetterAt(61), LetterAt(62), LetterAt(63)]
  {
  }

  /** Test vectors of section 10 of RFC 4648: "f", "fo" and "foo". */
  lemma KnownEncodings()
    ensures Encoded([]) == "" && Encoded([0x66]) == "Zg==" && Encoded([0x66, 0x6F]) == "Zm8=" && Encoded([0x66, 0x6F, 0x6F]) == "Zm9v"
  {
    KnownLetters();
    hide Low;
    assert Encoded([0x66, 0x6F, 0x6F][3..]) == "";
  }

  lemma KnownLetters()
    ensures Low(0x66 >> 2) == 'Z' && Low(0x66 << 4) == 'g' && Low((0x66 << 4) | (0x6F >> 4)) == 'm'
    ensures Low(0x6F << 2) == '8' && Low((0x6F << 2) | (0x6F >> 6)) == '9' && Low(0x6F) == 'v'
  {
    assert 0x66 >> 2 == 25 as bv32;
  }
}
