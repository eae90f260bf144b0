/** Percent-encoding as the ARI client writes it and as the HTTP parser reads it.
    Strings are byte strings: every character is below 256. */
module UrlCodec {
  import opened Options

  predicate IsByte(c: char) {
    c < 256 as char
  }

  predicate IsBytes(s: string) {
    forall i :: 0 <= i < |s| ==> IsByte(s[i])
  }

  predicate IsAlnum(c: char) {
    'a' <= c <= 'z' || 'A' <= c <= 'Z' || '0' <= c <= '9'
  }

  predicate Unreserved(c: char) {
    IsAlnum(c) || c == '-' || c == '_' || c == '.' || c == '~'
  }

  predicate AllUnreserved(s: string) {
    forall i :: 0 <= i < |s| ==> Unreserved(s[i])
  }

  predicate IsHex(c: char) {
    '0' <= c <= '9' || 'A' <= c <= 'F' || 'a' <= c <= 'f'
  }

  function HexValue(c: char): (n: nat)
    requires IsHex(c)
    ensures n < 16
  {
    if c <= '9' then (c - '0') as nat
    else if c <= 'F' then (c - 'A') as nat + 10
    else (c - 'a') as nat + 10
  }

  /** The digit `std::uppercase` hexadecimal output uses. */
  function HexDigit(n: nat): (c: char)
    requires n < 16
    ensures IsHex(c) && HexValue(c) == n
  {
    if n < 10 then '0' + n as char else 'A' + (n - 10) as char
  }

  function EncodeChar(c: char): (s: string)
    requires IsByte(c)
    ensures s != []
  {
    if Unreserved(c) then [c] else ['%', HexDigit(c as nat / 16), HexDigit(c as nat % 16)]
  }

  function UrlEncoded(s: string): string
    requires IsBytes(s)
  {
    if s == [] then [] else EncodeChar(s[0]) + UrlEncoded(s[1..])
  }

  predicate IsSpace(c: char) {
    c == ' ' || '\t' <= c <= '\r'
  }

  /** `std::stoi` in base 16 on two characters, narrowed to a char; None where it throws. */
  function HexPair(a: char, b: char): Option<char> {
    if IsHex(a) then
      Some((if IsHex(b) then 16 * HexValue(a) + HexValue(b) else HexValue(a)) as char)
    else if (IsSpace(a) || a == '+') && IsHex(b) then Some(HexValue(b) as char)
    else if a == '-' && IsHex(b) then Some(((256 - HexValue(b)) % 256) as char)
    else None
  }

  /** None where the decoder throws. */
  function PctDecoded(s: string): Option<string> {
    if s == [] then Some([])
    else if s[0] == '%' && |s| > 2 then
      match HexPair(s[1], s[2])
      case None => None
      case Some(c) => Prepend(c, PctDecoded(s[3..]))
    else Prepend(if s[0] == '+' then ' ' else s[0], PctDecoded(s[1..]))
  }

  function Prepend(c: char, rest: Option<string>): Option<string> {
    match rest case None => None case Some(t) => Some([c] + t)
  }

  method UrlEncode(s: string) returns (r: string)
    requires IsBytes(s)
    ensures r == UrlEncoded(s)
  {
    hide EncodeChar;
    r := "";
    var i := 0;
    while i < |s|
      invariant 0 <= i <= |s|
      invariant UrlEncoded(s) == r + UrlEncoded(s[i..])
    {
      var piece := EncodeOne(s[i]);
      assert s[i..][1..] == s[i + 1..];
      r := r + piece;
      i := i + 1;
    }
  }

  method EncodeOne(c: char) returns (piece: string)
    requires IsByte(c)
    ensures piece == EncodeChar(c)
  {
    if Unreserved(c) { return [c]; }
    piece := "%";
    if c as nat < 0x10 { piece := piece + "0"; } else { piece := piece + [HexDigit(c as nat / 16)]; }
    piece := piece + [HexDigit(c as nat % 16)];
  }

  method PctDecode(s: string) returns (r: Option<string>)
    ensures r == PctDecoded(s)
  {
    var out := "";
    var i := 0;
    PrependNothing(PctDecoded(s));
    assert s[0..] == s;
    while i < |s|
      invariant 0 <= i <= |s|
      invariant PctDecoded(s) == PrependAll(out, PctDecoded(s[i..]))
    {
      assert s[i..][1..] == s[i + 1..];
      if s[i] == '+' {
        PrependSnoc(out, ' ', PctDecoded(s[i + 1..]));
        out := out + [' '];
      } else if s[i] == '%' && i + 2 < |s| {
        assert s[i..][3..] == s[i + 3..];
        var pair := HexPair(s[i + 1], s[i + 2]);
        if pair.None? { return None; }
        PrependSnoc(out, pair.value, PctDecoded(s[i + 3..]));
        out := out + [pair.value];
        i := i + 2;
      } else {
        PrependSnoc(out, s[i], PctDecoded(s[i + 1..]));
        out := out + [s[i]];
      }
      i := i + 1;
    }
    assert s[i..] == [] && out + [] == out;
    return Some(out);
  }

  lemma PrependNothing(rest: Option<string>)
    ensures PrependAll("", rest) == rest
  {
    if rest.Some? {
      assert "" + rest.value == rest.value;
    }
  }

  function PrependAll(s: string, rest: Option<string>): Option<string> {
    match rest case None => None case Some(t) => Some(s + t)
  }

  lemma PrependSnoc(s: string, c: char, rest: Option<string>)
    ensures PrependAll(s, Prepend(c, rest)) == PrependAll(s + [c], rest)
  {
    if rest.Some? {
      assert s + ([c] + rest.value) == s + [c] + rest.value;
    }
  }

  lemma PrependOnto(s: string, rest: Option<string>)
    requires s != []
    ensures Prepend(s[0], PrependAll(s[1..], rest)) == PrependAll(s, rest)
  {
    if rest.Some? {
      assert [s[0]] + (s[1..] + rest.value) == s + rest.value;
    }
  }

  // ---- properties ---------------------------------------------------------

  /** Decoding one encoded character consumes exactly its encoding. */
  lemma DecodeChar(c: char, rest: string)
    requires IsByte(c)
    ensures PctDecoded(EncodeChar(c) + rest) == Prepend(c, PctDecoded(rest))
  {
    var s := EncodeChar(c) + rest;
    if Unreserved(c) {
      assert s[1..] == rest;
    } else {
      assert s[3..] == rest;
      assert 16 * (c as nat / 16) + c as nat % 16 == c as nat;
    }
  }

  /** Every byte string survives encoding and decoding, whatever encoded text follows. */
  lemma {:induction false} DecodeEncoded(s: string, rest: string)
    requires IsBytes(s)
    ensures PctDecoded(UrlEncoded(s) + rest) == PrependAll(s, PctDecoded(rest))
  {
    hide EncodeChar, PctDecoded, PrependAll, Prepend;
    if s == [] {
      assert UrlEncoded(s) + rest == rest;
      PrependNothing(PctDecoded(rest));
    } else {
      var tail := UrlEncoded(s[1..]) + rest;
      assert UrlEncoded(s) + rest == EncodeChar(s[0]) + tail;
      DecodeChar(s[0], tail);
      DecodeEncoded(s[1..], rest);
      PrependOnto(s, PctDecoded(rest));
    }
  }

  lemma UrlRoundTrip(s: string)
    requires IsBytes(s)
    ensures PctDecoded(UrlEncoded(s)) == Some(s)
  {
    DecodeEncoded(s, "");
    assert UrlEncoded(s) + "" == UrlEncoded(s) && s + "" == s;
  }

  /** Characters an encoded string can contain: none that delimits anything in a
      request line. */
  predicate Plain(c: char) {
    Unreserved(c) || c == '%'
  }

  lemma {:induction false} EncodedIsPlain(s: string)
    requires IsBytes(s)
    ensures forall i :: 0 <= i < |UrlEncoded(s)| ==> Plain(UrlEncoded(s)[i])
  {
    if s != [] {
      EncodedIsPlain(s[1..]);
      var c := s[0];
      assert forall i :: 0 <= i < |EncodeChar(c)| ==> Plain(EncodeChar(c)[i]);
    }
  }

  lemma {:induction false} UnreservedUnchanged(s: string)
    requires AllUnreserved(s)
    ensures IsBytes(s) && UrlEncoded(s) == s
  {
    if s != [] {
      UnreservedUnchanged(s[1..]);
      assert s == [s[0]] + s[1..];
    }
  }

  // ---- the characters, by their codes -------------------------------------

  /** Section 2.3 of RFC 3986: letters, digits, hyphen, period, underscore, tilde. */
  lemma UnreservedIs(c: char)
    ensures var n := c as int;
      Unreserved(c) <==> 65 <= n <= 90 || 97 <= n <= 122 || 48 <= n <= 57 || n == 45 || n == 46 || n == 95 || n == 126
  {
  }

  /** An upper-case hexadecimal digit and its value, by their codes. */
  predicate UpperDigit(c: char, v: int) {
    if v < 10 then c as int == 48 + v else c as int == 55 + v
  }

  /** Section 2.1: any other byte becomes a percent sign and two upper-case digits, the
      higher half first. */
  lemma EncodedCharIs(c: char)
    requires IsByte(c)
    ensures Unreserved(c) ==> EncodeChar(c) == [c]
    ensures !Unreserved(c) ==>
      var s := EncodeChar(c);
      |s| == 3 && s[0] as int == 37 && UpperDigit(s[1], c as int / 16) && UpperDigit(s[2], c as int % 16)
  {
  }

  // ---- decoding, piece by piece -------------------------------------------

  predicate HexCode(c: char, v: int) {
    (0 <= v < 16 && c as int == if v < 10 then 48 + v else 55 + v) || (10 <= v < 16 && c as int == 87 + v)
  }

  /** A plus sign is a space; any character but the percent sign is itself. */
  lemma DecodePlain(c: char, rest: string)
    requires c as int != 37
    ensures PctDecoded([c] + rest) == Prepend(if c as int == 43 then 32 as char else c, PctDecoded(rest))
  {
    assert ([c] + rest)[1..] == rest;
  }

  /** A percent sign and two hexadecimal digits, in either case, are the byte they write. */
  lemma DecodePair(a: char, x: int, b: char, y: int, rest: string)
    requires HexCode(a, x) && HexCode(b, y)
    ensures PctDecoded(['%', a, b] + rest) == Prepend((16 * x + y) as char, PctDecoded(rest))
  {
    var s := ['%', a, b] + rest;
    assert s[0] == '%' && s[1] == a && s[2] == b && s[3..] == rest;
  }

  /** A percent sign with less than two characters behind it stands for itself. */
  lemma DecodeCutShort(a: char)
    requires a != '%' && a != '+'
    ensures PctDecoded(['%']) == Some(['%']) && PctDecoded(['%', a]) == Some(['%', a])
  {
    assert PctDecoded([]) == Some([]);
    assert ['%'][1..] == [] && [a][1..] == [] && ['%', a][1..] == [a];
    assert PctDecoded(['%']) == Prepend('%', Some([])) && ['%'] + [] == ['%'];
    assert PctDecoded([a]) == Prepend(a, Some([])) && [a] + [] == [a];
    assert PctDecoded(['%', a]) == Prepend('%', Some([a])) && ['%'] + [a] == ['%', a];
  }

  /** On two that do not begin like a number the decoder throws. */
  lemma DecodeThrows(a: char, b: char, rest: string)
    requires !IsHex(a) && !IsSpace(a) && a != '+' && a != '-'
    ensures PctDecoded(['%', a, b] + rest).None?
  {
    var s := ['%', a, b] + rest;
    assert s[0] == '%' && s[1] == a && s[2] == b && |s| > 2;
  }
}
