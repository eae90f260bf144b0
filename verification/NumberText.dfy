/** Reading numbers the way `std::stoul` does. */
module NumberText {
  import opened Options
  import opened Decimals
  import opened UrlCodec

  const ULONG_RANGE := 0x1_0000_0000_0000_0000

  function SkipSpaces(s: string): string {
    if s != [] && IsSpace(s[0]) then SkipSpaces(s[1..]) else s
  }

  predicate AllHex(s: string) {
    forall i :: 0 <= i < |s| ==> IsHex(s[i])
  }

  function DigitPrefix(s: string): (d: string)
    ensures AllDigits(d) && d <= s
  {
    if s != [] && IsDigit(s[0]) then [s[0]] + DigitPrefix(s[1..]) else []
  }

  function HexPrefix(s: string): (d: string)
    ensures AllHex(d) && d <= s
  {
    if s != [] && IsHex(s[0]) then [s[0]] + HexPrefix(s[1..]) else []
  }

  function HexNumber(s: string): nat
    requires AllHex(s)
  {
    if s == [] then 0 else 16 * HexNumber(s[..|s| - 1]) + HexValue(s[|s| - 1])
  }

  /** An unsigned value out of range throws; a minus sign negates modulo 2^64. */
  function InRange(negative: bool, n: nat): (r: Option<nat>)
    ensures r.Some? ==> r.value < ULONG_RANGE
  {
    if n >= ULONG_RANGE then None
    else Some(if negative then (ULONG_RANGE - n) % ULONG_RANGE else n)
  }

  function Unsigned(s: string): string {
    if s != [] && (s[0] == '+' || s[0] == '-') then s[1..] else s
  }

  function Stoul(text: string): Option<nat> {
    var s := SkipSpaces(text);
    var d := DigitPrefix(Unsigned(s));
    if d == [] then None else InRange(s[0] == '-', DigitsValue(d))
  }

  function WithoutPrefix(s: string): string {
    if |s| > 2 && s[0] == '0' && (s[1] == 'x' || s[1] == 'X') && IsHex(s[2]) then s[2..] else s
  }

  function StoulHex(text: string): (r: Option<nat>)
    ensures r.Some? ==> r.value < ULONG_RANGE
  {
    var s := SkipSpaces(text);
    var d := HexPrefix(WithoutPrefix(Unsigned(s)));
    if d == [] then None else InRange(s[0] == '-', HexNumber(d))
  }

  lemma {:induction false} DigitPrefixOf(d: string)
    requires AllDigits(d)
    ensures DigitPrefix(d) == d
  {
    if d != [] {
      DigitPrefixOf(d[1..]);
      assert d == [d[0]] + d[1..];
    }
  }

  lemma {:induction false} HexPrefixOf(d: string)
    requires AllHex(d)
    ensures HexPrefix(d) == d
  {
    if d != [] {
      HexPrefixOf(d[1..]);
      assert d == [d[0]] + d[1..];
    }
  }

  /** `stoul` reads back the decimal text of any 64-bit length. */
  lemma StoulDecimal(n: nat)
    requires n < ULONG_RANGE
    ensures Stoul(Decimal(n)) == Some(n)
  {
    var d := Decimal(n);
    assert IsDigit(d[0]) && !IsSpace(d[0]);
    DigitPrefixOf(d);
    DecimalRoundTrip(n);
  }

  lemma NothingToSkip(d: string)
    requires d != [] && AllHex(d)
    ensures SkipSpaces(d) == d && Unsigned(d) == d && WithoutPrefix(d) == d && d[0] != '-'
  {
    assert IsHex(d[0]);
    assert |d| > 1 ==> IsHex(d[1]);
  }

  lemma StoulHexDigits(d: string)
    requires d != [] && AllHex(d) && HexNumber(d) < ULONG_RANGE
    ensures StoulHex(d) == Some(HexNumber(d))
  {
    hide HexPrefix, HexNumber, SkipSpaces, Unsigned, WithoutPrefix, AllHex;
    NothingToSkip(d);
    HexPrefixOf(d);
  }

  // ---- numbers with something around them ---------------------------------

  /** White space in front is skipped; a plus sign too. */
  lemma StoulSkips(c: char, s: string)
    requires IsSpace(c)
    ensures Stoul([c] + s) == Stoul(s) && StoulHex([c] + s) == StoulHex(s)
  {
    assert ([c] + s)[1..] == s;
    hide DigitPrefix, HexPrefix, DigitsValue, HexNumber;
    assert SkipSpaces([c] + s) == SkipSpaces(s);
  }

  lemma {:induction false} DigitPrefixStops(d: string, t: string)
    requires AllDigits(d) && (t == [] || !IsDigit(t[0]))
    ensures DigitPrefix(d + t) == d
  {
    if d == [] {
      assert d + t == t;
    } else {
      DigitPrefixStops(d[1..], t);
      assert (d + t)[1..] == d[1..] + t && d == [d[0]] + d[1..];
    }
  }

  /** Digits are read up to the first character that is none, and what follows is ignored;
      too large a number throws. */
  lemma StoulReads(n: nat, t: string)
    requires t == [] || !IsDigit(t[0])
    ensures Stoul(Decimal(n) + t) == if n < 18446744073709551616 then Some(n) else None
  {
    var d := Decimal(n);
    DecimalRoundTrip(n);
    DigitPrefixStops(d, t);
    assert IsDigit(d[0]) && (d + t)[0] == d[0];
    hide DigitPrefix, DigitsValue, Decimal;
    assert SkipSpaces(d + t) == d + t;
  }

  /** A plus sign in front changes nothing; a minus sign negates modulo 2^64. */
  lemma StoulSigned(sign: char, n: nat, t: string)
    requires (sign == '+' || sign == '-') && 0 < n < 18446744073709551616 && (t == [] || !IsDigit(t[0]))
    ensures Stoul([sign] + (Decimal(n) + t)) == Some(if sign == '+' then n else 18446744073709551616 - n)
  {
    var d := Decimal(n);
    DecimalRoundTrip(n);
    DigitPrefixStops(d, t);
    var s := [sign] + (d + t);
    assert s[1..] == d + t;
    hide DigitPrefix, DigitsValue, Decimal;
    assert SkipSpaces(s) == s;
  }

  /** Text that does not begin with a number throws. */
  lemma StoulThrows(s: string)
    requires s == [] || (!IsSpace(s[0]) && !IsDigit(s[0]) && s[0] != '+' && s[0] != '-')
    ensures Stoul(s).None?
  {
  }

  /** Hexadecimal digits count sixteenfold from the right, in either case, and `0x` may stand
      in front of them. */
  lemma HexReads(s: string, c: char, v: int)
    requires AllHex(s) && HexCode(c, v)
    ensures AllHex(s + [c]) && HexNumber(s + [c]) == 16 * HexNumber(s) + v
    ensures HexNumber([]) == 0
    ensures s != [] && HexNumber(s) < 18446744073709551616 ==> StoulHex("0x" + s) == Some(HexNumber(s))
  {
    assert (s + [c])[..|s|] == s;
    assert HexValue(c) == v;
    if s != [] && HexNumber(s) < 18446744073709551616 {
      var t := "0x" + s;
      assert IsHex(s[0]) && t[2] == s[0] && t[2..] == s;
      HexPrefixOf(s);
      hide HexPrefix, HexNumber;
      assert SkipSpaces(t) == t && Unsigned(t) == t && WithoutPrefix(t) == s;
    }
  }

  /** Decimal text, by example. */
  lemma DecimalText()
    ensures Decimal(0) == "0" && Decimal(7) == "7" && Decimal(10) == "10" && Decimal(409) == "409"
  {
    assert Decimal(1) == "1" && Decimal(4) == "4" && Decimal(40) == "40";
  }
}
