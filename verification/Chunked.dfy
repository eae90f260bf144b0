/** Chunked transfer coding (section 4.1 of RFC 7230). */
module Chunked {
  import opened Options
  import opened UrlCodec
  import opened HttpText
  import opened NumberText

  /** The size line up to a chunk extension. */
  function SizeText(line: string): string {
    line[..IndexOf(line, ';')]
  }

  /** The decoder on what is left of the input: it stops quietly at the last chunk, at
      a size it cannot read, and at a chunk that has not arrived in full. */
  function Dechunked(s: string): string
    decreases |s|, 0
  {
    var eol := Find(s, CRLF, 0);
    if eol == -1 then "" else Sized(StoulHex(SizeText(s[..eol])), s[eol + 2..])
  }

  /** What follows a size line. */
  function Sized(size: Option<nat>, data: string): string
    decreases |data|, 2
  {
    if size.None? || size.value == 0 || size.value > |data| then ""
    else data[..size.value] + From(data, size.value + 2)
  }

  /** What the decoder will produce from position `pos` on. */
  function From(input: string, pos: nat): string
    decreases |input|, 1
  {
    if pos <= |input| then Dechunked(input[pos..]) else ""
  }

  lemma Slices(input: string, pos: nat, eol: nat)
    requires pos <= eol <= |input| - 2
    ensures var s := input[pos..];
      && s[..eol - pos] == input[pos..eol] && s[eol - pos + 2..] == input[eol + 2..]
  {
  }

  /** Reading from a suffix is reading further on in the whole. */
  lemma FromSuffix(input: string, start: nat, k: nat)
    requires start <= |input|
    ensures From(input[start..], k) == From(input, start + k)
  {
    hide Dechunked;
    if start + k <= |input| {
      assert input[start..][k..] == input[start + k..];
    }
  }

  lemma SizeLine(s: string, eol: nat)
    requires eol == Find(s, CRLF, 0)
    ensures Dechunked(s) == Sized(StoulHex(SizeText(s[..eol])), s[eol + 2..])
  {
    hide StoulHex, SizeText, OccursAt, Sized, Find;
  }

  lemma NoSizeLine(s: string)
    requires Find(s, CRLF, 0) == -1
    ensures Dechunked(s) == ""
  {
    hide StoulHex, SizeText, OccursAt, Sized, Find;
  }

  /** Where the line that starts at `pos` ends, or -1. */
  function LineEnd(input: string, pos: nat): (eol: int)
    ensures eol == -1 || pos <= eol <= |input| - 2
  {
    Find(input, CRLF, pos)
  }

  /** One pass of the decoder, said of positions in the whole input. */
  lemma ChunkAt(input: string, pos: nat, eol: int, size: Option<nat>)
    requires pos <= |input| && eol == LineEnd(input, pos)
    requires eol != -1 ==> size == StoulHex(SizeText(input[pos..eol]))
    ensures From(input, pos) ==
      if eol == -1 || size.None? || size.value == 0 || eol + 2 + size.value > |input| then ""
      else input[eol + 2..eol + 2 + size.value] + From(input, eol + 2 + size.value + 2)
  {
    hide StoulHex, SizeText, Find, OccursAt, Dechunked;
    FindFrom(input, CRLF, pos);
    if eol == -1 {
      NoSizeLine(input[pos..]);
    } else {
      SizeLine(input[pos..], eol - pos);
      Slices(input, pos, eol);
      if size.Some? {
        FromSuffix(input, eol + 2, size.value + 2);
      }
    }
  }

  lemma FromStart(input: string)
    ensures From(input, 0) == Dechunked(input)
  {
    assert input[0..] == input;
  }

  lemma FromEnd(input: string, pos: nat)
    requires pos >= |input|
    ensures From(input, pos) == ""
  {
  }

  /** Searching from a position is searching what follows it. */
  lemma FindFrom(s: string, text: string, start: nat)
    requires start <= |s|
    ensures var i := Find(s[start..], text, 0); Find(s, text, start) == (if i == -1 then -1 else start + i)
  {
    hide Find, OccursAt;
    var t := s[start..];
    assert s == s[..start] + t;
    forall k | start <= k
      ensures OccursAt(s, text, k) <==> OccursAt(t, text, k - start)
    {
      ShiftedOccurs(s[..start], t, text, k - start);
    }
    var f := Find(t, text, 0);
    if f >= 0 {
      FoundAt(s, text, start, start + f);
    }
  }

  // ---- well-formed bodies -------------------------------------------------

  /** A chunk as sent: its size in hexadecimal, an extension (empty or starting with a
      semicolon, and without a CRLF) and its data. */
  datatype Chunk = Chunk(size: string, extension: string, data: string)

  predicate ValidSizeLine(size: string, extension: string, n: nat) {
    && size != [] && AllHex(size) && HexNumber(size) == n && n < ULONG_RANGE
    && (extension == "" || extension[0] == ';') && Find(extension, CRLF, 0) == -1
  }

  predicate ValidChunk(c: Chunk) {
    c.data != [] && ValidSizeLine(c.size, c.extension, |c.data|)
  }

  function ChunkText(c: Chunk): string {
    c.size + c.extension + CRLF + c.data + CRLF
  }

  function ChunkTexts(cs: seq<Chunk>): string {
    if cs == [] then "" else ChunkText(cs[0]) + ChunkTexts(cs[1..])
  }

  function Payload(cs: seq<Chunk>): string {
    if cs == [] then "" else cs[0].data + Payload(cs[1..])
  }

  lemma NoCrlfInside(size: string, extension: string, rest: string, k: nat)
    requires AllHex(size) && Find(extension, CRLF, 0) == -1
    requires k < |size + extension|
    ensures !OccursAt(size + extension + CRLF + rest, CRLF, k)
  {
    var line := size + extension;
    var s := line + CRLF + rest;
    assert s[k] == line[k];
    if k < |size| {
      assert IsHex(s[k]);
      NotHere(s, CRLF, k, 0);
    } else {
      var j := k - |size|;
      assert !OccursAt(extension, CRLF, j) && s[k] == extension[j];
      assert s[k + 1] == if k + 1 < |line| then extension[j + 1] else '\r';
      NotHere(s, CRLF, k, if s[k] != '\r' then 0 else 1);
    }
  }

  /** The size line is read back whatever the data behind it contains. */
  lemma SizeLineRead(size: string, extension: string, n: nat, rest: string)
    requires ValidSizeLine(size, extension, n)
    ensures var line := size + extension; var s := line + CRLF + rest;
      && Find(s, CRLF, 0) == |line| && s[..|line|] == line && s[|line| + 2..] == rest
      && StoulHex(SizeText(line)) == Some(n)
  {
    var line := size + extension;
    var s := line + CRLF + rest;
    forall k: nat | k < |line|
      ensures !OccursAt(s, CRLF, k)
    {
      NoCrlfInside(size, extension, rest, k);
    }
    FoundAt(s, CRLF, 0, |line|);
    assert Free(size, ';') by { assert forall i :: 0 <= i < |size| ==> IsHex(size[i]); }
    if extension == "" {
      assert line == size;
      NoneAt(line, ';');
    } else {
      assert line[..|size|] == size && line[|size|] == ';';
      FirstAt(line, ';', |size|);
    }
    assert SizeText(line) == size;
    StoulHexDigits(size);
  }

  lemma Regroup(a: string, b: string, c: string)
    ensures a + (b + c) == a + b + c
  {
  }

  /** Chunks that are there in full are decoded, and decoding goes on behind them. */
  lemma {:induction false} ChunksThenRest(cs: seq<Chunk>, rest: string)
    requires forall i :: 0 <= i < |cs| ==> ValidChunk(cs[i])
    ensures Dechunked(ChunkTexts(cs) + rest) == Payload(cs) + Dechunked(rest)
  {
    hide StoulHex, SizeText, ValidSizeLine, Find, Dechunked;
    if cs == [] {
      assert ChunkTexts(cs) + rest == rest && "" + Dechunked(rest) == Dechunked(rest);
    } else {
      var c, more := cs[0], ChunkTexts(cs[1..]) + rest;
      assert ValidChunk(c);
      var behind := c.data + CRLF + more;
      assert ChunkTexts(cs) + rest == c.size + c.extension + CRLF + behind;
      SizeLineRead(c.size, c.extension, |c.data|, behind);
      SizeLine(ChunkTexts(cs) + rest, |c.size + c.extension|);
      assert behind[..|c.data|] == c.data && behind[|c.data| + 2..] == more;
      ChunksThenRest(cs[1..], rest);
      Regroup(c.data, Payload(cs[1..]), Dechunked(rest));
    }
  }

  /** The last chunk, a chunk that has not arrived in full and a size that cannot be read
      end the decoding. */
  lemma DecodingEnds(size: string, extension: string, n: nat, rest: string)
    requires ValidSizeLine(size, extension, n) && (n == 0 || n > |rest|)
    ensures Dechunked(size + extension + CRLF + rest) == ""
  {
    hide StoulHex, SizeText, ValidSizeLine, Find, Dechunked;
    SizeLineRead(size, extension, n, rest);
    SizeLine(size + extension + CRLF + rest, |size + extension|);
  }

  lemma NotASize(c: char, line: string, rest: string)
    requires !IsHex(c) && !IsSpace(c) && c != '+' && c != '-' && c != ';' && Free([c] + line, '\r')
    ensures Dechunked([c] + line + CRLF + rest) == ""
  {
    var l := [c] + line;
    var s := l + CRLF + rest;
    forall k: nat | k < |l|
      ensures !OccursAt(s, CRLF, k)
    {
      assert s[k] == l[k];
      NotHere(s, CRLF, k, 0);
    }
    FoundAt(s, CRLF, 0, |l|);
    assert s[..|l|] == l;
    assert SizeText(l) != [] && SizeText(l)[0] == c;
    assert StoulHex(SizeText(l)).None?;
    hide Find, Dechunked, StoulHex, SizeText;
    SizeLine(s, |l|);
  }

  /** Every list of non-empty chunks, with any data and any extensions, decodes to the
      concatenation of the data; the last chunk ends it whatever trailers follow. */
  lemma ChunksDecode(cs: seq<Chunk>, zero: string, extension: string, trailers: string)
    requires forall i :: 0 <= i < |cs| ==> ValidChunk(cs[i])
    requires ValidSizeLine(zero, extension, 0)
    ensures Dechunked(ChunkTexts(cs) + (zero + extension + CRLF + trailers)) == Payload(cs)
  {
    hide Dechunked, ValidSizeLine, ValidChunk, ChunkTexts, Payload;
    ChunksThenRest(cs, zero + extension + CRLF + trailers);
    DecodingEnds(zero, extension, 0, trailers);
    assert Payload(cs) + "" == Payload(cs);
  }
}
