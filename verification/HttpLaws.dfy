/** The parser on messages of every kind of framing. A message here is a start line and
    headers, and behind the blank line any bytes. */
module HttpLaws {
  import opened Options
  import Decimals
  import opened UrlCodec
  import opened HttpText
  import opened NumberText
  import opened Chunked
  import ChunkLoop
  import opened HttpMessage
  import opened AriRequests

  /** A header block, with what the parser makes of its start line. */
  predicate IsHead(start: string, hs: seq<Pair>, target: Target) {
    IsLine(start) && AreHeaders(hs) && TargetParsed(start) == Some(target)
  }

  function Head(start: string, hs: seq<Pair>): string {
    Block([start] + HeaderLines(hs))
  }

  function TokensOf(hs: seq<Pair>, target: Target): Tokens {
    Added(hs, target.tokens)
  }

  /** Whatever the framing: header, verb, path and names are read from the head, and the body
      from the bytes behind it. */
  lemma HeadRead(start: string, hs: seq<Pair>, target: Target, rest: string, inflate: Inflate)
    requires IsHead(start, hs, target)
    ensures var h, tokens := Head(start, hs), TokensOf(hs, target);
      |h| <= |h + rest| && Parsed(h + rest, inflate) ==
      match BodyOf(h + rest, |h|, tokens, inflate)
      case None => None
      case Some(body) => Some(Message(h, target.verb, target.path, tokens, body))
  {
    hide IsLine, AreHeaders, TargetParsed, Added, Block, HeaderLines, HeaderOf, RequestLine, HeaderTokens, SkipFirst,
      Pieces, BodyOf, Find, OccursAt, Lines;
    Cut(start, hs, rest);
    HeadersRead(hs, target.tokens);
  }

  // ---- chunked ------------------------------------------------------------

  lemma ChunkedRaw(h: string, rest: string, tokens: Tokens)
    requires Element(tokens, "Transfer-Encoding") == "chunked"
    ensures RawBody(h + rest, |h|, tokens) == ChunkLoop.Result(rest)
  {
    hide Element, ChunkLoop.Result, Boundary, MultipartEnd, Stoul;
    assert (h + rest)[|h|..] == rest;
  }

  /** Chunked transfer coding goes before a length, and the body is the chunks' data. */
  lemma ChunkedRead(start: string, hs: seq<Pair>, target: Target, cs: seq<Chunk>, zero: string, extension: string,
                    trailers: string, inflate: Inflate)
    requires IsHead(start, hs, target)
    requires Element(TokensOf(hs, target), "Transfer-Encoding") == "chunked"
    requires Element(TokensOf(hs, target), "Content-Encoding") == ""
    requires forall i :: 0 <= i < |cs| ==> ValidChunk(cs[i])
    requires ValidSizeLine(zero, extension, 0)
    requires |ChunkTexts(cs) + (zero + extension + CRLF + trailers)| < ULONG_RANGE - 2
    ensures var m := Parsed(Head(start, hs) + (ChunkTexts(cs) + (zero + extension + CRLF + trailers)), inflate);
      m.Some? && m.value.body == Payload(cs) && m.value.verb == target.verb && m.value.path == target.path
  {
    hide IsHead, ValidChunk, ValidSizeLine, ChunkTexts, Payload, Parsed, Element, RawBody, ChunkLoop.Result, Head, TokensOf;
    var body := ChunkTexts(cs) + (zero + extension + CRLF + trailers);
    HeadRead(start, hs, target, body, inflate);
    ChunkedRaw(Head(start, hs), body, TokensOf(hs, target));
    ChunkLoop.ChunksLoopEnds(cs, zero, extension, trailers);
    ChunkLoop.ResultIff(body, Payload(cs));
  }

  // ---- a length -----------------------------------------------------------

  /** Without chunks the length counts; of a body that is shorter all is taken, and what
      comes after a longer one is not. */
  lemma LengthRaw(h: string, body: string, rest: string, tokens: Tokens, n: nat)
    requires h != "" && n < 18446744073709551616 && Element(tokens, "Transfer-Encoding") != "chunked"
    requires Element(tokens, "Content-Length") == Decimals.Decimal(n)
    requires |body| == n || (|body| < n && rest == "")
    ensures RawBody(h + (body + rest), |h|, tokens) == Some(body)
  {
    StoulDecimal(n);
    ClampedIs(h, body, rest, n);
    hide Stoul, Element, ChunkLoop.Result, Boundary, MultipartEnd, Decimals.Decimal, Clamped;
  }

  lemma Middle(h: string, x: string, y: string)
    ensures (h + (x + y))[|h|..|h| + |x|] == x
  {
  }

  lemma ClampedIs(h: string, body: string, rest: string, n: nat)
    requires |body| == n || (|body| < n && rest == "")
    ensures Clamped(h + (body + rest), |h|, n) == body
  {
    Middle(h, body, rest);
    if |body| < n {
      assert body + rest == body && (h + body)[|h|..] == body;
    }
  }

  /** A length that is no number makes the parser throw, and is no length for the framing. */
  lemma BadLength(h: string, rest: string, tokens: Tokens)
    requires h != "" && Element(tokens, "Transfer-Encoding") != "chunked"
    requires Element(tokens, "Content-Length") != "" && Stoul(Element(tokens, "Content-Length")).None?
    ensures RawBody(h + rest, |h|, tokens).None?
  {
  }

  // ---- neither ------------------------------------------------------------

  /** With neither and no boundary there is no body. */
  lemma NoBody(h: string, rest: string, tokens: Tokens)
    requires Element(tokens, "Transfer-Encoding") == "" && Element(tokens, "Content-Length") == ""
    requires Element(tokens, "Content-Type") == ""
    ensures RawBody(h + rest, |h|, tokens) == Some("")
  {
    NoBoundary();
    hide Element, Boundary, MultipartEnd, Stoul;
  }

  lemma NoBoundary()
    ensures Boundary("") == ""
  {
  }

  /** A compressed body is inflated, by the method its header names. */
  lemma Inflated(h: string, rest: string, tokens: Tokens, inflate: Inflate, raw: string)
    requires RawBody(h + rest, |h|, tokens) == Some(raw)
    ensures var encoding := Element(tokens, "Content-Encoding");
      BodyOf(h + rest, |h|, tokens, inflate) ==
      Some(if raw != "" && encoding in ["gzip", "deflate"] then inflate(raw, encoding) else raw)
  {
    hide RawBody, Element;
  }

  // ---- multipart ----------------------------------------------------------

  predicate IsBoundary(b: string) {
    b != "" && Free(b, ';') && b[|b| - 1] !in " \r\n"
  }

  /** The boundary is what follows its name in the content type, up to a semicolon and
      without white space at its end. */
  lemma BoundaryRead(b: string, space: string, tail: string)
    requires IsBoundary(b) && IsBlank(space) && (tail == "" || tail[0] == ';')
    ensures Boundary("multipart/form-data; boundary=" + (b + space + tail)) == b
  {
    var text := b + space + tail;
    var ct := "multipart/form-data; boundary=" + text;
    FoundInFront("multipart/form-data", "; boundary=" + text);
    assert ct == "multipart/form-data" + ("; boundary=" + text);
    BoundaryAt(text);
    assert Free(b + space, ';');
    assert text[..|b + space|] == b + space;
    if tail == "" {
      assert text == b + space;
      NoneAt(text, ';');
    } else {
      FirstAt(text, ';', |b + space|);
    }
    assert ct[30..] == text;
    TrimBlank(b, space);
    hide Find, TrimEnd;
  }

  lemma PlainBoundary(b: string)
    requires IsBoundary(b)
    ensures Boundary("multipart/form-data; boundary=" + b) == b
  {
    hide Boundary;
    assert b + "" + "" == b;
    BoundaryRead(b, "", "");
  }

  /** Names are compared without regard to the case of letters, by their codes. */
  lemma LowerIs(c: char)
    ensures LowerChar(c) as int == if 65 <= c as int <= 90 then c as int + 32 else c as int
  {
  }

  predicate IsBlank(space: string) {
    forall i :: 0 <= i < |space| ==> space[i] == ' ' || space[i] == '\r' || space[i] == '\n'
  }

  lemma {:induction false} TrimBlank(b: string, space: string)
    requires b != "" && b[|b| - 1] !in " \r\n" && IsBlank(space)
    ensures TrimEnd(b + space) == b
  {
    if space == "" {
      assert b + space == b;
      TrimNothing(b);
    } else {
      var n := |space| - 1;
      TrimBlank(b, space[..n]);
      assert (b + space)[..|b + space| - 1] == b + space[..n] && (b + space)[|b + space| - 1] == space[n];
    }
  }

  lemma TrimNothing(b: string)
    requires b != "" && b[|b| - 1] !in " \r\n"
    ensures TrimEnd(b) == b
  {
  }

  lemma FoundInFront(text: string, rest: string)
    ensures Find(text + rest, text, 0) == 0
  {
    assert OccursAt(text + rest, text, 0);
  }

  lemma BoundaryAt(b: string)
    ensures Find("multipart/form-data; boundary=" + b, "boundary=", 0) == 21
  {
    var p, t := "multipart/form-data; ", "boundary=" + b;
    var ct := "multipart/form-data; boundary=" + b;
    assert ct == p + t && |p| == 21;
    assert Free(p, 'b');
    forall k: nat | k < 21
      ensures !OccursAt(ct, "boundary=", k)
    {
      assert ct[k] == p[k];
      NotHere(ct, "boundary=", k, 0);
    }
    ShiftedOccurs(p, t, "boundary=", 0);
    assert OccursAt(t, "boundary=", 0);
    FoundAt(ct, "boundary=", 0, 21);
  }

  function ClosingLine(b: string, rest: string): string {
    "--" + b + "--" + if CRLF <= rest then CRLF else ""
  }

  /** A multipart body ends with the first closing boundary and the line end behind it. */
  lemma MultipartEnds(h: string, content: string, b: string, rest: string)
    requires var m := h + (content + ("--" + b + "--" + rest)); Find(m, "--" + b + "--", |h|) == |h| + |content|
    ensures var m := h + (content + ("--" + b + "--" + rest));
      && MultipartEnd(m, b, |h|) == |h| + |content| + |ClosingLine(b, rest)|
      && MultipartEnd(m, b, |h|) <= |m|
      && m[|h|..MultipartEnd(m, b, |h|)] == content + ClosingLine(b, rest)
  {
    hide Find;
    var t := "--" + b + "--";
    var m := h + (content + (t + rest));
    var end := |h| + |content| + |t|;
    BehindClosing(h, content, t, rest);
    if CRLF <= rest {
      ClosedWithLine(h, content, t, rest);
    } else {
      Regroup(content, t, rest);
      Middle(h, content + t, rest);
    }
  }

  lemma BehindClosing(h: string, content: string, t: string, rest: string)
    ensures var m, end := h + (content + (t + rest)), |h| + |content| + |t|;
      && |m| == end + |rest|
      && (end + 2 <= |m| && m[end] == '\r' && m[end + 1] == '\n' <==> CRLF <= rest)
  {
    var m, end := h + (content + (t + rest)), |h| + |content| + |t|;
    assert m[end..] == rest;
    if |rest| >= 2 {
      assert m[end] == rest[0] && m[end + 1] == rest[1];
      assert CRLF <= rest <==> rest[..2] == CRLF;
      assert rest[..2] == [rest[0], rest[1]];
    }
  }

  lemma ClosedWithLine(h: string, content: string, t: string, rest: string)
    requires CRLF <= rest
    ensures var m, end := h + (content + (t + rest)), |h| + |content| + |t|;
      end + 2 <= |m| && m[|h|..end + 2] == content + (t + CRLF)
  {
    var more := rest[2..];
    assert rest == CRLF + more;
    assert content + (t + rest) == (content + (t + CRLF)) + more;
    Middle(h, content + (t + CRLF), more);
  }

  lemma MultipartRaw(h: string, content: string, b: string, rest: string, tokens: Tokens)
    requires IsBoundary(b) && Element(tokens, "Content-Type") == "multipart/form-data; boundary=" + b
    requires Element(tokens, "Transfer-Encoding") == "" && Element(tokens, "Content-Length") == ""
    requires var m := h + (content + ("--" + b + "--" + rest)); Find(m, "--" + b + "--", |h|) == |h| + |content|
    ensures RawBody(h + (content + ("--" + b + "--" + rest)), |h|, tokens) == Some(content + ClosingLine(b, rest))
  {
    hide Element, Boundary, MultipartEnd, Find, ClosingLine, Stoul, ChunkLoop.Result;
    PlainBoundary(b);
    MultipartEnds(h, content, b, rest);
  }

  // ---- framing ------------------------------------------------------------

  /** For the framing, unlike for the names, the last header of a kind counts. */
  lemma {:induction false} LastCounts(hs: seq<Pair>, f: Framing, name: string, value: string)
    ensures var g := Framed(hs + [(name, value)], f); var before := Framed(hs, f);
      && g.length == (if name == "Content-Length" then value else before.length)
      && g.coding == (if name == "Transfer-Encoding" then value else before.coding)
      && g.contentType == (if name == "Content-Type" then value else before.contentType)
    decreases |hs|
  {
    if hs == [] {
      assert hs + [(name, value)] == [(name, value)] && [(name, value)][1..] == [];
      assert Framed([(name, value)][1..], FramedBy((name, value), f)) == FramedBy((name, value), f);
      assert Framed([(name, value)], f) == FramedBy((name, value), f);
    } else {
      assert (hs + [(name, value)])[1..] == hs[1..] + [(name, value)] && (hs + [(name, value)])[0] == hs[0];
      LastCounts(hs[1..], FramedBy(hs[0], f), name, value);
    }
  }

  /** The length of a message is told by its headers and what stands behind them. */
  lemma LengthByFraming(start: string, hs: seq<Pair>, rest: string)
    requires IsLine(start) && AreHeaders(hs)
    ensures var h := Head(start, hs);
      |h| <= |h + rest| && MessageLengthOf(h + rest) == FramedLength(h + rest, |h|, Framed(hs, Framing("", "", "")))
  {
    hide IsLine, AreHeaders, Block, HeaderLines, SkipFirst, Pieces, Find, OccursAt, Lines, Framed, WithHeaders, FramedLength,
      HeaderOf, RequestLine;
    Cut(start, hs, rest);
    FramingRead(hs, Framing("", "", ""));
  }

  /** Chunked: up to and with the first end-of-chunks text behind the head; 0 while there is
      none. A length: that many bytes behind the head, modulo 2^64; 0 if it is no number.
      Multipart: up to the closing line; 0 while it is missing. Otherwise the head alone. */
  lemma FramingRules(h: string, rest: string, f: Framing, n: nat)
    requires n < 18446744073709551616
    ensures f.coding == "chunked" ==>
      var at := Find(h + rest, "0\r\n\r\n", |h|);
      FramedLength(h + rest, |h|, f) == if at == -1 then 0 else at + 5
    ensures f.coding != "chunked" && f.length == Decimals.Decimal(n) ==>
      FramedLength(h + rest, |h|, f) == (|h| + n) % 18446744073709551616
    ensures f.coding != "chunked" && f.length != "" && Stoul(f.length).None? ==> FramedLength(h + rest, |h|, f) == 0
    ensures f.coding != "chunked" && f.length == "" && f.contentType == "" ==> FramedLength(h + rest, |h|, f) == |h|
  {
    StoulDecimal(n);
    NoBoundary();
    hide Find, Stoul, Boundary, MultipartEnd, Decimals.Decimal;
  }

  lemma MultipartFramed(h: string, content: string, b: string, rest: string, f: Framing)
    requires IsBoundary(b) && f == Framing("", "", "multipart/form-data; boundary=" + b)
    requires var m := h + (content + ("--" + b + "--" + rest)); Find(m, "--" + b + "--", |h|) == |h| + |content|
    ensures FramedLength(h + (content + ("--" + b + "--" + rest)), |h|, f) == |h| + |content| + |ClosingLine(b, rest)|
  {
    hide Boundary, MultipartEnd, Find, ClosingLine, Stoul;
    PlainBoundary(b);
    MultipartEnds(h, content, b, rest);
  }

  // ---- start lines and lines that say nothing -----------------------------

  /** A query field without an equals sign and a header line without a colon are skipped. */
  lemma Skipped(text: string, tokens: Tokens)
    ensures Free(text, '=') ==> FieldToken(text, tokens) == Some(tokens)
    ensures Free(text, ':') ==> HeaderToken(text, tokens) == tokens
  {
    hide Adding, PctDecoded;
    if Free(text, '=') { NoneAt(text, '='); }
    if Free(text, ':') { NoneAt(text, ':'); }
  }

  /** The value of a header starts two characters behind its colon, whatever the first of
      them is, and header lines end at the first empty one. */
  lemma HeaderShape(name: string, c: char, value: string, tokens: Tokens, more: seq<string>)
    requires Free(name, ':')
    ensures HeaderToken(name + ":" + [c] + value, tokens) == Adding(tokens, name, value)
    ensures HeaderTokens(["\r"] + more, tokens) == tokens && HeaderTokens([""] + more, tokens) == tokens
  {
    var line := name + ":" + [c] + value;
    assert line[..|name|] == name && line[|name| + 2..] == value;
    FirstAt(line, ':', |name|);
    hide Adding;
    assert StripCr((["\r"] + more)[0]) == "" && StripCr(([""] + more)[0]) == "";
  }

  /** Without a space a start line has no verb and no path; with one only, all behind it is
      the target; and behind the last of several stands the protocol. */
  lemma StartLines(verb: string, target: string, tail: string)
    requires Free(verb, ' ') && Free(target, ' ') && Free(tail, ' ')
    ensures TargetParsed(verb) == Some(Target("", "", map[]))
    ensures var line := verb + " " + target; IndexOf(line, ' ') < |line| && TargetOf(line) == target
    ensures var line := verb + " " + target + " " + tail; IndexOf(line, ' ') < |line| && TargetOf(line) == target
  {
    NoneAt(verb, ' ');
    OneSpace(verb, target);
    TwoSpaces(verb, target, tail);
    hide TargetOf, PctDecoded, QueryTokens, Pieces;
  }

  lemma OneSpace(verb: string, target: string)
    requires Free(verb, ' ') && Free(target, ' ')
    ensures var line := verb + " " + target; IndexOf(line, ' ') == |verb| < |line| && TargetOf(line) == target
  {
    var line, n := verb + " " + target, |verb|;
    assert line[..n] == verb && line[n] == ' ' && line[n + 1..] == target;
    FirstAt(line, ' ', n);
    assert forall k :: n < k < |line| ==> line[k] == target[k - n - 1];
    assert LastIndexOf(line, ' ') == n;
  }

  lemma TwoSpaces(verb: string, target: string, tail: string)
    requires Free(verb, ' ') && Free(target, ' ') && Free(tail, ' ')
    ensures var line := verb + " " + target + " " + tail; IndexOf(line, ' ') == |verb| < |line| && TargetOf(line) == target
  {
    var line, n, m := verb + " " + target + " " + tail, |verb|, |verb| + 1 + |target|;
    assert line[..n] == verb && line[n] == ' ' && line[n + 1..m] == target && line[m] == ' ';
    FirstAt(line, ' ', n);
    assert forall k :: m < k < |line| ==> line[k] == tail[k - m - 1];
    assert LastIndexOf(line, ' ') == m;
  }
}
