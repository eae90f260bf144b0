/** The requests the agent sends to Asterisk's REST interface, as the text it writes. */
module AriRequests {
  import opened Options
  import opened Decimals
  import opened UrlCodec
  import opened HttpText
  import opened NumberText
  import ChunkLoop
  import opened HttpMessage

  /** A path is literal text and percent-encoded arguments. */
  datatype Part = Lit(text: string) | Arg(value: string)

  datatype Request = Request(verb: string, path: seq<Part>, query: seq<Pair>, json: Option<string>)

  predicate IsBytePart(p: Part) {
    IsBytes(PlainPart(p))
  }

  predicate BytePath(path: seq<Part>) {
    forall i :: 0 <= i < |path| ==> IsBytePart(path[i])
  }

  predicate ByteQuery(query: seq<Pair>) {
    forall i :: 0 <= i < |query| ==> IsBytes(query[i].1)
  }

  function PartText(p: Part): string
    requires IsBytePart(p)
  {
    if p.Lit? then p.text else UrlEncoded(p.value)
  }

  function PathText(path: seq<Part>): string
    requires BytePath(path)
  {
    if path == [] then "" else PartText(path[0]) + PathText(path[1..])
  }

  function FieldText(field: Pair): string
    requires IsBytes(field.1)
  {
    field.0 + "=" + UrlEncoded(field.1)
  }

  function QueryText(query: seq<Pair>): string
    requires ByteQuery(query)
  {
    if query == [] then ""
    else if |query| == 1 then FieldText(query[0])
    else FieldText(query[0]) + "&" + QueryText(query[1..])
  }

  function TargetText(r: Request): string
    requires BytePath(r.path) && ByteQuery(r.query)
  {
    PathText(r.path) + (if r.query == [] then "" else "?" + QueryText(r.query))
  }

  function BodyText(r: Request): string {
    if r.json.None? then "" else r.json.value
  }

  function Headers(r: Request, host: string, auth: string): seq<Pair> {
    [("Host", host), ("Authorization", "Basic " + auth)]
    + (if r.json.None? then [] else [("Content-Type", "application/json")])
    + [("Content-Length", Decimal(|BodyText(r)|)), ("Connection", "close")]
  }

  function HeaderLine(h: Pair): string {
    h.0 + ": " + h.1
  }

  function HeaderLines(hs: seq<Pair>): seq<string> {
    if hs == [] then [] else [HeaderLine(hs[0])] + HeaderLines(hs[1..])
  }

  function StartLine(r: Request): string
    requires BytePath(r.path) && ByteQuery(r.query)
  {
    r.verb + " " + TargetText(r) + " HTTP/1.1"
  }

  function RequestLines(r: Request, host: string, auth: string): seq<string>
    requires BytePath(r.path) && ByteQuery(r.query)
  {
    [StartLine(r)] + HeaderLines(Headers(r, host, auth))
  }

  /** The request on the wire. */
  function Wire(r: Request, host: string, auth: string): string
    requires BytePath(r.path) && ByteQuery(r.query)
  {
    Block(RequestLines(r, host, auth)) + BodyText(r)
  }

  // ---- the text, written out ----------------------------------------------

  lemma BlockCons(line: string, lines: seq<string>)
    ensures Block([line] + lines) == line + CRLF + Block(lines)
  {
    assert ([line] + lines)[1..] == lines;
  }

  lemma HeaderLinesCons(h: Pair, hs: seq<Pair>)
    ensures HeaderLines([h] + hs) == [HeaderLine(h)] + HeaderLines(hs)
  {
    hide HeaderLine;
    assert ([h] + hs)[1..] == hs;
  }

  /** One header in front of others. */
  lemma HeaderText(h: Pair, hs: seq<Pair>)
    ensures Block(HeaderLines([h] + hs)) == h.0 + ": " + h.1 + CRLF + Block(HeaderLines(hs))
  {
    hide Block, HeaderLines;
    HeaderLinesCons(h, hs);
    BlockCons(HeaderLine(h), HeaderLines(hs));
  }

  function LengthText(n: nat): string {
    "Content-Length: " + Decimal(n) + CRLF + "Connection: close" + CRLF + CRLF
  }

  /** What follows the Authorization line, up to the body. */
  function Tail(r: Request): string {
    (if r.json.None? then "" else "Content-Type: application/json" + CRLF) + LengthText(|BodyText(r)|)
  }

  lemma NoHeadersText()
    ensures Block(HeaderLines([])) == CRLF
  {
  }

  lemma CloseText()
    ensures Block(HeaderLines([("Connection", "close")])) == "Connection: close" + CRLF + CRLF
  {
    hide Block, HeaderLines;
    var close: Pair := ("Connection", "close");
    NoHeadersText();
    HeaderText(close, []);
    assert [close] + [] == [close];
    assert "Connection" + ": " + "close" == "Connection: close";
  }

  lemma LengthAndClose(n: nat)
    ensures Block(HeaderLines([("Content-Length", Decimal(n)), ("Connection", "close")])) == LengthText(n)
  {
    hide Block, HeaderLines, Decimal;
    var length: Pair, close: Pair := ("Content-Length", Decimal(n)), ("Connection", "close");
    CloseText();
    HeaderText(length, [close]);
    assert [length] + [close] == [length, close];
    assert "Content-Length" + ": " == "Content-Length: ";
  }

  lemma TailText(r: Request)
    ensures var kind: seq<Pair> := if r.json.None? then [] else [("Content-Type", "application/json")];
      Block(HeaderLines(kind + [("Content-Length", Decimal(|BodyText(r)|)), ("Connection", "close")])) == Tail(r)
  {
    hide Block, HeaderLines, Decimal, LengthText;
    var rest: seq<Pair> := [("Content-Length", Decimal(|BodyText(r)|)), ("Connection", "close")];
    LengthAndClose(|BodyText(r)|);
    HeaderText(("Content-Type", "application/json"), rest);
    assert [] + rest == rest;
    assert "Content-Type" + ": " + "application/json" == "Content-Type: application/json";
  }

  /** The wire format literally, in the order the builders write it. */
  lemma WireText(r: Request, host: string, auth: string)
    requires BytePath(r.path) && ByteQuery(r.query)
    ensures Wire(r, host, auth) ==
      r.verb + " " + TargetText(r) + " HTTP/1.1" + CRLF
      + ("Host: " + host + CRLF)
      + ("Authorization: Basic " + auth + CRLF)
      + Tail(r) + BodyText(r)
  {
    hide Block, HeaderLines, TargetText, Tail, Decimal, BytePath, ByteQuery, BodyText;
    var kind: seq<Pair> := if r.json.None? then [] else [("Content-Type", "application/json")];
    var tail := kind + [("Content-Length", Decimal(|BodyText(r)|)), ("Connection", "close")];
    var login: Pair := ("Authorization", "Basic " + auth);
    TailText(r);
    HeaderText(login, tail);
    HeaderText(("Host", host), [login] + tail);
    assert Headers(r, host, auth) == [("Host", host)] + ([login] + tail);
    BlockCons(StartLine(r), HeaderLines(Headers(r, host, auth)));
    assert "Authorization" + ": " + ("Basic " + auth) == "Authorization: Basic " + auth;
    assert "Host" + ": " + host == "Host: " + host;
  }

  // ---- what the parser must recover ---------------------------------------

  function PlainPart(p: Part): string {
    if p.Lit? then p.text else p.value
  }

  function PlainPath(path: seq<Part>): string {
    if path == [] then "" else PlainPart(path[0]) + PlainPath(path[1..])
  }

  /** The tokens after adding pairs in order: the first pair of a name stays. */
  function Added(pairs: seq<Pair>, tokens: Tokens): Tokens {
    if pairs == [] then tokens else Added(pairs[1..], Adding(tokens, pairs[0].0, pairs[0].1))
  }

  predicate Mentions(pairs: seq<Pair>, key: string) {
    exists i :: 0 <= i < |pairs| && Lower(pairs[i].0) == Lower(key)
  }

  predicate LitChar(c: char) {
    Unreserved(c) || c == '/'
  }

  predicate LitText(s: string) {
    forall i :: 0 <= i < |s| ==> LitChar(s[i])
  }

  predicate SoundPart(p: Part) {
    if p.Lit? then LitText(p.text) else IsBytes(p.value)
  }

  predicate DistinctNames(query: seq<Pair>) {
    forall i, j :: 0 <= i < j < |query| ==> Lower(query[i].0) != Lower(query[j].0)
  }

  /** A request the round trip is claimed for: the literal parts are made of letters and
      the like, argument values are any bytes, and no query name is one that frames a
      body. */
  predicate Sound(r: Request) {
    && AllUnreserved(r.verb)
    && (forall i :: 0 <= i < |r.path| ==> SoundPart(r.path[i]))
    && (forall i :: 0 <= i < |r.query| ==> AllUnreserved(r.query[i].0) && IsBytes(r.query[i].1))
    && DistinctNames(r.query)
    && !Mentions(r.query, "Transfer-Encoding")
    && !Mentions(r.query, "Content-Encoding")
    && !Mentions(r.query, "Content-Length")
  }

  predicate OneLine(s: string) {
    Free(s, '\r') && Free(s, '\n')
  }

  lemma SoundIsBytes(r: Request)
    requires Sound(r)
    ensures BytePath(r.path) && ByteQuery(r.query)
  {
    forall i | 0 <= i < |r.path|
      ensures IsBytePart(r.path[i])
    {
      assert SoundPart(r.path[i]);
    }
  }

  // ---- the path -----------------------------------------------------------

  lemma {:induction false} DecodeLit(s: string, rest: string)
    requires LitText(s)
    ensures PctDecoded(s + rest) == PrependAll(s, PctDecoded(rest))
  {
    if s == [] {
      assert s + rest == rest;
      PrependNothing(PctDecoded(rest));
    } else {
      DecodeLit(s[1..], rest);
      assert (s + rest)[1..] == s[1..] + rest;
      assert LitChar((s + rest)[0]);
      PrependOnto(s, PctDecoded(rest));
    }
  }

  /** The path is recovered with its arguments decoded. */
  lemma {:induction false} PathRead(path: seq<Part>)
    requires forall i :: 0 <= i < |path| ==> SoundPart(path[i])
    requires BytePath(path)
    ensures PctDecoded(PathText(path)) == Some(PlainPath(path))
  {
    hide UrlEncoded, LitText, IsBytes;
    if path == [] {
      assert PctDecoded("") == Some("");
    } else {
      hide PctDecoded;
      var p, rest := path[0], PathText(path[1..]);
      assert SoundPart(p) && IsBytePart(p);
      PathRead(path[1..]);
      if p.Lit? { DecodeLit(p.text, rest); } else { DecodeEncoded(p.value, rest); }
    }
  }

  // ---- the query ----------------------------------------------------------

  lemma FieldSplit(key: string, value: string)
    requires AllUnreserved(key) && forall i :: 0 <= i < |value| ==> Plain(value[i])
    ensures var text := key + "=" + value;
      && Free(text, '&') && IndexOf(text, '=') == |key| < |text| && text[..|key|] == key && text[|key| + 1..] == value
  {
    var text, n := key + "=" + value, |key|;
    assert text[..n] == key && text[n + 1..] == value;
    assert Free(text, '&') by {
      assert forall i :: 0 <= i < n ==> Unreserved(key[i]);
    }
    assert Free(key, '=') by {
      assert forall i :: 0 <= i < n ==> Unreserved(key[i]);
    }
    FirstAt(text, '=', n);
  }

  lemma FieldRead(field: Pair, tokens: Tokens)
    requires AllUnreserved(field.0) && IsBytes(field.1)
    ensures Free(FieldText(field), '&')
    ensures FieldToken(FieldText(field), tokens) == Some(Adding(tokens, field.0, field.1))
  {
    EncodedIsPlain(field.1);
    UnreservedUnchanged(field.0);
    UrlRoundTrip(field.0);
    UrlRoundTrip(field.1);
    FieldSplit(field.0, UrlEncoded(field.1));
    hide UrlEncoded, PctDecoded, IsBytes, Adding, AllUnreserved, Free, Plain, IndexOf;
  }

  /** Every query field is recovered with its value decoded. */
  lemma {:induction false} QueryRead(query: seq<Pair>, tokens: Tokens)
    requires forall i :: 0 <= i < |query| ==> AllUnreserved(query[i].0) && IsBytes(query[i].1)
    requires ByteQuery(query)
    ensures QueryTokens(Pieces(QueryText(query), '&'), tokens) == Some(Added(query, tokens))
  {
    hide FieldText, FieldToken, AllUnreserved, IsBytes, Adding, Pieces;
    if query == [] {
      PiecesNone('&');
    } else {
      var field, rest := query[0], query[1..];
      FieldRead(field, tokens);
      FieldSize(field);
      if |query| == 1 {
        PiecesLast(FieldText(field), '&');
        assert [FieldText(field)][1..] == [] && rest == [];
      } else {
        PiecesCons(FieldText(field), '&', QueryText(rest));
        var pieces := Pieces(QueryText(rest), '&');
        assert ([FieldText(field)] + pieces)[1..] == pieces;
        QueryRead(rest, Adding(tokens, field.0, field.1));
      }
    }
  }

  lemma FieldSize(field: Pair)
    requires IsBytes(field.1)
    ensures FieldText(field) != []
  {
  }

  // ---- the start line -----------------------------------------------------

  /** Characters of a request target: none is a space or ends a line. */
  predicate TargetChar(c: char) {
    LitChar(c) || c == '%' || c == '?' || c == '=' || c == '&'
  }

  predicate IsTarget(t: string) {
    forall i :: 0 <= i < |t| ==> TargetChar(t[i])
  }

  lemma {:induction false} PathChars(path: seq<Part>)
    requires forall i :: 0 <= i < |path| ==> SoundPart(path[i])
    requires BytePath(path)
    ensures IsTarget(PathText(path)) && Free(PathText(path), '?')
  {
    if path != [] {
      var p := path[0];
      assert SoundPart(p) && IsBytePart(p);
      PathChars(path[1..]);
      if p.Arg? {
        EncodedIsPlain(p.value);
      }
      hide UrlEncoded, IsBytes;
      assert forall i :: 0 <= i < |PartText(p)| ==> TargetChar(PartText(p)[i]) && PartText(p)[i] != '?';
    }
  }

  lemma FieldChars(field: Pair)
    requires AllUnreserved(field.0) && IsBytes(field.1)
    ensures IsTarget(FieldText(field))
  {
    EncodedIsPlain(field.1);
    hide UrlEncoded, IsBytes;
  }

  lemma TargetJoin(s: string, t: string)
    requires IsTarget(s) && IsTarget(t)
    ensures IsTarget(s + "&" + t)
  {
  }

  lemma {:induction false} QueryChars(query: seq<Pair>)
    requires forall i :: 0 <= i < |query| ==> AllUnreserved(query[i].0) && IsBytes(query[i].1)
    requires ByteQuery(query)
    ensures IsTarget(QueryText(query))
  {
    hide FieldText, IsBytes, AllUnreserved, TargetChar;
    if query != [] {
      FieldChars(query[0]);
      QueryChars(query[1..]);
      TargetJoin(FieldText(query[0]), QueryText(query[1..]));
    }
  }

  lemma NoQuestionMark(path: string)
    requires Free(path, '?')
    ensures path + "" == path && IndexOf(path, '?') == |path|
  {
    NoneAt(path, '?');
  }

  lemma QuestionMark(path: string, query: string)
    requires IsTarget(path) && Free(path, '?') && IsTarget(query)
    ensures var t := path + "?" + query;
      && IsTarget(t) && IndexOf(t, '?') == |path| && t[..|path|] == path && t[|path| + 1..] == query
  {
    var t := path + "?" + query;
    assert t[..|path|] == path;
    FirstAt(t, '?', |path|);
  }

  /** The target is made of target characters, and its path and query are told apart by
      the first question mark. */
  lemma TargetRead(r: Request)
    requires BytePath(r.path) && ByteQuery(r.query)
    requires IsTarget(PathText(r.path)) && Free(PathText(r.path), '?') && IsTarget(QueryText(r.query))
    ensures var t, n := TargetText(r), |PathText(r.path)|;
      && IsTarget(t) && IndexOf(t, '?') == n <= |t| && t[..n] == PathText(r.path)
      && (r.query == [] ==> n == |t|)
      && (r.query != [] ==> n < |t| && t[n + 1..] == QueryText(r.query))
  {
    hide PathText, QueryText, IsTarget, BytePath, ByteQuery, IndexOf;
    if r.query == [] {
      NoQuestionMark(PathText(r.path));
    } else {
      QuestionMark(PathText(r.path), QueryText(r.query));
      assert TargetText(r) == PathText(r.path) + "?" + QueryText(r.query);
    }
  }

  /** A verb, a target and the protocol version are told apart by the spaces. */
  lemma LineSplit(verb: string, target: string)
    requires AllUnreserved(verb) && IsTarget(target)
    ensures var line := verb + " " + target + " HTTP/1.1";
      && IndexOf(line, ' ') == |verb| < |line| && line[..|verb|] == verb && TargetOf(line) == target && IsLine(line)
  {
    var line := verb + " " + target + " HTTP/1.1";
    var n, m := |verb|, |verb| + 1 + |target|;
    assert line[..n] == verb && line[n] == ' ' && line[n + 1..m] == target && line[m..] == " HTTP/1.1";
    assert Free(verb, ' ') by { assert forall i :: 0 <= i < n ==> Unreserved(verb[i]); }
    FirstAt(line, ' ', n);
    forall i | 0 <= i < |line|
      ensures line[i] != '\r' && line[i] != '\n' && (i > m ==> line[i] != ' ')
    {
      if i < n {
        assert Unreserved(verb[i]);
      } else if n < i < m {
        assert TargetChar(target[i - n - 1]);
      } else if i >= m {
        assert line[i] == " HTTP/1.1"[i - m];
      }
    }
    assert line[m] == ' ' && LastIndexOf(line, ' ') == m;
  }

  lemma TargetSplit(line: string, path: string, tokens: Tokens)
    requires IndexOf(line, ' ') < |line|
    requires var t := TargetOf(line); var q := IndexOf(t, '?');
      && PctDecoded(t[..q]) == Some(path)
      && (if q == |t| then tokens == map[] else QueryTokens(Pieces(t[q + 1..], '&'), map[]) == Some(tokens))
    ensures TargetParsed(line) == Some(Target(line[..IndexOf(line, ' ')], path, tokens))
  {
    hide PctDecoded, QueryTokens, Pieces, TargetOf, IndexOf;
  }

  /** The start line gives back the verb, the path and every query field. */
  lemma StartRead(r: Request)
    requires Sound(r) && BytePath(r.path) && ByteQuery(r.query)
    ensures IsLine(StartLine(r))
    ensures TargetParsed(StartLine(r)) == Some(Target(r.verb, PlainPath(r.path), Added(r.query, map[])))
  {
    PathChars(r.path);
    QueryChars(r.query);
    TargetRead(r);
    LineSplit(r.verb, TargetText(r));
    PathRead(r.path);
    QueryRead(r.query, map[]);
    assert r.query == [] ==> Added(r.query, map[]) == map[];
    hide PathText, QueryText, TargetText, PlainPath, PctDecoded, QueryTokens, Pieces, IsTarget, TargetOf, IsLine,
      TargetParsed, Sound, Added, IndexOf, BytePath, ByteQuery;
    TargetSplit(StartLine(r), PlainPath(r.path), Added(r.query, map[]));
  }

  // ---- the headers --------------------------------------------------------

  predicate HeaderName(s: string) {
    s != [] && Free(s, ':') && OneLine(s)
  }

  predicate AreHeaders(hs: seq<Pair>) {
    forall i :: 0 <= i < |hs| ==> HeaderName(hs[i].0) && OneLine(hs[i].1)
  }

  lemma HeaderLineRead(h: Pair)
    requires HeaderName(h.0) && OneLine(h.1)
    ensures var line := HeaderLine(h);
      && IsLine(line) && StripCr(line + "\r") == line
      && IndexOf(line, ':') == |h.0| < |line| && line[..|h.0|] == h.0 && ValueAfter(line, |h.0|) == h.1
  {
    var line := HeaderLine(h);
    assert line[..|h.0|] == h.0 && line[|h.0| + 2..] == h.1;
    FirstAt(line, ':', |h.0|);
    assert (line + "\r")[..|line|] == line;
  }

  lemma {:induction false} HeaderLinesSound(hs: seq<Pair>)
    requires AreHeaders(hs)
    ensures AreLines(HeaderLines(hs))
  {
    hide HeaderLine, HeaderName, OneLine, IsLine;
    if hs != [] {
      HeaderLineRead(hs[0]);
      HeaderLinesSound(hs[1..]);
    }
  }

  /** The headers as the lines of a block, each with its CR, and the blank line. */
  function Lines(hs: seq<Pair>): seq<string> {
    WithCr(HeaderLines(hs)) + ["\r"]
  }

  lemma LinesCons(hs: seq<Pair>)
    ensures Lines([]) == ["\r"] && StripCr("\r") == ""
    ensures hs != [] ==> Lines(hs) == [HeaderLine(hs[0]) + "\r"] + Lines(hs[1..])
    ensures hs != [] ==> Lines(hs)[1..] == Lines(hs[1..])
  {
  }

  /** Every header is recovered. */
  lemma {:induction false} HeadersRead(hs: seq<Pair>, tokens: Tokens)
    requires AreHeaders(hs)
    ensures HeaderTokens(Lines(hs), tokens) == Added(hs, tokens)
  {
    hide HeaderName, OneLine, IsLine, HeaderLine, Lines, StripCr, ValueAfter, Adding;
    LinesCons(hs);
    if hs != [] {
      HeaderLineRead(hs[0]);
      LineNotEmpty(hs[0]);
      HeadersRead(hs[1..], Adding(tokens, hs[0].0, hs[0].1));
    }
  }

  lemma LineNotEmpty(h: Pair)
    ensures HeaderLine(h) != ""
  {
  }

  function Framed(hs: seq<Pair>, f: Framing): Framing
    decreases |hs|
  {
    if hs == [] then f else Framed(hs[1..], FramedBy(hs[0], f))
  }

  function FramedBy(h: Pair, f: Framing): Framing {
    if h.0 == "Transfer-Encoding" then f.(coding := h.1)
    else if h.0 == "Content-Length" then f.(length := h.1)
    else if h.0 == "Content-Type" then f.(contentType := h.1)
    else f
  }

  lemma {:induction false} FramingRead(hs: seq<Pair>, f: Framing)
    requires AreHeaders(hs)
    ensures WithHeaders(f, Lines(hs)) == Framed(hs, f)
    decreases |hs|
  {
    hide HeaderName, OneLine, IsLine, HeaderLine, Lines, StripCr, ValueAfter;
    LinesCons(hs);
    if hs != [] {
      HeaderLineRead(hs[0]);
      LineNotEmpty(hs[0]);
      assert WithHeader(f, HeaderLine(hs[0])) == FramedBy(hs[0], f);
      FramingRead(hs[1..], FramedBy(hs[0], f));
    }
  }

  // ---- lookups ------------------------------------------------------------

  /** The value of the first pair with that name, in any case of letters. */
  function FirstValue(pairs: seq<Pair>, key: string): string {
    if pairs == [] then ""
    else if Lower(pairs[0].0) == Lower(key) then pairs[0].1
    else FirstValue(pairs[1..], key)
  }

  lemma {:induction false} Lookup(pairs: seq<Pair>, tokens: Tokens, key: string)
    ensures Element(Added(pairs, tokens), key) ==
      if Lower(key) in tokens then tokens[Lower(key)] else FirstValue(pairs, key)
    ensures Lower(key) in Added(pairs, tokens) <==> Lower(key) in tokens || Mentions(pairs, key)
  {
    hide Lower;
    if pairs != [] {
      var rest := pairs[1..];
      Lookup(rest, Adding(tokens, pairs[0].0, pairs[0].1), key);
      if Mentions(rest, key) {
        var i :| 0 <= i < |rest| && Lower(rest[i].0) == Lower(key);
        assert pairs[i + 1] == rest[i];
      }
      if Mentions(pairs, key) && Lower(pairs[0].0) != Lower(key) {
        var i :| 0 <= i < |pairs| && Lower(pairs[i].0) == Lower(key);
        assert pairs[i] == rest[i - 1];
      }
    }
  }

  lemma {:induction false} FirstValueAt(pairs: seq<Pair>, i: nat)
    requires i < |pairs| && DistinctNames(pairs)
    ensures FirstValue(pairs, pairs[i].0) == pairs[i].1
  {
    hide Lower;
    if i > 0 {
      FirstValueAt(pairs[1..], i - 1);
    }
  }

  // ---- the round trip -----------------------------------------------------

  lemma ValuesSound(n: nat, auth: string)
    requires OneLine(auth)
    ensures OneLine(Decimal(n)) && OneLine("Basic " + auth) && OneLine("application/json") && OneLine("close")
  {
    var d := Decimal(n);
    assert forall i :: 0 <= i < |d| ==> IsDigit(d[i]);
  }

  lemma NamesSound()
    ensures HeaderName("Host") && HeaderName("Authorization") && HeaderName("Connection")
    ensures HeaderName("Content-Type") && HeaderName("Content-Length")
  {
  }

  lemma HeadersSound(r: Request, host: string, auth: string)
    requires OneLine(host) && OneLine(auth)
    ensures AreHeaders(Headers(r, host, auth))
  {
    ValuesSound(|BodyText(r)|, auth);
    NamesSound();
    hide OneLine, HeaderName, Decimal;
  }

  lemma MessageLines(start: string, hs: seq<Pair>)
    requires IsLine(start) && AreHeaders(hs)
    ensures AreLines([start] + HeaderLines(hs))
  {
    HeaderLinesSound(hs);
    hide HeaderLines, IsLine;
  }

  /** A parser finds the header block, its start line and its header lines. */
  lemma Cut(start: string, hs: seq<Pair>, rest: string)
    requires IsLine(start) && AreHeaders(hs)
    ensures var h := Block([start] + HeaderLines(hs));
      && |h| >= 4 && Find(h + rest, BLANK, 0) == |h| - 4 && (h + rest)[..|h|] == h
      && HeaderOf(h + rest) == h && RequestLine(h) == start
      && SkipFirst(Pieces(h, '\n')) == Lines(hs)
  {
    var lines := [start] + HeaderLines(hs);
    var h := Block(lines);
    MessageLines(start, hs);
    HeaderEnd(lines, rest);
    FirstLine(lines);
    BlockPieces(lines);
    hide HeaderLines, IsLine, AreLines, Block, Pieces, Find, OccursAt, AreHeaders;
    assert lines[1..] == HeaderLines(hs) && lines[0] == start;
    assert (WithCr(lines) + ["\r"])[1..] == WithCr(lines[1..]) + ["\r"];
  }

  /** Names of different length are different names. */
  lemma {:induction false} FoundByLength(pairs: seq<Pair>, key: string, i: nat)
    requires i < |pairs| && pairs[i].0 == key
    requires forall j :: 0 <= j < i ==> |pairs[j].0| != |key|
    ensures FirstValue(pairs, key) == pairs[i].1
  {
    hide Lower;
    if i > 0 {
      assert |Lower(pairs[0].0)| != |Lower(key)|;
      FoundByLength(pairs[1..], key, i - 1);
    }
  }

  lemma {:induction false} AbsentByLength(pairs: seq<Pair>, key: string)
    requires forall j :: 0 <= j < |pairs| ==> |pairs[j].0| != |key|
    ensures FirstValue(pairs, key) == ""
  {
    hide Lower;
    if pairs != [] {
      assert |Lower(pairs[0].0)| != |Lower(key)|;
      AbsentByLength(pairs[1..], key);
    }
  }

  lemma HeadersLookup(r: Request, host: string, auth: string)
    ensures var hs := Headers(r, host, auth);
      && FirstValue(hs, "Transfer-Encoding") == "" && FirstValue(hs, "Content-Encoding") == ""
      && FirstValue(hs, "Content-Length") == Decimal(|BodyText(r)|)
      && FirstValue(hs, "Host") == host && FirstValue(hs, "Authorization") == "Basic " + auth
  {
    hide Lower, Decimal, FirstValue;
    var hs := Headers(r, host, auth);
    AbsentByLength(hs, "Transfer-Encoding");
    AbsentByLength(hs, "Content-Encoding");
    FoundByLength(hs, "Content-Length", if r.json.None? then 2 else 3);
    FoundByLength(hs, "Host", 0);
    FoundByLength(hs, "Authorization", 1);
  }

  /** All a request carries, as the parser stores it. */
  function AllTokens(r: Request, host: string, auth: string): Tokens {
    Added(Headers(r, host, auth), Added(r.query, map[]))
  }

  lemma FramingTokens(r: Request, host: string, auth: string)
    requires Sound(r)
    ensures LengthFramed(AllTokens(r, host, auth), |BodyText(r)|)
  {
    var hs, query := Headers(r, host, auth), Added(r.query, map[]);
    HeadersLookup(r, host, auth);
    hide Headers, Added, Element, FirstValue, Lower, Decimal;
    Lookup(r.query, map[], "Transfer-Encoding");
    Lookup(hs, query, "Transfer-Encoding");
    Lookup(r.query, map[], "Content-Encoding");
    Lookup(hs, query, "Content-Encoding");
    Lookup(r.query, map[], "Content-Length");
    Lookup(hs, query, "Content-Length");
  }

  predicate LengthFramed(tokens: Tokens, n: nat) {
    && Element(tokens, "Transfer-Encoding") == "" && Element(tokens, "Content-Encoding") == ""
    && Element(tokens, "Content-Length") == Decimal(n)
  }

  lemma RawRead(header: string, body: string, rest: string, tokens: Tokens)
    requires header != "" && |body| < ULONG_RANGE && LengthFramed(tokens, |body|)
    ensures RawBody(header + body + rest, |header|, tokens) == Some(body)
  {
    StoulDecimal(|body|);
    hide Stoul, Decimal, Element, ChunkLoop.Result, Boundary, MultipartEnd;
    var m := header + body + rest;
    assert m[|header|..|header| + |body|] == body;
  }

  lemma BodyRead(header: string, body: string, rest: string, tokens: Tokens, inflate: Inflate)
    requires header != "" && |body| < ULONG_RANGE && LengthFramed(tokens, |body|)
    ensures BodyOf(header + body + rest, |header|, tokens, inflate) == Some(body)
  {
    RawRead(header, body, rest, tokens);
    hide RawBody, Decimal, Element;
  }

  lemma ParsedAs(message: string, header: string, target: Target, tokens: Tokens, body: string, inflate: Inflate)
    requires HeaderOf(message) == header && TargetParsed(RequestLine(header)) == Some(target)
    requires HeaderTokens(SkipFirst(Pieces(header, '\n')), target.tokens) == tokens
    requires BodyOf(message, |header|, tokens, inflate) == Some(body)
    ensures Parsed(message, inflate) == Some(Message(header, target.verb, target.path, tokens, body))
  {
    hide HeaderOf, TargetParsed, RequestLine, HeaderTokens, SkipFirst, Pieces, BodyOf;
  }

  lemma MessageRead(start: string, hs: seq<Pair>, body: string, rest: string, target: Target, inflate: Inflate)
    requires IsLine(start) && AreHeaders(hs) && TargetParsed(start) == Some(target)
    requires |body| < ULONG_RANGE && LengthFramed(Added(hs, target.tokens), |body|)
    ensures var h := Block([start] + HeaderLines(hs));
      Parsed(h + body + rest, inflate) ==
      Some(Message(h, target.verb, target.path, Added(hs, target.tokens), body))
  {
    hide IsLine, AreHeaders, TargetParsed, LengthFramed, Added, Block, HeaderLines, HeaderOf, RequestLine,
      HeaderTokens, SkipFirst, Pieces, BodyOf, Find, OccursAt, Lines, Parsed;
    var h := Block([start] + HeaderLines(hs));
    Cut(start, hs, body + rest);
    assert h + body + rest == h + (body + rest);
    HeadersRead(hs, target.tokens);
    BodyRead(h, body, rest, Added(hs, target.tokens), inflate);
    ParsedAs(h + body + rest, h, target, Added(hs, target.tokens), body, inflate);
  }

  /** A request followed by anything is read back: its verb, its path with the arguments
      decoded, every query field and header, and its body. */
  lemma RequestRead(r: Request, host: string, auth: string, rest: string, inflate: Inflate)
    requires Sound(r) && BytePath(r.path) && ByteQuery(r.query) && OneLine(host) && OneLine(auth)
    requires |Wire(r, host, auth)| < ULONG_RANGE
    ensures Parsed(Wire(r, host, auth) + rest, inflate) ==
      Some(Message(Block(RequestLines(r, host, auth)), r.verb, PlainPath(r.path), AllTokens(r, host, auth), BodyText(r)))
  {
    hide Sound, BytePath, ByteQuery, OneLine, StartLine, Headers, BodyText, Added, PlainPath, Block, HeaderLines, Parsed,
      TargetParsed, IsLine, AreHeaders, LengthFramed;
    StartRead(r);
    HeadersSound(r, host, auth);
    FramingTokens(r, host, auth);
    var target := Target(r.verb, PlainPath(r.path), Added(r.query, map[]));
    MessageRead(StartLine(r), Headers(r, host, auth), BodyText(r), rest, target, inflate);
  }

  lemma FramedCons(h: Pair, hs: seq<Pair>, f: Framing)
    ensures Framed([h] + hs, f) == Framed(hs, FramedBy(h, f))
    ensures Framed([], f) == f
  {
    hide FramedBy;
    assert ([h] + hs)[1..] == hs;
  }

  lemma NotFraming(h: Pair, f: Framing)
    requires |h.0| !in {17, 14, 12}
    ensures FramedBy(h, f) == f
  {
  }

  lemma FramedByLength(r: Request, host: string, auth: string)
    ensures Framed(Headers(r, host, auth), Framing("", "", "")) ==
      Framing("", Decimal(|BodyText(r)|), if r.json.None? then "" else "application/json")
  {
    hide Decimal, Framed;
    var f, length := Framing("", "", ""), ("Content-Length", Decimal(|BodyText(r)|));
    var close: Pair := ("Connection", "close");
    var kind: seq<Pair> := if r.json.None? then [] else [("Content-Type", "application/json")];
    var tail := kind + [length, close];
    assert Headers(r, host, auth) == [("Host", host)] + ([("Authorization", "Basic " + auth)] + tail);
    FramedCons(("Host", host), [("Authorization", "Basic " + auth)] + tail, f);
    FramedCons(("Authorization", "Basic " + auth), tail, f);
    NotFraming(("Host", host), f);
    NotFraming(("Authorization", "Basic " + auth), f);
    var g := if r.json.None? then f else f.(contentType := "application/json");
    if r.json.Some? {
      FramedCons(("Content-Type", "application/json"), [length, close], f);
    } else {
      assert tail == [length, close];
    }
    assert [length, close] == [length] + ([close] + []);
    FramedCons(length, [close] + [], g);
    FramedCons(close, [], g.(length := length.1));
    NotFraming(close, g.(length := length.1));
  }

  lemma LengthRead(start: string, hs: seq<Pair>, body: string, rest: string, contentType: string)
    requires IsLine(start) && AreHeaders(hs)
    requires Framed(hs, Framing("", "", "")) == Framing("", Decimal(|body|), contentType)
    requires var h := Block([start] + HeaderLines(hs)); |h + body| < ULONG_RANGE
    ensures var h := Block([start] + HeaderLines(hs)); MessageLengthOf(h + body + rest) == |h + body|
  {
    hide IsLine, AreHeaders, Block, HeaderLines, HeaderOf, RequestLine, SkipFirst, Pieces, Find, OccursAt, Lines,
      Stoul, Decimal, Framed, WithHeaders, Boundary, MultipartEnd;
    var h := Block([start] + HeaderLines(hs));
    Cut(start, hs, body + rest);
    assert h + body + rest == h + (body + rest);
    FramingRead(hs, Framing("", "", ""));
    StoulDecimal(|body|);
  }

  /** In a stream of requests the first ends where its own bytes do. */
  lemma RequestFramed(r: Request, host: string, auth: string, rest: string)
    requires Sound(r) && BytePath(r.path) && ByteQuery(r.query) && OneLine(host) && OneLine(auth)
    requires |Wire(r, host, auth)| < ULONG_RANGE
    ensures MessageLengthOf(Wire(r, host, auth) + rest) == |Wire(r, host, auth)|
  {
    hide Sound, BytePath, ByteQuery, OneLine, StartLine, Headers, BodyText, Block, HeaderLines, MessageLengthOf,
      IsLine, AreHeaders, Framed, TargetParsed;
    StartRead(r);
    HeadersSound(r, host, auth);
    FramedByLength(r, host, auth);
    LengthRead(StartLine(r), Headers(r, host, auth), BodyText(r), rest, if r.json.None? then "" else "application/json");
  }

  /** Looking up a query name gives the value it was built with. */
  lemma QueryRecovered(r: Request, host: string, auth: string, i: nat)
    requires i < |r.query| && DistinctNames(r.query)
    ensures Element(AllTokens(r, host, auth), r.query[i].0) == r.query[i].1
  {
    FirstValueAt(r.query, i);
    Lookup(r.query, map[], r.query[i].0);
    Lookup(Headers(r, host, auth), Added(r.query, map[]), r.query[i].0);
    hide Headers, Added, FirstValue, Lower;
  }

  lemma CredentialsRecovered(r: Request, host: string, auth: string)
    requires !Mentions(r.query, "Host") && !Mentions(r.query, "Authorization")
    ensures Element(AllTokens(r, host, auth), "Host") == host
    ensures Element(AllTokens(r, host, auth), "Authorization") == "Basic " + auth
  {
    HeadersLookup(r, host, auth);
    hide Headers, Added, FirstValue, Lower;
    Lookup(r.query, map[], "Host");
    Lookup(Headers(r, host, auth), Added(r.query, map[]), "Host");
    Lookup(r.query, map[], "Authorization");
    Lookup(Headers(r, host, auth), Added(r.query, map[]), "Authorization");
  }

  // ---- the requests -------------------------------------------------------

  lemma SoundIsDistinct(r: Request)
    requires Sound(r)
    ensures DistinctNames(r.query)
  {
  }

  /** Names that differ in length or in their first letter, all shorter than a framing
      header's name. */
  predicate PlainNames(query: seq<Pair>) {
    && (forall i :: 0 <= i < |query| ==> 0 < |query[i].0| < 14 && AllUnreserved(query[i].0) && IsBytes(query[i].1))
    && forall i, j :: 0 <= i < j < |query| ==>
        |query[i].0| != |query[j].0| || LowerChar(query[i].0[0]) != LowerChar(query[j].0[0])
  }

  lemma ShortNotMentioned(query: seq<Pair>, key: string)
    requires PlainNames(query) && |key| >= 14
    ensures !Mentions(query, key)
  {
    hide AllUnreserved, IsBytes, LowerChar;
    assert forall i :: 0 <= i < |query| ==> |Lower(query[i].0)| < |Lower(key)|;
  }

  lemma NamesDistinct(query: seq<Pair>)
    requires PlainNames(query)
    ensures DistinctNames(query)
  {
    hide AllUnreserved, IsBytes, LowerChar;
    forall i, j | 0 <= i < j < |query|
      ensures Lower(query[i].0) != Lower(query[j].0)
    {
      assert |query[i].0| > 0 && |query[j].0| > 0;
      assert |Lower(query[i].0)| == |query[i].0| && |Lower(query[j].0)| == |query[j].0|;
      assert Lower(query[i].0)[0] == LowerChar(query[i].0[0]);
      assert Lower(query[j].0)[0] == LowerChar(query[j].0[0]);
    }
  }

  lemma SoundByNames(r: Request)
    requires AllUnreserved(r.verb) && PlainNames(r.query)
    requires forall i :: 0 <= i < |r.path| ==> SoundPart(r.path[i])
    ensures Sound(r) && BytePath(r.path) && ByteQuery(r.query)
  {
    NamesDistinct(r.query);
    ShortNotMentioned(r.query, "Transfer-Encoding");
    ShortNotMentioned(r.query, "Content-Encoding");
    ShortNotMentioned(r.query, "Content-Length");
    hide AllUnreserved, IsBytes, LowerChar, Mentions, DistinctNames, SoundPart;
    assert Sound(r);
    SoundIsBytes(r);
  }
}
