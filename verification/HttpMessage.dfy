/** The HTTP message parser. A message it throws on, or never comes back from, is None. */
module HttpMessage {
  import opened Options
  import opened UrlCodec
  import opened HttpText
  import opened NumberText
  import ChunkLoop

  type Tokens = map<string, string>
  type Pair = (string, string)

  /** Gzip and zlib are somebody else's code: payload and encoding to plain bytes. */
  type Inflate = (string, string) -> string

  function LowerChar(c: char): char {
    if 'A' <= c <= 'Z' then c + 32 as char else c
  }

  function Lower(s: string): (r: string)
    ensures |r| == |s| && forall i :: 0 <= i < |s| ==> r[i] == LowerChar(s[i])
  {
    if s == [] then [] else [LowerChar(s[0])] + Lower(s[1..])
  }

  /** Names are case-insensitive and the first value of a name stays. */
  function Adding(tokens: Tokens, key: string, value: string): Tokens {
    if Lower(key) in tokens then tokens else tokens[Lower(key) := value]
  }

  function Element(tokens: Tokens, key: string): string {
    if Lower(key) in tokens then tokens[Lower(key)] else ""
  }

  // ---- header -------------------------------------------------------------

  /** Everything up to and including the first blank line; all of it if there is none. */
  function HeaderOf(message: string): (h: string)
    ensures h <= message
  {
    var i := Find(message, BLANK, 0);
    if i == -1 then message else message[..i + 4]
  }

  function RequestLine(header: string): string {
    var i := Find(header, CRLF, 0);
    if i == -1 then header else header[..i]
  }

  /** The text between the first and the last space. */
  function TargetOf(line: string): string
    requires IndexOf(line, ' ') < |line|
  {
    var first, last := IndexOf(line, ' '), LastIndexOf(line, ' ');
    if last > first then line[first + 1..last] else line[first + 1..]
  }

  /** Query fields without an equals sign are skipped. */
  function QueryTokens(fields: seq<string>, tokens: Tokens): Option<Tokens> {
    if fields == [] then Some(tokens)
    else
      match FieldToken(fields[0], tokens)
      case None => None
      case Some(more) => QueryTokens(fields[1..], more)
  }

  function FieldToken(field: string, tokens: Tokens): Option<Tokens> {
    var eq := IndexOf(field, '=');
    if eq == |field| then Some(tokens)
    else
      var (key, value) := (PctDecoded(field[..eq]), PctDecoded(field[eq + 1..]));
      if key.None? || value.None? then None else Some(Adding(tokens, key.value, value.value))
  }

  function StripCr(line: string): string {
    if line != [] && line[|line| - 1] == '\r' then line[..|line| - 1] else line
  }

  /** What follows the colon and one more character. */
  function ValueAfter(line: string, colon: nat): string {
    if colon + 2 <= |line| then line[colon + 2..] else ""
  }

  function HeaderToken(line: string, tokens: Tokens): Tokens {
    var colon := IndexOf(line, ':');
    if colon == |line| then tokens else Adding(tokens, line[..colon], ValueAfter(line, colon))
  }

  function HeaderTokens(lines: seq<string>, tokens: Tokens): Tokens {
    if lines == [] || StripCr(lines[0]) == "" then tokens
    else HeaderTokens(lines[1..], HeaderToken(StripCr(lines[0]), tokens))
  }

  function SkipFirst(lines: seq<string>): seq<string> {
    if lines == [] then [] else lines[1..]
  }

  // ---- body ---------------------------------------------------------------

  function TrimEnd(s: string): string {
    if s != [] && s[|s| - 1] in " \r\n" then TrimEnd(s[..|s| - 1]) else s
  }

  function Boundary(contentType: string): string {
    if Find(contentType, "multipart/form-data", 0) == -1 then ""
    else
      var at := Find(contentType, "boundary=", 0);
      if at == -1 then ""
      else
        var b := contentType[at + 9..];
        TrimEnd(b[..IndexOf(b, ';')])
  }

  /** Where a multipart body ends, or -1 while its last boundary is missing. */
  function MultipartEnd(message: string, boundary: string, start: nat): (end: int)
    ensures end == -1 || start <= end <= |message|
  {
    var terminal := "--" + boundary + "--";
    var at := Find(message, terminal, start);
    if at == -1 then -1
    else
      var end := at + |terminal|;
      if end + 2 <= |message| && message[end] == '\r' && message[end + 1] == '\n' then end + 2 else end
  }

  function RawBody(message: string, offset: nat, tokens: Tokens): Option<string>
    requires offset <= |message|
  {
    var length := Element(tokens, "Content-Length");
    if Element(tokens, "Transfer-Encoding") == "chunked" then ChunkLoop.Result(message[offset..])
    else if length != "" then
      if offset == 0 then Some("")
      else
        match Stoul(length)
        case None => None
        case Some(n) => Some(Clamped(message, offset, n))
    else
      var boundary := Boundary(Element(tokens, "Content-Type"));
      if boundary == "" then Some("")
      else
        var end := MultipartEnd(message, boundary, offset);
        Some(if end == -1 then "" else message[offset..end])
  }

  function BodyOf(message: string, offset: nat, tokens: Tokens, inflate: Inflate): Option<string>
    requires offset <= |message|
  {
    var raw, encoding := RawBody(message, offset, tokens), Element(tokens, "Content-Encoding");
    if raw.Some? && raw.value != "" && (encoding == "gzip" || encoding == "deflate") then Some(inflate(raw.value, encoding))
    else raw
  }

  // ---- the parser ---------------------------------------------------------

  datatype Target = Target(verb: string, path: string, tokens: Tokens)

  function TargetParsed(line: string): Option<Target> {
    var space := IndexOf(line, ' ');
    if space == |line| then Some(Target("", "", map[]))
    else
      var target := TargetOf(line);
      var q := IndexOf(target, '?');
      match PctDecoded(target[..q])
      case None => None
      case Some(path) =>
        if q == |target| then Some(Target(line[..space], path, map[]))
        else
          match QueryTokens(Pieces(target[q + 1..], '&'), map[])
          case None => None
          case Some(tokens) => Some(Target(line[..space], path, tokens))
  }

  datatype Message = Message(header: string, verb: string, path: string, tokens: Tokens, body: string)

  /** The whole parse; None where it throws or does not end. */
  function Parsed(message: string, inflate: Inflate): Option<Message> {
    var header := HeaderOf(message);
    match TargetParsed(RequestLine(header))
    case None => None
    case Some(target) =>
      var tokens := HeaderTokens(SkipFirst(Pieces(header, '\n')), target.tokens);
      match BodyOf(message, |header|, tokens, inflate)
      case None => None
      case Some(body) => Some(Message(header, target.verb, target.path, tokens, body))
  }

  class Http {
    var header: string
    var verb: string
    var path: string
    var tokens: Tokens
    var body: string

    constructor ()
      ensures header == verb == path == body == "" && tokens == map[]
    {
      header, verb, path, tokens, body := "", "", "", map[], "";
    }

    method AddElement(key: string, value: string)
      modifies this`tokens
      ensures tokens == Adding(old(tokens), key, value)
    {
      if Lower(key) !in tokens { tokens := tokens[Lower(key) := value]; }
    }

    method ParseFields(fields: seq<string>) returns (ok: bool)
      modifies this`tokens
      ensures ok <==> QueryTokens(fields, old(tokens)).Some?
      ensures ok ==> Some(tokens) == QueryTokens(fields, old(tokens))
    {
      var i := 0;
      assert fields[0..] == fields;
      while i < |fields|
        invariant 0 <= i <= |fields|
        invariant QueryTokens(fields, old(tokens)) == QueryTokens(fields[i..], tokens)
      {
        assert fields[i..][1..] == fields[i + 1..];
        var eq := IndexOf(fields[i], '=');
        if eq < |fields[i]| {
          var key := PctDecode(fields[i][..eq]);
          var value := PctDecode(fields[i][eq + 1..]);
          if key.None? || value.None? { return false; }
          AddElement(key.value, value.value);
        }
        i := i + 1;
      }
      return true;
    }

    method ParseUri(line: string) returns (ok: bool)
      requires verb == "" && path == "" && tokens == map[]
      modifies this`verb, this`path, this`tokens
      ensures ok <==> TargetParsed(line).Some?
      ensures ok ==> Some(Target(verb, path, tokens)) == TargetParsed(line)
    {
      hide QueryTokens, Pieces, PctDecoded;
      var space := IndexOf(line, ' ');
      if space == |line| { return true; }
      verb := line[..space];
      var target := TargetOf(line);
      var q := IndexOf(target, '?');
      var decoded := PctDecode(target[..q]);
      if decoded.None? { return false; }
      path := decoded.value;
      if q == |target| { return true; }
      ok := ParseFields(Pieces(target[q + 1..], '&'));
    }

    method ParseMimeHeader(lines: seq<string>)
      modifies this`tokens
      ensures tokens == HeaderTokens(lines, old(tokens))
    {
      var i := 0;
      assert lines[0..] == lines;
      while i < |lines|
        invariant 0 <= i <= |lines|
        invariant HeaderTokens(lines, old(tokens)) == HeaderTokens(lines[i..], tokens)
      {
        assert lines[i..][1..] == lines[i + 1..];
        var line := StripCr(lines[i]);
        if line == "" { return; }
        var colon := IndexOf(line, ':');
        if colon < |line| {
          AddElement(line[..colon], ValueAfter(line, colon));
        }
        i := i + 1;
      }
    }

    /** What the constructor of the source does; it throws or does not end where this
        returns false. */
    method Parse(message: string, inflate: Inflate) returns (ok: bool)
      requires header == verb == path == body == "" && tokens == map[]
      modifies this
      ensures ok <==> Parsed(message, inflate).Some?
      ensures ok ==> Parsed(message, inflate) == Some(Message(header, verb, path, tokens, body))
    {
      hide TargetParsed, HeaderTokens, Pieces, BodyOf, HeaderOf;
      header := HeaderOf(message);
      ok := ParseUri(RequestLine(header));
      if !ok { return; }
      ParseMimeHeader(SkipFirst(Pieces(header, '\n')));
      var content := BodyOf(message, |header|, tokens, inflate);
      if content.None? { return false; }
      body := content.value;
    }
  }

  // ---- framing ------------------------------------------------------------

  /** The headers that delimit a body, read case-sensitively, the last one of a name
      counting. */
  datatype Framing = Framing(coding: string, length: string, contentType: string)

  function WithHeader(f: Framing, line: string): Framing {
    var colon := IndexOf(line, ':');
    if colon == |line| then f
    else
      var key, value := line[..colon], ValueAfter(line, colon);
      if key == "Transfer-Encoding" then f.(coding := value)
      else if key == "Content-Length" then f.(length := value)
      else if key == "Content-Type" then f.(contentType := value)
      else f
  }

  function WithHeaders(f: Framing, lines: seq<string>): Framing
    decreases |lines|
  {
    if lines == [] || StripCr(lines[0]) == "" then f
    else WithHeaders(WithHeader(f, StripCr(lines[0])), lines[1..])
  }

  function FramedLength(buffer: string, headerLength: nat, f: Framing): nat
    requires headerLength <= |buffer|
  {
    if f.coding == "chunked" then
      var end := Find(buffer, "0\r\n\r\n", headerLength);
      if end == -1 then 0 else end + 5
    else if f.length != "" then
      match Stoul(f.length)
      case None => 0
      case Some(n) => (headerLength + n) % ULONG_RANGE
    else
      var boundary := Boundary(f.contentType);
      if boundary == "" then headerLength
      else
        var end := MultipartEnd(buffer, boundary, headerLength);
        if end == -1 then 0 else end
  }

  function FramingOf(header: string): Framing {
    WithHeaders(Framing("", "", ""), SkipFirst(Pieces(header, '\n')))
  }

  /** Length of the first message of a buffer, 0 while it has not arrived in full. */
  function MessageLengthOf(buffer: string): nat {
    var i := Find(buffer, BLANK, 0);
    if i == -1 then 0 else FramedLength(buffer, i + 4, FramingOf(buffer[..i + 4]))
  }

  method MessageLength(buffer: string) returns (n: nat)
    ensures n == MessageLengthOf(buffer)
  {
    hide Pieces, FramedLength, Find, WithHeader;
    var at := Find(buffer, BLANK, 0);
    if at == -1 { return 0; }
    var headerLength := at + 4;
    var lines := SkipFirst(Pieces(buffer[..headerLength], '\n'));
    var f, i := Framing("", "", ""), 0;
    assert lines[0..] == lines;
    while i < |lines|
      invariant 0 <= i <= |lines|
      invariant WithHeaders(Framing("", "", ""), lines) == WithHeaders(f, lines[i..])
      decreases |lines| - i
    {
      assert lines[i..][1..] == lines[i + 1..];
      if StripCr(lines[i]) == "" { break; }
      f := WithHeader(f, StripCr(lines[i]));
      i := i + 1;
    }
    return FramedLength(buffer, headerLength, f);
  }
}
