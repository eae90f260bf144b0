/** The calls the agent makes on Asterisk's REST interface. */
module AriCalls {
  import opened Options
  import opened Decimals
  import opened UrlCodec
  import opened HttpText
  import opened HttpMessage
  import opened NumberText
  import opened AriRequests
  import Base64

  datatype Call =
    | Originate(endpoint: string, app: string, args: string, channel: string, caller: string)
    | Continue(channel: string, context: string, extension: string, priority: int)
    | CreateBridge(bridge: string, kind: string)
    | AddChannel(bridge: string, channel: string)
    | Hangup(channel: string, reason: string)
    | Answer(channel: string)
    | GetEndpoint(tech: string, resource: string)
    | ListEndpoints(tech: string)
    | PutConfig(category: string, kind: string, id: string, fields: string)
    | DeleteConfig(category: string, kind: string, id: string)

  function IntText(n: int): string {
    if n < 0 then "-" + Decimal(-n) else Decimal(n)
  }

  function ConfigPath(category: string, kind: string, id: string): seq<Part> {
    [Lit("/ari/asterisk/config/dynamic/"), Arg(category), Lit("/"), Arg(kind), Lit("/"), Arg(id)]
  }

  /** An empty caller id is left off the request. */
  function CallerField(caller: string): seq<Pair> {
    if caller == "" then [] else [("callerId", caller)]
  }

  function Built(c: Call): Request {
    match c
    case Originate(endpoint, app, args, channel, caller) =>
      Request(
        "POST", [Lit("/ari/channels")],
        [("endpoint", endpoint), ("app", app), ("appArgs", args), ("channelId", channel), ("formats", "opus,ulaw,alaw")]
        + CallerField(caller),
        None)
    case Continue(channel, context, extension, priority) =>
      Request(
        "POST", [Lit("/ari/channels/"), Arg(channel), Lit("/continue")],
        [("context", context), ("extension", extension), ("priority", IntText(priority))], None)
    case CreateBridge(bridge, kind) =>
      Request("POST", [Lit("/ari/bridges")], [("type", kind), ("bridgeId", bridge)], None)
    case AddChannel(bridge, channel) =>
      Request("POST", [Lit("/ari/bridges/"), Arg(bridge), Lit("/addChannel")], [("channel", channel)], None)
    case Hangup(channel, reason) =>
      Request("DELETE", [Lit("/ari/channels/"), Arg(channel)], [("reason", reason)], None)
    case Answer(channel) =>
      Request("POST", [Lit("/ari/channels/"), Arg(channel), Lit("/answer")], [], None)
    case GetEndpoint(tech, resource) =>
      Request("GET", [Lit("/ari/endpoints/"), Arg(tech), Lit("/"), Arg(resource)], [], None)
    case ListEndpoints(tech) =>
      Request("GET", [Lit("/ari/endpoints/"), Arg(tech)], [], None)
    case PutConfig(category, kind, id, fields) =>
      Request("PUT", ConfigPath(category, kind, id), [], Some(fields))
    case DeleteConfig(category, kind, id) =>
      Request("DELETE", ConfigPath(category, kind, id), [], None)
  }

  predicate ByteArguments(c: Call) {
    match c
    case Originate(endpoint, app, args, channel, caller) =>
      IsBytes(endpoint) && IsBytes(app) && IsBytes(args) && IsBytes(channel) && IsBytes(caller)
    case Continue(channel, context, extension, priority) => IsBytes(channel) && IsBytes(context) && IsBytes(extension)
    case CreateBridge(bridge, kind) => IsBytes(bridge) && IsBytes(kind)
    case AddChannel(bridge, channel) => IsBytes(bridge) && IsBytes(channel)
    case Hangup(channel, reason) => IsBytes(channel) && IsBytes(reason)
    case Answer(channel) => IsBytes(channel)
    case GetEndpoint(tech, resource) => IsBytes(tech) && IsBytes(resource)
    case ListEndpoints(tech) => IsBytes(tech)
    case PutConfig(category, kind, id, fields) => IsBytes(category) && IsBytes(kind) && IsBytes(id) && IsBytes(fields)
    case DeleteConfig(category, kind, id) => IsBytes(category) && IsBytes(kind) && IsBytes(id)
  }

  lemma VerbsUnreserved()
    ensures AllUnreserved("POST") && AllUnreserved("GET") && AllUnreserved("PUT") && AllUnreserved("DELETE")
  {
  }

  lemma OriginateNames()
    ensures AllUnreserved("endpoint") && AllUnreserved("app") && AllUnreserved("appArgs")
    ensures AllUnreserved("channelId") && AllUnreserved("formats") && AllUnreserved("callerId")
    ensures IsBytes("opus,ulaw,alaw")
  {
  }

  lemma OtherNames()
    ensures AllUnreserved("context") && AllUnreserved("extension") && AllUnreserved("priority")
    ensures AllUnreserved("type") && AllUnreserved("bridgeId")
    ensures AllUnreserved("channel") && AllUnreserved("reason")
  {
  }

  lemma LiteralPaths()
    ensures LitText("/ari/channels") && LitText("/ari/channels/") && LitText("/continue") && LitText("/answer")
    ensures LitText("/ari/bridges") && LitText("/ari/bridges/") && LitText("/addChannel")
    ensures LitText("/ari/endpoints/") && LitText("/ari/asterisk/config/dynamic/") && LitText("/")
  {
  }

  /** The priority is written without encoding, which encoding would not change. */
  lemma PriorityUnchanged(n: int)
    ensures IsBytes(IntText(n)) && UrlEncoded(IntText(n)) == IntText(n)
  {
    var d := Decimal(if n < 0 then -n else n);
    assert forall i :: 0 <= i < |d| ==> IsDigit(d[i]);
    UnreservedUnchanged(IntText(n));
  }

  /** A negative priority has a minus sign. */
  lemma PriorityText(n: nat)
    ensures IntText(n) == Decimal(n) && (n > 0 ==> IntText(0 - n) == ['-'] + Decimal(n))
  {
  }

  lemma CallNames(c: Call)
    requires ByteArguments(c)
    ensures AllUnreserved(Built(c).verb) && PlainNames(Built(c).query)
  {
    VerbsUnreserved();
    OriginateNames();
    OtherNames();
    if c.Continue? {
      PriorityUnchanged(c.priority);
    }
    hide AllUnreserved, IsBytes, IntText;
  }

  lemma CallPath(c: Call)
    requires ByteArguments(c)
    ensures var path := Built(c).path; forall i :: 0 <= i < |path| ==> SoundPart(path[i])
  {
    LiteralPaths();
    hide LitText, IsBytes;
  }

  lemma CallSound(c: Call)
    requires ByteArguments(c)
    ensures Sound(Built(c)) && BytePath(Built(c).path) && ByteQuery(Built(c).query)
  {
    hide Built, ByteArguments, Sound, PlainNames, AllUnreserved, BytePath, ByteQuery, SoundPart;
    CallNames(c);
    CallPath(c);
    SoundByNames(Built(c));
  }

  // ---- what the other end reads -------------------------------------------

  function DecodedPath(c: Call): string {
    match c
    case Originate(_, _, _, _, _) => "/ari/channels"
    case Continue(channel, _, _, _) => "/ari/channels/" + channel + "/continue"
    case CreateBridge(_, _) => "/ari/bridges"
    case AddChannel(bridge, _) => "/ari/bridges/" + bridge + "/addChannel"
    case Hangup(channel, _) => "/ari/channels/" + channel
    case Answer(channel) => "/ari/channels/" + channel + "/answer"
    case GetEndpoint(tech, resource) => "/ari/endpoints/" + tech + "/" + resource
    case ListEndpoints(tech) => "/ari/endpoints/" + tech
    case PutConfig(category, kind, id, _) => "/ari/asterisk/config/dynamic/" + category + "/" + kind + "/" + id
    case DeleteConfig(category, kind, id) => "/ari/asterisk/config/dynamic/" + category + "/" + kind + "/" + id
  }

  function VerbOf(c: Call): string {
    match c
    case GetEndpoint(_, _) => "GET"
    case ListEndpoints(_) => "GET"
    case PutConfig(_, _, _, _) => "PUT"
    case Hangup(_, _) => "DELETE"
    case DeleteConfig(_, _, _) => "DELETE"
    case _ => "POST"
  }

  /** Every argument that travels in the query, under its name. */
  predicate ArgumentsIn(c: Call, tokens: Tokens) {
    match c
    case Originate(endpoint, app, args, channel, caller) =>
      && Element(tokens, "endpoint") == endpoint && Element(tokens, "app") == app && Element(tokens, "appArgs") == args
      && Element(tokens, "channelId") == channel && Element(tokens, "formats") == "opus,ulaw,alaw"
      && Element(tokens, "callerId") == caller
    case Continue(_, context, extension, priority) =>
      && Element(tokens, "context") == context && Element(tokens, "extension") == extension
      && Element(tokens, "priority") == IntText(priority)
    case CreateBridge(bridge, kind) => Element(tokens, "type") == kind && Element(tokens, "bridgeId") == bridge
    case AddChannel(_, channel) => Element(tokens, "channel") == channel
    case Hangup(_, reason) => Element(tokens, "reason") == reason
    case _ => true
  }

  lemma PlainUnfold(a: seq<Part>)
    ensures PlainPath([]) == ""
    ensures a != [] ==> PlainPath(a) == PlainPart(a[0]) + PlainPath(a[1..])
  {
    hide PlainPart;
  }

  lemma {:induction false} PlainConcat(a: seq<Part>, b: seq<Part>)
    ensures PlainPath(a + b) == PlainPath(a) + PlainPath(b)
  {
    hide PlainPart, PlainPath;
    PlainUnfold(a);
    if a == [] {
      assert a + b == b;
    } else {
      PlainConcat(a[1..], b);
      PlainUnfold(a + b);
      assert (a + b)[0] == a[0] && (a + b)[1..] == a[1..] + b;
      var x, y, z := PlainPart(a[0]), PlainPath(a[1..]), PlainPath(b);
      assert x + (y + z) == (x + y) + z;
    }
  }

  lemma PlainOne(p: Part)
    ensures PlainPath([p]) == PlainPart(p)
  {
    assert PlainPath([p][1..]) == "";
  }

  lemma PlainTwo(p: Part, q: Part)
    ensures PlainPath([p, q]) == PlainPart(p) + PlainPart(q)
  {
    PlainOne(p);
    PlainOne(q);
    PlainConcat([p], [q]);
    assert [p, q] == [p] + [q];
  }

  lemma PlainMore(p: Part, q: Part, rest: seq<Part>)
    ensures PlainPath([p, q] + rest) == PlainPart(p) + PlainPart(q) + PlainPath(rest)
  {
    PlainTwo(p, q);
    PlainConcat([p, q], rest);
  }

  lemma ConfigPathRecovered(category: string, kind: string, id: string)
    ensures PlainPath(ConfigPath(category, kind, id)) ==
      "/ari/asterisk/config/dynamic/" + category + "/" + kind + "/" + id
  {
    var path := ConfigPath(category, kind, id);
    hide PlainPath;
    assert path == [path[0], path[1]] + ([path[2], path[3]] + [path[4], path[5]]);
    PlainMore(path[0], path[1], [path[2], path[3]] + [path[4], path[5]]);
    PlainMore(path[2], path[3], [path[4], path[5]]);
    PlainTwo(path[4], path[5]);
  }

  lemma PathRecovered(c: Call)
    ensures PlainPath(Built(c).path) == DecodedPath(c)
  {
    if c.PutConfig? || c.DeleteConfig? {
      ConfigPathRecovered(c.category, c.kind, c.id);
    } else {
      hide PlainPath;
      var path := Built(c).path;
      if |path| == 1 {
        PlainOne(path[0]);
      } else if |path| == 2 {
        PlainTwo(path[0], path[1]);
      } else if |path| == 3 {
        assert path == [path[0], path[1]] + [path[2]];
        PlainMore(path[0], path[1], [path[2]]);
        PlainOne(path[2]);
      } else {
        assert path == [path[0], path[1]] + [path[2], path[3]];
        PlainMore(path[0], path[1], [path[2], path[3]]);
        PlainTwo(path[2], path[3]);
      }
    }
  }

  lemma FieldAt(r: Request, host: string, auth: string, i: nat, key: string, value: string)
    requires i < |r.query| && DistinctNames(r.query) && r.query[i] == (key, value)
    ensures Element(AllTokens(r, host, auth), key) == value
  {
    hide DistinctNames, AllTokens, Element;
    QueryRecovered(r, host, auth, i);
  }

  /** The name is none of the names of the pairs: another length or another first letter. */
  predicate Foreign(key: string, pairs: seq<Pair>) {
    key != "" && forall i :: 0 <= i < |pairs| ==>
      pairs[i].0 != "" && (|pairs[i].0| != |key| || LowerChar(pairs[i].0[0]) != LowerChar(key[0]))
  }

  lemma ForeignNotMentioned(key: string, pairs: seq<Pair>)
    requires Foreign(key, pairs)
    ensures !Mentions(pairs, key)
  {
    hide LowerChar;
    forall i | 0 <= i < |pairs|
      ensures Lower(pairs[i].0) != Lower(key)
    {
      var name := pairs[i].0;
      assert |Lower(name)| == |name| && |Lower(key)| == |key| && name != "";
      assert Lower(name)[0] == LowerChar(name[0]) && Lower(key)[0] == LowerChar(key[0]);
    }
  }

  /** A name that neither the query nor a header has reads as empty. */
  lemma ForeignIsEmpty(r: Request, host: string, auth: string, key: string)
    requires Foreign(key, r.query) && Foreign(key, Headers(r, host, auth))
    ensures Element(AllTokens(r, host, auth), key) == ""
  {
    hide Foreign, Headers, Added, FirstValue, Lower;
    ForeignNotMentioned(key, r.query);
    ForeignNotMentioned(key, Headers(r, host, auth));
    Lookup(r.query, map[], key);
    Lookup(Headers(r, host, auth), Added(r.query, map[]), key);
    hide Mentions;
    assert Lower(key) !in AllTokens(r, host, auth);
  }

  lemma OriginateRecovered(c: Call, host: string, auth: string)
    requires c.Originate? && DistinctNames(Built(c).query)
    ensures ArgumentsIn(c, AllTokens(Built(c), host, auth))
  {
    hide DistinctNames, AllTokens, Element, Headers;
    var r := Built(c);
    FieldAt(r, host, auth, 0, "endpoint", c.endpoint);
    FieldAt(r, host, auth, 1, "app", c.app);
    FieldAt(r, host, auth, 2, "appArgs", c.args);
    FieldAt(r, host, auth, 3, "channelId", c.channel);
    FieldAt(r, host, auth, 4, "formats", "opus,ulaw,alaw");
    if c.caller == "" {
      CallerForeign(c, host, auth);
      ForeignIsEmpty(r, host, auth, "callerId");
    } else {
      FieldAt(r, host, auth, 5, "callerId", c.caller);
    }
  }

  lemma CallerForeign(c: Call, host: string, auth: string)
    requires c.Originate? && c.caller == ""
    ensures Foreign("callerId", Built(c).query) && Foreign("callerId", Headers(Built(c), host, auth))
  {
    hide Decimal;
  }

  lemma ArgumentsRecovered(c: Call, host: string, auth: string)
    requires DistinctNames(Built(c).query)
    ensures ArgumentsIn(c, AllTokens(Built(c), host, auth))
  {
    hide DistinctNames, AllTokens, Element;
    var r := Built(c);
    match c
    case Originate(_, _, _, _, _) =>
      OriginateRecovered(c, host, auth);
    case Continue(_, context, extension, priority) =>
      FieldAt(r, host, auth, 0, "context", context);
      FieldAt(r, host, auth, 1, "extension", extension);
      FieldAt(r, host, auth, 2, "priority", IntText(priority));
    case CreateBridge(bridge, kind) =>
      FieldAt(r, host, auth, 0, "type", kind);
      FieldAt(r, host, auth, 1, "bridgeId", bridge);
    case AddChannel(_, channel) =>
      FieldAt(r, host, auth, 0, "channel", channel);
    case Hangup(_, reason) =>
      FieldAt(r, host, auth, 0, "reason", reason);
    case _ =>
  }

  /** Every call, followed by anything on the connection, is read back by the parser:
      its verb, its decoded path, every argument and its body; and its length is its own. */
  lemma CallRecovered(c: Call, host: string, auth: string, rest: string, inflate: Inflate)
    requires ByteArguments(c) && OneLine(host) && OneLine(auth)
    ensures BytePath(Built(c).path) && ByteQuery(Built(c).query)
    ensures var wire := Wire(Built(c), host, auth);
      var m := Parsed(wire + rest, inflate);
      |wire| < ULONG_RANGE ==>
        && MessageLengthOf(wire + rest) == |wire|
        && m.Some? && m.value.verb == VerbOf(c) && m.value.path == DecodedPath(c) && ArgumentsIn(c, m.value.tokens)
        && m.value.body == if c.PutConfig? then c.fields else ""
  {
    var r := Built(c);
    assert r.verb == VerbOf(c) && BodyText(r) == if c.PutConfig? then c.fields else "";
    CallSound(c);
    SoundIsDistinct(r);
    hide Built, ByteArguments, Sound, BytePath, ByteQuery, OneLine, DistinctNames, ArgumentsIn, AllTokens, Parsed,
      MessageLengthOf, PlainPath, DecodedPath, VerbOf, Wire, BodyText, RequestLines, Block;
    if |Wire(r, host, auth)| < ULONG_RANGE {
      RequestRead(r, host, auth, rest, inflate);
      RequestFramed(r, host, auth, rest);
      PathRecovered(c);
      ArgumentsRecovered(c, host, auth);
    }
  }

  lemma LoginIsOneLine(login: Base64.Bytes)
    ensures OneLine(Base64.Encoded(login))
  {
    Base64.EncodedChars(login);
    hide Base64.Encoded;
  }

  lemma AfterBasic(auth: string)
    ensures var value := "Basic " + auth; value[..6] == "Basic " && value[6..] == auth
  {
  }

  lemma LoginInTokens(c: Call, host: string, login: Base64.Bytes)
    ensures var value := Element(AllTokens(Built(c), host, Base64.Encoded(login)), "Authorization");
      |value| >= 6 && value[..6] == "Basic " && Base64.Decoded(value[6..]) == Some(login)
  {
    hide Built, AllTokens, Element, Base64.Encoded, Base64.Decoded, Mentions;
    Base64.EncodeThenDecode(login);
    NoCredentialsInQuery(c);
    CredentialsRecovered(Built(c), host, Base64.Encoded(login));
    AfterBasic(Base64.Encoded(login));
  }

  /** The parser gives the receiver the login back, out of the Authorization header. */
  lemma LoginRecovered(c: Call, host: string, login: Base64.Bytes, rest: string, inflate: Inflate)
    requires ByteArguments(c) && OneLine(host)
    ensures BytePath(Built(c).path) && ByteQuery(Built(c).query)
    ensures var wire := Wire(Built(c), host, Base64.Encoded(login));
      |wire| < ULONG_RANGE ==>
        var m := Parsed(wire + rest, inflate);
        && m.Some?
        && var value := Element(m.value.tokens, "Authorization");
           |value| >= 6 && value[..6] == "Basic " && Base64.Decoded(value[6..]) == Some(login)
  {
    hide Built, AllTokens, Element, Base64.Encoded, Base64.Decoded, OneLine, Sound, BytePath, ByteQuery, Parsed, Wire,
      ByteArguments, RequestLines, Block, PlainPath, BodyText;
    var auth := Base64.Encoded(login);
    CallSound(c);
    LoginIsOneLine(login);
    if |Wire(Built(c), host, auth)| < ULONG_RANGE {
      RequestRead(Built(c), host, auth, rest, inflate);
      LoginInTokens(c, host, login);
    }
  }

  lemma NoCredentialsInQuery(c: Call)
    ensures !Mentions(Built(c).query, "Host") && !Mentions(Built(c).query, "Authorization")
  {
    assert Foreign("Host", Built(c).query) && Foreign("Authorization", Built(c).query);
    ForeignNotMentioned("Host", Built(c).query);
    ForeignNotMentioned("Authorization", Built(c).query);
  }
}
