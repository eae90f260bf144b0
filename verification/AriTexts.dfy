/** The targets of the requests to Asterisk, written out as they stand in the start line. */
module AriTexts {
  import opened Options
  import opened UrlCodec
  import opened HttpMessage
  import opened AriRequests
  import opened AriCalls

  /** Percent-encoding of a byte string; an argument that is none is not encoded. */
  function Enc(s: string): string {
    if IsBytes(s) then UrlEncoded(s) else s
  }

  function ConfigText(category: string, kind: string, id: string): string {
    "/ari/asterisk/config/dynamic/" + Enc(category) + "/" + Enc(kind) + "/" + Enc(id)
  }

  /** What each request asks for, as it stands in the start line. */
  function AskedFor(c: Call): string {
    match c
    case Originate(endpoint, app, args, channel, caller) =>
      "/ari/channels?endpoint=" + Enc(endpoint) + "&app=" + Enc(app) + "&appArgs=" + Enc(args) + "&channelId=" + Enc(channel)
      + "&formats=opus%2Culaw%2Calaw" + if caller == "" then "" else "&callerId=" + Enc(caller)
    case Continue(channel, context, extension, priority) =>
      "/ari/channels/" + Enc(channel) + "/continue?context=" + Enc(context) + "&extension=" + Enc(extension)
      + "&priority=" + IntText(priority)
    case CreateBridge(bridge, kind) => "/ari/bridges?type=" + Enc(kind) + "&bridgeId=" + Enc(bridge)
    case AddChannel(bridge, channel) => "/ari/bridges/" + Enc(bridge) + "/addChannel?channel=" + Enc(channel)
    case Hangup(channel, reason) => "/ari/channels/" + Enc(channel) + "?reason=" + Enc(reason)
    case Answer(channel) => "/ari/channels/" + Enc(channel) + "/answer"
    case GetEndpoint(tech, resource) => "/ari/endpoints/" + Enc(tech) + "/" + Enc(resource)
    case ListEndpoints(tech) => "/ari/endpoints/" + Enc(tech)
    case PutConfig(category, kind, id, _) => ConfigText(category, kind, id)
    case DeleteConfig(category, kind, id) => ConfigText(category, kind, id)
  }

  lemma PathOne(p: Part)
    requires IsBytePart(p)
    ensures BytePath([p]) && PathText([p]) == PartText(p)
  {
    assert [p][1..] == [];
    assert PathText([]) == "";
  }

  lemma PathMore(p: Part, rest: seq<Part>)
    requires IsBytePart(p) && BytePath(rest)
    ensures BytePath([p] + rest) && PathText([p] + rest) == PartText(p) + PathText(rest)
  {
    assert ([p] + rest)[1..] == rest;
  }

  lemma QueryOne(f: Pair)
    requires IsBytes(f.1)
    ensures ByteQuery([f]) && QueryText([f]) == f.0 + "=" + UrlEncoded(f.1)
  {
  }

  lemma QueryMore(f: Pair, rest: seq<Pair>)
    requires IsBytes(f.1) && ByteQuery(rest) && rest != []
    ensures ByteQuery([f] + rest) && QueryText([f] + rest) == f.0 + "=" + UrlEncoded(f.1) + "&" + QueryText(rest)
  {
    assert ([f] + rest)[1..] == rest;
  }

  lemma CodecNames()
    ensures AllUnreserved("opus") && AllUnreserved("ulaw") && AllUnreserved("alaw")
  {
  }

  lemma TwoCodecs()
    ensures IsBytes("opus,ulaw") && UrlEncoded("opus,ulaw") == "opus%2Culaw"
  {
    CodecNames();
    hide UrlEncoded, AllUnreserved, IsBytes;
    UnreservedUnchanged("opus");
    UnreservedUnchanged("ulaw");
    EncodedInPieces("opus", "ulaw");
    assert "opus" + "," + "ulaw" == "opus,ulaw" && "opus" + "%2C" + "ulaw" == "opus%2Culaw";
  }

  lemma CodecsEncoded()
    ensures IsBytes("opus,ulaw,alaw") && UrlEncoded("opus,ulaw,alaw") == "opus%2Culaw%2Calaw"
  {
    CodecNames();
    hide UrlEncoded, AllUnreserved, IsBytes;
    TwoCodecs();
    UnreservedUnchanged("alaw");
    EncodedInPieces("opus,ulaw", "alaw");
    assert "opus,ulaw" + "," + "alaw" == "opus,ulaw,alaw" && "opus%2Culaw" + "%2C" + "alaw" == "opus%2Culaw%2Calaw";
  }

  lemma {:induction false} EncodedConcat(a: string, b: string)
    requires IsBytes(a) && IsBytes(b)
    ensures IsBytes(a + b) && UrlEncoded(a + b) == UrlEncoded(a) + UrlEncoded(b)
  {
    hide EncodeChar;
    if a == [] {
      assert a + b == b;
    } else {
      EncodedConcat(a[1..], b);
      assert (a + b)[1..] == a[1..] + b && (a + b)[0] == a[0];
    }
  }

  lemma EncodedInPieces(a: string, b: string)
    requires IsBytes(a) && IsBytes(b)
    ensures IsBytes(a + "," + b) && UrlEncoded(a + "," + b) == UrlEncoded(a) + "%2C" + UrlEncoded(b)
  {
    assert EncodeChar(',') == "%2C";
    assert UrlEncoded(","[1..]) == "";
    assert UrlEncoded(",") == "%2C";
    hide UrlEncoded;
    EncodedConcat(a, ",");
    EncodedConcat(a + ",", b);
  }

  lemma ChannelPath(front: string, id: string, back: string)
    requires IsBytes(front) && IsBytes(id) && IsBytes(back)
    ensures var path := [Lit(front), Arg(id), Lit(back)]; BytePath(path) && PathText(path) == front + UrlEncoded(id) + back
    ensures var path := [Lit(front), Arg(id)]; BytePath(path) && PathText(path) == front + UrlEncoded(id)
    ensures var path := [Lit(front)]; BytePath(path) && PathText(path) == front
  {
    hide PathText, UrlEncoded, IsBytes;
    PathOne(Lit(front));
    PathOne(Lit(back));
    PathOne(Arg(id));
    PathMore(Arg(id), [Lit(back)]);
    PathMore(Lit(front), [Arg(id)]);
    PathMore(Lit(front), [Arg(id), Lit(back)]);
    assert [Arg(id)] + [Lit(back)] == [Arg(id), Lit(back)] && [Lit(front)] + [Arg(id)] == [Lit(front), Arg(id)];
    assert [Lit(front)] + [Arg(id), Lit(back)] == [Lit(front), Arg(id), Lit(back)];
  }

  // ---- call by call -------------------------------------------------------

  predicate Asks(c: Call) {
    BytePath(Built(c).path) && ByteQuery(Built(c).query) && TargetText(Built(c)) == AskedFor(c)
  }

  lemma LiteralBytes(s: string)
    requires LitText(s)
    ensures IsBytes(s)
  {
    assert forall i :: 0 <= i < |s| ==> LitChar(s[i]);
  }

  lemma PathBytes()
    ensures IsBytes("/ari/channels") && IsBytes("/ari/channels/") && IsBytes("/continue") && IsBytes("/answer")
    ensures IsBytes("/ari/bridges") && IsBytes("/ari/bridges/") && IsBytes("/addChannel") && IsBytes("/ari/endpoints/")
    ensures IsBytes("/ari/asterisk/config/dynamic/") && IsBytes("/") && IsBytes("")
  {
    hide LitText, IsBytes;
    LiteralPaths();
    LiteralBytes("/ari/channels");
    LiteralBytes("/ari/channels/");
    LiteralBytes("/continue");
    LiteralBytes("/answer");
    LiteralBytes("/ari/bridges");
    LiteralBytes("/ari/bridges/");
    LiteralBytes("/addChannel");
    LiteralBytes("/ari/endpoints/");
    LiteralBytes("/ari/asterisk/config/dynamic/");
    LiteralBytes("/");
    Nothing();
  }

  lemma Nothing()
    ensures IsBytes("")
  {
  }

  lemma AsksAnswer(channel: string)
    requires IsBytes(channel)
    ensures Asks(Answer(channel))
  {
    PathBytes();
    hide IsBytes, UrlEncoded, PathText, QueryText;
    ChannelPath("/ari/channels/", channel, "/answer");
  }

  lemma AsksHangup(channel: string, reason: string)
    requires IsBytes(channel) && IsBytes(reason)
    ensures Asks(Hangup(channel, reason))
  {
    PathBytes();
    hide IsBytes, UrlEncoded, PathText, QueryText;
    ChannelPath("/ari/channels/", channel, "");
    QueryOne(("reason", reason));
    assert "?" + ("reason" + "=" + UrlEncoded(reason)) == "?reason=" + UrlEncoded(reason);
  }

  lemma AsksAddChannel(bridge: string, channel: string)
    requires IsBytes(bridge) && IsBytes(channel)
    ensures Asks(AddChannel(bridge, channel))
  {
    PathBytes();
    hide IsBytes, UrlEncoded, PathText, QueryText;
    ChannelPath("/ari/bridges/", bridge, "/addChannel");
    QueryOne(("channel", channel));
    assert "/addChannel" + ("?" + ("channel" + "=" + UrlEncoded(channel))) == "/addChannel?channel=" + UrlEncoded(channel);
  }

  lemma AsksCreateBridge(bridge: string, kind: string)
    requires IsBytes(bridge) && IsBytes(kind)
    ensures Asks(CreateBridge(bridge, kind))
  {
    PathBytes();
    hide IsBytes, UrlEncoded, PathText, QueryText;
    ChannelPath("/ari/bridges", "", "");
    QueryOne(("bridgeId", bridge));
    QueryMore(("type", kind), [("bridgeId", bridge)]);
    assert [("type", kind)] + [("bridgeId", bridge)] == [("type", kind), ("bridgeId", bridge)];
    var a, b := UrlEncoded(kind), UrlEncoded(bridge);
    assert "type" + "=" + a + "&" + ("bridgeId" + "=" + b) == "type=" + a + "&bridgeId=" + b;
    assert "/ari/bridges" + ("?" + ("type=" + a + "&bridgeId=" + b)) == "/ari/bridges?type=" + a + "&bridgeId=" + b;
  }

  lemma AsksContinue(channel: string, context: string, extension: string, priority: int)
    requires IsBytes(channel) && IsBytes(context) && IsBytes(extension)
    ensures Asks(Continue(channel, context, extension, priority))
  {
    PathBytes();
    PriorityUnchanged(priority);
    hide IsBytes, UrlEncoded, PathText, QueryText, IntText;
    ChannelPath("/ari/channels/", channel, "/continue");
    var f, g, h: Pair := ("context", context), ("extension", extension), ("priority", IntText(priority));
    QueryOne(h);
    QueryMore(g, [h]);
    QueryMore(f, [g, h]);
    assert [g] + [h] == [g, h] && [f] + [g, h] == [f, g, h];
    ContinueText(UrlEncoded(channel), UrlEncoded(context), UrlEncoded(extension), IntText(priority));
  }

  lemma ContinueText(i: string, a: string, b: string, p: string)
    ensures "/ari/channels/" + i + "/continue" + ("?" + ("context" + "=" + a + "&" + ("extension" + "=" + b + "&" + ("priority" + "=" + p))))
      == "/ari/channels/" + i + "/continue?context=" + a + "&extension=" + b + "&priority=" + p
  {
    var x := "/ari/channels/" + i;
    var t3 := "priority" + "=" + p;
    var t2 := "extension" + "=" + b + "&" + t3;
    Glue("?", "context", a, t2);
    assert "?" + "context" + "=" == "?context=";
    assert x + "/continue" + ("?context=" + a + ("&" + t2)) == x + "/continue?context=" + a + ("&" + t2);
    var y := x + "/continue?context=" + a;
    Named(y, "extension", "&extension=", b, t3);
    assert "&" + t3 == "&priority=" + p;
    Regroup(y + "&extension=" + b, "&priority=", p);
  }

  lemma OriginateQuery(endpoint: string, app: string, args: string, channel: string, last: seq<Pair>)
    requires IsBytes(endpoint) && IsBytes(app) && IsBytes(args) && IsBytes(channel) && ByteQuery(last) && last != []
    ensures var query := [("endpoint", endpoint), ("app", app), ("appArgs", args), ("channelId", channel)] + last;
      && ByteQuery(query)
      && QueryText(query) == "endpoint" + "=" + UrlEncoded(endpoint) + "&" + ("app" + "=" + UrlEncoded(app) + "&"
        + ("appArgs" + "=" + UrlEncoded(args) + "&" + ("channelId" + "=" + UrlEncoded(channel) + "&" + QueryText(last))))
  {
    hide IsBytes, UrlEncoded, QueryText;
    var f, g, h, i: Pair := ("endpoint", endpoint), ("app", app), ("appArgs", args), ("channelId", channel);
    QueryMore(i, last);
    QueryMore(h, [i] + last);
    QueryMore(g, [h] + ([i] + last));
    QueryMore(f, [g] + ([h] + ([i] + last)));
    assert [f, g, h, i] + last == [f] + ([g] + ([h] + ([i] + last)));
  }

  /** One field in front of others. */
  lemma Glue(front: string, name: string, v: string, tail: string)
    ensures front + (name + "=" + v + "&" + tail) == front + name + "=" + v + ("&" + tail)
  {
  }

  lemma Regroup(a: string, b: string, c: string)
    ensures a + (b + c) == a + b + c
  {
  }

  lemma OriginateText(a: string, b: string, c: string, d: string, last: string)
    ensures "/ari/channels" + ("?" + ("endpoint" + "=" + a + "&" + ("app" + "=" + b + "&" + ("appArgs" + "=" + c + "&" + ("channelId" + "=" + d + "&" + last)))))
      == "/ari/channels?endpoint=" + a + "&app=" + b + "&appArgs=" + c + "&channelId=" + d + ("&" + last)
  {
    var t4 := "channelId" + "=" + d + "&" + last;
    var t3 := "appArgs" + "=" + c + "&" + t4;
    var t2 := "app" + "=" + b + "&" + t3;
    Regroup("/ari/channels", "?", "endpoint" + "=" + a + "&" + t2);
    Glue("/ari/channels" + "?", "endpoint", a, t2);
    assert "/ari/channels" + "?" + "endpoint" + "=" == "/ari/channels?endpoint=";
    var x := "/ari/channels?endpoint=" + a;
    OriginateTail(x, b, c, d, last);
  }

  lemma OriginateTail(x: string, b: string, c: string, d: string, last: string)
    ensures x + ("&" + ("app" + "=" + b + "&" + ("appArgs" + "=" + c + "&" + ("channelId" + "=" + d + "&" + last))))
      == x + "&app=" + b + "&appArgs=" + c + "&channelId=" + d + ("&" + last)
  {
    var t4 := "channelId" + "=" + d + "&" + last;
    var t3 := "appArgs" + "=" + c + "&" + t4;
    Named(x, "app", "&app=", b, t3);
    Named(x + "&app=" + b, "appArgs", "&appArgs=", c, t4);
    Named(x + "&app=" + b + "&appArgs=" + c, "channelId", "&channelId=", d, last);
  }

  lemma Named(x: string, name: string, sign: string, v: string, tail: string)
    requires sign == "&" + name + "="
    ensures x + ("&" + (name + "=" + v + "&" + tail)) == x + sign + v + ("&" + tail)
  {
  }

  lemma LastFields(caller: string)
    requires IsBytes(caller)
    ensures var last := [("formats", "opus,ulaw,alaw")] + CallerField(caller);
      ByteQuery(last) && "&" + QueryText(last) == "&formats=opus%2Culaw%2Calaw" + if caller == "" then "" else "&callerId=" + Enc(caller)
  {
    CodecsEncoded();
    hide IsBytes, UrlEncoded, QueryText;
    var f: Pair := ("formats", "opus,ulaw,alaw");
    QueryOne(f);
    assert "&" + ("formats" + "=" + "opus%2Culaw%2Calaw") == "&formats=opus%2Culaw%2Calaw";
    if caller == "" {
      assert [f] + CallerField(caller) == [f];
    } else {
      QueryOne(("callerId", caller));
      QueryMore(f, [("callerId", caller)]);
      var e := UrlEncoded(caller);
      assert "&" + ("formats" + "=" + "opus%2Culaw%2Calaw" + "&" + ("callerId" + "=" + e)) == "&formats=opus%2Culaw%2Calaw" + ("&callerId=" + e);
    }
  }

  lemma AsksOriginate(endpoint: string, app: string, args: string, channel: string, caller: string)
    requires IsBytes(endpoint) && IsBytes(app) && IsBytes(args) && IsBytes(channel) && IsBytes(caller)
    ensures Asks(Originate(endpoint, app, args, channel, caller))
  {
    PathBytes();
    hide IsBytes, UrlEncoded, PathText, QueryText;
    ChannelPath("/ari/channels", "", "");
    var last := [("formats", "opus,ulaw,alaw")] + CallerField(caller);
    var four: seq<Pair> := [("endpoint", endpoint), ("app", app), ("appArgs", args), ("channelId", channel)];
    LastFields(caller);
    OriginateQuery(endpoint, app, args, channel, last);
    assert Built(Originate(endpoint, app, args, channel, caller)).query == four + last;
    OriginateText(UrlEncoded(endpoint), UrlEncoded(app), UrlEncoded(args), UrlEncoded(channel), QueryText(last));
    OriginateEnds(endpoint, app, args, channel, caller);
  }

  lemma OriginateEnds(endpoint: string, app: string, args: string, channel: string, caller: string)
    requires IsBytes(endpoint) && IsBytes(app) && IsBytes(args) && IsBytes(channel)
    ensures AskedFor(Originate(endpoint, app, args, channel, caller)) ==
      "/ari/channels?endpoint=" + UrlEncoded(endpoint) + "&app=" + UrlEncoded(app) + "&appArgs=" + UrlEncoded(args)
      + "&channelId=" + UrlEncoded(channel)
      + ("&formats=opus%2Culaw%2Calaw" + if caller == "" then "" else "&callerId=" + Enc(caller))
  {
    hide UrlEncoded, IsBytes;
  }

  lemma AsksEndpoints(tech: string, resource: string)
    requires IsBytes(tech) && IsBytes(resource)
    ensures Asks(GetEndpoint(tech, resource)) && Asks(ListEndpoints(tech))
  {
    PathBytes();
    hide IsBytes, UrlEncoded, PathText, QueryText;
    ChannelPath("/ari/endpoints/", tech, "/");
    PathOne(Arg(resource));
    PathMore(Lit("/"), [Arg(resource)]);
    PathMore(Arg(tech), [Lit("/"), Arg(resource)]);
    PathMore(Lit("/ari/endpoints/"), [Arg(tech), Lit("/"), Arg(resource)]);
    assert [Lit("/")] + [Arg(resource)] == [Lit("/"), Arg(resource)];
    assert [Arg(tech)] + [Lit("/"), Arg(resource)] == [Arg(tech), Lit("/"), Arg(resource)];
    assert [Lit("/ari/endpoints/")] + [Arg(tech), Lit("/"), Arg(resource)] == [Lit("/ari/endpoints/"), Arg(tech), Lit("/"), Arg(resource)];
  }

  lemma AsksConfig(category: string, kind: string, id: string)
    requires IsBytes(category) && IsBytes(kind) && IsBytes(id)
    ensures BytePath(ConfigPath(category, kind, id)) && PathText(ConfigPath(category, kind, id)) == ConfigText(category, kind, id)
  {
    PathBytes();
    hide IsBytes, UrlEncoded, PathText;
    var a, b, c, d, e, f := Lit("/ari/asterisk/config/dynamic/"), Arg(category), Lit("/"), Arg(kind), Lit("/"), Arg(id);
    PathOne(f);
    PathMore(e, [f]);
    PathMore(d, [e] + [f]);
    PathMore(c, [d] + ([e] + [f]));
    PathMore(b, [c] + ([d] + ([e] + [f])));
    PathMore(a, [b] + ([c] + ([d] + ([e] + [f]))));
    assert ConfigPath(category, kind, id) == [a] + ([b] + ([c] + ([d] + ([e] + [f]))));
  }

  /** Every request asks for exactly that text. */
  lemma EveryCallAsks(c: Call)
    requires ByteArguments(c)
    ensures Asks(c)
  {
    match c
    case Originate(endpoint, app, args, channel, caller) => AsksOriginate(endpoint, app, args, channel, caller);
    case Continue(channel, context, extension, priority) => AsksContinue(channel, context, extension, priority);
    case CreateBridge(bridge, kind) => AsksCreateBridge(bridge, kind);
    case AddChannel(bridge, channel) => AsksAddChannel(bridge, channel);
    case Hangup(channel, reason) => AsksHangup(channel, reason);
    case Answer(channel) => AsksAnswer(channel);
    case GetEndpoint(tech, resource) => AsksEndpoints(tech, resource);
    case ListEndpoints(tech) => Nothing(); AsksEndpoints(tech, "");
    case PutConfig(category, kind, id, fields) => AsksConfig(category, kind, id);
    case DeleteConfig(category, kind, id) => AsksConfig(category, kind, id);
  }
}
