/** The ARI event client: admission, call detail records and bridge counting
    around the call router. */
module AriEvents {
  import opened ChannelNames
  import opened CallRouting

  datatype Config = Config(society: string, app: string, maxCalls: int,
                           busyContext: string, busyExtension: string, busyPriority: int)

  const CONF_EXTENSION := "conf"
  const HTTP_CONFLICT := 409

  function ConfBridge(cfg: Config): string {
    cfg.society + "-conf"
  }

  datatype ChannelCtx = ChannelCtx(callerFlat: string, calleeFlat: string, startedAt: int, answeredAt: int, bridge: string)
  datatype BridgeCtx = BridgeCtx(kind: string, members: set<ChannelId>)
  datatype Cdr = Cdr(callId: ChannelId, ctx: ChannelCtx, endedAt: int, durationSec: int, conference: bool)

  datatype AriState = AriState(router: RouterState, channels: map<ChannelId, ChannelCtx>,
                               bridges: map<string, BridgeCtx>, activeBridges: int, cdrs: seq<Cdr>)

  /** Decoded events. Directory answers and REST outcomes that the handler will
      meet are part of the event. */
  datatype Event =
    | CallerStasis(channel: ChannelId, callerFlat: string, calleeFlat: string, now: int,
                   targets: seq<string>, statuses: seq<int>, createStatus: int, addStatus: int)
    | LegStasis(channel: ChannelId, caller: ChannelId)
    | BridgeCreated(bridge: string, kind: string)
    | BridgeDestroyed(bridge: string)
    | EnteredBridge(channel: ChannelId, bridge: string, now: int)
    | Destroyed(channel: ChannelId, now: int)

  predicate Admits(cfg: Config, a: AriState) {
    a.activeBridges < cfg.maxCalls
  }

  predicate WellFormed(e: Event) {
    e.CallerStasis? ==> |e.statuses| == |e.targets|
  }

  function Opened(channels: map<ChannelId, ChannelCtx>, e: Event): map<ChannelId, ChannelCtx>
    requires e.CallerStasis?
  {
    if e.channel in channels then channels
    else channels[e.channel := ChannelCtx(e.callerFlat, e.calleeFlat, e.now, 0, "")]
  }

  function Duration(ctx: ChannelCtx, endedAt: int): int {
    if ctx.answeredAt > 0 && endedAt >= ctx.answeredAt then endedAt - ctx.answeredAt else 0
  }

  function MakeCdr(a: AriState, channel: ChannelId, now: int): Cdr
    requires channel in a.channels
  {
    var ctx := a.channels[channel];
    Cdr(channel, ctx, now, Duration(ctx, now),
        ctx.bridge != "" && ctx.bridge in a.bridges && |a.bridges[ctx.bridge].members| >= 3)
  }

  function After(cfg: Config, a: AriState, e: Event): AriState {
    match e
    case CallerStasis(channel, _, calleeFlat, _, _, statuses, _, _) =>
      if !Admits(cfg, a) then a
      else if calleeFlat == CONF_EXTENSION then a.(channels := Opened(a.channels, e))
      else a.(channels := Opened(a.channels, e), router := AfterCallerStart(a.router, channel, calleeFlat, statuses))
    case LegStasis(channel, caller) => a.(router := AfterLegStart(a.router, channel, caller))
    case BridgeCreated(bridge, kind) =>
      if bridge in a.bridges then a
      else a.(bridges := a.bridges[bridge := BridgeCtx(kind, {})], activeBridges := a.activeBridges + 1)
    case BridgeDestroyed(bridge) =>
      if bridge !in a.bridges then a
      else a.(bridges := a.bridges - {bridge}, activeBridges := if a.activeBridges > 0 then a.activeBridges - 1 else a.activeBridges)
    case EnteredBridge(channel, bridge, now) =>
      if channel == "" || bridge == "" then a
      else a.(channels := Joined(a.channels, channel, bridge, now), bridges := Populated(a.bridges, channel, bridge))
    case Destroyed(channel, now) =>
      if channel == "" then a
      else
        var b := a.(router := AfterGone(a.router, channel));
        if channel !in a.channels then b
        else b.(channels := a.channels - {channel}, cdrs := a.cdrs + [MakeCdr(a, channel, now)])
  }

  function Joined(channels: map<ChannelId, ChannelCtx>, channel: ChannelId, bridge: string, now: int): map<ChannelId, ChannelCtx> {
    if channel !in channels then channels
    else
      var ctx := channels[channel];
      channels[channel := ctx.(bridge := bridge, answeredAt := if ctx.answeredAt == 0 then now else ctx.answeredAt)]
  }

  function Populated(bridges: map<string, BridgeCtx>, channel: ChannelId, bridge: string): map<string, BridgeCtx> {
    if bridge !in bridges then bridges
    else bridges[bridge := bridges[bridge].(members := bridges[bridge].members + {channel})]
  }

  function ConferenceCommands(cfg: Config, channel: ChannelId, createStatus: int, addStatus: int): seq<Command> {
    [CreateBridge(ConfBridge(cfg), "mixing")] +
    if !Success(createStatus) && createStatus != HTTP_CONFLICT then [Hangup(channel, "congestion")]
    else if Success(addStatus) then [AddChannel(ConfBridge(cfg), channel)]
    else [AddChannel(ConfBridge(cfg), channel), Hangup(channel, "congestion")]
  }

  /** The REST traffic an event may cause; only the order in which a set of legs
      is hung up is left open. */
  predicate Emits(cfg: Config, a: AriState, e: Event, cmds: seq<Command>) {
    match e
    case CallerStasis(channel, callerFlat, calleeFlat, _, targets, statuses, createStatus, addStatus) =>
      if !Admits(cfg, a) then
        cmds == [Continue(channel, cfg.busyContext, cfg.busyExtension, cfg.busyPriority)]
      else if calleeFlat == CONF_EXTENSION then
        cmds == ConferenceCommands(cfg, channel, createStatus, addStatus)
      else
        cmds == CallerStartCommands(a.router, channel, callerFlat, cfg.app, targets, statuses)
    case LegStasis(channel, caller) => LegStartEmits(a.router, channel, caller, cmds)
    case Destroyed(channel, _) => if channel == "" then cmds == [] else GoneEmits(a.router, channel, cmds)
    case _ => cmds == []
  }

  class AriClient {
    const cfg: Config
    const router: CallRouter
    var channels: map<ChannelId, ChannelCtx>
    var bridges: map<string, BridgeCtx>
    var activeBridges: int
    var cdrs: seq<Cdr>

    function State(): AriState reads this, router {
      AriState(router.State(), channels, bridges, activeBridges, cdrs)
    }

    constructor (cfg: Config)
      ensures State() == AriState(RouterState(map[], map[]), map[], map[], 0, [])
      ensures router.app == cfg.app && router.issued == [] && this.cfg == cfg && fresh(router)
    {
      this.cfg := cfg;
      router := new CallRouter(cfg.app);
      channels, bridges, activeBridges, cdrs := map[], map[], 0, [];
    }

    method OnEvent(e: Event)
      requires WellFormed(e) && router.app == cfg.app
      modifies this, router
      ensures State() == After(cfg, old(State()), e)
      ensures old(router.issued) <= router.issued
      ensures Emits(cfg, old(State()), e, router.issued[|old(router.issued)|..])
    {
      match e
      case CallerStasis(_, _, _, _, _, _, _, _) => HandleCallerStasis(e);
      case LegStasis(channel, caller) => router.OnLegStart(channel, caller);
      case BridgeCreated(bridge, kind) =>
        if bridge !in bridges {
          bridges := bridges[bridge := BridgeCtx(kind, {})];
          activeBridges := activeBridges + 1;
        }
      case BridgeDestroyed(bridge) =>
        if bridge in bridges {
          bridges := bridges - {bridge};
          if activeBridges > 0 { activeBridges := activeBridges - 1; }
        }
      case EnteredBridge(channel, bridge, now) =>
        if channel == "" || bridge == "" { return; }
        if channel in channels {
          var ctx := channels[channel].(bridge := bridge);
          if ctx.answeredAt == 0 { ctx := ctx.(answeredAt := now); }
          channels := channels[channel := ctx];
        }
        if bridge in bridges {
          bridges := bridges[bridge := bridges[bridge].(members := bridges[bridge].members + {channel})];
        }
      case Destroyed(channel, now) => HandleDestroyed(channel, now);
    }

    method HandleCallerStasis(e: Event)
      requires WellFormed(e) && e.CallerStasis? && router.app == cfg.app
      modifies this, router
      ensures State() == After(cfg, old(State()), e)
      ensures old(router.issued) <= router.issued
      ensures Emits(cfg, old(State()), e, router.issued[|old(router.issued)|..])
    {
      if activeBridges >= cfg.maxCalls {
        router.issued := router.issued + [Continue(e.channel, cfg.busyContext, cfg.busyExtension, cfg.busyPriority)];
        return;
      }
      if e.channel !in channels {
        channels := channels[e.channel := ChannelCtx(e.callerFlat, e.calleeFlat, e.now, 0, "")];
      }
      if e.calleeFlat == CONF_EXTENSION {
        JoinConference(e.channel, e.createStatus, e.addStatus);
        return;
      }
      router.OnCallerStart(e.channel, e.callerFlat, e.calleeFlat, e.targets, e.statuses);
    }

    method JoinConference(channel: ChannelId, createStatus: int, addStatus: int)
      modifies router`issued
      ensures router.issued == old(router.issued) + ConferenceCommands(cfg, channel, createStatus, addStatus)
    {
      router.issued := router.issued + [CreateBridge(ConfBridge(cfg), "mixing")];
      if !(Success(createStatus) || createStatus == HTTP_CONFLICT) {
        router.issued := router.issued + [Hangup(channel, "congestion")];
        return;
      }
      router.issued := router.issued + [AddChannel(ConfBridge(cfg), channel)];
      if !Success(addStatus) {
        router.issued := router.issued + [Hangup(channel, "congestion")];
      }
    }

    method HandleDestroyed(channel: ChannelId, now: int)
      modifies this, router
      ensures State() == After(cfg, old(State()), Destroyed(channel, now))
      ensures old(router.issued) <= router.issued
      ensures Emits(cfg, old(State()), Destroyed(channel, now), router.issued[|old(router.issued)|..])
    {
      if channel == "" { return; }
      router.OnChannelGone(channel);
      if channel !in channels { return; }
      var ctx := channels[channel];
      channels := channels - {channel};
      var conference := false;
      if ctx.bridge != "" && ctx.bridge in bridges && |bridges[ctx.bridge].members| >= 3 {
        conference := true;
      }
      var duration := 0;
      if ctx.answeredAt > 0 && now >= ctx.answeredAt { duration := now - ctx.answeredAt; }
      cdrs := cdrs + [Cdr(channel, ctx, now, duration, conference)];
    }
  }
}
