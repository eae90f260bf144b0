/** Whole runs of call control against an arbitrary Asterisk: any interleaving of
    events, any REST outcome. Asterisk is assumed to
      - create no channel when an originate request fails,
      - refuse to originate onto the id of a channel that is still alive,
      - report a leg's StasisStart only for a leg that is alive, with the tag it
        was originated with,
      - use non-empty channel ids and not to reuse a live leg's id for a caller.
    ChannelDestroyed may name any channel at any time, known or not. */
module CallRuns {
  import opened ChannelNames
  import opened CallRouting
  import opened AriEvents

  /** Asterisk's side: what is alive, and what the client asked of it. */
  datatype Asterisk = Asterisk(
    callers: set<ChannelId>,            // inbound channels alive
    legs: map<ChannelId, ChannelId>,    // originated channels alive, with their caller
    routed: set<ChannelId>,             // live callers that were handed to the router
    hung: set<ChannelId>)               // live channels a hangup was requested for

  /** The first leg to answer the call with number `call`. */
  datatype AnsweredCall = AnsweredCall(call: nat, caller: ChannelId, leg: ChannelId)

  /** What happened so far, independently of the client's own bookkeeping. */
  datatype History = History(
    log: seq<Command>,                  // every request sent
    admitted: seq<ChannelId>,           // channels admitted while not already open
    nextCall: nat,                      // how many calls were begun
    callNo: map<ChannelId, nat>,        // number of the call a caller has in progress
    answered: seq<AnsweredCall>)        // first answers, in order

  datatype World = World(ari: AriState, net: Asterisk, past: History)

  const START := World(AriState(RouterState(map[], map[]), map[], map[], 0, []),
                       Asterisk({}, map[], {}, {}), History([], [], 0, map[], []))

  predicate Routes(cfg: Config, a: AriState, e: Event) {
    e.CallerStasis? && Admits(cfg, a) && e.calleeFlat != CONF_EXTENSION
  }

  /** The event makes the router send originate requests. */
  predicate Forks(cfg: Config, a: AriState, e: Event) {
    Routes(cfg, a, e) && e.channel !in a.router.calls
  }

  predicate Enabled(cfg: Config, a: AriState, n: Asterisk, e: Event, cmds: seq<Command>) {
    && WellFormed(e)
    && Emits(cfg, a, e, cmds)
    && (e.CallerStasis? ==> e.channel != "" && e.channel !in n.legs)
    && (Forks(cfg, a, e) ==> AcceptedLegs(e.channel, e.statuses) !! n.callers + n.legs.Keys)
    && (e.LegStasis? ==> e.channel in n.legs && n.legs[e.channel] == e.caller)
  }

  function HangupTargets(cmds: seq<Command>): set<ChannelId> {
    set c | c in cmds && c.Hangup? :: c.channel
  }

  function NetStep(cfg: Config, a: AriState, n: Asterisk, e: Event, cmds: seq<Command>): Asterisk {
    var hung := n.hung + HangupTargets(cmds);
    match e
    case CallerStasis(channel, _, _, _, _, statuses, _, _) =>
      Asterisk(n.callers + {channel},
               if Forks(cfg, a, e) then WithLegs(n.legs, AcceptedLegs(channel, statuses), channel) else n.legs,
               if Routes(cfg, a, e) then n.routed + {channel} else n.routed,
               hung)
    case Destroyed(channel, _) =>
      Asterisk(n.callers - {channel}, n.legs - {channel}, n.routed - {channel}, hung - {channel})
    case _ => n.(hung := hung)
  }

  /** A leg's StasisStart is the first answer of the call its caller has in progress. */
  predicate FirstAnswer(h: History, e: Event) {
    && e.LegStasis?
    && e.caller in h.callNo
    && forall i :: 0 <= i < |h.answered| ==> h.answered[i].call != h.callNo[e.caller]
  }

  /** Numbers a call when it begins and drops the number when it ends. */
  function Numbered(h: History, calls: set<ChannelId>): map<ChannelId, nat>
  {
    map c | c in calls :: if c in h.callNo then h.callNo[c] else h.nextCall
  }

  function AdmittedAfter(cfg: Config, a: AriState, admitted: seq<ChannelId>, e: Event): seq<ChannelId> {
    if e.CallerStasis? && Admits(cfg, a) && e.channel !in a.channels then admitted + [e.channel] else admitted
  }

  function PastStep(cfg: Config, a: AriState, h: History, e: Event, cmds: seq<Command>): History {
    var calls := After(cfg, a, e).router.calls.Keys;
    History(
      h.log + cmds,
      AdmittedAfter(cfg, a, h.admitted, e),
      if Forks(cfg, a, e) then h.nextCall + 1 else h.nextCall,
      Numbered(h, calls),
      if FirstAnswer(h, e) then h.answered + [AnsweredCall(h.callNo[e.caller], e.caller, e.channel)] else h.answered)
  }

  function Step(cfg: Config, w: World, e: Event, cmds: seq<Command>): World {
    World(After(cfg, w.ari, e), NetStep(cfg, w.ari, w.net, e, cmds), PastStep(cfg, w.ari, w.past, e, cmds))
  }

  /** A run: the events in order, each with the requests it caused. */
  type Run = seq<(Event, seq<Command>)>

  function Exec(cfg: Config, run: Run): World {
    if run == [] then START
    else var (e, cmds) := run[|run| - 1]; Step(cfg, Exec(cfg, run[..|run| - 1]), e, cmds)
  }

  predicate Legal(cfg: Config, run: Run) {
    run == [] ||
    var before := run[..|run| - 1];
    var (e, cmds) := run[|run| - 1];
    var w := Exec(cfg, before);
    Legal(cfg, before) && Enabled(cfg, w.ari, w.net, e, cmds)
  }

  // ---- what holds in every reachable state --------------------------------

  /** Ringing with nobody connected, or connected with nobody ringing. */
  predicate OnePhase(call: PendingCall) {
    (call.connected == "" && call.ringing != {}) || (call.connected != "" && call.ringing == {})
  }

  ghost predicate IsLegOf(leg: ChannelId, caller: ChannelId) {
    exists i: nat :: leg == LegName(caller, i)
  }

  ghost predicate BackMapped(r: RouterState, caller: ChannelId, legs: set<ChannelId>) {
    forall l :: l in legs ==> l in r.legToCaller && r.legToCaller[l] == caller
  }

  /** Every call is in one phase and its legs map back to it. */
  ghost predicate CallsOk(r: RouterState) {
    && (forall c :: c in r.calls ==> OnePhase(r.calls[c]) && BackMapped(r, c, Attached(r.calls[c])))
    && (forall l :: l in r.legToCaller ==> IsLegOf(l, r.legToCaller[l]))
  }

  /** The router's reverse index is exactly Asterisk's live legs. */
  predicate InStep(a: AriState, n: Asterisk) {
    && a.router.legToCaller == n.legs
    && a.router.calls.Keys <= a.channels.Keys <= n.callers
    && a.router.calls.Keys <= n.routed <= n.callers
    && n.callers !! n.legs.Keys
    && "" !in n.callers && "" !in n.legs
  }

  predicate Held(r: RouterState, caller: ChannelId, leg: ChannelId) {
    caller in r.calls && leg in Attached(r.calls[caller])
  }

  /** No originated leg is forgotten: the router still holds it or has asked for its hangup. */
  ghost predicate NoLeakedLeg(r: RouterState, n: Asterisk) {
    forall l :: l in n.legs ==> Held(r, n.legs[l], l) || l in n.hung
  }

  /** No routed caller is forgotten either. */
  ghost predicate NoStrandedCaller(r: RouterState, n: Asterisk) {
    forall c :: c in n.routed ==> c in r.calls || c in n.hung
  }

  function CdrIds(cdrs: seq<Cdr>): seq<ChannelId> {
    seq(|cdrs|, i requires 0 <= i < |cdrs| => cdrs[i].callId)
  }

  /** Admissions are conserved: each has exactly one record or one open context. */
  ghost predicate Ledger(admitted: seq<ChannelId>, cdrs: seq<Cdr>, open: set<ChannelId>) {
    multiset(admitted) == multiset(CdrIds(cdrs)) + multiset(open)
  }

  predicate BridgesCounted(a: AriState) {
    a.activeBridges == |a.bridges|
  }

  ghost predicate AnsweredOnce(answered: seq<AnsweredCall>) {
    forall i, j :: 0 <= i < j < |answered| ==> answered[i].call != answered[j].call
  }

  /** The first answer recorded for a call, if there is one. */
  ghost predicate AnswerOf(answered: seq<AnsweredCall>, call: nat, caller: ChannelId, leg: ChannelId) {
    if leg == "" then forall i :: 0 <= i < |answered| ==> answered[i].call != call
    else AnsweredCall(call, caller, leg) in answered
  }

  /** The connected leg of every call is the first one that answered it. */
  ghost predicate FirstAnswerWins(r: RouterState, h: History) {
    && h.callNo.Keys == r.calls.Keys
    && (forall c :: c in h.callNo ==> h.callNo[c] < h.nextCall)
    && (forall c, d :: c in h.callNo && d in h.callNo && h.callNo[c] == h.callNo[d] ==> c == d)
    && (forall i :: 0 <= i < |h.answered| ==> h.answered[i].call < h.nextCall)
    && AnsweredOnce(h.answered)
    && (forall c :: c in h.callNo ==> AnswerOf(h.answered, h.callNo[c], c, r.calls[c].connected))
  }

  predicate Bridging(cfg: Config, c: Command) {
    c.Answer? || ((c.CreateBridge? || c.AddChannel?) && c.bridge != ConfBridge(cfg))
  }

  /** The answer and bridging requests in a log, conference traffic aside. */
  function BridgingOf(cfg: Config, log: seq<Command>): seq<Command> {
    if log == [] then []
    else
      var last := log[|log| - 1];
      BridgingOf(cfg, log[..|log| - 1]) + if Bridging(cfg, last) then [last] else []
  }

  function Scripts(answered: seq<AnsweredCall>): seq<Command> {
    if answered == [] then []
    else
      var a := answered[|answered| - 1];
      Scripts(answered[..|answered| - 1]) + BridgeScript(a.caller, a.leg)
  }

  /** One answer, one bridge, two channels for each answered call, in that order. */
  ghost predicate OneBridgePerCall(cfg: Config, h: History) {
    BridgingOf(cfg, h.log) == Scripts(h.answered)
  }

  // ---- preservation -------------------------------------------------------

  lemma AcceptedAreLegs(caller: ChannelId, statuses: seq<int>)
    ensures forall l :: l in AcceptedLegs(caller, statuses) ==> l != "" && l != caller && IsLegOf(l, caller)
  {
    forall l | l in AcceptedLegs(caller, statuses)
      ensures l != "" && l != caller && IsLegOf(l, caller)
    {
      var i :| 0 <= i < |statuses| && Success(statuses[i]) && l == LegName(caller, i);
      assert |l| > |caller|;
    }
  }

  lemma CallsOkCallerStart(r: RouterState, caller: ChannelId, dialed: string, statuses: seq<int>)
    requires CallsOk(r)
    requires caller !in r.calls ==> AcceptedLegs(caller, statuses) !! r.legToCaller.Keys
    ensures CallsOk(AfterCallerStart(r, caller, dialed, statuses))
  {
    AcceptedAreLegs(caller, statuses);
  }

  lemma CallsOkLegStart(r: RouterState, leg: ChannelId, caller: ChannelId)
    requires CallsOk(r) && leg != ""
    requires leg in r.legToCaller && r.legToCaller[leg] == caller
    ensures CallsOk(AfterLegStart(r, leg, caller))
  {
  }

  lemma CallsOkForget(r: RouterState, leg: ChannelId, calls: map<ChannelId, PendingCall>)
    requires CallsOk(r)
    requires forall c :: c in calls ==> c in r.calls && OnePhase(calls[c]) && Attached(calls[c]) <= Attached(r.calls[c])
    requires forall c :: c in calls ==> leg !in Attached(calls[c])
    ensures CallsOk(RouterState(calls, r.legToCaller - {leg}))
  {
  }

  lemma CallsOkGone(r: RouterState, channel: ChannelId)
    requires CallsOk(r)
    ensures CallsOk(AfterGone(r, channel))
  {
    if channel !in r.calls && channel in r.legToCaller {
      var caller := r.legToCaller[channel];
      forall c | c in r.calls && c != caller
        ensures channel !in Attached(r.calls[c])
      {
        assert BackMapped(r, c, Attached(r.calls[c]));
      }
      CallsOkForget(r, channel, AfterGone(r, channel).calls);
    }
  }

  lemma InStepFork(a: AriState, n: Asterisk, caller: ChannelId, dialed: string, statuses: seq<int>, b: AriState, m: Asterisk)
    requires InStep(a, n) && caller != "" && caller !in n.legs && caller !in a.router.calls
    requires AcceptedLegs(caller, statuses) !! n.callers + n.legs.Keys
    requires b.router == AfterCallerStart(a.router, caller, dialed, statuses) && b.channels.Keys == a.channels.Keys + {caller}
    requires m.callers == n.callers + {caller} && m.routed == n.routed + {caller}
    requires m.legs == WithLegs(n.legs, AcceptedLegs(caller, statuses), caller)
    ensures InStep(b, m)
  {
    hide AcceptedLegs, LegName;
    AcceptedAreLegs(caller, statuses);
    var legs := AcceptedLegs(caller, statuses);
    assert m.legs.Keys == n.legs.Keys + legs;
    assert legs == {} ==> m.legs == n.legs;
  }

  lemma InStepCaller(cfg: Config, a: AriState, n: Asterisk, e: Event, cmds: seq<Command>)
    requires InStep(a, n) && Enabled(cfg, a, n, e, cmds) && e.CallerStasis?
    ensures InStep(After(cfg, a, e), NetStep(cfg, a, n, e, cmds))
  {
    if Forks(cfg, a, e) {
      InStepFork(a, n, e.channel, e.calleeFlat, e.statuses, After(cfg, a, e), NetStep(cfg, a, n, e, cmds));
    }
  }

  lemma InStepGone(cfg: Config, a: AriState, n: Asterisk, e: Event, cmds: seq<Command>)
    requires InStep(a, n) && Enabled(cfg, a, n, e, cmds) && e.Destroyed?
    ensures InStep(After(cfg, a, e), NetStep(cfg, a, n, e, cmds))
  {
  }

  /** Hangup requests issued for a whole set reach each of its members. */
  lemma BatchTargets(cmds: seq<Command>, legs: set<ChannelId>, reason: string)
    requires HangsUpEach(cmds, legs, reason)
    ensures HangupTargets(cmds) == legs
  {
    forall l | l in legs
      ensures l in HangupTargets(cmds)
    {
      assert Hangup(l, reason) in cmds;
    }
  }

  lemma TargetsSplit(a: seq<Command>, b: seq<Command>)
    ensures HangupTargets(a + b) == HangupTargets(a) + HangupTargets(b)
  {
    forall c | c in a + b
      ensures c in a || c in b
    {
    }
    assert forall c :: c in a ==> c in a + b;
    assert forall c :: c in b ==> c in a + b;
  }

  lemma SingleTarget(c: ChannelId, reason: string)
    ensures HangupTargets([Hangup(c, reason)]) == {c}
  {
    assert Hangup(c, reason) in [Hangup(c, reason)];
  }

  lemma AnswerTargets(caller: ChannelId, leg: ChannelId, losers: set<ChannelId>, cmds: seq<Command>)
    requires |cmds| >= 4 && cmds[..4] == BridgeScript(caller, leg) && HangsUpEach(cmds[4..], losers, "answered")
    ensures HangupTargets(cmds) == losers
  {
    var script, batch := cmds[..4], cmds[4..];
    BatchTargets(batch, losers, "answered");
    TargetsSplit(script, batch);
    assert cmds == script + batch;
    ScriptTargets(caller, leg);
  }

  lemma ScriptTargets(caller: ChannelId, leg: ChannelId)
    ensures HangupTargets(BridgeScript(caller, leg)) == {}
  {
    forall c | c in BridgeScript(caller, leg)
      ensures !c.Hangup?
    {
    }
  }

  lemma CallerGoneTargets(call: PendingCall, cmds: seq<Command>)
    requires call.connected != "" && |cmds| >= 1
    requires HangsUpEach(cmds[..|cmds| - 1], call.ringing, "normal")
    requires cmds[|cmds| - 1] == Hangup(call.connected, "normal")
    ensures HangupTargets(cmds) == Attached(call)
  {
    var n := |cmds| - 1;
    BatchTargets(cmds[..n], call.ringing, "normal");
    assert cmds == cmds[..n] + [cmds[n]];
    TargetsSplit(cmds[..n], [cmds[n]]);
    SingleTarget(call.connected, "normal");
  }

  lemma NoLeakLeg(r: RouterState, n: Asterisk, leg: ChannelId, caller: ChannelId, cmds: seq<Command>)
    requires CallsOk(r) && r.legToCaller == n.legs && NoLeakedLeg(r, n) && LegStartEmits(r, leg, caller, cmds)
    requires leg in n.legs && n.legs[leg] == caller && leg != ""
    ensures NoLeakedLeg(AfterLegStart(r, leg, caller), n.(hung := n.hung + HangupTargets(cmds)))
  {
    if caller in r.calls && r.calls[caller].connected == "" {
      AnswerTargets(caller, leg, r.calls[caller].ringing - {leg}, cmds);
    } else if cmds != [] {
      SingleTarget(leg, cmds[0].reason);
    }
  }

  lemma NoLeakGone(r: RouterState, n: Asterisk, channel: ChannelId, cmds: seq<Command>)
    requires CallsOk(r) && r.legToCaller == n.legs && NoLeakedLeg(r, n) && GoneEmits(r, channel, cmds)
    ensures NoLeakedLeg(AfterGone(r, channel), n.(legs := n.legs - {channel}, hung := n.hung + HangupTargets(cmds) - {channel}))
  {
    if channel in r.calls {
      if r.calls[channel].connected == "" {
        BatchTargets(cmds, r.calls[channel].ringing, "normal");
      } else {
        CallerGoneTargets(r.calls[channel], cmds);
      }
    }
  }

  lemma NoLeakCaller(r: RouterState, n: Asterisk, caller: ChannelId, dialed: string, statuses: seq<int>, hung: set<ChannelId>)
    requires CallsOk(r) && r.legToCaller == n.legs && NoLeakedLeg(r, n) && n.hung <= hung
    requires caller !in r.calls && AcceptedLegs(caller, statuses) !! n.legs.Keys
    ensures NoLeakedLeg(AfterCallerStart(r, caller, dialed, statuses),
                        n.(legs := WithLegs(n.legs, AcceptedLegs(caller, statuses), caller), hung := hung))
  {
  }

  lemma NoStrandedCallerStart(r: RouterState, n: Asterisk, e: Event, app: string, cmds: seq<Command>)
    requires NoStrandedCaller(r, n) && e.CallerStasis? && |e.statuses| == |e.targets|
    requires cmds == CallerStartCommands(r, e.channel, e.callerFlat, app, e.targets, e.statuses)
    ensures NoStrandedCaller(AfterCallerStart(r, e.channel, e.calleeFlat, e.statuses),
                             n.(routed := n.routed + {e.channel}, hung := n.hung + HangupTargets(cmds)))
  {
    if e.channel !in r.calls && AcceptedLegs(e.channel, e.statuses) == {} {
      TargetsSplit(OriginateCommands(e.channel, e.callerFlat, app, e.targets), [Hangup(e.channel, "congestion")]);
      SingleTarget(e.channel, "congestion");
    }
  }

  lemma NoStrandedGone(r: RouterState, n: Asterisk, channel: ChannelId, cmds: seq<Command>)
    requires NoStrandedCaller(r, n) && GoneEmits(r, channel, cmds)
    requires channel in r.legToCaller ==> channel !in n.routed
    ensures NoStrandedCaller(AfterGone(r, channel),
                             n.(routed := n.routed - {channel}, hung := n.hung + HangupTargets(cmds) - {channel}))
  {
    if channel !in r.calls && channel in r.legToCaller {
      var caller := r.legToCaller[channel];
      if caller in r.calls && caller !in AfterGone(r, channel).calls {
        SingleTarget(caller, cmds[0].reason);
      }
    }
  }

  ghost predicate Tracked(a: AriState, n: Asterisk) {
    CallsOk(a.router) && InStep(a, n) && NoLeakedLeg(a.router, n) && NoStrandedCaller(a.router, n)
  }

  /** Hangup requests that still count are for channels that are alive. */
  predicate HungAlive(n: Asterisk) {
    n.hung <= n.callers + n.legs.Keys
  }

  ghost predicate RoutingSafe(a: AriState, n: Asterisk) {
    Tracked(a, n) && HungAlive(n)
  }

  /** Routing safety is kept by every event. */
  lemma RoutingSafeKept(cfg: Config, a: AriState, n: Asterisk, e: Event, cmds: seq<Command>)
    requires RoutingSafe(a, n) && Enabled(cfg, a, n, e, cmds)
    ensures RoutingSafe(After(cfg, a, e), NetStep(cfg, a, n, e, cmds))
  {
    HungAliveKept(cfg, a, n, e, cmds);
    match e
    case CallerStasis(_, _, _, _, _, _, _, _) => SafeCaller(cfg, a, n, e, cmds);
    case LegStasis(_, _) => SafeLeg(cfg, a, n, e, cmds);
    case Destroyed(_, _) => SafeGone(cfg, a, n, e, cmds);
    case _ => SafeOther(cfg, a, n, e, cmds);
  }

  lemma CallerHangsUpItself(cfg: Config, a: AriState, e: Event, cmds: seq<Command>)
    requires Emits(cfg, a, e, cmds) && e.CallerStasis?
    ensures HangupTargets(cmds) <= {e.channel}
  {
    assert forall i :: 0 <= i < |cmds| && cmds[i].Hangup? ==> cmds[i].channel == e.channel;
  }

  lemma LegHangsUpLegs(r: RouterState, leg: ChannelId, caller: ChannelId, cmds: seq<Command>)
    requires CallsOk(r) && LegStartEmits(r, leg, caller, cmds) && leg in r.legToCaller
    ensures HangupTargets(cmds) <= r.legToCaller.Keys
  {
    if caller in r.calls && r.calls[caller].connected == "" {
      assert BackMapped(r, caller, Attached(r.calls[caller]));
      hide CallsOk;
      AnswerTargets(caller, leg, r.calls[caller].ringing - {leg}, cmds);
    } else if cmds != [] {
      SingleTarget(leg, cmds[0].reason);
    } else {
      NothingTargeted();
    }
  }

  lemma GoneHangsUpKnown(r: RouterState, channel: ChannelId, cmds: seq<Command>)
    requires CallsOk(r) && GoneEmits(r, channel, cmds)
    ensures HangupTargets(cmds) <= r.legToCaller.Keys + r.calls.Keys
  {
    if channel in r.calls {
      assert BackMapped(r, channel, Attached(r.calls[channel]));
      hide CallsOk;
      if r.calls[channel].connected == "" {
        BatchTargets(cmds, r.calls[channel].ringing, "normal");
      } else {
        CallerGoneTargets(r.calls[channel], cmds);
      }
    } else if cmds != [] {
      hide CallsOk;
      SingleTarget(r.legToCaller[channel], cmds[0].reason);
    } else {
      NothingTargeted();
    }
  }

  lemma HungAliveKept(cfg: Config, a: AriState, n: Asterisk, e: Event, cmds: seq<Command>)
    requires RoutingSafe(a, n) && Enabled(cfg, a, n, e, cmds)
    ensures HungAlive(NetStep(cfg, a, n, e, cmds))
  {
    hide NoLeakedLeg, NoStrandedCaller, CallsOk, LegStartEmits, GoneEmits, HangupTargets;
    match e
    case CallerStasis(channel, _, _, _, _, _, _, _) =>
      CallerHangsUpItself(cfg, a, e, cmds);
    case LegStasis(channel, caller) =>
      LegHangsUpLegs(a.router, channel, caller, cmds);
    case Destroyed(channel, _) =>
      if channel == "" {
        NothingTargeted();
      } else {
        GoneHangsUpKnown(a.router, channel, cmds);
      }
    case _ => NothingTargeted();
  }

  lemma NothingTargeted()
    ensures HangupTargets([]) == {}
  {
  }

  lemma SafeCaller(cfg: Config, a: AriState, n: Asterisk, e: Event, cmds: seq<Command>)
    requires Tracked(a, n) && Enabled(cfg, a, n, e, cmds) && e.CallerStasis?
    ensures Tracked(After(cfg, a, e), NetStep(cfg, a, n, e, cmds))
  {
    InStepCaller(cfg, a, n, e, cmds);
    if Routes(cfg, a, e) {
      CallsOkCallerStart(a.router, e.channel, e.calleeFlat, e.statuses);
      NoStrandedCallerStart(a.router, n, e, cfg.app, cmds);
      if Forks(cfg, a, e) {
        NoLeakCaller(a.router, n, e.channel, e.calleeFlat, e.statuses, n.hung + HangupTargets(cmds));
      }
    }
  }

  lemma SafeLeg(cfg: Config, a: AriState, n: Asterisk, e: Event, cmds: seq<Command>)
    requires Tracked(a, n) && Enabled(cfg, a, n, e, cmds) && e.LegStasis?
    ensures Tracked(After(cfg, a, e), NetStep(cfg, a, n, e, cmds))
  {
    CallsOkLegStart(a.router, e.channel, e.caller);
    NoLeakLeg(a.router, n, e.channel, e.caller, cmds);
  }

  lemma SafeGone(cfg: Config, a: AriState, n: Asterisk, e: Event, cmds: seq<Command>)
    requires Tracked(a, n) && Enabled(cfg, a, n, e, cmds) && e.Destroyed?
    ensures Tracked(After(cfg, a, e), NetStep(cfg, a, n, e, cmds))
  {
    InStepGone(cfg, a, n, e, cmds);
    if e.channel == "" {
      SafeNothingGone(a, n, cmds);
    } else {
      CallsOkGone(a.router, e.channel);
      NoLeakGone(a.router, n, e.channel, cmds);
      NoStrandedGone(a.router, n, e.channel, cmds);
    }
  }

  lemma SafeNothingGone(a: AriState, n: Asterisk, cmds: seq<Command>)
    requires Tracked(a, n) && cmds == []
    ensures Tracked(a, Asterisk(n.callers - {""}, n.legs - {""}, n.routed - {""}, n.hung + HangupTargets(cmds) - {""}))
  {
    assert n.legs - {""} == n.legs;
  }

  lemma SafeOther(cfg: Config, a: AriState, n: Asterisk, e: Event, cmds: seq<Command>)
    requires Tracked(a, n) && Enabled(cfg, a, n, e, cmds) && (e.BridgeCreated? || e.BridgeDestroyed? || e.EnteredBridge?)
    ensures Tracked(After(cfg, a, e), NetStep(cfg, a, n, e, cmds))
  {
  }

  // ---- admissions and call detail records ---------------------------------

  lemma CdrIdsStep(cdrs: seq<Cdr>, cdr: Cdr)
    ensures CdrIds(cdrs + [cdr]) == CdrIds(cdrs) + [cdr.callId]
  {
  }

  lemma LedgerOpens(admitted: seq<ChannelId>, cdrs: seq<Cdr>, open: set<ChannelId>, channel: ChannelId)
    requires Ledger(admitted, cdrs, open) && channel !in open
    ensures Ledger(admitted + [channel], cdrs, open + {channel})
  {
  }

  lemma LedgerCloses(admitted: seq<ChannelId>, cdrs: seq<Cdr>, open: set<ChannelId>, cdr: Cdr)
    requires Ledger(admitted, cdrs, open) && cdr.callId in open
    ensures Ledger(admitted, cdrs + [cdr], open - {cdr.callId})
  {
    CdrIdsStep(cdrs, cdr);
  }

  lemma LedgerKept(cfg: Config, a: AriState, admitted: seq<ChannelId>, e: Event)
    requires Ledger(admitted, a.cdrs, a.channels.Keys)
    ensures var b := After(cfg, a, e); Ledger(AdmittedAfter(cfg, a, admitted, e), b.cdrs, b.channels.Keys)
  {
    var b := After(cfg, a, e);
    if e.CallerStasis? && Admits(cfg, a) && e.channel !in a.channels {
      assert b.channels.Keys == a.channels.Keys + {e.channel};
      LedgerOpens(admitted, a.cdrs, a.channels.Keys, e.channel);
    } else if e.Destroyed? && e.channel != "" && e.channel in a.channels {
      assert b.channels.Keys == a.channels.Keys - {e.channel};
      LedgerCloses(admitted, a.cdrs, a.channels.Keys, MakeCdr(a, e.channel, e.now));
    } else {
      assert b.channels.Keys == a.channels.Keys && b.cdrs == a.cdrs;
    }
  }

  lemma SizeAfterInsert<K, V>(m: map<K, V>, k: K, v: V)
    ensures |m[k := v]| == if k in m then |m| else |m| + 1
  {
    assert m[k := v].Keys == m.Keys + {k};
  }

  lemma SizeAfterErase<K, V>(m: map<K, V>, k: K)
    requires k in m
    ensures |m - {k}| == |m| - 1
  {
    assert (m - {k}).Keys == m.Keys - {k};
  }

  lemma BridgesCountedKept(cfg: Config, a: AriState, e: Event)
    requires BridgesCounted(a)
    ensures BridgesCounted(After(cfg, a, e))
  {
    if e.BridgeCreated? && e.bridge !in a.bridges {
      SizeAfterInsert(a.bridges, e.bridge, BridgeCtx(e.kind, {}));
    } else if e.BridgeDestroyed? && e.bridge in a.bridges {
      SizeAfterErase(a.bridges, e.bridge);
    } else if e.EnteredBridge? && e.bridge in a.bridges {
      SizeAfterInsert(a.bridges, e.bridge, After(cfg, a, e).bridges[e.bridge]);
    }
  }

  // ---- first answer wins --------------------------------------------------

  lemma WinsLeg(r: RouterState, h: History, leg: ChannelId, caller: ChannelId, g: History)
    requires FirstAnswerWins(r, h) && leg != "" && caller in r.calls
    requires FirstAnswer(h, LegStasis(leg, caller))
    requires g.nextCall == h.nextCall && g.callNo == h.callNo
    requires g.answered == h.answered + [AnsweredCall(h.callNo[caller], caller, leg)]
    ensures FirstAnswerWins(AfterLegStart(r, leg, caller), g)
  {
    var n := h.callNo[caller];
    assert g.answered[|h.answered|] == AnsweredCall(n, caller, leg);
    assert r.calls[caller].connected == "" by {
      assert AnswerOf(h.answered, n, caller, r.calls[caller].connected);
    }
    forall c | c in g.callNo && c != caller
      ensures AnswerOf(g.answered, g.callNo[c], c, r.calls[c].connected)
    {
      assert AnswerOf(h.answered, h.callNo[c], c, r.calls[c].connected);
    }
  }

  lemma WinsLateLeg(r: RouterState, h: History, leg: ChannelId, caller: ChannelId, g: History)
    requires FirstAnswerWins(r, h) && leg != ""
    requires !FirstAnswer(h, LegStasis(leg, caller))
    requires g.nextCall == h.nextCall && g.callNo == h.callNo && g.answered == h.answered
    ensures FirstAnswerWins(AfterLegStart(r, leg, caller), g)
  {
    if caller in r.calls {
      assert AnswerOf(h.answered, h.callNo[caller], caller, r.calls[caller].connected);
      assert r.calls[caller].connected != "";
    }
  }

  lemma WinsOther(r: RouterState, h: History, s: RouterState, g: History)
    requires FirstAnswerWins(r, h)
    requires g.answered == h.answered && g.callNo == Numbered(h, s.calls.Keys)
    requires g.nextCall >= h.nextCall
    requires forall c :: c in s.calls && c in r.calls ==> s.calls[c].connected == r.calls[c].connected
    requires forall c :: c in s.calls && c !in r.calls ==> s.calls[c].connected == "" && g.nextCall > h.nextCall
    requires forall c, d :: c in s.calls && d in s.calls && c !in r.calls && d !in r.calls ==> c == d
    ensures FirstAnswerWins(s, g)
  {
    forall c | c in g.callNo
      ensures AnswerOf(g.answered, g.callNo[c], c, s.calls[c].connected)
    {
      if c in h.callNo {
        assert AnswerOf(h.answered, h.callNo[c], c, r.calls[c].connected);
      }
    }
  }

  lemma WinsCaller(cfg: Config, a: AriState, h: History, e: Event, cmds: seq<Command>)
    requires FirstAnswerWins(a.router, h) && e.CallerStasis?
    ensures FirstAnswerWins(After(cfg, a, e).router, PastStep(cfg, a, h, e, cmds))
  {
    WinsOther(a.router, h, After(cfg, a, e).router, PastStep(cfg, a, h, e, cmds));
  }

  lemma WinsGone(r: RouterState, channel: ChannelId)
    ensures forall c :: c in AfterGone(r, channel).calls ==> c in r.calls
    ensures forall c :: c in AfterGone(r, channel).calls ==> AfterGone(r, channel).calls[c].connected == r.calls[c].connected
  {
  }

  lemma WinsLegStep(cfg: Config, a: AriState, h: History, e: Event, cmds: seq<Command>)
    requires FirstAnswerWins(a.router, h) && e.LegStasis? && e.channel != ""
    ensures FirstAnswerWins(After(cfg, a, e).router, PastStep(cfg, a, h, e, cmds))
  {
    assert AfterLegStart(a.router, e.channel, e.caller).calls.Keys == a.router.calls.Keys;
    assert Numbered(h, a.router.calls.Keys) == h.callNo;
    if FirstAnswer(h, e) {
      WinsLeg(a.router, h, e.channel, e.caller, PastStep(cfg, a, h, e, cmds));
    } else {
      WinsLateLeg(a.router, h, e.channel, e.caller, PastStep(cfg, a, h, e, cmds));
    }
  }

  lemma WinsGoneStep(cfg: Config, a: AriState, h: History, e: Event, cmds: seq<Command>)
    requires FirstAnswerWins(a.router, h) && e.Destroyed?
    ensures FirstAnswerWins(After(cfg, a, e).router, PastStep(cfg, a, h, e, cmds))
  {
    WinsGone(a.router, e.channel);
    WinsOther(a.router, h, After(cfg, a, e).router, PastStep(cfg, a, h, e, cmds));
  }

  lemma WinsBridgeStep(cfg: Config, a: AriState, h: History, e: Event, cmds: seq<Command>)
    requires FirstAnswerWins(a.router, h) && (e.BridgeCreated? || e.BridgeDestroyed? || e.EnteredBridge?)
    ensures FirstAnswerWins(After(cfg, a, e).router, PastStep(cfg, a, h, e, cmds))
  {
    WinsOther(a.router, h, a.router, PastStep(cfg, a, h, e, cmds));
  }

  lemma FirstAnswerWinsKept(cfg: Config, a: AriState, n: Asterisk, h: History, e: Event, cmds: seq<Command>)
    requires FirstAnswerWins(a.router, h) && InStep(a, n) && Enabled(cfg, a, n, e, cmds)
    ensures FirstAnswerWins(After(cfg, a, e).router, PastStep(cfg, a, h, e, cmds))
  {
    match e
    case LegStasis(channel, caller) => WinsLegStep(cfg, a, h, e, cmds);
    case CallerStasis(_, _, _, _, _, _, _, _) => WinsCaller(cfg, a, h, e, cmds);
    case Destroyed(channel, _) => WinsGoneStep(cfg, a, h, e, cmds);
    case _ => WinsBridgeStep(cfg, a, h, e, cmds);
  }

  /** Once a call has a winner it keeps it for as long as it lasts. */
  lemma WinnerStays(cfg: Config, a: AriState, e: Event, caller: ChannelId)
    requires caller in a.router.calls && caller in After(cfg, a, e).router.calls
    requires a.router.calls[caller].connected != ""
    ensures After(cfg, a, e).router.calls[caller].connected == a.router.calls[caller].connected
  {
    if e.Destroyed? {
      WinsGone(a.router, e.channel);
    }
  }

  lemma NoAnswerGone(r: RouterState, channel: ChannelId, cmds: seq<Command>, caller: ChannelId)
    requires CallsOk(r) && GoneEmits(r, channel, cmds) && channel !in r.calls
    ensures Hangup(caller, "no_answer") in cmds <==>
      && channel in r.legToCaller && r.legToCaller[channel] == caller && caller in r.calls
      && r.calls[caller].connected == "" && r.calls[caller].ringing == {channel}
  {
    if channel in r.legToCaller && r.legToCaller[channel] in r.calls {
      var call := r.calls[r.legToCaller[channel]];
      assert OnePhase(call);
      if call.ringing != {} && call.ringing - {channel} == {} {
        assert call.ringing == {channel};
      }
    }
  }

  predicate Says(cmds: seq<Command>, reason: string) {
    exists i :: 0 <= i < |cmds| && cmds[i].Hangup? && cmds[i].reason == reason
  }

  lemma NoAnswerElsewhere(cfg: Config, a: AriState, e: Event, cmds: seq<Command>)
    requires Emits(cfg, a, e, cmds) && (e.Destroyed? ==> e.channel in a.router.calls)
    ensures !Says(cmds, "no_answer")
  {
    if e.Destroyed? && e.channel != "" && a.router.calls[e.channel].connected != "" {
      assert forall i :: 0 <= i < |cmds| - 1 ==> cmds[i] == cmds[..|cmds| - 1][i];
    }
    if e.LegStasis? && |cmds| >= 4 {
      assert forall i :: 0 <= i < 4 ==> cmds[i] == cmds[..4][i];
      assert forall i :: 4 <= i < |cmds| ==> cmds[i] == cmds[4..][i - 4];
    }
  }

  /** `no_answer` goes out exactly when the last ringing leg of an unanswered call dies. */
  lemma NoAnswerExactly(cfg: Config, a: AriState, n: Asterisk, e: Event, cmds: seq<Command>, caller: ChannelId)
    requires CallsOk(a.router) && InStep(a, n) && Enabled(cfg, a, n, e, cmds)
    ensures Hangup(caller, "no_answer") in cmds <==>
      && e.Destroyed? && e.channel in n.legs && n.legs[e.channel] == caller && caller in a.router.calls
      && a.router.calls[caller].connected == "" && a.router.calls[caller].ringing == {e.channel}
  {
    if e.Destroyed? && e.channel !in a.router.calls {
      if e.channel != "" {
        NoAnswerGone(a.router, e.channel, cmds, caller);
      }
    } else {
      NoAnswerElsewhere(cfg, a, e, cmds);
      assert Hangup(caller, "no_answer") !in cmds;
    }
  }

  // ---- bridging requests --------------------------------------------------

  lemma {:induction false} BridgingConcat(cfg: Config, x: seq<Command>, y: seq<Command>)
    ensures BridgingOf(cfg, x + y) == BridgingOf(cfg, x) + BridgingOf(cfg, y)
  {
    if y == [] {
      assert x + y == x;
    } else {
      var n := |y| - 1;
      BridgingConcat(cfg, x, y[..n]);
      assert (x + y)[..|x + y| - 1] == x + y[..n];
      assert (x + y)[|x + y| - 1] == y[n];
    }
  }

  lemma {:induction false} NoBridging(cfg: Config, cmds: seq<Command>)
    requires forall i :: 0 <= i < |cmds| ==> !Bridging(cfg, cmds[i])
    ensures BridgingOf(cfg, cmds) == []
  {
    if cmds != [] {
      NoBridging(cfg, cmds[..|cmds| - 1]);
    }
  }

  lemma BridgeIsNotConf(cfg: Config, caller: ChannelId)
    ensures BridgeName(caller) != ConfBridge(cfg)
  {
    var b, c := BridgeName(caller), ConfBridge(cfg);
    assert b[|b| - 1] == 'e' && c[|c| - 1] == 'f';
  }

  lemma ScriptIsBridging(cfg: Config, caller: ChannelId, leg: ChannelId)
    ensures BridgingOf(cfg, BridgeScript(caller, leg)) == BridgeScript(caller, leg)
  {
    BridgeIsNotConf(cfg, caller);
    var s := BridgeScript(caller, leg);
    assert s[..3][..2] == s[..2] && s[..2][..1] == s[..1];
    assert BridgingOf(cfg, s[..1]) == [s[0]];
    assert BridgingOf(cfg, s[..2]) == [s[0], s[1]];
    assert BridgingOf(cfg, s[..3]) == [s[0], s[1], s[2]];
  }

  lemma OneBridgeKept(cfg: Config, a: AriState, n: Asterisk, h: History, e: Event, cmds: seq<Command>)
    requires OneBridgePerCall(cfg, h) && FirstAnswerWins(a.router, h) && RoutingSafe(a, n) && Enabled(cfg, a, n, e, cmds)
    ensures OneBridgePerCall(cfg, PastStep(cfg, a, h, e, cmds))
  {
    BridgingConcat(cfg, h.log, cmds);
    if FirstAnswer(h, e) {
      assert AnswerOf(h.answered, h.callNo[e.caller], e.caller, a.router.calls[e.caller].connected);
      FirstAnswerBridges(cfg, a.router, e, cmds);
      var more := h.answered + [AnsweredCall(h.callNo[e.caller], e.caller, e.channel)];
      assert more[..|more| - 1] == h.answered;
    } else {
      OthersDoNotBridge(cfg, a, h, e, cmds);
      NoBridging(cfg, cmds);
    }
  }

  lemma FirstAnswerBridges(cfg: Config, r: RouterState, e: Event, cmds: seq<Command>)
    requires e.LegStasis? && e.caller in r.calls && r.calls[e.caller].connected == ""
    requires LegStartEmits(r, e.channel, e.caller, cmds)
    ensures BridgingOf(cfg, cmds) == BridgeScript(e.caller, e.channel)
  {
    assert cmds == cmds[..4] + cmds[4..];
    BridgingConcat(cfg, cmds[..4], cmds[4..]);
    ScriptIsBridging(cfg, e.caller, e.channel);
    NoBridging(cfg, cmds[4..]);
  }

  lemma OthersDoNotBridge(cfg: Config, a: AriState, h: History, e: Event, cmds: seq<Command>)
    requires FirstAnswerWins(a.router, h) && Emits(cfg, a, e, cmds) && !FirstAnswer(h, e)
    ensures forall i :: 0 <= i < |cmds| ==> !Bridging(cfg, cmds[i])
  {
    if e.LegStasis? && e.caller in a.router.calls {
      assert AnswerOf(h.answered, h.callNo[e.caller], e.caller, a.router.calls[e.caller].connected);
    }
    if e.Destroyed? && e.channel in a.router.calls && a.router.calls[e.channel].connected != "" {
      assert forall i :: 0 <= i < |cmds| - 1 ==> cmds[i] == cmds[..|cmds| - 1][i];
    }
  }

  // ---- corollaries about names and records --------------------------------

  /** Forks of different callers share no leg id, whatever the callers are called. */
  lemma ForksDisjoint(c: ChannelId, d: ChannelId, cs: seq<int>, ds: seq<int>)
    requires c != d
    ensures AcceptedLegs(c, cs) !! AcceptedLegs(d, ds)
  {
    forall l | l in AcceptedLegs(c, cs) && l in AcceptedLegs(d, ds)
      ensures false
    {
      var i :| 0 <= i < |cs| && l == LegName(c, i);
      var j :| 0 <= j < |ds| && l == LegName(d, j);
      LegNameInjective(c, i, d, j);
    }
  }

  function Successes(statuses: seq<int>): nat {
    if statuses == [] then 0
    else Successes(statuses[..|statuses| - 1]) + if Success(statuses[|statuses| - 1]) then 1 else 0
  }

  /** One tracked leg per successful request: no two of a call's legs share an id. */
  lemma {:induction false} LegPerSuccess(caller: ChannelId, statuses: seq<int>)
    ensures |AcceptedLegs(caller, statuses)| == Successes(statuses)
  {
    if statuses != [] {
      var n := |statuses| - 1;
      LegPerSuccess(caller, statuses[..n]);
      assert statuses[..n + 1] == statuses;
      AcceptedStep(caller, statuses, n);
      if LegName(caller, n) in AcceptedLegs(caller, statuses[..n]) {
        var i :| 0 <= i < n && LegName(caller, n) == LegName(caller, i);
        LegNameInjective(caller, n, caller, i);
      }
    }
  }

  /** The death of an originated leg never writes a call detail record. */
  lemma LegsGetNoCdr(cfg: Config, a: AriState, n: Asterisk, leg: ChannelId, now: int)
    requires InStep(a, n) && leg in n.legs
    ensures After(cfg, a, Destroyed(leg, now)).cdrs == a.cdrs
  {
  }

  // ---- the theorem --------------------------------------------------------

  /** Everything that is kept over whole runs. */
  ghost predicate Safe(cfg: Config, w: World) {
    && RoutingSafe(w.ari, w.net)
    && BridgesCounted(w.ari)
    && Ledger(w.past.admitted, w.ari.cdrs, w.ari.channels.Keys)
    && FirstAnswerWins(w.ari.router, w.past)
    && OneBridgePerCall(cfg, w.past)
  }

  lemma {:induction false} EveryRunIsSafe(cfg: Config, run: Run)
    requires Legal(cfg, run)
    ensures Safe(cfg, Exec(cfg, run))
  {
    if run != [] {
      var before := run[..|run| - 1];
      var (e, cmds) := run[|run| - 1];
      EveryRunIsSafe(cfg, before);
      var w := Exec(cfg, before);
      RoutingSafeKept(cfg, w.ari, w.net, e, cmds);
      BridgesCountedKept(cfg, w.ari, e);
      LedgerKept(cfg, w.ari, w.past.admitted, e);
      FirstAnswerWinsKept(cfg, w.ari, w.net, w.past, e, cmds);
      OneBridgeKept(cfg, w.ari, w.net, w.past, e, cmds);
    }
  }

  /** A leg Asterisk still has and nobody asked to hang up belongs to a call in progress. */
  lemma NoLegIsLeaked(cfg: Config, run: Run, leg: ChannelId)
    requires Legal(cfg, run) && leg in Exec(cfg, run).net.legs && leg !in Exec(cfg, run).net.hung
    ensures var w := Exec(cfg, run); Held(w.ari.router, w.net.legs[leg], leg)
  {
    hide Exec, Legal, FirstAnswerWins, OneBridgePerCall, Ledger;
    EveryRunIsSafe(cfg, run);
  }

  /** A routed caller nobody asked to hang up has a call that is ringing or connected. */
  lemma NoCallerIsStranded(cfg: Config, run: Run, caller: ChannelId)
    requires Legal(cfg, run) && caller in Exec(cfg, run).net.routed && caller !in Exec(cfg, run).net.hung
    ensures var r := Exec(cfg, run).ari.router; caller in r.calls && OnePhase(r.calls[caller])
  {
    hide Exec, Legal, FirstAnswerWins, OneBridgePerCall, Ledger;
    EveryRunIsSafe(cfg, run);
  }

  /** Once a leg has answered a call first, that leg is connected and nobody rings, for
      as long as the call lasts. */
  lemma OneWinner(cfg: Config, run: Run, caller: ChannelId, i: nat)
    requires Legal(cfg, run) && i < |Exec(cfg, run).past.answered|
    requires var h := Exec(cfg, run).past; caller in h.callNo && h.answered[i].call == h.callNo[caller]
    ensures var w := Exec(cfg, run); var calls := w.ari.router.calls;
      caller in calls && calls[caller].connected == w.past.answered[i].leg && calls[caller].ringing == {}
  {
    hide Exec, Legal, OneBridgePerCall, Ledger;
    EveryRunIsSafe(cfg, run);
    var h, call := Exec(cfg, run).past, Exec(cfg, run).ari.router.calls[caller];
    assert AnswerOf(h.answered, h.callNo[caller], caller, call.connected) && OnePhase(call);
  }

  /** Every admission of a channel is either still open or has its own record. */
  lemma OneRecordPerAdmission(cfg: Config, run: Run, c: ChannelId)
    requires Legal(cfg, run)
    ensures var w := Exec(cfg, run);
      multiset(w.past.admitted)[c] == multiset(CdrIds(w.ari.cdrs))[c] + if c in w.ari.channels then 1 else 0
  {
    hide Exec, Legal, RoutingSafe, FirstAnswerWins, OneBridgePerCall;
    EveryRunIsSafe(cfg, run);
  }
}
