/** The forked-ring driver: one ringing leg per target, the first answer is
    bridged with the caller, everybody else is hung up. */
module CallRouting {
  import opened ChannelNames

  /** The REST requests the router and the event client issue. */
  datatype Command =
    | Originate(endpoint: string, app: string, appArgs: string, channel: ChannelId, callerId: string)
    | Answer(channel: ChannelId)
    | CreateBridge(bridge: string, kind: string)
    | AddChannel(bridge: string, channel: ChannelId)
    | Hangup(channel: ChannelId, reason: string)
    | Continue(channel: ChannelId, context: string, extension: string, priority: int)

  /** One call in progress. An empty `connected` means nobody answered yet. */
  datatype PendingCall = PendingCall(dialed: string, ringing: set<ChannelId>, connected: ChannelId)

  datatype RouterState = RouterState(calls: map<ChannelId, PendingCall>, legToCaller: map<ChannelId, ChannelId>)

  predicate Success(status: int) {
    200 <= status < 300
  }

  /** The legs whose originate request succeeded. */
  function AcceptedLegs(caller: ChannelId, statuses: seq<int>): set<ChannelId> {
    set i | 0 <= i < |statuses| && Success(statuses[i]) :: LegName(caller, i)
  }

  function OriginateCommands(caller: ChannelId, callerId: string, app: string, targets: seq<string>): seq<Command> {
    seq(|targets|, i requires 0 <= i < |targets| =>
      Originate("PJSIP/" + targets[i], app, "outbound," + caller, LegName(caller, i), callerId))
  }

  /** What the requests that connect a caller with the leg that answered must be. */
  function BridgeScript(caller: ChannelId, leg: ChannelId): seq<Command> {
    [Answer(caller), CreateBridge(BridgeName(caller), "mixing"),
     AddChannel(BridgeName(caller), caller), AddChannel(BridgeName(caller), leg)]
  }

  /** `cmds` hangs up every channel of `legs` exactly once, in some order. */
  predicate HangsUpEach(cmds: seq<Command>, legs: set<ChannelId>, reason: string) {
    && |cmds| == |legs|
    && (forall l :: l in legs ==> Hangup(l, reason) in cmds)
    && (forall i :: 0 <= i < |cmds| ==> cmds[i].Hangup? && cmds[i].reason == reason && cmds[i].channel in legs)
  }

  // ---- a caller enters ----------------------------------------------------

  function AfterCallerStart(s: RouterState, caller: ChannelId, dialed: string, statuses: seq<int>): RouterState {
    var legs := AcceptedLegs(caller, statuses);
    if caller in s.calls || legs == {} then s
    else RouterState(s.calls[caller := PendingCall(dialed, legs, "")],
                     WithLegs(s.legToCaller, legs, caller))
  }

  function WithLegs(m: map<ChannelId, ChannelId>, legs: set<ChannelId>, caller: ChannelId): map<ChannelId, ChannelId> {
    m + map l | l in legs :: caller
  }

  /** The caller is released with congestion when no leg came up, which covers
      the empty target list. */
  function NoRoute(caller: ChannelId, statuses: seq<int>): seq<Command> {
    if AcceptedLegs(caller, statuses) == {} then [Hangup(caller, "congestion")] else []
  }

  function CallerStartCommands(s: RouterState, caller: ChannelId, callerId: string, app: string,
                               targets: seq<string>, statuses: seq<int>): seq<Command> {
    if caller in s.calls then []
    else OriginateCommands(caller, callerId, app, targets) + NoRoute(caller, statuses)
  }

  // ---- a leg answers ------------------------------------------------------

  function AfterLegStart(s: RouterState, leg: ChannelId, caller: ChannelId): RouterState {
    if caller !in s.calls then s
    else
      var call := s.calls[caller];
      if call.connected == "" then s.(calls := s.calls[caller := call.(ringing := {}, connected := leg)])
      else if call.connected == leg then s
      else s.(calls := s.calls[caller := call.(ringing := call.ringing - {leg})])
  }

  predicate LegStartEmits(s: RouterState, leg: ChannelId, caller: ChannelId, cmds: seq<Command>) {
    if caller !in s.calls then cmds == [Hangup(leg, "normal")]
    else
      var call := s.calls[caller];
      if call.connected == "" then
        && |cmds| >= 4
        && cmds[..4] == BridgeScript(caller, leg)
        && HangsUpEach(cmds[4..], call.ringing - {leg}, "answered")
      else if call.connected == leg then cmds == []
      else cmds == [Hangup(leg, "answered")]
  }

  // ---- a channel disappears -----------------------------------------------

  /** The legs a call still holds on to. */
  function Attached(call: PendingCall): set<ChannelId> {
    if call.connected == "" then call.ringing else call.ringing + {call.connected}
  }

  function AfterGone(s: RouterState, channel: ChannelId): RouterState {
    if channel in s.calls then s.(calls := s.calls - {channel})
    else if channel !in s.legToCaller then s
    else
      var caller := s.legToCaller[channel];
      var t := s.(legToCaller := s.legToCaller - {channel});
      if caller !in s.calls then t
      else
        var call := s.calls[caller];
        if channel == call.connected || (call.connected == "" && call.ringing - {channel} == {}) then
          t.(calls := s.calls - {caller})
        else
          t.(calls := s.calls[caller := call.(ringing := call.ringing - {channel})])
  }

  predicate GoneEmits(s: RouterState, channel: ChannelId, cmds: seq<Command>) {
    if channel in s.calls then
      var call := s.calls[channel];
      if call.connected == "" then HangsUpEach(cmds, call.ringing, "normal")
      else
        && |cmds| >= 1
        && HangsUpEach(cmds[..|cmds| - 1], call.ringing, "normal")
        && cmds[|cmds| - 1] == Hangup(call.connected, "normal")
    else if channel !in s.legToCaller || s.legToCaller[channel] !in s.calls then cmds == []
    else
      var caller := s.legToCaller[channel];
      var call := s.calls[caller];
      if channel == call.connected then cmds == [Hangup(caller, "normal")]
      else if call.connected == "" && call.ringing - {channel} == {} then cmds == [Hangup(caller, "no_answer")]
      else cmds == []
  }

  /** The router object. `issued` is the REST traffic it has produced so far. */
  class CallRouter {
    const app: string
    var calls: map<ChannelId, PendingCall>
    var legToCaller: map<ChannelId, ChannelId>
    var issued: seq<Command>

    function State(): RouterState reads this {
      RouterState(calls, legToCaller)
    }

    constructor (app: string)
      ensures State() == RouterState(map[], map[]) && issued == [] && this.app == app
    {
      this.app := app;
      calls, legToCaller, issued := map[], map[], [];
    }

    /** `targets` is what the directory lookup returned, `statuses` the HTTP
        status of each originate request. */
    method OnCallerStart(caller: ChannelId, callerId: string, dialed: string, targets: seq<string>, statuses: seq<int>)
      requires |statuses| == |targets|
      modifies this
      ensures State() == AfterCallerStart(old(State()), caller, dialed, statuses)
      ensures issued == old(issued) + CallerStartCommands(old(State()), caller, callerId, app, targets, statuses)
    {
      if caller in calls { return; }
      if targets == [] {
        issued := issued + [Hangup(caller, "congestion")];
        return;
      }
      var ringing := Fork(caller, callerId, targets, statuses);
      if ringing == {} {
        issued := issued + [Hangup(caller, "congestion")];
        return;
      }
      calls := calls[caller := PendingCall(dialed, ringing, "")];
    }

    /** The originate loop. Only a successful request is tracked as ringing. */
    method Fork(caller: ChannelId, callerId: string, targets: seq<string>, statuses: seq<int>)
      returns (ringing: set<ChannelId>)
      requires |statuses| == |targets|
      modifies this`issued, this`legToCaller
      ensures ringing == AcceptedLegs(caller, statuses)
      ensures legToCaller == WithLegs(old(legToCaller), ringing, caller)
      ensures issued == old(issued) + OriginateCommands(caller, callerId, app, targets)
    {
      ringing := {};
      var i := 0;
      while i < |targets|
        invariant 0 <= i <= |targets|
        invariant ringing == AcceptedLegs(caller, statuses[..i])
        invariant legToCaller == WithLegs(old(legToCaller), ringing, caller)
        invariant issued == old(issued) + OriginateCommands(caller, callerId, app, targets[..i])
      {
        var leg := LegName(caller, i);
        var request := Originate("PJSIP/" + targets[i], app, "outbound," + caller, leg, callerId);
        issued := issued + [request];
        OriginateStep(caller, callerId, app, targets, i);
        AcceptedStep(caller, statuses, i);
        if Success(statuses[i]) {
          WithLegsStep(old(legToCaller), ringing, caller, leg);
          ringing := ringing + {leg};
          legToCaller := legToCaller[leg := caller];
        }
        i := i + 1;
      }
      assert statuses[..i] == statuses && targets[..i] == targets;
    }

    method OnLegStart(leg: ChannelId, caller: ChannelId)
      modifies this
      ensures State() == AfterLegStart(old(State()), leg, caller)
      ensures old(issued) <= issued && LegStartEmits(old(State()), leg, caller, issued[|old(issued)|..])
    {
      if caller !in calls {
        issued := issued + [Hangup(leg, "normal")];
        return;
      }
      var call := calls[caller];
      if call.connected != "" {
        if call.connected == leg { return; }
        issued := issued + [Hangup(leg, "answered")];
        calls := calls[caller := call.(ringing := call.ringing - {leg})];
        return;
      }
      call := call.(connected := leg, ringing := call.ringing - {leg});
      issued := issued + [Answer(caller)];
      var bridge := BridgeName(caller);
      issued := issued + [CreateBridge(bridge, "mixing")];
      issued := issued + [AddChannel(bridge, caller)];
      issued := issued + [AddChannel(bridge, leg)];
      assert issued == old(issued) + BridgeScript(caller, leg);
      ghost var before := issued;
      HangUpAll(call.ringing, "answered");
      assert issued[|old(issued)|..][4..] == issued[|before|..];
      assert issued[|old(issued)|..][..4] == BridgeScript(caller, leg);
      calls := calls[caller := call.(ringing := {})];
    }

    method OnChannelGone(channel: ChannelId)
      modifies this
      ensures State() == AfterGone(old(State()), channel)
      ensures old(issued) <= issued && GoneEmits(old(State()), channel, issued[|old(issued)|..])
    {
      if channel in calls {
        var call := calls[channel];
        HangUpAll(call.ringing, "normal");
        if call.connected != "" {
          issued := issued + [Hangup(call.connected, "normal")];
          ghost var emitted := issued[|old(issued)|..];
          assert emitted[..|emitted| - 1] == issued[|old(issued)|..|issued| - 1];
        }
        calls := calls - {channel};
        return;
      }
      if channel !in legToCaller { return; }
      var caller := legToCaller[channel];
      legToCaller := legToCaller - {channel};
      if caller !in calls { return; }
      var call := calls[caller];
      if channel == call.connected {
        issued := issued + [Hangup(caller, "normal")];
        calls := calls - {caller};
        return;
      }
      call := call.(ringing := call.ringing - {channel});
      calls := calls[caller := call];
      if call.connected == "" && call.ringing == {} {
        issued := issued + [Hangup(caller, "no_answer")];
        calls := calls - {caller};
        assert calls == old(calls) - {caller};
      }
    }

    /** Walks an unordered set of legs; the order is not specified. */
    method HangUpAll(legs: set<ChannelId>, reason: string)
      modifies this`issued
      ensures old(issued) <= issued && HangsUpEach(issued[|old(issued)|..], legs, reason)
    {
      var rest := legs;
      ghost var done: set<ChannelId>, batch: seq<Command> := {}, [];
      while rest != {}
        invariant legs == done + rest && done !! rest
        invariant issued == old(issued) + batch && HangsUpEach(batch, done, reason)
        decreases rest
      {
        var leg :| leg in rest;
        issued := issued + [Hangup(leg, reason)];
        HangsUpMore(batch, done, reason, leg);
        batch, done := batch + [Hangup(leg, reason)], done + {leg};
        rest := rest - {leg};
      }
      assert issued[|old(issued)|..] == batch;
    }
  }

  lemma AcceptedStep(caller: ChannelId, statuses: seq<int>, i: nat)
    requires i < |statuses|
    ensures AcceptedLegs(caller, statuses[..i + 1])
         == AcceptedLegs(caller, statuses[..i]) + if Success(statuses[i]) then {LegName(caller, i)} else {}
  {
    var all, some := statuses[..i + 1], statuses[..i];
    forall l | l in AcceptedLegs(caller, some)
      ensures l in AcceptedLegs(caller, all)
    {
      var k :| 0 <= k < i && Success(some[k]) && l == LegName(caller, k);
      assert all[k] == some[k];
    }
    forall l | l in AcceptedLegs(caller, all) && !(Success(statuses[i]) && l == LegName(caller, i))
      ensures l in AcceptedLegs(caller, some)
    {
      var k :| 0 <= k < i + 1 && Success(all[k]) && l == LegName(caller, k);
      assert k < i && some[k] == all[k];
    }
    if Success(statuses[i]) {
      assert all[i] == statuses[i];
    }
  }

  lemma WithLegsStep(m: map<ChannelId, ChannelId>, legs: set<ChannelId>, caller: ChannelId, leg: ChannelId)
    ensures WithLegs(m, legs + {leg}, caller) == WithLegs(m, legs, caller)[leg := caller]
  {
  }

  lemma OriginateStep(caller: ChannelId, callerId: string, app: string, targets: seq<string>, i: nat)
    requires i < |targets|
    ensures OriginateCommands(caller, callerId, app, targets[..i + 1])
         == OriginateCommands(caller, callerId, app, targets[..i])
          + [Originate("PJSIP/" + targets[i], app, "outbound," + caller, LegName(caller, i), callerId)]
  {
  }

  lemma HangsUpMore(cmds: seq<Command>, legs: set<ChannelId>, reason: string, leg: ChannelId)
    requires HangsUpEach(cmds, legs, reason) && leg !in legs
    ensures HangsUpEach(cmds + [Hangup(leg, reason)], legs + {leg}, reason)
  {
    var more := cmds + [Hangup(leg, reason)];
    assert more[|cmds|] == Hangup(leg, reason);
    forall l | l in legs
      ensures Hangup(l, reason) in more
    {
      assert Hangup(l, reason) in cmds;
    }
  }
}
