/** What call control asks of Asterisk, request by request and written out. */
module CallLaws {
  import opened Decimals
  import opened ChannelNames
  import opened CallRouting
  import opened AriEvents
  import opened CallRuns

  predicate Ok2xx(status: int) {
    status / 100 == 2
  }

  /** A request succeeded exactly when its status is of the 2xx class. */
  lemma SuccessIs2xx(status: int)
    ensures Success(status) <==> Ok2xx(status)
  {
  }

  // ---- one bridge ---------------------------------------------------------

  /** The requests of one answered call, spelled out. */
  predicate BridgesPair(b: seq<Command>, at: nat, caller: ChannelId, leg: ChannelId) {
    && at + 4 <= |b|
    && b[at] == Answer(caller)
    && b[at + 1] == CreateBridge(caller + "-bridge", "mixing")
    && b[at + 2] == AddChannel(caller + "-bridge", caller)
    && b[at + 3] == AddChannel(caller + "-bridge", leg)
  }

  lemma {:induction false} ScriptsSpelledOut(answered: seq<AnsweredCall>, i: nat)
    requires i < |answered|
    ensures |Scripts(answered)| == 4 * |answered|
    ensures BridgesPair(Scripts(answered), 4 * i, answered[i].caller, answered[i].leg)
  {
    var n := |answered| - 1;
    if n == 0 {
      assert Scripts(answered[..0]) == [];
    } else {
      ScriptsSpelledOut(answered[..n], if i < n then i else 0);
    }
  }

  /** Over every run, conference traffic aside: the answer and bridging requests are four
      for each first answer, in that order: the caller is answered, its bridge created, and
      the caller and the leg that answered are put into it. */
  lemma CallerAndWinnerAreBridged(cfg: Config, run: Run, i: nat)
    requires Legal(cfg, run) && i < |Exec(cfg, run).past.answered|
    ensures var h := Exec(cfg, run).past; var b := BridgingOf(cfg, h.log);
      |b| == 4 * |h.answered| && BridgesPair(b, 4 * i, h.answered[i].caller, h.answered[i].leg)
  {
    hide Exec, Legal, RoutingSafe, FirstAnswerWins, Ledger, BridgesPair, Scripts;
    EveryRunIsSafe(cfg, run);
    ScriptsSpelledOut(Exec(cfg, run).past.answered, i);
  }

  /** What counts as bridging: every answer, and everything about a bridge other than the
      society's conference. */
  lemma BridgingIs(cfg: Config, c: Command)
    ensures Bridging(cfg, c) <==>
      c.Answer? || (c.CreateBridge? && c.bridge != cfg.society + "-conf") || (c.AddChannel? && c.bridge != cfg.society + "-conf")
  {
  }

  // ---- hangups ------------------------------------------------------------

  /** Who is to be hung up, and with which reason. */
  predicate ToHangUp(cfg: Config, a: AriState, e: Event, c: ChannelId, reason: string) {
    match e
    case CallerStasis(channel, _, callee, _, _, statuses, created, added) =>
      && c == channel && reason == "congestion" && a.activeBridges < cfg.maxCalls
      && (if callee == "conf" then (!Ok2xx(created) && created != 409) || !Ok2xx(added)
          else channel !in a.router.calls && forall i :: 0 <= i < |statuses| ==> !Ok2xx(statuses[i]))
    case LegStasis(leg, caller) =>
      if caller !in a.router.calls then c == leg && reason == "normal"
      else if a.router.calls[caller].connected == "" then
        c != leg && c in a.router.calls[caller].ringing && reason == "answered"
      else c == leg && leg != a.router.calls[caller].connected && reason == "answered"
    case Destroyed(channel, _) =>
      channel != "" &&
      if channel in a.router.calls then
        reason == "normal" && c != "" &&
        (c in a.router.calls[channel].ringing || c == a.router.calls[channel].connected)
      else
        && channel in a.router.legToCaller && c == a.router.legToCaller[channel] && c in a.router.calls
        && (if a.router.calls[c].connected == channel then reason == "normal"
            else a.router.calls[c].connected == "" && a.router.calls[c].ringing <= {channel} && reason == "no_answer")
    case _ => false
  }

  lemma {:induction false} NoneAccepted(caller: ChannelId, statuses: seq<int>)
    ensures AcceptedLegs(caller, statuses) == {} <==> forall i :: 0 <= i < |statuses| ==> !Ok2xx(statuses[i])
  {
    if i :| 0 <= i < |statuses| && Ok2xx(statuses[i]) {
      SuccessIs2xx(statuses[i]);
      assert LegName(caller, i) in AcceptedLegs(caller, statuses);
    }
  }

  lemma CallerHangups(cfg: Config, a: AriState, e: Event, cmds: seq<Command>, c: ChannelId, reason: string)
    requires Emits(cfg, a, e, cmds) && e.CallerStasis?
    ensures Hangup(c, reason) in cmds <==> ToHangUp(cfg, a, e, c, reason)
  {
    NoneAccepted(e.channel, e.statuses);
    if Routes(cfg, a, e) && e.channel !in a.router.calls {
      var originates := OriginateCommands(e.channel, e.callerFlat, cfg.app, e.targets);
      assert forall x :: x in originates ==> !x.Hangup?;
      assert cmds == originates + NoRoute(e.channel, e.statuses);
      hide AcceptedLegs, OriginateCommands;
    }
  }

  lemma BatchHangs(cmds: seq<Command>, legs: set<ChannelId>, reason: string, c: ChannelId, r: string)
    requires HangsUpEach(cmds, legs, reason)
    ensures Hangup(c, r) in cmds <==> c in legs && r == reason
  {
    if Hangup(c, r) in cmds {
      var i :| 0 <= i < |cmds| && cmds[i] == Hangup(c, r);
    }
  }

  lemma LegHangups(cfg: Config, a: AriState, e: Event, cmds: seq<Command>, c: ChannelId, reason: string)
    requires e.LegStasis? && LegStartEmits(a.router, e.channel, e.caller, cmds)
    ensures Hangup(c, reason) in cmds <==> ToHangUp(cfg, a, e, c, reason)
  {
    if e.caller in a.router.calls && a.router.calls[e.caller].connected == "" {
      BatchHangs(cmds[4..], a.router.calls[e.caller].ringing - {e.channel}, "answered", c, reason);
      assert cmds == cmds[..4] + cmds[4..];
      hide HangsUpEach;
      assert Hangup(c, reason) !in BridgeScript(e.caller, e.channel);
    }
  }

  lemma CallerGoneHangups(r: RouterState, caller: ChannelId, cmds: seq<Command>, c: ChannelId, reason: string)
    requires caller in r.calls && GoneEmits(r, caller, cmds) && "" !in r.calls[caller].ringing
    ensures Hangup(c, reason) in cmds <==>
      reason == "normal" && c != "" && (c in r.calls[caller].ringing || c == r.calls[caller].connected)
  {
    var call := r.calls[caller];
    if call.connected == "" {
      BatchHangs(cmds, call.ringing, "normal", c, reason);
    } else {
      var n := |cmds| - 1;
      BatchHangs(cmds[..n], call.ringing, "normal", c, reason);
      assert cmds == cmds[..n] + [cmds[n]];
      hide HangsUpEach;
    }
  }

  lemma LegGoneHangups(r: RouterState, leg: ChannelId, cmds: seq<Command>, c: ChannelId, reason: string)
    requires leg !in r.calls && GoneEmits(r, leg, cmds)
    ensures Hangup(c, reason) in cmds <==>
      && leg in r.legToCaller && c == r.legToCaller[leg] && c in r.calls
      && (if r.calls[c].connected == leg then reason == "normal"
          else r.calls[c].connected == "" && r.calls[c].ringing <= {leg} && reason == "no_answer")
  {
    hide HangsUpEach;
  }

  lemma GoneHangups(cfg: Config, a: AriState, e: Event, cmds: seq<Command>, c: ChannelId, reason: string)
    requires e.Destroyed? && e.channel != "" && GoneEmits(a.router, e.channel, cmds) && CallsOk(a.router)
    requires "" !in a.router.legToCaller
    ensures Hangup(c, reason) in cmds <==> ToHangUp(cfg, a, e, c, reason)
  {
    hide GoneEmits;
    if e.channel in a.router.calls {
      assert BackMapped(a.router, e.channel, Attached(a.router.calls[e.channel]));
      hide CallsOk;
      CallerGoneHangups(a.router, e.channel, cmds, c, reason);
    } else {
      hide CallsOk;
      LegGoneHangups(a.router, e.channel, cmds, c, reason);
    }
  }

  /** A hangup is requested, with its reason, exactly for those. */
  lemma HangupsExactly(cfg: Config, a: AriState, n: Asterisk, e: Event, cmds: seq<Command>, c: ChannelId, reason: string)
    requires CallsOk(a.router) && InStep(a, n) && Enabled(cfg, a, n, e, cmds)
    ensures Hangup(c, reason) in cmds <==> ToHangUp(cfg, a, e, c, reason)
  {
    hide CallsOk, ToHangUp, LegStartEmits, GoneEmits;
    match e
    case CallerStasis(_, _, _, _, _, _, _, _) => CallerHangups(cfg, a, e, cmds, c, reason);
    case LegStasis(_, _) => LegHangups(cfg, a, e, cmds, c, reason);
    case Destroyed(channel, _) => if channel != "" { GoneHangups(cfg, a, e, cmds, c, reason); } else { NobodyElse(cfg, a, e, c, reason); }
    case _ => NobodyElse(cfg, a, e, c, reason);
  }

  lemma NobodyElse(cfg: Config, a: AriState, e: Event, c: ChannelId, reason: string)
    requires e.BridgeCreated? || e.BridgeDestroyed? || e.EnteredBridge? || (e.Destroyed? && e.channel == "")
    ensures !ToHangUp(cfg, a, e, c, reason)
  {
  }

  // ---- the other requests -------------------------------------------------

  /** Ringing: the i-th originate request goes to the i-th target, with an id of its own and
      the tag by which its answer will be known. */
  predicate RingsAll(e: Event, app: string, cmds: seq<Command>)
    requires e.CallerStasis?
  {
    && |e.targets| <= |cmds|
    && forall i :: 0 <= i < |e.targets| ==>
        cmds[i] == Originate("PJSIP/" + e.targets[i], app, "outbound," + e.channel, e.channel + "-leg-" + Decimal(i), e.callerFlat)
  }

  /** Only a caller that is admitted, dials no conference and has no call yet makes phones
      ring, and then exactly one per target. */
  lemma OriginatesExactly(cfg: Config, a: AriState, e: Event, cmds: seq<Command>)
    requires WellFormed(e) && Emits(cfg, a, e, cmds)
    ensures e.CallerStasis? && a.activeBridges < cfg.maxCalls && e.calleeFlat != "conf" && e.channel !in a.router.calls ==>
      RingsAll(e, cfg.app, cmds) && forall i :: |e.targets| <= i < |cmds| ==> !cmds[i].Originate?
    ensures !(e.CallerStasis? && a.activeBridges < cfg.maxCalls && e.calleeFlat != "conf" && e.channel !in a.router.calls) ==>
      forall i :: 0 <= i < |cmds| ==> !cmds[i].Originate?
  {
    if e.LegStasis? && e.caller in a.router.calls && a.router.calls[e.caller].connected == "" {
      assert forall i :: 0 <= i < 4 ==> cmds[i] == cmds[..4][i];
      assert forall i :: 4 <= i < |cmds| ==> cmds[i] == cmds[4..][i - 4];
    }
    if e.Destroyed? && e.channel != "" && e.channel in a.router.calls && a.router.calls[e.channel].connected != "" {
      var n := |cmds| - 1;
      assert cmds == cmds[..n] + [cmds[n]];
    }
  }

  predicate Accepted(cmds: seq<Command>, statuses: seq<int>, leg: ChannelId) {
    exists i :: 0 <= i < |statuses| && i < |cmds| && cmds[i].Originate? && cmds[i].channel == leg && Ok2xx(statuses[i])
  }

  /** What then rings for the caller is exactly the channels of the requests Asterisk
      accepted; with none there is no call. */
  lemma RingingIsAccepted(cfg: Config, a: AriState, e: Event, cmds: seq<Command>, leg: ChannelId)
    requires WellFormed(e) && Emits(cfg, a, e, cmds) && e.CallerStasis?
    requires a.activeBridges < cfg.maxCalls && e.calleeFlat != "conf" && e.channel !in a.router.calls
    ensures var r := After(cfg, a, e).router;
      Accepted(cmds, e.statuses, leg) <==> e.channel in r.calls && leg in r.calls[e.channel].ringing
    ensures var r := After(cfg, a, e).router; Accepted(cmds, e.statuses, leg) ==>
      r.calls[e.channel].connected == "" && r.calls[e.channel].dialed == e.calleeFlat
      && leg in r.legToCaller && r.legToCaller[leg] == e.channel
  {
    OriginatesExactly(cfg, a, e, cmds);
    var legs := AcceptedLegs(e.channel, e.statuses);
    if leg in legs {
      var i :| 0 <= i < |e.statuses| && Success(e.statuses[i]) && leg == LegName(e.channel, i);
      assert cmds[i].channel == leg && Ok2xx(e.statuses[i]);
    }
    if Accepted(cmds, e.statuses, leg) {
      var i :| 0 <= i < |e.statuses| && i < |cmds| && cmds[i].Originate? && cmds[i].channel == leg && Ok2xx(e.statuses[i]);
      assert leg == LegName(e.channel, i) && Success(e.statuses[i]);
    }
  }

  /** At the cap, and only there, a caller is sent back to the dialplan's busy message. */
  lemma BusyExactly(cfg: Config, a: AriState, e: Event, cmds: seq<Command>)
    requires Emits(cfg, a, e, cmds) && e.CallerStasis? && BridgesCounted(a)
    ensures |a.bridges| >= cfg.maxCalls ==>
      cmds == [Continue(e.channel, cfg.busyContext, cfg.busyExtension, cfg.busyPriority)]
    ensures |a.bridges| < cfg.maxCalls ==> forall i :: 0 <= i < |cmds| ==> !cmds[i].Continue?
  {
  }

  /** Dialing the conference creates the society's bridge, whose being there already is no
      failure, and joins it. */
  lemma ConferenceExactly(cfg: Config, a: AriState, e: Event, cmds: seq<Command>)
    requires Emits(cfg, a, e, cmds) && e.CallerStasis? && a.activeBridges < cfg.maxCalls && e.calleeFlat == "conf"
    ensures cmds != [] && cmds[0] == CreateBridge(cfg.society + "-conf", "mixing")
    ensures AddChannel(cfg.society + "-conf", e.channel) in cmds <==> Ok2xx(e.createStatus) || e.createStatus == 409
    ensures |cmds| <= 3 && forall i :: 1 <= i < |cmds| ==> cmds[i].AddChannel? || cmds[i].Hangup?
  {
    var join := AddChannel(cfg.society + "-conf", e.channel);
    if Ok2xx(e.createStatus) || e.createStatus == 409 {
      assert cmds[1] == join;
    }
  }
}
