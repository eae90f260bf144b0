/** Bridges, channel contexts and call detail records, told from the events alone. */
module CallRecords {
  import opened Options
  import opened ChannelNames
  import opened CallRouting
  import opened AriEvents
  import opened CallRuns

  type Events = seq<Event>

  // ---- bridges ------------------------------------------------------------

  /** The bridges that were created and not destroyed since. */
  function OpenBridges(es: Events): set<string> {
    if es == [] then {}
    else
      var before, e := OpenBridges(es[..|es| - 1]), es[|es| - 1];
      if e.BridgeCreated? then before + {e.bridge} else if e.BridgeDestroyed? then before - {e.bridge} else before
  }

  /** Who entered a bridge since it was created. */
  function Entered(es: Events, bridge: string): set<ChannelId> {
    if es == [] || bridge !in OpenBridges(es[..|es| - 1]) then {}
    else
      var before, e := Entered(es[..|es| - 1], bridge), es[|es| - 1];
      if e == BridgeDestroyed(bridge) then {}
      else if e.EnteredBridge? && e.bridge == bridge && bridge != "" && e.channel != "" then before + {e.channel}
      else before
  }

  // ---- visits -------------------------------------------------------------

  /** One stay of a caller: who calls whom, when it began, when it first got into a bridge
      (0 while it did not), and the bridge it was last in. */
  datatype Visit = Visit(caller: string, callee: string, began: int, talked: int, bridge: string)

  function VisitOf(cfg: Config, es: Events, c: ChannelId): Option<Visit> {
    if es == [] then None
    else
      var before, e := es[..|es| - 1], es[|es| - 1];
      var visit := VisitOf(cfg, before, c);
      match e
      case CallerStasis(channel, caller, callee, now, _, _, _, _) =>
        if channel == c && visit.None? && |OpenBridges(before)| < cfg.maxCalls then Some(Visit(caller, callee, now, 0, "")) else visit
      case EnteredBridge(channel, bridge, now) =>
        if channel == c && c != "" && bridge != "" && visit.Some? then
          Some(visit.value.(bridge := bridge, talked := if visit.value.talked == 0 then now else visit.value.talked))
        else visit
      case Destroyed(channel, _) => if channel == c && c != "" then None else visit
      case _ => visit
  }

  /** The record of a visit that ends at `now`: it lasted from the first bridge on, and was
      a conference if at least three have been in its last bridge. */
  function RecordOf(es: Events, c: ChannelId, v: Visit, now: int): Cdr {
    Cdr(c, ChannelCtx(v.caller, v.callee, v.began, v.talked, v.bridge), now,
        if 0 < v.talked <= now then now - v.talked else 0,
        v.bridge != "" && v.bridge in OpenBridges(es) && |Entered(es, v.bridge)| >= 3)
  }

  function Records(cfg: Config, es: Events): seq<Cdr> {
    if es == [] then []
    else
      var before, e := es[..|es| - 1], es[|es| - 1];
      Records(cfg, before) +
      if e.Destroyed? && e.channel != "" && VisitOf(cfg, before, e.channel).Some? then
        [RecordOf(before, e.channel, VisitOf(cfg, before, e.channel).value, e.now)]
      else []
  }

  // ---- the client agrees --------------------------------------------------

  function Ran(cfg: Config, es: Events): AriState {
    if es == [] then START.ari else After(cfg, Ran(cfg, es[..|es| - 1]), es[|es| - 1])
  }

  predicate BridgesAgree(a: AriState, es: Events) {
    && a.bridges.Keys == OpenBridges(es)
    && a.activeBridges == |OpenBridges(es)|
    && forall b :: b in a.bridges ==> a.bridges[b].members == Entered(es, b)
  }

  lemma MoreEvents(es: Events, e: Event, b: string)
    ensures OpenBridges(es + [e]) ==
      if e.BridgeCreated? then OpenBridges(es) + {e.bridge} else if e.BridgeDestroyed? then OpenBridges(es) - {e.bridge} else OpenBridges(es)
    ensures Entered(es + [e], b) ==
      if b !in OpenBridges(es) || e == BridgeDestroyed(b) then {}
      else if e.EnteredBridge? && e.bridge == b && b != "" && e.channel != "" then Entered(es, b) + {e.channel}
      else Entered(es, b)
  {
    var all := es + [e];
    assert all[..|es|] == es && all[|es|] == e;
  }

  lemma BridgeMade(a: AriState, es: Events, e: Event, b: AriState)
    requires BridgesAgree(a, es) && e.BridgeCreated? && e.bridge !in a.bridges
    requires b.bridges == a.bridges[e.bridge := BridgeCtx(e.kind, {})] && b.activeBridges == a.activeBridges + 1
    ensures BridgesAgree(b, es + [e])
  {
    hide OpenBridges, Entered;
    forall x ensures OpenBridges(es + [e]) == OpenBridges(es) + {e.bridge} && Entered(es + [e], x) == if x in OpenBridges(es) then Entered(es, x) else {} {
      MoreEvents(es, e, x);
    }
  }

  lemma BridgeGone(a: AriState, es: Events, e: Event, b: AriState)
    requires BridgesAgree(a, es) && e.BridgeDestroyed? && e.bridge in a.bridges
    requires b.bridges == a.bridges - {e.bridge} && b.activeBridges == a.activeBridges - 1
    ensures BridgesAgree(b, es + [e])
  {
    hide OpenBridges, Entered;
    MoreEvents(es, e, e.bridge);
    forall x | x in b.bridges ensures Entered(es + [e], x) == Entered(es, x) {
      MoreEvents(es, e, x);
    }
  }

  lemma BridgeEntered(a: AriState, es: Events, e: Event, b: AriState)
    requires BridgesAgree(a, es) && e.EnteredBridge? && e.channel != "" && e.bridge != ""
    requires b.bridges == Populated(a.bridges, e.channel, e.bridge) && b.activeBridges == a.activeBridges
    ensures BridgesAgree(b, es + [e])
  {
    hide OpenBridges, Entered;
    MoreEvents(es, e, e.bridge);
    forall x | x in b.bridges && x != e.bridge ensures Entered(es + [e], x) == Entered(es, x) {
      MoreEvents(es, e, x);
    }
  }

  lemma BridgesSame(a: AriState, es: Events, e: Event, b: AriState)
    requires BridgesAgree(a, es) && b.bridges == a.bridges && b.activeBridges == a.activeBridges
    requires e.BridgeCreated? ==> e.bridge in a.bridges
    requires e.BridgeDestroyed? ==> e.bridge !in a.bridges
    requires e.EnteredBridge? ==> e.channel == "" || e.bridge == ""
    ensures BridgesAgree(b, es + [e])
  {
    hide OpenBridges, Entered;
    MoreEvents(es, e, "");
    forall x | x in b.bridges ensures Entered(es + [e], x) == Entered(es, x) {
      MoreEvents(es, e, x);
    }
  }

  lemma BridgesStep(cfg: Config, a: AriState, es: Events, e: Event)
    requires BridgesAgree(a, es)
    ensures BridgesAgree(After(cfg, a, e), es + [e])
  {
    hide OpenBridges, Entered, AfterCallerStart, AfterLegStart, AfterGone, MakeCdr;
    var b := After(cfg, a, e);
    if e.BridgeCreated? && e.bridge !in a.bridges {
      BridgeMade(a, es, e, b);
    } else if e.BridgeDestroyed? && e.bridge in a.bridges {
      assert a.bridges.Keys != {};
      BridgeGone(a, es, e, b);
    } else if e.EnteredBridge? && e.channel != "" && e.bridge != "" {
      BridgeEntered(a, es, e, b);
    } else {
      BridgesSame(a, es, e, b);
    }
  }

  predicate ChannelAgrees(a: AriState, c: ChannelId, v: Option<Visit>) {
    if c in a.channels then v == Some(VisitFrom(a.channels[c])) else v.None?
  }

  function VisitFrom(x: ChannelCtx): Visit {
    Visit(x.callerFlat, x.calleeFlat, x.startedAt, x.answeredAt, x.bridge)
  }

  lemma ChannelStep(cfg: Config, a: AriState, es: Events, e: Event, c: ChannelId)
    requires a.activeBridges == |OpenBridges(es)| && ChannelAgrees(a, c, VisitOf(cfg, es, c))
    ensures ChannelAgrees(After(cfg, a, e), c, VisitOf(cfg, es + [e], c))
  {
    hide OpenBridges, AfterCallerStart, AfterLegStart, AfterGone, MakeCdr;
    var all := es + [e];
    assert all[..|es|] == es && all[|es|] == e;
  }

  lemma RecordsStep(cfg: Config, a: AriState, es: Events, e: Event)
    requires BridgesAgree(a, es) && a.cdrs == Records(cfg, es)
    requires e.Destroyed? ==> ChannelAgrees(a, e.channel, VisitOf(cfg, es, e.channel))
    ensures After(cfg, a, e).cdrs == Records(cfg, es + [e])
  {
    hide OpenBridges, Entered, VisitOf, AfterCallerStart, AfterLegStart, AfterGone;
    var all := es + [e];
    assert all[..|es|] == es && all[|es|] == e;
  }

  /** After any events whatsoever, the bridge table, the open contexts and the records are
      what the events say. */
  lemma {:induction false} RecordsAreTrue(cfg: Config, es: Events)
    ensures var a := Ran(cfg, es);
      BridgesAgree(a, es) && a.cdrs == Records(cfg, es) && forall c :: ChannelAgrees(a, c, VisitOf(cfg, es, c))
  {
    if es != [] {
      var before, e := es[..|es| - 1], es[|es| - 1];
      assert es == before + [e];
      RecordsAreTrue(cfg, before);
      hide BridgesAgree, Records, VisitOf, ChannelAgrees;
      BridgesStep(cfg, Ran(cfg, before), before, e);
      RecordsNext(cfg, before, e);
      forall c
        ensures ChannelAgrees(Ran(cfg, es), c, VisitOf(cfg, es, c))
      {
        ActiveIsOpen(Ran(cfg, before), before);
        ChannelStep(cfg, Ran(cfg, before), before, e, c);
      }
    }
  }

  lemma ActiveIsOpen(a: AriState, es: Events)
    requires BridgesAgree(a, es)
    ensures a.activeBridges == |OpenBridges(es)|
  {
  }

  lemma RecordsNext(cfg: Config, before: Events, e: Event)
    requires var a := Ran(cfg, before);
      BridgesAgree(a, before) && a.cdrs == Records(cfg, before) && forall c :: ChannelAgrees(a, c, VisitOf(cfg, before, c))
    ensures After(cfg, Ran(cfg, before), e).cdrs == Records(cfg, before + [e])
  {
    hide Ran, BridgesAgree, Records, VisitOf, After;
    RecordsStep(cfg, Ran(cfg, before), before, e);
  }

  function EventsOf(run: Run): Events {
    seq(|run|, i requires 0 <= i < |run| => run[i].0)
  }

  /** Runs against Asterisk are such sequences of events. */
  lemma {:induction false} RunsAgree(cfg: Config, run: Run)
    ensures Exec(cfg, run).ari == Ran(cfg, EventsOf(run))
  {
    if run != [] {
      hide After;
      RunsAgree(cfg, run[..|run| - 1]);
      assert EventsOf(run)[..|run| - 1] == EventsOf(run[..|run| - 1]);
    }
  }
}
