/** How soon a watcher whose stream is down asks for a new one. */
module ReopenRuns {
  import opened Options
  import opened Provisioning
  import opened Replication
  import opened ReplicaRuns

  // ---- reopening while the stream is down ---------------------------------

  /** `n` ticks in a row, none of which manages to open the stream. */
  function Down(w: Watcher, society: string, now: nat, n: nat): Watcher {
    if n == 0 then w else AfterTick(Down(w, society, now, n - 1), society, false, now, Nothing)
  }

  /** The next tick asks the database for a cursor. */
  predicate Attempts(w: Watcher) {
    w.cursor.None? && w.skip == 0
  }

  /** Ticks to wait before the next attempt, `m` ticks after one was due. */
  function WaitAfter(m: nat): nat {
    (6 - m % 6) % 6
  }

  lemma WaitStep(m: nat)
    ensures WaitAfter(m) <= REOPEN_SKIP && (WaitAfter(m) == 0 <==> m % 6 == 0)
    ensures WaitAfter(m + 1) == if WaitAfter(m) == 0 then REOPEN_SKIP else WaitAfter(m) - 1
  {
    assert (m + 1) % 6 == if m % 6 == 5 then 0 else m % 6 + 1;
  }

  /** While the stream stays down, tick `n` (counted from 0) makes an attempt exactly
      when it is a multiple of six ticks after the pending wait ran out. */
  lemma {:induction false} ReopenPacing(w: Watcher, society: string, now: nat, n: nat)
    requires w.cursor.None? && w.skip <= REOPEN_SKIP
    ensures var v := Down(w, society, now, n);
      && v.cursor.None?
      && v.skip == (if n <= w.skip then w.skip - n else WaitAfter(n - w.skip))
      && (Attempts(v) <==> n >= w.skip && (n - w.skip) % 6 == 0)
  {
    hide WaitAfter;
    if n > w.skip {
      WaitStep(n - w.skip);
      WaitStep(n - w.skip - 1);
    }
    WaitStep(0);
    if n > 0 {
      ReopenPacing(w, society, now, n - 1);
    }
  }

  // ---- reopening, over runs -----------------------------------------------

  /** A tick at which the watcher asks the database for a cursor. */
  predicate AttemptAt(x: World, e: Event) {
    e.Tick? && x.w.cursor.None? && x.w.skip == 0
  }

  lemma SkipStep(log: Log, society: string, x: World, e: Event)
    requires x.w.skip <= 5
    ensures var y := Step(log, society, x, e);
      && y.w.skip <= 5
      && (e.Tick? && x.w.cursor.None? && !AttemptAt(x, e) ==> y.w.skip == x.w.skip - 1)
      && (!e.Tick? ==> y.w.skip == x.w.skip)
      && (e.Tick? && x.w.cursor.Some? && !e.poll.Fails? ==> y.w.skip == x.w.skip && y.w.cursor.Some?)
      && (e.Tick? && x.w.cursor.Some? && e.poll.Fails? ==> y.w.skip == 0 && y.w.cursor.None?)
      && (AttemptAt(x, e) ==> if e.opens then y.w.cursor.Some? else y.w.cursor.None? && y.w.skip == 5)
  {
    hide AfterScan, AfterChange, GoodScan, SeenAfter;
    if e.Resync? {
      AfterScanFrame(x.w, e.rows);
    }
    if Handed(x, e) {
      var at := x.w.cursor.value;
      ChangeKeepsSkip(x.w.(cursor := Some(at + 1), token := Some(at)), society, e.poll.change);
    }
  }

  lemma ChangeKeepsSkip(w: Watcher, society: string, c: Change)
    ensures AfterChange(w, society, c).skip == w.skip && AfterChange(w, society, c).cursor == w.cursor
  {
  }

  /** The wait is never longer than five ticks. */
  lemma {:induction false} SkipBounded(log: Log, society: string, boot: nat, endpoints: set<User>, run: Run)
    ensures Exec(log, society, Fresh(boot, endpoints), run).w.skip <= 5
  {
    if run != [] {
      hide Step;
      SkipBounded(log, society, boot, endpoints, run[..|run| - 1]);
      SkipStep(log, society, Exec(log, society, Fresh(boot, endpoints), run[..|run| - 1]), run[|run| - 1]);
    }
  }

  /** After a cursor failed the very next tick asks for a new one. */
  lemma RetriesAtOnce(log: Log, society: string, boot: nat, endpoints: set<User>, run: Run, fails: Event, next: Event)
    requires var x := Exec(log, society, Fresh(boot, endpoints), run); fails.Tick? && x.w.cursor.Some? && fails.poll.Fails?
    requires next.Tick?
    ensures AttemptAt(Exec(log, society, Fresh(boot, endpoints), run + [fails]), next)
  {
    hide Step;
    SkipBounded(log, society, boot, endpoints, run);
    SkipStep(log, society, Exec(log, society, Fresh(boot, endpoints), run), fails);
    assert (run + [fails])[..|run|] == run;
  }

  function Ticks(es: Run): nat {
    if es == [] then 0 else Ticks(es[..|es| - 1]) + if es[|es| - 1].Tick? then 1 else 0
  }

  /** The stream is down before each of the events from `first` on, and none of them makes
      an attempt. */
  ghost predicate DownWithoutAttempt(log: Log, society: string, start: World, run: Run, first: nat) {
    forall i :: first <= i < |run| ==>
      var x := Exec(log, society, start, run[..i]); x.w.cursor.None? && !AttemptAt(x, run[i])
  }

  lemma DownBefore(log: Log, society: string, start: World, run: Run, first: nat)
    requires first < |run| && DownWithoutAttempt(log, society, start, run, first)
    ensures var n := |run| - 1;
      && DownWithoutAttempt(log, society, start, run[..n], first)
      && var x := Exec(log, society, start, run[..n]); x.w.cursor.None? && !AttemptAt(x, run[n])
  {
    hide Exec, AttemptAt;
    var before := run[..|run| - 1];
    forall i | first <= i < |before|
      ensures var x := Exec(log, society, start, before[..i]); x.w.cursor.None? && !AttemptAt(x, before[i])
    {
      assert before[..i] == run[..i];
    }
  }

  lemma TicksOfTail(run: Run, first: nat)
    requires first < |run|
    ensures var n := |run| - 1;
      Ticks(run[first..]) == Ticks(run[..n][first..]) + if run[n].Tick? then 1 else 0
  {
    var n := |run| - 1;
    assert run[first..][..n - first] == run[..n][first..];
  }

  lemma {:induction false} WaitCountsTicks(log: Log, society: string, boot: nat, endpoints: set<User>, run: Run, first: nat)
    requires first <= |run| && DownWithoutAttempt(log, society, Fresh(boot, endpoints), run, first)
    ensures Exec(log, society, Fresh(boot, endpoints), run).w.skip + Ticks(run[first..]) ==
      Exec(log, society, Fresh(boot, endpoints), run[..first]).w.skip
    decreases |run|
  {
    hide Step, AttemptAt, DownWithoutAttempt, Ticks;
    var start := Fresh(boot, endpoints);
    if first == |run| {
      assert run[..first] == run && run[first..] == [];
      NoTicks();
    } else {
      var before, e := run[..|run| - 1], run[|run| - 1];
      DownBefore(log, society, start, run, first);
      TicksOfTail(run, first);
      assert before[..first] == run[..first];
      WaitCountsTicks(log, society, boot, endpoints, before, first);
      SkipBounded(log, society, boot, endpoints, before);
      SkipStep(log, society, Exec(log, society, start, before), e);
    }
  }

  lemma NoTicks()
    ensures Ticks([]) == 0
  {
  }

  /** In every run, any six ticks during which the stream is down contain an attempt,
      whatever else happens in between. */
  lemma SixTicksAnAttempt(log: Log, society: string, boot: nat, endpoints: set<User>, run: Run, first: nat)
    requires first <= |run| && DownWithoutAttempt(log, society, Fresh(boot, endpoints), run, first)
    ensures Ticks(run[first..]) <= 5
  {
    hide Exec, DownWithoutAttempt;
    WaitCountsTicks(log, society, boot, endpoints, run, first);
    SkipBounded(log, society, boot, endpoints, run[..first]);
  }
}
