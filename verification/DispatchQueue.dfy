/** The dispatch queue between the reactor and the ARI worker, as the atomic steps of
    any number of producers, one starter, one worker and the winning call of `stop()`. */
module DispatchQueue {

  type JobId = nat

  datatype Message = Job(id: JobId) | Stop

  /** What became of a job that left the queue. */
  datatype Taken = Ran(id: JobId) | Freed(id: JobId)

  /** Where the worker thread is. */
  datatype Worker = NotStarted | AtCheck | InGet | Running(id: JobId) | Exited

  /** How far the winning call of `stop()` has come. */
  datatype Stopper = NotCalled | Won | FlagCleared | Poisoned | Joined | Returned

  datatype State = State(
    cont: bool,
    queue: seq<Message>,
    worker: Worker,
    starting: bool,             // start() has set the flag and not yet activated
    stopper: Stopper,
    active: bool,               // the queue was not deactivated
    inFlight: set<JobId>,       // producers between the flag check and putq
    known: set<JobId>,          // jobs ever submitted
    accepted: seq<JobId>,       // jobs enqueued, in order
    taken: seq<Taken>)          // jobs dequeued, in order

  const START := State(false, [], NotStarted, false, NotCalled, true, {}, {}, [], [])

  datatype Action =
    | StartFlag                        // start(): m_continue is set before ...
    | StartActivate(ok: bool)          // ... the thread is there
    | Check(id: JobId)                 // dispatch(): the m_continue test
    | Enqueue(id: JobId, ok: bool)     // dispatch(): putq
    | WorkerCheck | WorkerGet | WorkerAbort | WorkerDone
    | StopWin | StopFlag | StopPoison(ok: bool) | StopJoin | StopDrain | StopReturn
    | Deactivate                       // whoever deactivates the queue

  predicate NoThread(w: Worker) {
    w.NotStarted? || w.Exited?
  }

  /** A deactivated queue takes nothing and gives nothing: `getq` and the drain fail on it.
      A queue that is active may refuse as well, for want of memory. */
  predicate Enabled(s: State, a: Action) {
    match a
    case StartFlag => !s.starting
    case StartActivate(_) => s.starting
    case Check(id) => id !in s.known
    case Enqueue(id, ok) => id in s.inFlight && (ok ==> s.active)
    case WorkerCheck => s.worker.AtCheck?
    case WorkerGet => s.worker.InGet? && s.active && s.queue != []
    case WorkerAbort => s.worker.InGet? && !s.active
    case WorkerDone => s.worker.Running?
    case StopWin => s.stopper.NotCalled?
    case StopFlag => s.stopper.Won?
    case StopPoison(ok) => s.stopper.FlagCleared? && (ok ==> s.active)
    case StopJoin => s.stopper.Poisoned? && NoThread(s.worker)
    case StopDrain => s.stopper.Joined? && s.active && s.queue != []
    case StopReturn => s.stopper.Joined? && (s.active ==> s.queue == [])
    case Deactivate => true
  }

  /** Activating an active task does nothing. */
  function Activated(s: State, ok: bool): State {
    if !ok then s.(starting := false, cont := false)
    else s.(starting := false, worker := if NoThread(s.worker) then AtCheck else s.worker)
  }

  function Step(s: State, a: Action): State
    requires Enabled(s, a)
  {
    match a
    case StartFlag => s.(starting := true, cont := true)
    case StartActivate(ok) => Activated(s, ok)
    case Check(id) => if s.cont then s.(inFlight := s.inFlight + {id}, known := s.known + {id}) else s.(known := s.known + {id})
    case Enqueue(id, ok) =>
      var t := s.(inFlight := s.inFlight - {id});
      if ok then t.(queue := s.queue + [Job(id)], accepted := s.accepted + [id]) else t
    case WorkerCheck => s.(worker := if s.cont then InGet else Exited)
    case WorkerGet =>
      var t := s.(queue := s.queue[1..]);
      (match s.queue[0]
       case Stop => t.(cont := false, worker := Exited)
       case Job(id) => t.(worker := Running(id), taken := s.taken + [Ran(id)]))
    case WorkerAbort => s.(worker := Exited)
    case WorkerDone => s.(worker := AtCheck)
    case StopWin => s.(stopper := Won)
    case StopFlag => s.(stopper := FlagCleared, cont := false)
    case StopPoison(ok) => s.(stopper := Poisoned, queue := if ok then s.queue + [Stop] else s.queue)
    case StopJoin => s.(stopper := Joined)
    case StopDrain =>
      var t := s.(queue := s.queue[1..]);
      (match s.queue[0] case Stop => t case Job(id) => t.(taken := s.taken + [Freed(id)]))
    case StopReturn => s.(stopper := Returned)
    case Deactivate => s.(active := false)
  }

  function Jobs(queue: seq<Message>): seq<JobId> {
    if queue == [] then []
    else match queue[0] case Stop => Jobs(queue[1..]) case Job(id) => [id] + Jobs(queue[1..])
  }

  lemma {:induction false} JobsSnoc(queue: seq<Message>, m: Message)
    ensures Jobs(queue + [m]) == Jobs(queue) + (match m case Stop => [] case Job(id) => [id])
  {
    if queue == [] {
      assert queue + [m] == [m];
    } else {
      JobsSnoc(queue[1..], m);
      assert (queue + [m])[1..] == queue[1..] + [m];
    }
  }

  function Ids(taken: seq<Taken>): seq<JobId> {
    seq(|taken|, i requires 0 <= i < |taken| => taken[i].id)
  }

  /** The jobs the worker started, in order. */
  function Run(taken: seq<Taken>): seq<JobId> {
    if taken == [] then []
    else
      var last := taken[|taken| - 1];
      Run(taken[..|taken| - 1]) + if last.Ran? then [last.id] else []
  }

  predicate NoRepeats(s: seq<JobId>) {
    forall i, j :: 0 <= i < j < |s| ==> s[i] != s[j]
  }

  // ---- runs ---------------------------------------------------------------

  predicate Legal(s: State, run: seq<Action>)
    decreases |run|
  {
    run == [] || (Enabled(s, run[0]) && Legal(Step(s, run[0]), run[1..]))
  }

  function Exec(s: State, run: seq<Action>): State
    requires Legal(s, run)
    decreases |run|
  {
    if run == [] then s else Exec(Step(s, run[0]), run[1..])
  }

  predicate Stopping(s: State) {
    !s.stopper.NotCalled? && !s.stopper.Won?
  }

  /** Nobody calls start() again once stop() has cleared the flag. */
  predicate NoRestart(s: State, run: seq<Action>)
    requires Legal(s, run)
    decreases |run|
  {
    run == [] || (!(run[0].StartFlag? && Stopping(s)) && NoRestart(Step(s, run[0]), run[1..]))
  }

  lemma {:induction false} Split(s: State, a: seq<Action>, b: seq<Action>)
    requires Legal(s, a + b)
    ensures Legal(s, a) && Legal(Exec(s, a), b) && Exec(s, a + b) == Exec(Exec(s, a), b)
    ensures NoRestart(s, a + b) ==> NoRestart(s, a) && NoRestart(Exec(s, a), b)
    decreases |a|
  {
    hide Step, Enabled, Stopping;
    if a == [] {
      assert a + b == b;
    } else {
      assert (a + b)[1..] == a[1..] + b && (a + b)[0] == a[0];
      Split(Step(s, a[0]), a[1..], b);
    }
  }

  // ---- order and conservation ---------------------------------------------

  /** Accepted jobs are, in order, those taken out of the queue and those still in it. */
  ghost predicate Conserved(s: State) {
    s.accepted == Ids(s.taken) + Jobs(s.queue)
  }

  ghost predicate Distinct(s: State) {
    && NoRepeats(s.accepted)
    && (forall i :: 0 <= i < |s.accepted| ==> s.accepted[i] in s.known && s.accepted[i] !in s.inFlight)
    && s.inFlight <= s.known
  }

  lemma TakeHead(s: State, t: Taken)
    requires Conserved(s) && s.queue != [] && s.queue[0] == Job(t.id)
    ensures s.accepted == Ids(s.taken + [t]) + Jobs(s.queue[1..])
  {
    assert Ids(s.taken + [t]) == Ids(s.taken) + [t.id];
  }

  lemma ConservedStep(s: State, a: Action)
    requires Conserved(s) && Enabled(s, a)
    ensures Conserved(Step(s, a))
  {
    hide Ids;
    match a
    case Enqueue(id, _) => JobsSnoc(s.queue, Job(id));
    case StopPoison(_) => JobsSnoc(s.queue, Stop);
    case WorkerGet => if s.queue[0].Job? { TakeHead(s, Ran(s.queue[0].id)); }
    case StopDrain => if s.queue[0].Job? { TakeHead(s, Freed(s.queue[0].id)); }
    case _ =>
  }

  lemma DistinctStep(s: State, a: Action)
    requires Distinct(s) && Enabled(s, a)
    ensures Distinct(Step(s, a))
  {
  }

  lemma {:induction false} ConservedFrom(s: State, run: seq<Action>)
    requires Legal(s, run) && Conserved(s) && Distinct(s)
    ensures Conserved(Exec(s, run)) && Distinct(Exec(s, run))
    decreases |run|
  {
    hide Step, Enabled, Conserved, Distinct;
    if run != [] {
      ConservedStep(s, run[0]);
      DistinctStep(s, run[0]);
      ConservedFrom(Step(s, run[0]), run[1..]);
    }
  }

  /** Under any interleaving, restarts included: jobs leave the queue in the order they
      were accepted, each once, and every accepted job was run, freed or is queued. */
  lemma JobsLeaveInOrderOnce(run: seq<Action>)
    requires Legal(START, run)
    ensures var s := Exec(START, run);
      && s.accepted == Ids(s.taken) + Jobs(s.queue)
      && NoRepeats(Ids(s.taken))
  {
    hide Step, Enabled, Exec, Legal;
    ConservedFrom(START, run);
    var s := Exec(START, run);
    assert forall i :: 0 <= i < |s.taken| ==> Ids(s.taken)[i] == s.accepted[i];
  }

  // ---- one start, one stop ------------------------------------------------

  /** Nothing was freed before something that ran. */
  predicate RanFirst(taken: seq<Taken>) {
    forall i, j :: 0 <= i < j < |taken| && taken[i].Freed? ==> taken[j].Freed?
  }

  predicate Late(s: State) {
    s.stopper.Joined? || s.stopper.Returned?
  }

  ghost predicate FreedLate(s: State) {
    RanFirst(s.taken) && ((exists i :: 0 <= i < |s.taken| && s.taken[i].Freed?) ==> Late(s))
  }

  ghost predicate WorkerKept(s: State) {
    && (Late(s) ==> NoThread(s.worker) || s.worker.AtCheck?)
    && (Stopping(s) ==> !s.cont)
  }

  ghost predicate Orderly(s: State) {
    FreedLate(s) && WorkerKept(s)
  }

  lemma WorkerKeptStep(s: State, a: Action)
    requires WorkerKept(s) && Enabled(s, a) && !(a.StartFlag? && Stopping(s))
    ensures WorkerKept(Step(s, a))
  {
  }

  lemma FreedLateStep(s: State, a: Action)
    requires FreedLate(s) && WorkerKept(s) && Enabled(s, a)
    ensures FreedLate(Step(s, a))
  {
    var t := Step(s, a);
    if a.WorkerGet? || a.StopDrain? {
      assert t.taken == s.taken || t.taken == s.taken + [t.taken[|s.taken|]];
    } else {
      assert t.taken == s.taken;
    }
  }

  lemma OrderlyStep(s: State, a: Action)
    requires Orderly(s) && Enabled(s, a) && !(a.StartFlag? && Stopping(s))
    ensures Orderly(Step(s, a))
  {
    hide Step, Enabled, FreedLate, WorkerKept, Stopping;
    WorkerKeptStep(s, a);
    FreedLateStep(s, a);
  }

  lemma {:induction false} OrderlyFrom(s: State, run: seq<Action>)
    requires Legal(s, run) && NoRestart(s, run) && Orderly(s)
    ensures Orderly(Exec(s, run))
    decreases |run|
  {
    hide Step, Enabled, Orderly;
    if run != [] {
      OrderlyStep(s, run[0]);
      OrderlyFrom(Step(s, run[0]), run[1..]);
    }
  }

  lemma {:induction false} RunIsPrefix(taken: seq<Taken>)
    requires RanFirst(taken)
    ensures Run(taken) <= Ids(taken)
    ensures (forall i :: 0 <= i < |taken| ==> taken[i].Ran?) ==> Run(taken) == Ids(taken)
  {
    if taken != [] {
      var n := |taken| - 1;
      RunIsPrefix(taken[..n]);
      assert Ids(taken) == Ids(taken[..n]) + [taken[n].id];
    }
  }

  /** Without a restart the jobs run are a prefix of the jobs accepted. */
  lemma JobsRunInOrderOnce(run: seq<Action>)
    requires Legal(START, run) && NoRestart(START, run)
    ensures var s := Exec(START, run); Run(s.taken) <= s.accepted && NoRepeats(Run(s.taken))
  {
    hide Step, Enabled, Exec, Legal, NoRestart;
    JobsLeaveInOrderOnce(run);
    OrderlyFrom(START, run);
    var s := Exec(START, run);
    RunIsPrefix(s.taken);
    assert forall i :: 0 <= i < |Run(s.taken)| ==> Run(s.taken)[i] == Ids(s.taken)[i] == s.accepted[i];
  }

  /** No producer can get a job in any more. */
  predicate Closed(s: State) {
    s.inFlight == {} || !s.active
  }

  lemma {:induction false} NothingTakenFrom(s: State, run: seq<Action>)
    requires Legal(s, run) && NoRestart(s, run) && Orderly(s) && s.stopper.Returned?
    ensures Exec(s, run).taken == s.taken && Exec(s, run).stopper.Returned?
    ensures s.queue == [] && s.inFlight == {} ==> Exec(s, run).queue == []
    ensures Closed(s) ==> Exec(s, run).queue == s.queue
    decreases |run|
  {
    if run != [] {
      OrderlyStep(s, run[0]);
      ReturnedStep(s, run[0]);
      hide Orderly, Step, Enabled, Closed;
      NothingTakenFrom(Step(s, run[0]), run[1..]);
    }
  }

  lemma ReturnedStep(s: State, a: Action)
    requires Orderly(s) && s.stopper.Returned? && Enabled(s, a) && !a.StartFlag?
    ensures var t := Step(s, a);
      && t.taken == s.taken && t.stopper.Returned?
      && (Closed(s) ==> Closed(t) && t.queue == s.queue)
      && (s.queue == [] && s.inFlight == {} ==> t.queue == [] && t.inFlight == {})
  {
    hide FreedLate;
  }

  /** Once the winning stop() has returned no job starts and none is freed, whatever
      producers, the worker and a start() that was already under way still do. */
  lemma NothingStartsAfterStop(before: seq<Action>, after: seq<Action>)
    requires Legal(START, before + after) && NoRestart(START, before + after)
    requires Legal(START, before) && Exec(START, before).stopper.Returned?
    ensures Exec(START, before + after).taken == Exec(START, before).taken
  {
    hide Step, Enabled, Exec, Legal, NoRestart;
    Split(START, before, after);
    OrderlyFrom(START, before);
    NothingTakenFrom(Exec(START, before), after);
  }

  /** Without a producer between check and enqueue the queue stays empty. */
  lemma QueueStaysEmpty(before: seq<Action>, after: seq<Action>)
    requires Legal(START, before + after) && NoRestart(START, before + after) && Legal(START, before)
    requires var s := Exec(START, before); s.stopper.Returned? && s.queue == [] && s.inFlight == {}
    ensures Exec(START, before + after).queue == []
  {
    hide Step, Enabled, Exec, Legal, NoRestart;
    Split(START, before, after);
    OrderlyFrom(START, before);
    NothingTakenFrom(Exec(START, before), after);
  }

  ghost predicate Strands(s: State, run: seq<Action>) {
    Legal(s, run) && NoRestart(s, run) && Jobs(Exec(s, run).queue) != []
  }

  /** After stop() a job is or can be left in the queue if and only if one is there, which
      takes a deactivated queue or a late producer, or the queue is active and a producer
      has passed the flag check and not yet enqueued. */
  lemma StrandedIffInFlight(before: seq<Action>)
    requires Legal(START, before) && NoRestart(START, before) && Exec(START, before).stopper.Returned?
    ensures var s := Exec(START, before);
      (exists after :: Strands(s, after)) <==> Jobs(s.queue) != [] || (s.active && s.inFlight != {})
  {
    OrderlyFrom(START, before);
    var s := Exec(START, before);
    if Jobs(s.queue) != [] {
      assert Strands(s, []);
    } else if s.active && s.inFlight != {} {
      var id :| id in s.inFlight;
      LateEnqueue(s, id);
    } else {
      forall after | Legal(s, after) && NoRestart(s, after)
        ensures Jobs(Exec(s, after).queue) == []
      {
        hide Step, Enabled, NoRestart;
        NothingTakenFrom(s, after);
      }
    }
  }

  lemma LateEnqueue(s: State, id: JobId)
    requires id in s.inFlight && s.active
    ensures Strands(s, [Enqueue(id, true)])
  {
    var run := [Enqueue(id, true)];
    assert run[1..] == [];
    assert Legal(Step(s, run[0]), run[1..]) && NoRestart(Step(s, run[0]), run[1..]);
    assert Exec(s, run) == Step(s, run[0]);
    JobsSnoc(s.queue, Job(id));
  }

  // ---- runs that show it --------------------------------------------------

  lemma {:induction false} OneMore(s: State, run: seq<Action>, a: Action)
    requires Legal(s, run) && Enabled(Exec(s, run), a)
    ensures Legal(s, run + [a]) && Exec(s, run + [a]) == Step(Exec(s, run), a)
    ensures NoRestart(s, run) && !(a.StartFlag? && Stopping(Exec(s, run))) ==> NoRestart(s, run + [a])
    decreases |run|
  {
    if run == [] {
      assert [a][1..] == [] && run + [a] == [a];
      assert Legal(Step(s, a), []) && NoRestart(Step(s, a), []);
    } else {
      hide Step, Enabled, Stopping;
      OneMore(Step(s, run[0]), run[1..], a);
      assert (run + [a])[1..] == run[1..] + [a] && (run + [a])[0] == run[0];
    }
  }

  /** `run` leads from the start to `s`, with no restart if `once`. */
  predicate Leads(run: seq<Action>, s: State, once: bool) {
    Legal(START, run) && Exec(START, run) == s && (once ==> NoRestart(START, run))
  }

  lemma Next(run: seq<Action>, s: State, a: Action, once: bool)
    requires Leads(run, s, once) && Enabled(s, a) && (once ==> !(a.StartFlag? && Stopping(s)))
    ensures Leads(run + [a], Step(s, a), once)
  {
    hide Step, Enabled, Stopping;
    OneMore(START, run, a);
  }

  function Started(): seq<Action> {
    [StartFlag] + [StartActivate(true)]
  }

  function Working(): State {
    START.(cont := true, worker := AtCheck)
  }

  lemma StartedRun()
    ensures Leads(Started(), Working(), true)
  {
    assert Leads([], START, true);
    hide Leads;
    Next([], START, StartFlag, true);
    assert [] + [StartFlag] == [StartFlag];
    Next([StartFlag], START.(starting := true, cont := true), StartActivate(true), true);
  }

  /** A stop() that goes through while the worker is about to look at the flag. */
  function StopAfter(run: seq<Action>): seq<Action> {
    run + [StopWin] + [StopFlag] + [StopPoison(true)] + [WorkerCheck] + [StopJoin] + [StopDrain] + [StopReturn]
  }

  lemma StopAfterRun(run: seq<Action>, s: State)
    requires Leads(run, s, true) && s.worker.AtCheck? && s.stopper.NotCalled? && s.active && s.queue == []
    ensures Leads(StopAfter(run), s.(cont := false, worker := Exited, stopper := Returned), true)
  {
    hide Leads;
    var s3 := s.(cont := false, stopper := Poisoned, queue := [Stop]);
    StopBegins(run, s, s3);
    assert s3.queue[1..] == [];
    var r3 := run + [StopWin] + [StopFlag] + [StopPoison(true)];
    Next(r3, s3, WorkerCheck, true);
    var s4 := s3.(worker := Exited);
    Next(r3 + [WorkerCheck], s4, StopJoin, true);
    Next(r3 + [WorkerCheck] + [StopJoin], s4.(stopper := Joined), StopDrain, true);
    Next(r3 + [WorkerCheck] + [StopJoin] + [StopDrain], s4.(stopper := Joined, queue := []), StopReturn, true);
  }

  lemma StopBegins(run: seq<Action>, s: State, s3: State)
    requires Leads(run, s, true) && s.stopper.NotCalled? && s.active && s.queue == []
    requires s3 == s.(cont := false, stopper := Poisoned, queue := [Stop])
    ensures Leads(run + [StopWin] + [StopFlag] + [StopPoison(true)], s3, true)
  {
    hide Leads;
    assert s.queue + [Stop] == [Stop];
    Next(run, s, StopWin, true);
    Next(run + [StopWin], s.(stopper := Won), StopFlag, true);
    Next(run + [StopWin] + [StopFlag], s.(stopper := FlagCleared, cont := false), StopPoison(true), true);
  }

  /** A run from the start that leaves a job in the queue of a stopped task: its producer
      passed the flag check before stop() cleared the flag. */
  lemma JobIsStranded()
    ensures var run := StopAfter(Started() + [Check(7)]) + [Enqueue(7, true)];
      && Legal(START, run) && NoRestart(START, run)
      && Exec(START, run).stopper.Returned? && Exec(START, run).queue == [Job(7)]
  {
    var run := StopAfter(Started() + [Check(7)]) + [Enqueue(7, true)];
    var held := Working().(inFlight := {7}, known := {7});
    assert Leads(run, held.(cont := false, worker := Exited, stopper := Returned,
                            inFlight := {}, queue := [Job(7)], accepted := [7]), true) by {
      hide Leads;
      StartedRun();
      Next(Started(), Working(), Check(7), true);
      StopAfterRun(Started() + [Check(7)], held);
      var s := held.(cont := false, worker := Exited, stopper := Returned);
      Next(StopAfter(Started() + [Check(7)]), s, Enqueue(7, true), true);
    }
  }

  /** A start() after stop() sets the flag again, and jobs run. */
  lemma RestartRunsJobs()
    ensures var run := StopAfter(Started()) + [StartFlag] + [StartActivate(true)] + [Check(7)] + [Enqueue(7, true)] + [WorkerCheck] + [WorkerGet];
      Legal(START, run) && Exec(START, run).stopper.Returned? && Exec(START, run).worker == Running(7)
  {
    var run := StopAfter(Started());
    var s := Working().(worker := AtCheck, stopper := Returned);
    var q := run + [StartFlag] + [StartActivate(true)] + [Check(7)] + [Enqueue(7, true)];
    assert Leads(q, s.(known := {7}, queue := [Job(7)], accepted := [7]), false) by {
      RestartBegins(run, s, q);
    }
    assert Leads(q + [WorkerCheck] + [WorkerGet], s.(known := {7}, accepted := [7], worker := Running(7), taken := [Ran(7)]), false) by {
      hide Leads;
      var t := s.(known := {7}, queue := [Job(7)], accepted := [7]);
      Next(q, t, WorkerCheck, false);
      Next(q + [WorkerCheck], t.(worker := InGet), WorkerGet, false);
    }
  }

  lemma RestartBegins(run: seq<Action>, s: State, q: seq<Action>)
    requires run == StopAfter(Started()) && s == Working().(worker := AtCheck, stopper := Returned)
    requires q == run + [StartFlag] + [StartActivate(true)] + [Check(7)] + [Enqueue(7, true)]
    ensures Leads(q, s.(known := {7}, queue := [Job(7)], accepted := [7]), false)
  {
    StartedRun();
    StopAfterRun(Started(), Working());
    var stopped := Working().(cont := false, worker := Exited, stopper := Returned);
    assert Leads(run, stopped, false);
    hide Leads;
    Next(run, stopped, StartFlag, false);
    Next(run + [StartFlag], stopped.(cont := true, starting := true), StartActivate(true), false);
    var r := run + [StartFlag] + [StartActivate(true)];
    Next(r, s, Check(7), false);
    Next(r + [Check(7)], s.(inFlight := {7}, known := {7}), Enqueue(7, true), false);
  }

  // ---- shutting down ------------------------------------------------------

  function StepsLeft(w: Worker): nat {
    match w case InGet => 3 case Running(_) => 2 case AtCheck => 1 case _ => 0
  }

  /** A worker that waits for a message nobody will send. */
  predicate Asleep(s: State) {
    s.worker.InGet? && s.active && s.queue == [] && s.inFlight == {}
  }

  /** Nobody comes to help: start() is not called again, nor the queue deactivated. */
  predicate Unaided(steps: seq<Action>) {
    forall i :: 0 <= i < |steps| ==> !steps[i].StartFlag? && !steps[i].Deactivate?
  }

  function Distance(s: State): nat {
    if s.worker.InGet? && s.queue == [] then 4 else StepsLeft(s.worker)
  }

  /** What brings the worker on: itself, or a producer that is still on its way. */
  lemma NextStep(s: State) returns (a: Action)
    requires s.stopper.Poisoned? && !s.cont && StepsLeft(s.worker) > 0 && !Asleep(s)
    ensures Enabled(s, a) && !a.StartFlag? && !a.Deactivate?
    ensures var t := Step(s, a); t.stopper.Poisoned? && !t.cont && !Asleep(t) && Distance(t) < Distance(s)
  {
    match s.worker
    case Running(_) => a := WorkerDone;
    case AtCheck => a := WorkerCheck;
    case InGet =>
      if !s.active {
        a := WorkerAbort;
      } else if s.queue != [] {
        a := WorkerGet;
      } else {
        var id :| id in s.inFlight;
        a := Enqueue(id, true);
      }
  }

  /** Unless the worker is asleep, four steps at most let stop() join it. */
  lemma {:induction false} WorkerWindsDown(s: State) returns (steps: seq<Action>)
    requires s.stopper.Poisoned? && !s.cont && !Asleep(s)
    ensures Legal(s, steps) && Unaided(steps) && |steps| <= Distance(s)
    ensures Enabled(Exec(s, steps), StopJoin)
    decreases Distance(s)
  {
    if StepsLeft(s.worker) == 0 {
      steps := [];
    } else {
      var a := NextStep(s);
      hide Step, Enabled, StepsLeft, Asleep, Distance;
      var rest := WorkerWindsDown(Step(s, a));
      steps := [a] + rest;
      assert steps[1..] == rest;
    }
  }

  /** A worker asleep stays asleep. */
  lemma {:induction false} AsleepForEver(s: State, run: seq<Action>)
    requires Legal(s, run) && Unaided(run) && s.stopper.Poisoned? && !s.cont && Asleep(s)
    ensures Exec(s, run).stopper.Poisoned? && Asleep(Exec(s, run))
    decreases |run|
  {
    if run != [] {
      assert !run[0].StartFlag? && !run[0].Deactivate?;
      AsleepForEver(Step(s, run[0]), run[1..]);
    }
  }

  ghost predicate CanJoin(s: State) {
    exists steps :: JoinsAfter(s, steps)
  }

  ghost predicate JoinsAfter(s: State, steps: seq<Action>) {
    Legal(s, steps) && Unaided(steps) && Enabled(Exec(s, steps), StopJoin)
  }

  /** In every reachable state in which stop() waits for the worker, it can get to join it
      without help if and only if the worker is not asleep. */
  lemma StopCanJoinIff(run: seq<Action>)
    requires Legal(START, run) && NoRestart(START, run) && Exec(START, run).stopper.Poisoned?
    ensures CanJoin(Exec(START, run)) <==> !Asleep(Exec(START, run))
  {
    OrderlyFrom(START, run);
    var s := Exec(START, run);
    if Asleep(s) {
      forall steps | Legal(s, steps) && Unaided(steps)
        ensures !Enabled(Exec(s, steps), StopJoin)
      {
        AsleepForEver(s, steps);
      }
    } else {
      hide Step, Enabled, Legal, Exec;
      var steps := WorkerWindsDown(s);
      assert JoinsAfter(s, steps);
    }
  }

  /** An active queue takes what it is given. */
  predicate RefusesOnlyInactive(s: State, run: seq<Action>)
    requires Legal(s, run)
    decreases |run|
  {
    run == [] || ((run[0] == StopPoison(false) ==> !s.active) && RefusesOnlyInactive(Step(s, run[0]), run[1..]))
  }

  /** While stop() waits, its message is in the queue or getq fails. */
  predicate Awake(s: State) {
    s.stopper.Poisoned? && s.worker.InGet? ==> !s.active || Stop in s.queue
  }

  lemma {:induction false} AwakeFrom(s: State, run: seq<Action>)
    requires Legal(s, run) && NoRestart(s, run) && RefusesOnlyInactive(s, run) && Orderly(s) && Awake(s)
    ensures Awake(Exec(s, run))
    decreases |run|
  {
    if run != [] {
      OrderlyStep(s, run[0]);
      AwakeStep(s, run[0]);
      hide Step, Enabled, Orderly, Awake;
      AwakeFrom(Step(s, run[0]), run[1..]);
    }
  }

  lemma AwakeStep(s: State, a: Action)
    requires Awake(s) && Orderly(s) && Enabled(s, a) && !(a.StartFlag? && Stopping(s))
    requires a == StopPoison(false) ==> !s.active
    ensures Awake(Step(s, a))
  {
  }

  /** If only a deactivated queue refuses messages, stop() can always get to join. */
  lemma StopCanJoin(run: seq<Action>)
    requires Legal(START, run) && NoRestart(START, run) && RefusesOnlyInactive(START, run)
    requires Exec(START, run).stopper.Poisoned?
    ensures CanJoin(Exec(START, run))
  {
    hide Step, Enabled, Exec, Legal, NoRestart, RefusesOnlyInactive, CanJoin;
    AwakeFrom(START, run);
    StopCanJoinIff(run);
  }

  /** An active queue that refuses the message, for want of memory, can leave the worker
      asleep. */
  lemma RefusedPoisonBlocks()
    ensures var run := Started() + [WorkerCheck] + [StopWin] + [StopFlag] + [StopPoison(false)];
      Legal(START, run) && NoRestart(START, run) && Exec(START, run).stopper.Poisoned? && Asleep(Exec(START, run))
  {
    var run := Started() + [WorkerCheck];
    var s := Working().(worker := InGet);
    assert Leads(run + [StopWin] + [StopFlag] + [StopPoison(false)], s.(stopper := Poisoned, cont := false), true) by {
      hide Leads;
      StartedRun();
      Next(Started(), Working(), WorkerCheck, true);
      Next(run, s, StopWin, true);
      Next(run + [StopWin], s.(stopper := Won), StopFlag, true);
      Next(run + [StopWin] + [StopFlag], s.(stopper := FlagCleared, cont := false), StopPoison(false), true);
    }
  }
}
