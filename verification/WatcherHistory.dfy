/** Which ids the watcher knows, read off what it was shown. */
module WatcherHistory {
  import opened Options
  import opened Provisioning
  import opened Replication
  import opened ReplicaRuns

  /** The watcher was shown a document of its society, or told that one is gone. */
  datatype Act = Shown(id: Id, user: User) | Gone(id: Id)

  /** The user the last showing gave for an id that is not gone since. */
  function LastShown(acts: seq<Act>, id: Id): Option<User> {
    if acts == [] then None
    else
      var last := acts[|acts| - 1];
      if last.id == id then (if last.Shown? then Some(last.user) else None) else LastShown(acts[..|acts| - 1], id)
  }

  /** Rows and documents without a user name show nothing. */
  function ActsOfRows(rows: Rows): seq<Act> {
    if rows == [] then []
    else
      var n := |rows| - 1;
      ActsOfRows(rows[..n]) + if rows[n].1.user == "" then [] else [Shown(rows[n].0, rows[n].1.user)]
  }

  /** Nor does a change without its document or of another society. */
  function ActsOfChange(society: string, c: Change): seq<Act> {
    match c
    case Upsert(id, doc, full) => if full && doc.society == society && doc.user != "" then [Shown(id, doc.user)] else []
    case Delete(id) => [Gone(id)]
  }

  function ActsOf(society: string, x: World, e: Event): seq<Act> {
    if e.Resync? then ActsOfRows(e.rows) else if Handed(x, e) then ActsOfChange(society, e.poll.change) else []
  }

  ghost function Acts(log: Log, society: string, start: World, run: Run): seq<Act> {
    if run == [] then []
    else
      var before := run[..|run| - 1];
      Acts(log, society, start, before) + ActsOf(society, Exec(log, society, start, before), run[|run| - 1])
  }

  ghost predicate Remembers(cache: map<Id, User>, acts: seq<Act>) {
    forall id :: LastShown(acts, id) == if id in cache then Some(cache[id]) else None
  }

  lemma OneAct(acts: seq<Act>, a: Act, id: Id)
    ensures LastShown(acts + [a], id) ==
      if a.id != id then LastShown(acts, id) else if a.Shown? then Some(a.user) else None
  {
    assert (acts + [a])[..|acts|] == acts;
  }

  lemma RemembersMore(cache: map<Id, User>, acts: seq<Act>, a: Act)
    requires Remembers(cache, acts)
    ensures Remembers(if a.Shown? then cache[a.id := a.user] else cache - {a.id}, acts + [a])
  {
    hide LastShown;
    var next := if a.Shown? then cache[a.id := a.user] else cache - {a.id};
    forall id
      ensures LastShown(acts + [a], id) == if id in next then Some(next[id]) else None
    {
      OneAct(acts, a, id);
    }
  }

  lemma {:induction false} RemembersRows(w: Watcher, acts: seq<Act>, rows: Rows)
    requires Remembers(w.cache, acts)
    ensures Remembers(AfterScan(w, rows).cache, acts + ActsOfRows(rows))
  {
    hide Remembers;
    if rows == [] {
      assert acts + [] == acts;
    } else {
      var n := |rows| - 1;
      RemembersRows(w, acts, rows[..n]);
      var some := ActsOfRows(rows[..n]);
      if rows[n].1.user == "" {
        assert some + [] == some;
      } else {
        var a := Shown(rows[n].0, rows[n].1.user);
        RemembersMore(AfterScan(w, rows[..n]).cache, acts + some, a);
        assert acts + (some + [a]) == acts + some + [a];
      }
    }
  }

  lemma RemembersChange(w: Watcher, acts: seq<Act>, society: string, c: Change)
    requires Remembers(w.cache, acts)
    ensures Remembers(AfterChange(w, society, c).cache, acts + ActsOfChange(society, c))
  {
    hide Remembers;
    assert acts + [] == acts;
    if ActsOfChange(society, c) != [] {
      RemembersMore(w.cache, acts, ActsOfChange(society, c)[0]);
      assert c.Delete? && c.id !in w.cache ==> w.cache - {c.id} == w.cache;
    }
  }

  lemma RemembersStep(log: Log, society: string, x: World, e: Event, acts: seq<Act>)
    requires Remembers(x.w.cache, acts)
    ensures Remembers(Step(log, society, x, e).w.cache, acts + ActsOf(society, x, e))
  {
    hide Remembers, AfterScan, AfterChange, GoodScan, ActsOfRows, ActsOfChange, SeenAfter;
    assert acts + [] == acts;
    if e.Resync? {
      RemembersRows(x.w, acts, e.rows);
    } else if Handed(x, e) {
      var at := x.w.cursor.value;
      RemembersChange(x.w.(cursor := Some(at + 1), token := Some(at)), acts, society, e.poll.change);
    }
  }

  /** In every run the watcher knows an id, and its user, exactly when it was shown since the
      id was last gone. */
  lemma {:induction false} KnowsWhatItWasShown(log: Log, society: string, boot: nat, endpoints: set<User>, run: Run)
    ensures Remembers(Exec(log, society, Fresh(boot, endpoints), run).w.cache, Acts(log, society, Fresh(boot, endpoints), run))
  {
    hide Step, ActsOf;
    if run != [] {
      hide Remembers;
      var start, before := Fresh(boot, endpoints), run[..|run| - 1];
      KnowsWhatItWasShown(log, society, boot, endpoints, before);
      RemembersStep(log, society, Exec(log, society, start, before), run[|run| - 1], Acts(log, society, start, before));
    }
  }
}
