/** Whole runs of the watcher against a change log, with failing cursors, failing
    reopens and snapshots that run ahead of the log.

    The database is a function of the log. Assumed of it: an id keeps its society and
    user name, user names of the watched society are unique at any time, and a delete
    names a document that exists. */
module ReplicaRuns {
  import opened Options
  import opened Provisioning
  import opened Replication

  type Log = seq<Change>

  /** The collection after the first `k` changes. */
  function Db(log: Log, k: nat): map<Id, Doc>
    requires k <= |log|
  {
    if k == 0 then map[]
    else
      match log[k - 1]
      case Upsert(id, doc, _) => Db(log, k - 1)[id := doc]
      case Delete(id) => Db(log, k - 1) - {id}
  }

  predicate Mine(doc: Doc, society: string) {
    doc.society == society && doc.user != ""
  }

  /** `user` is active in `db`. */
  predicate Active(db: map<Id, Doc>, society: string, user: User) {
    exists id :: id in db && Mine(db[id], society) && db[id].user == user && db[id].active
  }

  ghost predicate Unique(db: map<Id, Doc>, society: string) {
    forall a, b :: a in db && b in db && Mine(db[a], society) && Mine(db[b], society) && db[a].user == db[b].user ==> a == b
  }

  /** `names` is what each id stands for, for good. */
  type Names = map<Id, Doc>

  predicate OfUser(names: Names, society: string, id: Id, user: User) {
    id in names && Mine(names[id], society) && names[id].user == user
  }

  predicate Agrees(names: Names, id: Id, doc: Doc) {
    id in names && names[id].society == doc.society && names[id].user == doc.user
  }

  ghost predicate Carried(log: Log, names: Names) {
    forall k :: 0 <= k < |log| && log[k].Upsert? ==> Agrees(names, log[k].id, log[k].doc)
  }

  ghost predicate Disciplined(log: Log, names: Names, society: string) {
    && Carried(log, names)
    && (forall k :: 0 <= k <= |log| ==> Unique(Db(log, k), society))
    && (forall k :: 0 <= k < |log| && log[k].Delete? ==> log[k].id in Db(log, k))
  }

  /** Every change that is not a delete comes with its document. */
  ghost predicate Documented(log: Log) {
    forall k :: 0 <= k < |log| && log[k].Upsert? ==> log[k].full
  }

  // ---- the invariant ------------------------------------------------------

  /** No change in `lo..up` is about `user`. */
  predicate Quiet(log: Log, names: Names, society: string, user: User, lo: nat, up: nat) {
    forall k :: lo <= k < up && k < |log| ==> !OfUser(names, society, log[k].id, user)
  }

  ghost predicate CacheNames(names: Names, society: string, cache: map<Id, User>) {
    forall id :: id in cache ==> OfUser(names, society, id, cache[id])
  }

  /** A document none of whose user's changes are outstanding has its id in the cache. */
  ghost predicate CacheCovers(log: Log, names: Names, society: string, cache: map<Id, User>, pos: nat, hi: nat)
    requires pos <= |log|
  {
    forall id, u :: id in Db(log, pos) && u != "" && OfUser(names, society, id, u) && Quiet(log, names, society, u, pos, hi) ==>
      id in cache
  }

  /** The one outstanding change about `u` is the delete at `k`. */
  ghost predicate OnlyDelete(log: Log, names: Names, society: string, u: User, pos: nat, hi: nat, k: nat) {
    && pos <= k < hi && k < |log| && log[k].Delete? && OfUser(names, society, log[k].id, u)
    && Quiet(log, names, society, u, pos, k) && Quiet(log, names, society, u, k + 1, hi)
  }

  /** If that delete will be skipped, there is nothing left to delete. */
  ghost predicate SkipsAreSafe(log: Log, names: Names, society: string, w: Watcher, pos: nat, hi: nat) {
    forall u: User, k: nat :: u != "" && OnlyDelete(log, names, society, u, pos, hi, k) && log[k].id !in w.cache ==> u !in w.endpoints
  }

  /** Users with nothing outstanding are provisioned exactly when active. */
  ghost predicate Settled(log: Log, names: Names, society: string, endpoints: set<User>, pos: nat, hi: nat)
    requires pos <= |log|
  {
    forall u :: u != "" && Quiet(log, names, society, u, pos, hi) ==> (u in endpoints <==> Active(Db(log, pos), society, u))
  }

  /** Changes before `pos` are accounted for; snapshots may reach as far as `hi`. */
  ghost predicate Tracks(log: Log, names: Names, society: string, w: Watcher, pos: nat, hi: nat)
    requires pos <= |log|
  {
    && CacheNames(names, society, w.cache)
    && CacheCovers(log, names, society, w.cache, pos, hi)
    && SkipsAreSafe(log, names, society, w, pos, hi)
    && Settled(log, names, society, w.endpoints, pos, hi)
  }

  ghost predicate NamesOk(names: Names, db: map<Id, Doc>) {
    forall id :: id in db ==> Agrees(names, id, db[id])
  }

  lemma {:induction false} DbNames(log: Log, names: Names, k: nat)
    requires Carried(log, names) && k <= |log|
    ensures NamesOk(names, Db(log, k))
  {
    if k > 0 {
      DbNames(log, names, k - 1);
    }
  }

  /** A user nobody touches keeps its documents. */
  lemma {:induction false} QuietKeeps(log: Log, names: Names, society: string, user: User, lo: nat, up: nat)
    requires Disciplined(log, names, society) && lo <= up <= |log| && user != ""
    requires Quiet(log, names, society, user, lo, up)
    ensures forall id :: OfUser(names, society, id, user) ==>
      (id in Db(log, lo) <==> id in Db(log, up)) && (id in Db(log, up) ==> Db(log, lo)[id] == Db(log, up)[id])
    decreases up
  {
    hide Unique, Mine, Disciplined;
    if lo < up {
      QuietKeeps(log, names, society, user, lo, up - 1);
      assert !OfUser(names, society, log[up - 1].id, user);
    }
  }

  /** Whether a user is active depends on its own documents only. */
  lemma ActiveByUser(names: Names, society: string, user: User, a: map<Id, Doc>, b: map<Id, Doc>)
    requires NamesOk(names, a) && NamesOk(names, b)
    requires forall id :: OfUser(names, society, id, user) ==> (id in a <==> id in b) && (id in b ==> a[id] == b[id])
    ensures Active(a, society, user) <==> Active(b, society, user)
  {
    if Active(a, society, user) {
      var id :| id in a && Mine(a[id], society) && a[id].user == user && a[id].active;
      assert Agrees(names, id, a[id]) && OfUser(names, society, id, user);
      assert id in b;
    }
    if Active(b, society, user) {
      var id :| id in b && Mine(b[id], society) && b[id].user == user && b[id].active;
      assert Agrees(names, id, b[id]) && OfUser(names, society, id, user);
      assert id in a;
    }
  }

  // ---- one change ---------------------------------------------------------

  lemma NamesStep(log: Log, names: Names, society: string, w: Watcher, pos: nat)
    requires Carried(log, names) && pos < |log| && CacheNames(names, society, w.cache)
    ensures CacheNames(names, society, AfterChange(w, society, log[pos]).cache)
  {
    if log[pos].Upsert? {
      assert Agrees(names, log[pos].id, log[pos].doc);
    }
  }

  /** A user's document is the only one of that user. */
  lemma OnlyOne(log: Log, names: Names, society: string, u: User, k: nat, a: Id, b: Id)
    requires Disciplined(log, names, society) && k <= |log| && u != ""
    requires a in Db(log, k) && b in Db(log, k) && OfUser(names, society, a, u) && OfUser(names, society, b, u)
    ensures a == b
  {
    DbNames(log, names, k);
    hide Db;
    assert Unique(Db(log, k), society);
    assert Agrees(names, a, Db(log, k)[a]) && Agrees(names, b, Db(log, k)[b]);
  }

  lemma NoneAfterDelete(log: Log, names: Names, society: string, u: User, k: nat, id: Id)
    requires Disciplined(log, names, society) && k < |log| && u != ""
    requires log[k].Delete? && OfUser(names, society, log[k].id, u)
    requires OfUser(names, society, id, u)
    ensures id !in Db(log, k + 1)
  {
    if id in Db(log, k) {
      OnlyOne(log, names, society, u, k, id, log[k].id);
    }
  }

  lemma NotActive(log: Log, names: Names, society: string, u: User, k: nat)
    requires Carried(log, names) && k <= |log| && u != ""
    requires forall id :: OfUser(names, society, id, u) ==> id !in Db(log, k)
    ensures !Active(Db(log, k), society, u)
  {
    DbNames(log, names, k);
    hide Db;
    forall id | id in Db(log, k) && Mine(Db(log, k)[id], society)
      ensures Db(log, k)[id].user != u
    {
      assert Agrees(names, id, Db(log, k)[id]);
      assert !OfUser(names, society, id, u);
    }
  }

  lemma CoversStep(log: Log, names: Names, society: string, w: Watcher, pos: nat, hi: nat)
    requires Disciplined(log, names, society) && Documented(log) && pos < |log|
    requires CacheCovers(log, names, society, w.cache, pos, hi)
    ensures CacheCovers(log, names, society, AfterChange(w, society, log[pos]).cache, pos + 1, hi)
  {
    var cache := AfterChange(w, society, log[pos]).cache;
    forall id, u | id in Db(log, pos + 1) && u != "" && OfUser(names, society, id, u) && Quiet(log, names, society, u, pos + 1, hi)
      ensures id in cache
    {
      CoversOne(log, names, society, w, pos, hi, id, u);
    }
  }

  lemma CoversOne(log: Log, names: Names, society: string, w: Watcher, pos: nat, hi: nat, id: Id, u: User)
    requires Disciplined(log, names, society) && Documented(log) && pos < |log|
    requires CacheCovers(log, names, society, w.cache, pos, hi)
    requires id in Db(log, pos + 1) && u != "" && OfUser(names, society, id, u) && Quiet(log, names, society, u, pos + 1, hi)
    ensures id in AfterChange(w, society, log[pos]).cache
  {
    if OfUser(names, society, log[pos].id, u) {
      hide CacheCovers, Quiet, Disciplined, Documented, Db, OfUser, AfterChange;
      TwoInARow(log, names, society, w, pos, u, id);
    } else {
      hide Disciplined, Documented, Unique;
      assert Quiet(log, names, society, u, pos, hi);
      assert id != log[pos].id && id in Db(log, pos);
    }
  }

  /** Replaying the change at `pos` settles its user, unless more is to come. */
  lemma ChangedUser(log: Log, names: Names, society: string, w: Watcher, pos: nat, hi: nat, u: User)
    requires Disciplined(log, names, society) && Documented(log) && pos < |log| && u != ""
    requires Tracks(log, names, society, w, pos, hi)
    requires OfUser(names, society, log[pos].id, u) && Quiet(log, names, society, u, pos + 1, hi)
    ensures u in AfterChange(w, society, log[pos]).endpoints <==> Active(Db(log, pos + 1), society, u)
  {
    match log[pos]
    case Upsert(_, _, _) =>
      ShownUser(log, names, society, w, pos, u);
    case Delete(id) =>
      forall other | OfUser(names, society, other, u)
        ensures other !in Db(log, pos + 1)
      {
        NoneAfterDelete(log, names, society, u, pos, other);
      }
      NotActive(log, names, society, u, pos + 1);
      hide Disciplined, Documented, Db, Active;
      if id in w.cache {
        assert w.cache[id] == u;
      } else if pos < hi {
        assert OnlyDelete(log, names, society, u, pos, hi, pos);
      } else {
        InDb(log, names, society, pos);
      }
  }

  lemma InDb(log: Log, names: Names, society: string, k: nat)
    requires Disciplined(log, names, society) && k < |log| && log[k].Delete?
    ensures log[k].id in Db(log, k)
  {
  }

  /** A change that brings its document settles its user. */
  lemma ShownUser(log: Log, names: Names, society: string, w: Watcher, pos: nat, u: User)
    requires Disciplined(log, names, society) && pos < |log| && u != ""
    requires log[pos].Upsert? && log[pos].full && OfUser(names, society, log[pos].id, u)
    ensures u in AfterChange(w, society, log[pos]).endpoints <==> Active(Db(log, pos + 1), society, u)
  {
    var id, doc, next := log[pos].id, log[pos].doc, Db(log, pos + 1);
    assert Unique(next, society);
    assert next[id] == doc && Agrees(names, id, doc) && Mine(doc, society);
  }

  lemma OtherUser(log: Log, names: Names, society: string, w: Watcher, pos: nat, u: User)
    requires Disciplined(log, names, society) && pos < |log| && u != ""
    requires CacheNames(names, society, w.cache)
    requires !OfUser(names, society, log[pos].id, u)
    ensures u in AfterChange(w, society, log[pos]).endpoints <==> u in w.endpoints
    ensures Active(Db(log, pos + 1), society, u) <==> Active(Db(log, pos), society, u)
  {
    hide Db, Active;
    QuietKeeps(log, names, society, u, pos, pos + 1);
    DbNames(log, names, pos);
    DbNames(log, names, pos + 1);
    ActiveByUser(names, society, u, Db(log, pos), Db(log, pos + 1));
    if log[pos].Upsert? {
      assert Agrees(names, log[pos].id, log[pos].doc);
    }
  }

  lemma SkipsStep(log: Log, names: Names, society: string, w: Watcher, pos: nat, hi: nat)
    requires Disciplined(log, names, society) && Documented(log) && pos < |log|
    requires CacheNames(names, society, w.cache) && SkipsAreSafe(log, names, society, w, pos, hi)
    ensures SkipsAreSafe(log, names, society, AfterChange(w, society, log[pos]), pos + 1, hi)
  {
    hide Disciplined, Documented, CacheNames, AfterChange, Quiet;
    var v := AfterChange(w, society, log[pos]);
    forall u: User, k: nat | u != "" && OnlyDelete(log, names, society, u, pos + 1, hi, k) && log[k].id !in v.cache
      ensures u !in v.endpoints
    {
      SkipsOne(log, names, society, w, pos, hi, u, k);
    }
  }

  lemma SkipsOne(log: Log, names: Names, society: string, w: Watcher, pos: nat, hi: nat, u: User, k: nat)
    requires Disciplined(log, names, society) && Documented(log) && pos < |log|
    requires CacheNames(names, society, w.cache) && SkipsAreSafe(log, names, society, w, pos, hi)
    requires u != "" && OnlyDelete(log, names, society, u, pos + 1, hi, k)
    requires log[k].id !in AfterChange(w, society, log[pos]).cache
    ensures u !in AfterChange(w, society, log[pos]).endpoints
  {
    hide Disciplined, Documented, CacheNames, Db, Active;
    DeletedLater(log, names, society, u, pos + 1, hi, k);
    if OfUser(names, society, log[pos].id, u) {
      TwoInARow(log, names, society, w, pos, u, log[k].id);
    } else {
      OtherUser(log, names, society, w, pos, u);
      assert OnlyDelete(log, names, society, u, pos, hi, k);
      assert log[k].id != log[pos].id;
    }
  }

  /** What the only outstanding change deletes is there until then. */
  lemma DeletedLater(log: Log, names: Names, society: string, u: User, pos: nat, hi: nat, k: nat)
    requires Disciplined(log, names, society) && u != "" && OnlyDelete(log, names, society, u, pos, hi, k) && pos <= |log|
    ensures log[k].id in Db(log, pos)
  {
    InDb(log, names, society, k);
    hide Disciplined, Db;
    QuietKeeps(log, names, society, u, pos, k);
  }

  /** If the user's document outlives the change at `pos`, that change showed it. */
  lemma TwoInARow(log: Log, names: Names, society: string, w: Watcher, pos: nat, u: User, id: Id)
    requires Disciplined(log, names, society) && Documented(log) && pos < |log| && u != ""
    requires OfUser(names, society, log[pos].id, u) && OfUser(names, society, id, u) && id in Db(log, pos + 1)
    ensures id in AfterChange(w, society, log[pos]).cache
  {
    match log[pos]
    case Upsert(other, doc, _) =>
      assert Agrees(names, other, doc) && other in Db(log, pos + 1);
      OnlyOne(log, names, society, u, pos + 1, id, other);
    case Delete(_) =>
      NoneAfterDelete(log, names, society, u, pos, id);
  }

  lemma ReplayKeepsTracking(log: Log, names: Names, society: string, w: Watcher, pos: nat, hi: nat)
    requires Disciplined(log, names, society) && Documented(log) && pos < |log| && Tracks(log, names, society, w, pos, hi)
    ensures Tracks(log, names, society, AfterChange(w, society, log[pos]), pos + 1, hi)
  {
    hide Db, Active, AfterChange, CacheCovers, SkipsAreSafe;
    NamesStep(log, names, society, w, pos);
    CoversStep(log, names, society, w, pos, hi);
    SkipsStep(log, names, society, w, pos, hi);
    forall u | u != "" && Quiet(log, names, society, u, pos + 1, hi)
      ensures u in AfterChange(w, society, log[pos]).endpoints <==> Active(Db(log, pos + 1), society, u)
    {
      if OfUser(names, society, log[pos].id, u) {
        ChangedUser(log, names, society, w, pos, hi, u);
      } else {
        OtherUser(log, names, society, w, pos, u);
        assert Quiet(log, names, society, u, pos, hi);
      }
    }
  }

  // ---- a snapshot ---------------------------------------------------------

  type Rows = seq<(Id, Doc)>

  /** The answer to the society-scoped query on `db`, in any order. */
  ghost predicate RowsOf(rows: Rows, db: map<Id, Doc>, society: string) {
    && (forall i :: 0 <= i < |rows| ==> rows[i].0 in db && db[rows[i].0] == rows[i].1 && rows[i].1.society == society)
    && (forall id :: id in db && db[id].society == society ==> (id, db[id]) in rows)
  }

  ghost predicate FlagsAgree(rows: Rows) {
    forall i, j :: 0 <= i < |rows| && 0 <= j < |rows| && rows[i].1.user == rows[j].1.user && rows[i].1.user != "" ==>
      rows[i].1.active == rows[j].1.active
  }

  predicate HasRow(rows: Rows, u: User) {
    exists i :: 0 <= i < |rows| && rows[i].1.user == u
  }

  /** Everybody who is provisioned has a row: nothing is left over. */
  ghost predicate NoLeftovers(rows: Rows, endpoints: set<User>) {
    forall u :: u in endpoints && u != "" ==> HasRow(rows, u)
  }

  lemma {:induction false} ScanUser(w: Watcher, rows: Rows, u: User)
    requires FlagsAgree(rows) && u != ""
    ensures (forall i :: 0 <= i < |rows| ==> rows[i].1.user != u) ==> (u in AfterScan(w, rows).endpoints <==> u in w.endpoints)
    ensures forall i :: 0 <= i < |rows| && rows[i].1.user == u ==> (u in AfterScan(w, rows).endpoints <==> rows[i].1.active)
  {
    if rows != [] {
      var n := |rows| - 1;
      ScanUser(w, rows[..n], u);
      assert forall i :: 0 <= i < n ==> rows[..n][i] == rows[i];
    }
  }

  lemma {:induction false} ScanCache(w: Watcher, rows: Rows, names: Names, society: string)
    requires forall i :: 0 <= i < |rows| ==> Agrees(names, rows[i].0, rows[i].1) && rows[i].1.society == society
    requires CacheNames(names, society, w.cache)
    ensures var c := AfterScan(w, rows).cache;
      && w.cache.Keys <= c.Keys
      && CacheNames(names, society, c)
      && (forall i :: 0 <= i < |rows| && rows[i].1.user != "" ==> rows[i].0 in c)
  {
    if rows != [] {
      var n := |rows| - 1;
      ScanCache(w, rows[..n], names, society);
      assert forall i :: 0 <= i < n ==> rows[..n][i] == rows[i];
    }
  }

  /** A snapshot settles a user none of whose changes are outstanding. */
  lemma ScannedUser(society: string, w: Watcher, rows: Rows, db: map<Id, Doc>, u: User)
    requires RowsOf(rows, db, society) && Unique(db, society) && u != ""
    ensures HasRow(rows, u) ==> (u in AfterScan(w, rows).endpoints <==> Active(db, society, u))
    ensures !HasRow(rows, u) ==> (u in AfterScan(w, rows).endpoints <==> u in w.endpoints) && !Active(db, society, u)
  {
    forall i, j | 0 <= i < |rows| && 0 <= j < |rows| && rows[i].1.user == rows[j].1.user && rows[i].1.user != ""
      ensures rows[i].1.active == rows[j].1.active
    {
      assert Mine(db[rows[i].0], society) && Mine(db[rows[j].0], society);
    }
    hide AfterScan;
    ScanUser(w, rows, u);
    if i :| 0 <= i < |rows| && rows[i].1.user == u {
      var id := rows[i].0;
      assert db[id] == rows[i].1 && Mine(db[id], society);
      assert u in AfterScan(w, rows).endpoints <==> db[id].active;
    } else {
      forall id | id in db && Mine(db[id], society)
        ensures db[id].user != u
      {
        assert (id, db[id]) in rows;
        var i :| 0 <= i < |rows| && rows[i] == (id, db[id]);
      }
    }
  }

  /** Users whose document is in the snapshot are cached by it. */
  lemma SnapshotCache(names: Names, society: string, w: Watcher, rows: Rows, db: map<Id, Doc>)
    requires NamesOk(names, db) && RowsOf(rows, db, society) && CacheNames(names, society, w.cache)
    ensures var cache := AfterScan(w, rows).cache;
      && CacheNames(names, society, cache) && w.cache.Keys <= cache.Keys
      && forall id, u :: id in db && u != "" && OfUser(names, society, id, u) ==> id in cache
  {
    hide AfterScan;
    ScanCache(w, rows, names, society);
    forall id, u | id in db && u != "" && OfUser(names, society, id, u)
      ensures id in AfterScan(w, rows).cache
    {
      assert Agrees(names, id, db[id]);
      assert (id, db[id]) in rows;
      var i :| 0 <= i < |rows| && rows[i] == (id, db[id]);
    }
  }

  /** Who has a row has a document, and the other way round. */
  lemma RowMeansDocument(names: Names, society: string, rows: Rows, db: map<Id, Doc>, u: User)
    requires NamesOk(names, db) && RowsOf(rows, db, society) && u != ""
    ensures HasRow(rows, u) ==> exists id :: OfUser(names, society, id, u) && id in db
  {
    if i :| 0 <= i < |rows| && rows[i].1.user == u {
      var id := rows[i].0;
      assert Agrees(names, id, db[id]) && OfUser(names, society, id, u);
    }
  }

  lemma GoneStaysGone(log: Log, names: Names, society: string, u: User, k: nat, now: nat, id: Id)
    requires Disciplined(log, names, society) && u != "" && k < now <= |log| && OfUser(names, society, id, u)
    requires log[k].Delete? && OfUser(names, society, log[k].id, u) && Quiet(log, names, society, u, k + 1, now)
    ensures id !in Db(log, now)
  {
    hide Disciplined, Db, OfUser;
    NoneAfterDelete(log, names, society, u, k, id);
    QuietKeeps(log, names, society, u, k + 1, now);
  }

  /** After a delete that nothing about the user follows, no snapshot has its row. */
  lemma DeletedHasNoRow(log: Log, names: Names, society: string, u: User, k: nat, now: nat, rows: Rows)
    requires Disciplined(log, names, society) && u != "" && k < now <= |log| && RowsOf(rows, Db(log, now), society)
    requires log[k].Delete? && OfUser(names, society, log[k].id, u) && Quiet(log, names, society, u, k + 1, now)
    ensures !HasRow(rows, u)
  {
    hide Disciplined, Db, RowsOf, OfUser, NamesOk, HasRow, Quiet;
    NamesNow(log, names, society, now);
    RowMeansDocument(names, society, rows, Db(log, now), u);
    forall id | OfUser(names, society, id, u)
      ensures id !in Db(log, now)
    {
      GoneStaysGone(log, names, society, u, k, now, id);
    }
  }

  lemma NamesNow(log: Log, names: Names, society: string, now: nat)
    requires Disciplined(log, names, society) && now <= |log|
    ensures NamesOk(names, Db(log, now))
  {
    DbNames(log, names, now);
  }

  lemma CoversAfterScan(log: Log, names: Names, society: string, w: Watcher, pos: nat, now: nat, rows: Rows)
    requires Disciplined(log, names, society) && pos <= now <= |log|
    requires CacheNames(names, society, w.cache) && RowsOf(rows, Db(log, now), society)
    ensures CacheNames(names, society, AfterScan(w, rows).cache)
    ensures CacheCovers(log, names, society, AfterScan(w, rows).cache, pos, now)
  {
    DbNames(log, names, now);
    SnapshotCache(names, society, w, rows, Db(log, now));
    hide Disciplined, Db, RowsOf, AfterScan;
    forall id, u | id in Db(log, pos) && u != "" && OfUser(names, society, id, u) && Quiet(log, names, society, u, pos, now)
      ensures id in AfterScan(w, rows).cache
    {
      QuietKeeps(log, names, society, u, pos, now);
    }
  }

  /** A snapshot's verdict on a user with nothing outstanding. */
  lemma SettledByScan(log: Log, names: Names, society: string, w: Watcher, pos: nat, now: nat, rows: Rows, u: User)
    requires Disciplined(log, names, society) && pos <= now <= |log| && RowsOf(rows, Db(log, now), society)
    requires u != "" && Quiet(log, names, society, u, pos, now)
    requires HasRow(rows, u) || u !in w.endpoints || (u in w.endpoints <==> Active(Db(log, pos), society, u))
    ensures u in AfterScan(w, rows).endpoints <==> Active(Db(log, pos), society, u)
  {
    assert Unique(Db(log, now), society);
    DbNames(log, names, pos);
    DbNames(log, names, now);
    hide Disciplined, Db, RowsOf, AfterScan, Active, Unique;
    QuietKeeps(log, names, society, u, pos, now);
    ActiveByUser(names, society, u, Db(log, pos), Db(log, now));
    ScannedUser(society, w, rows, Db(log, now), u);
  }

  /** A snapshot with nothing left over brings any watcher on track, whatever happened
      before and however far behind its cursor is. */
  lemma ScanEstablishes(log: Log, names: Names, society: string, w: Watcher, pos: nat, now: nat, rows: Rows)
    requires Disciplined(log, names, society) && pos <= now <= |log| && CacheNames(names, society, w.cache)
    requires RowsOf(rows, Db(log, now), society) && NoLeftovers(rows, w.endpoints)
    ensures Tracks(log, names, society, AfterScan(w, rows), pos, now)
  {
    CoversAfterScan(log, names, society, w, pos, now, rows);
    assert Unique(Db(log, now), society);
    hide Disciplined, Db, RowsOf, AfterScan, Active, CacheNames, CacheCovers, HasRow, Unique;
    var v := AfterScan(w, rows);
    forall u: User, k: nat | u != "" && OnlyDelete(log, names, society, u, pos, now, k) && log[k].id !in v.cache
      ensures u !in v.endpoints
    {
      DeletedHasNoRow(log, names, society, u, k, now, rows);
      ScannedUser(society, w, rows, Db(log, now), u);
    }
    forall u | u != "" && Quiet(log, names, society, u, pos, now)
      ensures u in v.endpoints <==> Active(Db(log, pos), society, u)
    {
      SettledByScan(log, names, society, w, pos, now, rows, u);
    }
  }

  /** Saying that a snapshot reached further than it did is harmless. */
  lemma TracksWiden(log: Log, names: Names, society: string, w: Watcher, pos: nat, hi: nat, now: nat)
    requires Disciplined(log, names, society) && pos <= |log| && hi <= now && Tracks(log, names, society, w, pos, hi)
    ensures Tracks(log, names, society, w, pos, now)
  {
    hide Disciplined, Db, Active, OfUser;
    assert forall u :: Quiet(log, names, society, u, pos, now) ==> Quiet(log, names, society, u, pos, hi);
    forall u: User, k: nat | u != "" && OnlyDelete(log, names, society, u, pos, now, k) && log[k].id !in w.cache
      ensures u !in w.endpoints
    {
      assert k < hi ==> OnlyDelete(log, names, society, u, pos, hi, k);
      assert k >= hi ==> Quiet(log, names, society, u, pos, hi);
      if k >= hi {
        DeletedLater(log, names, society, u, pos, now, k);
      }
    }
  }

  /** A snapshot that runs ahead of the log keeps a watcher on track. */
  lemma SnapshotKeepsTracking(log: Log, names: Names, society: string, w: Watcher, pos: nat, hi: nat, now: nat, rows: Rows)
    requires Disciplined(log, names, society) && pos <= now <= |log| && hi <= now
    requires Tracks(log, names, society, w, pos, hi) && RowsOf(rows, Db(log, now), society)
    ensures Tracks(log, names, society, AfterScan(w, rows), pos, now)
  {
    TracksWiden(log, names, society, w, pos, hi, now);
    CoversAfterScan(log, names, society, w, pos, now, rows);
    DbNames(log, names, now);
    SnapshotCache(names, society, w, rows, Db(log, now));
    assert Unique(Db(log, now), society);
    hide Disciplined, Db, RowsOf, AfterScan, Active, CacheNames, CacheCovers, HasRow, Unique;
    var v := AfterScan(w, rows);
    forall u: User, k: nat | u != "" && OnlyDelete(log, names, society, u, pos, now, k) && log[k].id !in v.cache
      ensures u !in v.endpoints
    {
      DeletedHasNoRow(log, names, society, u, k, now, rows);
      ScannedUser(society, w, rows, Db(log, now), u);
      assert log[k].id !in w.cache;
    }
    forall u | u != "" && Quiet(log, names, society, u, pos, now)
      ensures u in v.endpoints <==> Active(Db(log, pos), society, u)
    {
      SettledByScan(log, names, society, w, pos, now, rows, u);
    }
  }

  // ---- a cursor without a token -------------------------------------------

  /** Nothing between `lo` and `up` concerns the watched society. */
  ghost predicate QuietGap(log: Log, names: Names, society: string, lo: nat, up: nat) {
    forall u :: u != "" ==> Quiet(log, names, society, u, lo, up)
  }

  lemma GapUser(log: Log, names: Names, society: string, w: Watcher, pos: nat, hi: nat, now: nat, u: User)
    requires Disciplined(log, names, society) && pos <= now <= |log| && hi <= now && u != ""
    requires Tracks(log, names, society, w, pos, hi) && Quiet(log, names, society, u, pos, now)
    ensures u in w.endpoints <==> Active(Db(log, now), society, u)
    ensures forall id :: OfUser(names, society, id, u) && id in Db(log, now) ==> id in w.cache
  {
    hide Disciplined, Db, Active, OfUser, NamesOk, SkipsAreSafe, CacheNames;
    assert Quiet(log, names, society, u, pos, hi);
    NamesNow(log, names, society, pos);
    NamesNow(log, names, society, now);
    QuietKeeps(log, names, society, u, pos, now);
    ActiveByUser(names, society, u, Db(log, pos), Db(log, now));
  }

  lemma GapKeepsTracking(log: Log, names: Names, society: string, w: Watcher, pos: nat, hi: nat, now: nat)
    requires Disciplined(log, names, society) && pos <= now <= |log| && hi <= now
    requires Tracks(log, names, society, w, pos, hi) && QuietGap(log, names, society, pos, now)
    ensures Tracks(log, names, society, w, now, hi)
  {
    hide Db, Disciplined, Active, OfUser, CacheNames;
    forall u | u != ""
      ensures u in w.endpoints <==> Active(Db(log, now), society, u)
      ensures forall id :: OfUser(names, society, id, u) && id in Db(log, now) ==> id in w.cache
    {
      GapUser(log, names, society, w, pos, hi, now, u);
    }
    assert SkipsAreSafe(log, names, society, w, now, hi);
    assert Settled(log, names, society, w.endpoints, now, hi);
    forall id, u | id in Db(log, now) && u != "" && OfUser(names, society, id, u)
      ensures id in w.cache
    {
      assert u in w.endpoints <==> Active(Db(log, now), society, u);
    }
  }

  /** The provisioned endpoints are exactly the active users. */
  ghost predicate InSync(log: Log, society: string, w: Watcher, pos: nat)
    requires pos <= |log|
  {
    forall u :: u != "" ==> (u in w.endpoints <==> Active(Db(log, pos), society, u))
  }

  /** A scan brings Asterisk in step exactly when nobody without a row is provisioned: it
      never removes what it does not see. */
  lemma ScanInSyncIff(log: Log, society: string, w: Watcher, now: nat, rows: Rows)
    requires now <= |log| && RowsOf(rows, Db(log, now), society) && Unique(Db(log, now), society)
    ensures InSync(log, society, AfterScan(w, rows), now) <==> NoLeftovers(rows, w.endpoints)
  {
    hide AfterScan, Unique, Db, Active, HasRow, RowsOf;
    forall u | u != ""
      ensures (u in AfterScan(w, rows).endpoints <==> Active(Db(log, now), society, u)) <==> (u in w.endpoints ==> HasRow(rows, u))
    {
      ScannedUser(society, w, rows, Db(log, now), u);
    }
  }

  // ---- runs ---------------------------------------------------------------

  /** `now` changes have happened; the watcher accounts for those before `pos` and the
      last scan was at `hi`. `applied` lists the changes it was handed, and `seen` says of
      each user it ever acted on which state of the log the last action was about. */
  datatype World = World(now: nat, w: Watcher, pos: nat, hi: nat, applied: seq<nat>, seen: map<User, nat>)

  datatype Event =
    | Happens
    | Resync(rows: Rows)                    // a scan; a failed one returns no rows
    | Reopen(opens: bool)                   // what bootstrap does after its scan
    | Tick(opens: bool, poll: Poll)

  /** A watcher as it is made, after `boot` changes, with what Asterisk still has. */
  function Fresh(boot: nat, endpoints: set<User>): World {
    World(boot, Watcher(None, None, map[], 0, endpoints), boot, boot, [], map[])
  }

  /** The event opens a cursor although no token was ever stored. */
  predicate OpensBlind(x: World, e: Event) {
    x.w.token.None? && ((e.Reopen? && e.opens) || (e.Tick? && e.opens && x.w.cursor.None? && x.w.skip == 0))
  }

  predicate Handed(x: World, e: Event) {
    e.Tick? && x.w.cursor.Some? && e.poll.Delivers?
  }

  /** A scan that worked and found a row for everybody who is provisioned. */
  ghost predicate GoodScan(log: Log, society: string, x: World, e: Event) {
    x.now <= |log| && e.Resync? && RowsOf(e.rows, Db(log, x.now), society) && NoLeftovers(e.rows, x.w.endpoints)
  }

  /** Such a scan before any cursor: what came earlier will never be replayed. */
  ghost predicate Rebases(log: Log, society: string, x: World, e: Event) {
    GoodScan(log, society, x, e) && x.w.cursor.None? && x.w.token.None?
  }

  ghost predicate Possible(log: Log, society: string, x: World, e: Event) {
    && x.pos <= x.now <= |log|
    && (e.Happens? ==> x.now < |log|)
    && (e.Resync? ==> e.rows == [] || RowsOf(e.rows, Db(log, x.now), society))
    && (Handed(x, e) ==> x.w.cursor.value < x.now && e.poll.change == log[x.w.cursor.value])
  }

  function After(society: string, x: World, e: Event): Watcher {
    match e
    case Happens => x.w
    case Resync(rows) => AfterScan(x.w, rows)
    case Reopen(opens) => AfterOpen(x.w, opens, x.now)
    case Tick(opens, poll) => AfterTick(x.w, society, opens, x.now, poll)
  }

  /** The user a change makes the watcher act on, "" if none: it must come with its
      document, or delete an id the watcher knows. */
  function ActsOn(society: string, cache: map<Id, User>, c: Change): User {
    match c
    case Upsert(_, doc, full) => if full && doc.society == society then doc.user else ""
    case Delete(id) => if id in cache then cache[id] else ""
  }

  function RowUsers(rows: Rows): set<User> {
    set i | 0 <= i < |rows| && rows[i].1.user != "" :: rows[i].1.user
  }

  function Marked(seen: map<User, nat>, u: User, k: nat): map<User, nat> {
    if u == "" then seen else seen[u := k]
  }

  function SeenAfter(society: string, x: World, e: Event): map<User, nat> {
    if e.Resync? then x.seen + map u | u in RowUsers(e.rows) :: x.now
    else if Handed(x, e) then Marked(x.seen, ActsOn(society, x.w.cache, e.poll.change), x.w.cursor.value + 1)
    else x.seen
  }

  ghost function Step(log: Log, society: string, x: World, e: Event): World {
    World(
      if e.Happens? then x.now + 1 else x.now,
      After(society, x, e),
      if OpensBlind(x, e) || Rebases(log, society, x, e) then x.now else if Handed(x, e) then x.pos + 1 else x.pos,
      if e.Resync? then x.now else x.hi,
      if Handed(x, e) then x.applied + [x.w.cursor.value] else x.applied,
      SeenAfter(society, x, e))
  }

  type Run = seq<Event>

  ghost function Exec(log: Log, society: string, start: World, run: Run): World {
    if run == [] then start else Step(log, society, Exec(log, society, start, run[..|run| - 1]), run[|run| - 1])
  }

  ghost predicate Legal(log: Log, society: string, start: World, run: Run) {
    run == [] ||
    var before := run[..|run| - 1];
    && Legal(log, society, start, before)
    && Possible(log, society, Exec(log, society, start, before), run[|run| - 1])
  }

  // ---- order --------------------------------------------------------------

  /** A live cursor sits just after the stored token, and what was handed over is a
      stretch of the log without gaps or repetitions. */
  predicate Contiguous(x: World) {
    && x.pos <= x.now && x.hi <= x.now
    && (x.w.cursor.Some? ==> x.w.cursor.value == x.pos)
    && (x.w.token.Some? <==> x.applied != [])
    && (x.w.token.Some? ==> x.w.token.value + 1 == x.pos && x.w.token.value == x.applied[|x.applied| - 1])
    && forall i :: 0 <= i < |x.applied| ==> x.applied[i] == x.applied[0] + i
  }

  lemma AfterChangeFrame(w: Watcher, society: string, c: Change)
    ensures AfterChange(w, society, c).cursor == w.cursor && AfterChange(w, society, c).token == w.token
  {
  }

  lemma {:induction false} AfterScanFrame(w: Watcher, rows: Rows)
    ensures AfterScan(w, rows).cursor == w.cursor && AfterScan(w, rows).token == w.token && AfterScan(w, rows).skip == w.skip
  {
    if rows != [] {
      AfterScanFrame(w, rows[..|rows| - 1]);
    }
  }

  lemma ContiguousStep(log: Log, society: string, x: World, e: Event)
    requires Contiguous(x) && Possible(log, society, x, e)
    ensures Contiguous(Step(log, society, x, e))
  {
    hide AfterScan, AfterChange, RowsOf, GoodScan, SeenAfter;
    if e.Resync? {
      AfterScanFrame(x.w, e.rows);
    }
    if Handed(x, e) {
      var at := x.w.cursor.value;
      AfterChangeFrame(x.w.(cursor := Some(at + 1), token := Some(at)), society, e.poll.change);
    }
  }

  /** Gap-free and duplicate-free delivery, whatever fails and wherever cursors open. */
  lemma {:induction false} HandedOverInOrder(log: Log, society: string, boot: nat, endpoints: set<User>, run: Run)
    requires Legal(log, society, Fresh(boot, endpoints), run)
    ensures Contiguous(Exec(log, society, Fresh(boot, endpoints), run))
  {
    if run != [] {
      hide Contiguous, Step, Possible;
      var before := run[..|run| - 1];
      HandedOverInOrder(log, society, boot, endpoints, before);
      ContiguousStep(log, society, Exec(log, society, Fresh(boot, endpoints), before), run[|run| - 1]);
    }
  }

  // ---- what the endpoints reflect -----------------------------------------

  /** What the last action on `u` was told: whether `u` was active then. Before any
      action, Asterisk has what it had. */
  ghost predicate LastTold(log: Log, society: string, seen: map<User, nat>, endpoints: set<User>, u: User) {
    if u in seen then seen[u] <= |log| && Active(Db(log, seen[u]), society, u) else u in endpoints
  }

  ghost predicate Reflects(log: Log, names: Names, society: string, x: World, endpoints: set<User>) {
    && x.now <= |log| && CacheNames(names, society, x.w.cache)
    && (forall u :: u in x.seen ==> x.seen[u] <= |log|)
    && forall u :: u != "" ==> (u in x.w.endpoints <==> LastTold(log, society, x.seen, endpoints, u))
  }

  /** Acting on a change leaves the user as the log has it right after that change. */
  lemma ActedUser(log: Log, names: Names, society: string, w: Watcher, k: nat)
    requires Disciplined(log, names, society) && k < |log| && CacheNames(names, society, w.cache)
    ensures var u := ActsOn(society, w.cache, log[k]);
      u != "" ==> (u in AfterChange(w, society, log[k]).endpoints <==> Active(Db(log, k + 1), society, u))
  {
    var u := ActsOn(society, w.cache, log[k]);
    if u != "" {
      match log[k]
      case Upsert(id, doc, _) =>
        assert Agrees(names, id, doc);
        ShownUser(log, names, society, w, k, u);
      case Delete(id) =>
        forall other | OfUser(names, society, other, u)
          ensures other !in Db(log, k + 1)
        {
          NoneAfterDelete(log, names, society, u, k, other);
        }
        NotActive(log, names, society, u, k + 1);
    }
  }

  lemma UnactedUser(society: string, w: Watcher, c: Change, u: User)
    requires u != "" && u != ActsOn(society, w.cache, c)
    ensures u in AfterChange(w, society, c).endpoints <==> u in w.endpoints
  {
  }

  lemma ToldHanded(log: Log, names: Names, society: string, w: Watcher, seen: map<User, nat>, k: nat, endpoints: set<User>, u: User)
    requires Disciplined(log, names, society) && k < |log| && CacheNames(names, society, w.cache) && u != ""
    requires u in w.endpoints <==> LastTold(log, society, seen, endpoints, u)
    ensures u in AfterChange(w, society, log[k]).endpoints <==>
      LastTold(log, society, Marked(seen, ActsOn(society, w.cache, log[k]), k + 1), endpoints, u)
  {
    hide Disciplined, Db, Active, AfterChange, CacheNames, ActsOn;
    if u == ActsOn(society, w.cache, log[k]) {
      ActedUser(log, names, society, w, k);
    } else {
      UnactedUser(society, w, log[k], u);
    }
  }

  lemma ReflectsHanded(log: Log, names: Names, society: string, x: World, e: Event, endpoints: set<User>)
    requires Disciplined(log, names, society) && Reflects(log, names, society, x, endpoints)
    requires Possible(log, society, x, e) && Handed(x, e)
    ensures Reflects(log, names, society, Step(log, society, x, e), endpoints)
  {
    hide Disciplined, Db, Active, AfterChange, CacheNames, ActsOn, LastTold, RowsOf;
    var k, y := x.w.cursor.value, Step(log, society, x, e);
    NamesHanded(log, names, society, x.w, k);
    ChangeIgnoresCursor(x.w, society, e.poll.change, k);
    assert y.seen == Marked(x.seen, ActsOn(society, x.w.cache, log[k]), k + 1);
    forall u | u != ""
      ensures u in y.w.endpoints <==> LastTold(log, society, y.seen, endpoints, u)
    {
      ToldHanded(log, names, society, x.w, x.seen, k, endpoints, u);
    }
  }

  lemma NamesHanded(log: Log, names: Names, society: string, w: Watcher, k: nat)
    requires Disciplined(log, names, society) && k < |log| && CacheNames(names, society, w.cache)
    ensures CacheNames(names, society, AfterChange(w, society, log[k]).cache)
  {
    hide Db, Unique, CacheNames, AfterChange;
    NamesStep(log, names, society, w, k);
  }

  lemma ReflectsScan(log: Log, names: Names, society: string, x: World, e: Event, endpoints: set<User>)
    requires Disciplined(log, names, society) && Reflects(log, names, society, x, endpoints)
    requires Possible(log, society, x, e) && e.Resync? && RowsOf(e.rows, Db(log, x.now), society)
    ensures Reflects(log, names, society, Step(log, society, x, e), endpoints)
  {
    var y := Step(log, society, x, e);
    assert Unique(Db(log, x.now), society);
    NamesNow(log, names, society, x.now);
    SnapshotCache(names, society, x.w, e.rows, Db(log, x.now));
    hide Disciplined, Db, Active, AfterScan, CacheNames, Unique, RowsOf, Rebases;
    forall u | u != ""
      ensures u in y.w.endpoints <==> LastTold(log, society, y.seen, endpoints, u)
    {
      ScannedUser(society, x.w, e.rows, Db(log, x.now), u);
      assert u in RowUsers(e.rows) <==> HasRow(e.rows, u);
      assert u in x.w.endpoints <==> LastTold(log, society, x.seen, endpoints, u);
    }
  }

  lemma ReflectsStep(log: Log, names: Names, society: string, x: World, e: Event, endpoints: set<User>)
    requires Disciplined(log, names, society) && Reflects(log, names, society, x, endpoints)
    requires Possible(log, society, x, e)
    ensures Reflects(log, names, society, Step(log, society, x, e), endpoints)
  {
    if Handed(x, e) {
      ReflectsHanded(log, names, society, x, e, endpoints);
    } else if e.Resync? && RowsOf(e.rows, Db(log, x.now), society) {
      ReflectsScan(log, names, society, x, e, endpoints);
    } else {
      hide Disciplined, Db, Active, CacheNames, RowsOf, Rebases;
      var y := Step(log, society, x, e);
      assert y.w.cache == x.w.cache && y.w.endpoints == x.w.endpoints && y.seen == x.seen;
      assert forall u :: LastTold(log, society, y.seen, endpoints, u) <==> LastTold(log, society, x.seen, endpoints, u);
    }
  }

  /** In every reachable state, with failing scans, changes that come without documents
      and cursors that skip part of the log, Asterisk has a user exactly when the last
      thing the watcher acted on said so. */
  lemma {:induction false} EndpointsReflect(log: Log, names: Names, society: string, boot: nat, endpoints: set<User>, run: Run)
    requires Disciplined(log, names, society) && boot <= |log| && Legal(log, society, Fresh(boot, endpoints), run)
    ensures Reflects(log, names, society, Exec(log, society, Fresh(boot, endpoints), run), endpoints)
  {
    hide Disciplined, Step, Possible, Reflects;
    var start := Fresh(boot, endpoints);
    if run == [] {
      ReflectsFresh(log, names, society, boot, endpoints);
    } else {
      var before := run[..|run| - 1];
      EndpointsReflect(log, names, society, boot, endpoints, before);
      ReflectsStep(log, names, society, Exec(log, society, start, before), run[|run| - 1], endpoints);
    }
  }

  lemma ReflectsFresh(log: Log, names: Names, society: string, boot: nat, endpoints: set<User>)
    requires boot <= |log|
    ensures Reflects(log, names, society, Fresh(boot, endpoints), endpoints)
  {
  }

  /** The watcher is in sync if and only if, for every user, the last change it acted on
      left the user as active as the whole log does. */
  lemma InSyncIff(log: Log, names: Names, society: string, boot: nat, endpoints: set<User>, run: Run)
    requires Disciplined(log, names, society) && boot <= |log| && Legal(log, society, Fresh(boot, endpoints), run)
    ensures var x := Exec(log, society, Fresh(boot, endpoints), run);
      && x.now <= |log|
      && (InSync(log, society, x.w, x.now) <==>
          forall u :: u != "" ==> (LastTold(log, society, x.seen, endpoints, u) <==> Active(Db(log, x.now), society, u)))
  {
    hide Disciplined, Exec, Legal, Db, Active, LastTold, CacheNames;
    EndpointsReflect(log, names, society, boot, endpoints, run);
    var x := Exec(log, society, Fresh(boot, endpoints), run);
    forall u | u != ""
      ensures u in x.w.endpoints <==> LastTold(log, society, x.seen, endpoints, u)
    {
    }
  }

  // ---- in sync again ------------------------------------------------------

  /** From the `first` event on, a cursor is opened without a token only when nothing of
      interest happened since the position accounted for. */
  ghost predicate QuietOpens(log: Log, names: Names, society: string, start: World, run: Run, first: nat) {
    forall i :: first <= i < |run| ==> QuietOpen(log, names, society, Exec(log, society, start, run[..i]), run[i])
  }

  ghost predicate QuietOpen(log: Log, names: Names, society: string, x: World, e: Event) {
    OpensBlind(x, e) ==> QuietGap(log, names, society, x.pos, x.now)
  }

  lemma TracksStep(log: Log, names: Names, society: string, x: World, e: Event)
    requires Disciplined(log, names, society) && Documented(log) && Contiguous(x)
    requires Possible(log, society, x, e) && QuietOpen(log, names, society, x, e)
    requires Tracks(log, names, society, x.w, x.pos, x.hi)
    ensures var y := Step(log, society, x, e); y.pos <= |log| && Tracks(log, names, society, y.w, y.pos, y.hi)
  {
    hide Disciplined, Documented, Tracks, AfterChange, AfterScan, QuietGap, RowsOf, SeenAfter, NoLeftovers;
    var y := Step(log, society, x, e);
    if Handed(x, e) {
      ReplayKeepsTracking(log, names, society, x.w, x.pos, x.hi);
      ChangeIgnoresCursor(x.w, society, e.poll.change, x.pos);
      TracksSame(log, names, society, AfterChange(x.w, society, log[x.pos]), y.w, y.pos, x.hi);
    } else if Rebases(log, society, x, e) {
      TracksNames(log, names, society, x.w, x.pos, x.hi);
      ScanEstablishes(log, names, society, x.w, x.now, x.now, e.rows);
    } else if e.Resync? && RowsOf(e.rows, Db(log, x.now), society) {
      SnapshotKeepsTracking(log, names, society, x.w, x.pos, x.hi, x.now, e.rows);
    } else if e.Resync? {
      AfterScanNothing(x.w);
      TracksWiden(log, names, society, x.w, x.pos, x.hi, x.now);
    } else if OpensBlind(x, e) {
      GapKeepsTracking(log, names, society, x.w, x.pos, x.hi, x.now);
      TracksSame(log, names, society, x.w, y.w, x.now, x.hi);
    } else {
      TracksSame(log, names, society, x.w, y.w, x.pos, x.hi);
    }
  }

  lemma TracksNames(log: Log, names: Names, society: string, w: Watcher, pos: nat, hi: nat)
    requires pos <= |log| && Tracks(log, names, society, w, pos, hi)
    ensures CacheNames(names, society, w.cache)
  {
  }

  lemma AfterScanNothing(w: Watcher)
    ensures AfterScan(w, []) == w
  {
  }

  lemma TracksSame(log: Log, names: Names, society: string, w: Watcher, v: Watcher, pos: nat, hi: nat)
    requires pos <= |log| && Tracks(log, names, society, w, pos, hi)
    requires v.cache == w.cache && v.endpoints == w.endpoints
    ensures Tracks(log, names, society, v, pos, hi)
  {
  }

  lemma ChangeIgnoresCursor(w: Watcher, society: string, c: Change, at: nat)
    ensures var v := AfterChange(w.(cursor := Some(at + 1), token := Some(at)), society, c);
      v.cache == AfterChange(w, society, c).cache && v.endpoints == AfterChange(w, society, c).endpoints
  {
  }

  lemma TracksScanned(log: Log, names: Names, society: string, x: World, e: Event)
    requires Disciplined(log, names, society) && Contiguous(x) && x.now <= |log|
    requires CacheNames(names, society, x.w.cache) && GoodScan(log, society, x, e)
    ensures var y := Step(log, society, x, e); y.pos <= |log| && Tracks(log, names, society, y.w, y.pos, y.hi)
  {
    hide Disciplined, Tracks, AfterScan, RowsOf, SeenAfter, NoLeftovers, CacheNames;
    ScanEstablishes(log, names, society, x.w, Step(log, society, x, e).pos, x.now, e.rows);
  }

  /** After a good scan the watcher is on track and stays so. */
  lemma {:induction false} TracksEverywhere(log: Log, names: Names, society: string, boot: nat, endpoints: set<User>, run: Run, scan: nat)
    requires Disciplined(log, names, society) && Documented(log) && boot <= |log|
    requires Legal(log, society, Fresh(boot, endpoints), run) && scan < |run|
    requires GoodScan(log, society, Exec(log, society, Fresh(boot, endpoints), run[..scan]), run[scan])
    requires QuietOpens(log, names, society, Fresh(boot, endpoints), run, scan + 1)
    ensures var x := Exec(log, society, Fresh(boot, endpoints), run);
      x.pos <= x.now <= |log| && x.hi <= x.now && Tracks(log, names, society, x.w, x.pos, x.hi)
    decreases |run|
  {
    hide Disciplined, Documented, Tracks, GoodScan, QuietOpen, Step, Possible, Contiguous;
    var start, before, e := Fresh(boot, endpoints), run[..|run| - 1], run[|run| - 1];
    var x := Exec(log, society, start, before);
    HandedOverInOrder(log, society, boot, endpoints, before);
    HandedOverInOrder(log, society, boot, endpoints, run);
    Bounded(log, names, society, boot, endpoints, run);
    if scan == |run| - 1 {
      Bounded(log, names, society, boot, endpoints, before);
      TracksScanned(log, names, society, x, e);
    } else {
      assert before[..scan] == run[..scan];
      assert forall i :: 0 <= i < |before| ==> before[..i] == run[..i];
      TracksEverywhere(log, names, society, boot, endpoints, before, scan);
      assert QuietOpen(log, names, society, x, e);
      TracksStep(log, names, society, x, e);
    }
  }

  lemma Bounded(log: Log, names: Names, society: string, boot: nat, endpoints: set<User>, run: Run)
    requires Disciplined(log, names, society) && boot <= |log| && Legal(log, society, Fresh(boot, endpoints), run)
    ensures var x := Exec(log, society, Fresh(boot, endpoints), run);
      x.pos <= x.now <= |log| && x.hi <= x.now && CacheNames(names, society, x.w.cache)
  {
    hide Disciplined, Exec, Legal, LastTold, CacheNames;
    EndpointsReflect(log, names, society, boot, endpoints, run);
    HandedOverInOrder(log, society, boot, endpoints, run);
  }

  /** Once any scan has worked with nothing left over, be it the first one or a later one,
      a watcher that has caught up with the log has provisioned exactly the active users,
      whatever cursor failures, failed reopens, failed scans and snapshots ahead of the
      log came before or after. */
  lemma CaughtUpMeansInSync(log: Log, names: Names, society: string, boot: nat, endpoints: set<User>, run: Run, scan: nat)
    requires Disciplined(log, names, society) && Documented(log) && boot <= |log|
    requires Legal(log, society, Fresh(boot, endpoints), run) && scan < |run|
    requires GoodScan(log, society, Exec(log, society, Fresh(boot, endpoints), run[..scan]), run[scan])
    requires QuietOpens(log, names, society, Fresh(boot, endpoints), run, scan + 1)
    requires var x := Exec(log, society, Fresh(boot, endpoints), run); x.pos == x.now
    ensures var x := Exec(log, society, Fresh(boot, endpoints), run); x.now <= |log| && InSync(log, society, x.w, x.now)
  {
    hide Exec, Legal, Disciplined, Documented, Db, Active, GoodScan, QuietOpens;
    TracksEverywhere(log, names, society, boot, endpoints, run, scan);
    var x := Exec(log, society, Fresh(boot, endpoints), run);
    forall u | u != ""
      ensures u in x.w.endpoints <==> Active(Db(log, x.now), society, u)
    {
      assert Quiet(log, names, society, u, x.pos, x.hi);
    }
  }

  // ---- reading it off the log ---------------------------------------------

  /** What a watcher knows: the ids it can delete and what it acted on last. */
  datatype Known = Known(cache: map<Id, User>, seen: map<User, nat>)

  function KnownOf(x: World): Known {
    Known(x.w.cache, x.seen)
  }

  function CacheAfter(society: string, cache: map<Id, User>, c: Change): map<Id, User> {
    AfterChange(Watcher(None, None, cache, 0, {}), society, c).cache
  }

  function AfterHanded(society: string, k: Known, at: nat, c: Change): Known {
    Known(CacheAfter(society, k.cache, c), Marked(k.seen, ActsOn(society, k.cache, c), at + 1))
  }

  /** The changes `lo..up` of the log, taken one after the other. */
  function Replayed(log: Log, society: string, k: Known, lo: nat, up: nat): Known
    requires lo <= up <= |log|
    decreases up
  {
    if up == lo then k else AfterHanded(society, Replayed(log, society, k, lo, up - 1), up - 1, log[up - 1])
  }

  lemma {:induction false} ReplayedNames(log: Log, names: Names, society: string, k: Known, lo: nat, up: nat)
    requires Carried(log, names) && CacheNames(names, society, k.cache) && lo <= up <= |log|
    ensures CacheNames(names, society, Replayed(log, society, k, lo, up).cache)
    decreases up
  {
    if lo < up {
      ReplayedNames(log, names, society, k, lo, up - 1);
      hide CacheNames, AfterChange, Carried;
      var cache := Replayed(log, society, k, lo, up - 1).cache;
      NamesStep(log, names, society, Watcher(None, None, cache, 0, {}), up - 1);
    }
  }

  /** A change that is about nobody of the society teaches nothing. */
  lemma QuietHanded(log: Log, names: Names, society: string, k: Known, at: nat)
    requires Carried(log, names) && CacheNames(names, society, k.cache) && at < |log|
    requires QuietGap(log, names, society, at, at + 1)
    ensures AfterHanded(society, k, at, log[at]) == k
  {
    match log[at]
    case Upsert(id, doc, _) =>
      assert Agrees(names, id, doc);
      assert doc.user != "" ==> Quiet(log, names, society, doc.user, at, at + 1);
    case Delete(id) =>
      forall u | u != ""
        ensures !OfUser(names, society, id, u)
      {
        assert Quiet(log, names, society, u, at, at + 1);
      }
  }

  lemma PartOfGap(log: Log, names: Names, society: string, lo: nat, up: nat, a: nat, b: nat)
    requires QuietGap(log, names, society, lo, up) && lo <= a <= b <= up
    ensures QuietGap(log, names, society, a, b)
  {
    hide OfUser;
    forall u | u != ""
      ensures Quiet(log, names, society, u, a, b)
    {
      assert Quiet(log, names, society, u, lo, up);
    }
  }

  lemma {:induction false} QuietReplayed(log: Log, names: Names, society: string, k: Known, lo: nat, mid: nat, up: nat)
    requires Carried(log, names) && CacheNames(names, society, k.cache) && lo <= mid <= up <= |log|
    requires QuietGap(log, names, society, mid, up)
    ensures Replayed(log, society, k, lo, up) == Replayed(log, society, k, lo, mid)
    decreases up
  {
    if mid < up {
      hide Carried, CacheNames, AfterHanded, QuietGap;
      PartOfGap(log, names, society, mid, up, mid, up - 1);
      PartOfGap(log, names, society, mid, up, up - 1, up);
      QuietReplayed(log, names, society, k, lo, mid, up - 1);
      ReplayedNames(log, names, society, k, lo, up - 1);
      QuietHanded(log, names, society, Replayed(log, society, k, lo, up - 1), up - 1);
    }
  }

  /** Without a scan, what is known follows the log. */
  lemma KnownStep(log: Log, names: Names, society: string, x: World, e: Event, k: Known, lo: nat)
    requires Carried(log, names) && CacheNames(names, society, k.cache) && Contiguous(x)
    requires Possible(log, society, x, e) && QuietOpen(log, names, society, x, e) && !e.Resync?
    requires lo <= x.pos && KnownOf(x) == Replayed(log, society, k, lo, x.pos)
    ensures var y := Step(log, society, x, e);
      x.pos <= y.pos <= |log| && KnownOf(y) == Replayed(log, society, k, lo, y.pos)
  {
    hide Carried, CacheNames, QuietGap, AfterChange, ActsOn, RowsOf, Db;
    if Handed(x, e) {
      var at := x.w.cursor.value;
      ChangeIgnoresCursor(x.w, society, e.poll.change, at);
      ChangeIgnoresRest(x.w, society, e.poll.change);
    } else if OpensBlind(x, e) {
      QuietReplayed(log, names, society, k, lo, x.pos, x.now);
    }
  }

  lemma ChangeIgnoresRest(w: Watcher, society: string, c: Change)
    ensures AfterChange(w, society, c).cache == CacheAfter(society, w.cache, c)
  {
  }

  ghost predicate NoScanAfter(run: Run, i: nat) {
    forall j :: i < j < |run| ==> !run[j].Resync?
  }

  /** From the last scan on, what the watcher acted on last is a function of the log alone,
      whatever cursors failed meanwhile. */
  lemma {:induction false} KnownFromLog(log: Log, names: Names, society: string, boot: nat, endpoints: set<User>, run: Run, scan: nat)
    requires Disciplined(log, names, society) && boot <= |log|
    requires Legal(log, society, Fresh(boot, endpoints), run) && scan < |run| && NoScanAfter(run, scan)
    requires QuietOpens(log, names, society, Fresh(boot, endpoints), run, scan + 1)
    ensures var x, s := Exec(log, society, Fresh(boot, endpoints), run), Exec(log, society, Fresh(boot, endpoints), run[..scan + 1]);
      s.pos <= x.pos <= |log| && KnownOf(x) == Replayed(log, society, KnownOf(s), s.pos, x.pos)
    decreases |run|
  {
    hide Disciplined, QuietOpen, Step, Possible, Contiguous, CacheNames, Replayed;
    var start := Fresh(boot, endpoints);
    Bounded(log, names, society, boot, endpoints, run);
    if scan == |run| - 1 {
      assert run[..scan + 1] == run;
      ReplayedNothing(log, society, KnownOf(Exec(log, society, start, run)), Exec(log, society, start, run).pos);
    } else {
      var before, e := run[..|run| - 1], run[|run| - 1];
      assert before[..scan + 1] == run[..scan + 1];
      assert forall i :: 0 <= i < |before| ==> before[..i] == run[..i];
      KnownFromLog(log, names, society, boot, endpoints, before, scan);
      LegalPrefix(log, society, start, run, scan + 1);
      Bounded(log, names, society, boot, endpoints, run[..scan + 1]);
      HandedOverInOrder(log, society, boot, endpoints, before);
      DisciplinedCarried(log, names, society);
      assert QuietOpen(log, names, society, Exec(log, society, start, before), e);
      var s := Exec(log, society, start, run[..scan + 1]);
      KnownStep(log, names, society, Exec(log, society, start, before), e, KnownOf(s), s.pos);
    }
  }

  lemma DisciplinedCarried(log: Log, names: Names, society: string)
    requires Disciplined(log, names, society)
    ensures Carried(log, names)
  {
  }

  lemma ReplayedNothing(log: Log, society: string, k: Known, lo: nat)
    requires lo <= |log|
    ensures Replayed(log, society, k, lo, lo) == k
  {
  }

  lemma {:induction false} LegalPrefix(log: Log, society: string, start: World, run: Run, n: nat)
    requires Legal(log, society, start, run) && n <= |run|
    ensures Legal(log, society, start, run[..n])
    decreases |run|
  {
    hide Possible, Exec;
    if n == |run| {
      assert run[..n] == run;
    } else {
      LegalPrefix(log, society, start, run[..|run| - 1], n);
      assert run[..|run| - 1][..n] == run[..n];
    }
  }

  /** In sync, read off the log: replay the changes since the last scan over what that scan
      showed, and see whether each user's last acted-on state is its present one. */
  lemma InSyncFromLog(log: Log, names: Names, society: string, boot: nat, endpoints: set<User>, run: Run, scan: nat)
    requires Disciplined(log, names, society) && boot <= |log|
    requires Legal(log, society, Fresh(boot, endpoints), run) && scan < |run| && NoScanAfter(run, scan)
    requires QuietOpens(log, names, society, Fresh(boot, endpoints), run, scan + 1)
    requires var x := Exec(log, society, Fresh(boot, endpoints), run); x.pos == x.now
    ensures var x, s := Exec(log, society, Fresh(boot, endpoints), run), Exec(log, society, Fresh(boot, endpoints), run[..scan + 1]);
      && s.pos <= x.now <= |log|
      && (InSync(log, society, x.w, x.now) <==>
          var seen := Replayed(log, society, KnownOf(s), s.pos, x.now).seen;
          forall u :: u != "" ==> (LastTold(log, society, seen, endpoints, u) <==> Active(Db(log, x.now), society, u)))
  {
    hide Disciplined, Exec, Legal, QuietOpens, Replayed, InSync, LastTold, Active, Db, NoScanAfter;
    KnownFromLog(log, names, society, boot, endpoints, run, scan);
    InSyncIff(log, names, society, boot, endpoints, run);
  }

  /** Unless something about the user came later, a change with its document is the last
      that counts; and if nothing about the user came, what the scan showed is. */
  lemma {:induction false} LastThatCounts(log: Log, names: Names, society: string, k: Known, lo: nat, up: nat, u: User, at: nat)
    requires Carried(log, names) && CacheNames(names, society, k.cache) && lo <= at <= up <= |log| && u != ""
    requires Quiet(log, names, society, u, at, up)
    ensures var seen := Replayed(log, society, k, lo, up).seen;
      && (at == lo ==> (u in seen <==> u in k.seen) && (u in seen ==> seen[u] == k.seen[u]))
      && (lo < at && log[at - 1].Upsert? && log[at - 1].full && OfUser(names, society, log[at - 1].id, u) ==>
            u in seen && seen[u] == at)
    decreases up
  {
    hide CacheNames, Carried, ActsOn, CacheAfter;
    if at < up {
      LastThatCounts(log, names, society, k, lo, up - 1, u, at);
      ReplayedNames(log, names, society, k, lo, up - 1);
      NotActedOn(log, names, society, Replayed(log, society, k, lo, up - 1).cache, up - 1, u);
    } else if lo < at && log[at - 1].Upsert? && log[at - 1].full && OfUser(names, society, log[at - 1].id, u) {
      ActedOn(log, names, society, Replayed(log, society, k, lo, at - 1).cache, at - 1, u);
    }
  }

  lemma ActedOn(log: Log, names: Names, society: string, cache: map<Id, User>, at: nat, u: User)
    requires Carried(log, names) && at < |log| && log[at].Upsert? && log[at].full && OfUser(names, society, log[at].id, u)
    ensures ActsOn(society, cache, log[at]) == u
  {
    assert Agrees(names, log[at].id, log[at].doc);
  }

  lemma NotActedOn(log: Log, names: Names, society: string, cache: map<Id, User>, at: nat, u: User)
    requires Carried(log, names) && CacheNames(names, society, cache) && at < |log| && u != ""
    requires !OfUser(names, society, log[at].id, u)
    ensures ActsOn(society, cache, log[at]) != u
  {
    if log[at].Upsert? {
      assert Agrees(names, log[at].id, log[at].doc);
    }
  }

  // ---- the token ----------------------------------------------------------

  /** Once a token is stored it is never given up: every cursor opened resumes behind it,
      and the position stays put however often opening fails. */
  lemma TokenIsKept(log: Log, society: string, x: World, e: Event)
    requires Contiguous(x) && Possible(log, society, x, e) && x.w.token.Some?
    ensures var y := Step(log, society, x, e);
      && y.w.token.Some? && y.pos == y.w.token.value + 1
      && (y.w.cursor.Some? ==> y.w.cursor.value == y.pos)
      && (y.pos == x.pos + 1 <==> Handed(x, e)) && (y.pos == x.pos <==> !Handed(x, e))
  {
    ContiguousStep(log, society, x, e);
    hide AfterScan, AfterChange, RowsOf, GoodScan, SeenAfter;
    if e.Resync? {
      AfterScanFrame(x.w, e.rows);
    }
    if Handed(x, e) {
      var at := x.w.cursor.value;
      AfterChangeFrame(x.w.(cursor := Some(at + 1), token := Some(at)), society, e.poll.change);
    }
  }

  // ---- endpoints that resolve ---------------------------------------------

  function CallFor(doc: Doc): Call {
    if doc.active then Make(doc.user) else Remove(doc.user)
  }

  /** What an event makes the watcher ask of the provisioner. */
  function CallsOf(society: string, x: World, e: Event): seq<Call> {
    if e.Resync? then seq(|e.rows|, i requires 0 <= i < |e.rows| => CallFor(e.rows[i].1))
    else if !Handed(x, e) then []
    else
      match e.poll.change
      case Upsert(_, doc, full) => if full && doc.society == society then [CallFor(doc)] else []
      case Delete(id) => if id in x.w.cache then [Remove(x.w.cache[id])] else []
  }

  ghost function AllCalls(log: Log, society: string, start: World, run: Run): seq<Call> {
    if run == [] then []
    else
      var before := run[..|run| - 1];
      AllCalls(log, society, start, before) + CallsOf(society, Exec(log, society, start, before), run[|run| - 1])
  }

  function UsersOf(names: Names, society: string): set<User> {
    set id | id in names && names[id].society == society :: names[id].user
  }

  lemma CallsAmong(log: Log, names: Names, society: string, x: World, e: Event)
    requires Carried(log, names) && Possible(log, society, x, e) && CacheNames(names, society, x.w.cache)
    ensures Among(CallsOf(society, x, e), UsersOf(names, society))
  {
    DbNames(log, names, x.now);
    hide Db;
    if e.Resync? && e.rows != [] {
      forall i | 0 <= i < |e.rows|
        ensures CallFor(e.rows[i].1).user in UsersOf(names, society)
      {
        assert Agrees(names, e.rows[i].0, Db(log, x.now)[e.rows[i].0]);
      }
    } else if Handed(x, e) && e.poll.change.Upsert? {
      assert Agrees(names, e.poll.change.id, e.poll.change.doc);
    }
  }

  lemma {:induction false} AllCallsAmong(log: Log, names: Names, society: string, boot: nat, endpoints: set<User>, run: Run)
    requires Disciplined(log, names, society) && boot <= |log| && Legal(log, society, Fresh(boot, endpoints), run)
    ensures Among(AllCalls(log, society, Fresh(boot, endpoints), run), UsersOf(names, society))
  {
    if run != [] {
      hide CallsOf, Possible, Step, CacheNames, UsersOf, Db, Unique;
      var before := run[..|run| - 1];
      AllCallsAmong(log, names, society, boot, endpoints, before);
      Bounded(log, names, society, boot, endpoints, before);
      CallsAmong(log, names, society, Exec(log, society, Fresh(boot, endpoints), before), run[|run| - 1]);
    }
  }

  /** At every moment of the run on a fresh Asterisk, between any two requests, every
      endpoint has its address of record. */
  ghost predicate Resolves(log: Log, names: Names, society: string, boot: nat, run: Run) {
    Disciplined(log, names, society) && boot <= |log| && Legal(log, society, Fresh(boot, {}), run) ==>
      SafeThroughout(EMPTY, AllCalls(log, society, Fresh(boot, {}), run))
  }

  lemma EndpointsResolve(log: Log, names: Names, society: string, boot: nat, run: Run)
    requires NoLegacyNames(UsersOf(names, society))
    ensures Resolves(log, names, society, boot, run)
  {
    hide AllCalls, Legal, Disciplined, UsersOf, SafeThroughout, Among, NoLegacyNames;
    if Disciplined(log, names, society) && boot <= |log| && Legal(log, society, Fresh(boot, {}), run) {
      AllCallsAmong(log, names, society, boot, {}, run);
      SafeWithoutLegacyNames(EMPTY, AllCalls(log, society, Fresh(boot, {}), run), UsersOf(names, society));
    }
  }

  /** One subscriber is made; another, disabled one turns up. */
  function TwoUsers(society: string, a: Id, v: User, b: Id, u: User): Log {
    [Upsert(a, Doc(society, v, true), true), Upsert(b, Doc(society, u, false), true)]
  }

  function TwoUsersRun(log: Log): Run
    requires |log| == 2
  {
    [Reopen(true)] + [Happens] + [Happens] + [Tick(true, Delivers(log[0]))] + [Tick(true, Delivers(log[1]))]
  }

  lemma TwoUsersDisciplined(names: Names, society: string, a: Id, v: User, b: Id, u: User)
    requires OfUser(names, society, a, v) && OfUser(names, society, b, u) && u != v
    ensures Disciplined(TwoUsers(society, a, v, b, u), names, society)
  {
    var log := TwoUsers(society, a, v, b, u);
    assert Db(log, 0) == map[];
    assert Db(log, 1) == map[a := log[0].doc];
    assert Db(log, 2) == map[a := log[0].doc, b := log[1].doc];
    hide Db;
    forall k | 0 <= k <= |log|
      ensures Unique(Db(log, k), society)
    {
      assert k == 0 || k == 1 || k == 2;
    }
  }

  ghost predicate Leads(log: Log, society: string, run: Run, x: World, calls: seq<Call>) {
    var start := Fresh(0, {});
    Legal(log, society, start, run) && Exec(log, society, start, run) == x && AllCalls(log, society, start, run) == calls
  }

  lemma LeadsOn(log: Log, society: string, run: Run, x: World, calls: seq<Call>, e: Event)
    requires Leads(log, society, run, x, calls) && Possible(log, society, x, e)
    ensures Leads(log, society, run + [e], Step(log, society, x, e), calls + CallsOf(society, x, e))
  {
    hide Step, Possible, CallsOf;
    ExecSnoc(log, society, Fresh(0, {}), run, e);
    assert (run + [e])[..|run|] == run;
  }

  lemma TwoUsersCalls(society: string, a: Id, v: User, b: Id, u: User)
    requires u != "" && v != ""
    ensures var log := TwoUsers(society, a, v, b, u); var run := TwoUsersRun(log);
      && Legal(log, society, Fresh(0, {}), run)
      && AllCalls(log, society, Fresh(0, {}), run) == [Make(v), Remove(u)]
  {
    var log := TwoUsers(society, a, v, b, u);
    var t0, t1 := Tick(true, Delivers(log[0])), Tick(true, Delivers(log[1]));
    var r3 := [Reopen(true)] + [Happens] + [Happens];
    var x3 := World(2, Watcher(Some(0), None, map[], 0, {}), 0, 0, [], map[]);
    var x4 := World(2, Watcher(Some(1), Some(0), map[a := v], 0, {v}), 1, 0, [0], map[v := 1]);
    assert Leads(log, society, r3 + [t0] + [t1], Step(log, society, x4, t1), [Make(v), Remove(u)]) by {
      hide Leads, Step, CallsOf, Possible;
      OpenAndWait(log, society);
      FirstDelivered(society, a, v, b, u, x3, x4);
      SecondDelivered(society, a, v, b, u, x4);
      LeadsOn(log, society, r3, x3, [], t0);
      LeadsOn(log, society, r3 + [t0], x4, [Make(v)], t1);
    }
  }

  lemma FirstDelivered(society: string, a: Id, v: User, b: Id, u: User, x3: World, x4: World)
    requires v != "" && x3 == World(2, Watcher(Some(0), None, map[], 0, {}), 0, 0, [], map[])
    requires x4 == World(2, Watcher(Some(1), Some(0), map[a := v], 0, {v}), 1, 0, [0], map[v := 1])
    ensures var log := TwoUsers(society, a, v, b, u); var t := Tick(true, Delivers(log[0]));
      && Possible(log, society, x3, t) && Step(log, society, x3, t) == x4 && [] + CallsOf(society, x3, t) == [Make(v)]
  {
    hide Db, RowsOf;
  }

  lemma SecondDelivered(society: string, a: Id, v: User, b: Id, u: User, x4: World)
    requires u != "" && x4 == World(2, Watcher(Some(1), Some(0), map[a := v], 0, {v}), 1, 0, [0], map[v := 1])
    ensures var log := TwoUsers(society, a, v, b, u); var t := Tick(true, Delivers(log[1]));
      Possible(log, society, x4, t) && [Make(v)] + CallsOf(society, x4, t) == [Make(v), Remove(u)]
  {
    hide Db, RowsOf;
  }

  lemma OpenAndWait(log: Log, society: string)
    requires |log| == 2
    ensures Leads(log, society, [Reopen(true)] + [Happens] + [Happens],
                  World(2, Watcher(Some(0), None, map[], 0, {}), 0, 0, [], map[]), [])
  {
    var w := Watcher(Some(0), None, map[], 0, {});
    assert Leads(log, society, [], Fresh(0, {}), []);
    hide Leads, Db, RowsOf;
    LeadsOn(log, society, [], Fresh(0, {}), [], Reopen(true));
    assert [] + [Reopen(true)] == [Reopen(true)] && Step(log, society, Fresh(0, {}), Reopen(true)) == World(0, w, 0, 0, [], map[]);
    LeadsOn(log, society, [Reopen(true)], World(0, w, 0, 0, [], map[]), [], Happens);
    assert [Reopen(true)] + [Happens] == [Reopen(true), Happens];
    LeadsOn(log, society, [Reopen(true)] + [Happens], World(1, w, 0, 0, [], map[]), [], Happens);
  }

  /** For the watcher of a society and the names in it: every endpoint has its address of
      record throughout every legal run on every disciplined log, if and only if no user of
      that society is called like another one plus the legacy suffix. */
  lemma EndpointsResolveIff(names: Names, society: string)
    ensures (forall log: Log, boot: nat, run: Run :: Resolves(log, names, society, boot, run)) <==>
      NoLegacyNames(UsersOf(names, society))
  {
    hide Resolves;
    if NoLegacyNames(UsersOf(names, society)) {
      forall log: Log, boot: nat, run: Run
        ensures Resolves(log, names, society, boot, run)
      {
        EndpointsResolve(log, names, society, boot, run);
      }
    } else {
      var u :| u in UsersOf(names, society) && u != "" && u + "-aor" in UsersOf(names, society);
      LegacyNameInRun(names, society, u);
    }
  }

  lemma LegacyNameInRun(names: Names, society: string, u: User)
    requires u != "" && u in UsersOf(names, society) && u + "-aor" in UsersOf(names, society)
    ensures exists log: Log, run: Run :: !Resolves(log, names, society, 0, run)
  {
    var v := u + "-aor";
    var a :| a in names && names[a].society == society && names[a].user == v;
    var b :| b in names && names[b].society == society && names[b].user == u;
    assert |v| != |u|;
    var log := TwoUsers(society, a, v, b, u);
    TwoUsersDisciplined(names, society, a, v, b, u);
    TwoUsersCalls(society, a, v, b, u);
    LegacyNameDangles(u);
    hide Disciplined, Legal, AllCalls, SafeThroughout;
    assert !Resolves(log, names, society, 0, TwoUsersRun(log));
  }

  // ---- counterexamples ----------------------------------------------------

  lemma ExecSnoc(log: Log, society: string, start: World, run: Run, e: Event)
    ensures Exec(log, society, start, run + [e]) == Step(log, society, Exec(log, society, start, run), e)
    ensures Legal(log, society, start, run + [e]) <==>
      Legal(log, society, start, run) && Possible(log, society, Exec(log, society, start, run), e)
  {
    assert (run + [e])[..|run|] == run;
    hide Step, Possible;
  }

  const ON := Doc("s", "u", true)
  const OFF := Doc("s", "u", false)
  const NAMES: Names := map["1" := ON]

  /** A subscriber is made and then disabled; the second change may lack its document. */
  function OnOff(full: bool): Log {
    [Upsert("1", ON, true), Upsert("1", OFF, full)]
  }

  lemma OnOffStates(full: bool)
    ensures var log := OnOff(full);
      Db(log, 0) == map[] && Db(log, 1) == map["1" := ON] && Db(log, 2) == map["1" := OFF]
  {
    assert Db(OnOff(full), 0) == map[];
    assert Db(OnOff(full), 1) == map["1" := ON];
  }

  lemma OnOffDisciplined(full: bool)
    ensures Disciplined(OnOff(full), NAMES, "s") && (Documented(OnOff(full)) <==> full)
    ensures RowsOf([("1", ON)], Db(OnOff(full), 1), "s")
    ensures !Active(Db(OnOff(full), 2), "s", "u")
  {
    var log := OnOff(full);
    OnOffStates(full);
    hide Db;
    forall k | 0 <= k <= |log|
      ensures Unique(Db(log, k), "s")
    {
      assert k == 0 || k == 1 || k == 2;
    }
    assert log[1].Upsert? && log[1].full == full;
    assert ("1", ON) in [("1", ON)];
    hide Unique;
  }

  /** What the scan at boot leaves behind. */
  function Scanned(): World {
    World(1, Watcher(None, None, map["1" := "u"], 0, {"u"}), 1, 1, [], map["u" := 1])
  }

  lemma FirstScan(full: bool)
    ensures var log, x, e := OnOff(full), Fresh(1, {}), Resync([("1", ON)]);
      GoodScan(log, "s", x, e) && Possible(log, "s", x, e) && Step(log, "s", x, e) == Scanned()
  {
    OnOffDisciplined(full);
    var rows: Rows := [("1", ON)];
    hide Db, RowsOf;
    assert rows[..0] == [];
    assert AfterScan(Fresh(1, {}).w, rows) == Scanned().w;
    assert rows[0].1.user == "u";
    assert RowUsers(rows) == {"u"};
  }

  /** Boot, scan, open; the subscriber is disabled; the watcher is handed the change. */
  function BareRun(): Run {
    [Resync([("1", ON)]), Reopen(true), Happens, Tick(true, Delivers(OnOff(false)[1]))]
  }

  /** The state after the first `n` events of that run, from the scan on. */
  function BareState(n: nat): World {
    var w := Scanned().w.(cursor := Some(1));
    if n <= 1 then Scanned()
    else if n == 2 then Scanned().(w := w)
    else if n == 3 then Scanned().(w := w, now := 2)
    else Scanned().(w := w.(cursor := Some(2), token := Some(1)), now := 2, pos := 2, applied := [1])
  }

  lemma BarePrefixes()
    ensures var log, run, start := OnOff(false), BareRun(), Fresh(1, {});
      && Legal(log, "s", start, run) && Exec(log, "s", start, run[..0]) == start
      && Exec(log, "s", start, run[..1]) == BareState(1) && Exec(log, "s", start, run[..2]) == BareState(2)
      && Exec(log, "s", start, run[..3]) == BareState(3) && Exec(log, "s", start, run) == BareState(4)
  {
    var log, run, start := OnOff(false), BareRun(), Fresh(1, {});
    assert Legal(log, "s", start, []) && Exec(log, "s", start, []) == start;
    hide Legal, Exec, Step, Possible, GoodScan;
    FirstScan(false);
    BareSteps(BareState(2), BareState(3), BareState(4));
    assert run[..0] == [] && run[..1] == [] + [run[0]];
    assert run[..2] == run[..1] + [run[1]] && run[..3] == run[..2] + [run[2]] && run == run[..3] + [run[3]];
    ExecSnoc(log, "s", start, [], run[0]);
    ExecSnoc(log, "s", start, run[..1], run[1]);
    ExecSnoc(log, "s", start, run[..2], run[2]);
    ExecSnoc(log, "s", start, run[..3], run[3]);
  }

  lemma BareRunIsQuiet()
    ensures QuietOpens(OnOff(false), NAMES, "s", Fresh(1, {}), BareRun(), 1)
  {
    hide Exec, Legal;
    BarePrefixes();
    var log, run, start := OnOff(false), BareRun(), Fresh(1, {});
    forall i | 1 <= i < |run|
      ensures QuietOpen(log, NAMES, "s", Exec(log, "s", start, run[..i]), run[i])
    {
      assert i == 1 || i == 2 || i == 3;
    }
  }

  /** A change that comes without its document is skipped: in this run the log is
      disciplined, the scan good, no cursor skips anything and the watcher has caught up,
      and the disabled subscriber still has its endpoint. */
  lemma BareUpdateIsMissed()
    ensures var log, run := OnOff(false), BareRun();
      var x := Exec(log, "s", Fresh(1, {}), run);
      && Disciplined(log, NAMES, "s") && Legal(log, "s", Fresh(1, {}), run)
      && GoodScan(log, "s", Exec(log, "s", Fresh(1, {}), run[..0]), run[0])
      && QuietOpens(log, NAMES, "s", Fresh(1, {}), run, 1)
      && x.pos == x.now == |log| && !InSync(log, "s", x.w, 2)
  {
    hide Exec, Legal, Db, Active, Disciplined, GoodScan, QuietOpens, Possible, Step, Documented, RowsOf;
    OnOffDisciplined(false);
    FirstScan(false);
    BarePrefixes();
    BareRunIsQuiet();
    assert "u" in BareState(4).w.endpoints;
  }

  lemma BareSteps(x2: World, x3: World, x4: World)
    requires x2 == Scanned().(w := Scanned().w.(cursor := Some(1))) && x3 == x2.(now := 2)
    requires x4 == x3.(w := x3.w.(cursor := Some(2), token := Some(1)), pos := 2, applied := [1])
    ensures var log, run := OnOff(false), BareRun();
      && Possible(log, "s", Scanned(), run[1]) && Step(log, "s", Scanned(), run[1]) == x2
      && Possible(log, "s", x2, run[2]) && Step(log, "s", x2, run[2]) == x3
      && Possible(log, "s", x3, run[3]) && Step(log, "s", x3, run[3]) == x4
  {
    hide Db, RowsOf, GoodScan;
  }

  /** Boot and scan; the subscriber is disabled; only then the cursor opens. */
  function GapRun(): Run {
    [Resync([("1", ON)]), Happens, Reopen(true)]
  }

  /** A change between the scan and the first cursor is missed even with its document:
      nothing but the quiet gap is lacking. */
  lemma GapIsMissed()
    ensures var log, run := OnOff(true), GapRun();
      var x := Exec(log, "s", Fresh(1, {}), run);
      && Disciplined(log, NAMES, "s") && Documented(log) && Legal(log, "s", Fresh(1, {}), run)
      && GoodScan(log, "s", Exec(log, "s", Fresh(1, {}), run[..0]), run[0])
      && x.pos == x.now == |log| && !InSync(log, "s", x.w, 2)
  {
    var log, run, start := OnOff(true), GapRun(), Fresh(1, {});
    OnOffDisciplined(true);
    FirstScan(true);
    hide Db, Active, Disciplined, RowsOf, GoodScan, AfterScan;
    var x2 := Scanned().(now := 2);
    var x3 := x2.(w := x2.w.(cursor := Some(2)), pos := 2);
    assert Possible(log, "s", Scanned(), run[1]) && Step(log, "s", Scanned(), run[1]) == x2;
    assert Possible(log, "s", x2, run[2]) && Step(log, "s", x2, run[2]) == x3;
    assert run[..0] == [] && run[..1] == [] + [run[0]] && run[..2] == run[..1] + [run[1]] && run == run[..2] + [run[2]];
    hide Step, Possible;
    ExecSnoc(log, "s", start, [], run[0]);
    ExecSnoc(log, "s", start, run[..1], run[1]);
    ExecSnoc(log, "s", start, run[..2], run[2]);
    assert "u" in x3.w.endpoints;
  }
}
