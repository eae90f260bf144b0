/** The watcher that keeps Asterisk's endpoints in step with the subscribers
    collection: a full scan, then the tail of the change log. */
module Replication {
  import opened Options
  import opened Provisioning

  type Id = string

  datatype Doc = Doc(society: string, user: User, active: bool)

  /** One entry of the change log. A delete carries the id only; any other change
      carries the document if `full`. */
  datatype Change = Upsert(id: Id, doc: Doc, full: bool) | Delete(id: Id)

  /** Positions in the change log stand for cursors (the next entry to deliver) and
      for resume tokens (the last entry delivered). */
  datatype Watcher = Watcher(
    cursor: Option<nat>,
    token: Option<nat>,
    cache: map<Id, User>,
    skip: nat,
    endpoints: set<User>)

  const REOPEN_SKIP := 5

  function AfterUpsert(w: Watcher, id: Id, doc: Doc): Watcher {
    if doc.user == "" then w
    else w.(cache := w.cache[id := doc.user],
            endpoints := if doc.active then w.endpoints + {doc.user} else w.endpoints - {doc.user})
  }

  function AfterChange(w: Watcher, society: string, c: Change): Watcher {
    match c
    case Upsert(id, doc, full) => if !full || doc.society != society then w else AfterUpsert(w, id, doc)
    case Delete(id) =>
      if id !in w.cache then w
      else w.(cache := w.cache - {id},
              endpoints := if w.cache[id] == "" then w.endpoints else w.endpoints - {w.cache[id]})
  }

  /** The rows a scan returned, applied in the order they came. */
  function AfterScan(w: Watcher, rows: seq<(Id, Doc)>): Watcher {
    if rows == [] then w
    else
      var n := |rows| - 1;
      AfterUpsert(AfterScan(w, rows[..n]), rows[n].0, rows[n].1)
  }

  /** Reopening resumes after the token; without one the cursor starts at `now`. */
  function AfterOpen(w: Watcher, opens: bool, now: nat): Watcher {
    w.(cursor := if !opens then None else match w.token case Some(t) => Some(t + 1) case None => Some(now))
  }

  /** What the cursor answers when polled: it fails, has nothing, or delivers. */
  datatype Poll = Fails | Nothing | Delivers(change: Change)

  function AfterTick(w: Watcher, society: string, opens: bool, now: nat, poll: Poll): Watcher {
    match w.cursor
    case None =>
      if w.skip > 0 then w.(skip := w.skip - 1)
      else var v := AfterOpen(w, opens, now); if opens then v else v.(skip := REOPEN_SKIP)
    case Some(at) =>
      match poll
      case Fails => w.(cursor := None, skip := 0)
      case Nothing => w
      case Delivers(c) => AfterChange(w.(cursor := Some(at + 1), token := Some(at)), society, c)
  }

  class SubscriberWatcher {
    const society: string
    const provisioner: PjsipProvisioner
    var stream: Option<nat>
    var resumeToken: Option<nat>
    var idToUser: map<Id, User>
    var reopenSkipTicks: nat

    function State(): Watcher reads this, provisioner {
      Watcher(stream, resumeToken, idToUser, reopenSkipTicks, provisioner.sorcery.endpoints)
    }

    constructor (society: string, provisioner: PjsipProvisioner)
      ensures State() == Watcher(None, None, map[], 0, provisioner.sorcery.endpoints)
      ensures this.society == society && this.provisioner == provisioner
    {
      this.society, this.provisioner := society, provisioner;
      stream, resumeToken, idToUser, reopenSkipTicks := None, None, map[], 0;
    }

    method Upserted(id: Id, doc: Doc)
      modifies this`idToUser, provisioner
      ensures State() == AfterUpsert(old(State()), id, doc)
    {
      if doc.user == "" { return; }
      idToUser := idToUser[id := doc.user];
      if doc.active {
        provisioner.Provision(doc.user);
      } else {
        provisioner.Deprovision(doc.user);
      }
    }

    /** `rows` is what the society-scoped query returned; a failed query returns none. */
    method RunFullScan(rows: seq<(Id, Doc)>)
      modifies this`idToUser, provisioner
      ensures State() == AfterScan(old(State()), rows)
    {
      hide AfterUpsert;
      var i := 0;
      while i < |rows|
        invariant 0 <= i <= |rows|
        invariant State() == AfterScan(old(State()), rows[..i])
      {
        Upserted(rows[i].0, rows[i].1);
        assert rows[..i + 1][..i] == rows[..i];
        i := i + 1;
      }
      assert rows[..i] == rows;
    }

    method OpenStream(opens: bool, now: nat)
      modifies this`stream
      ensures State() == AfterOpen(old(State()), opens, now)
    {
      if !opens {
        stream := None;
      } else if resumeToken.Some? {
        stream := Some(resumeToken.value + 1);
      } else {
        stream := Some(now);
      }
    }

    method Tick(opens: bool, now: nat, poll: Poll)
      modifies this, provisioner
      ensures State() == AfterTick(old(State()), society, opens, now, poll)
    {
      if stream == None {
        if reopenSkipTicks > 0 {
          reopenSkipTicks := reopenSkipTicks - 1;
          return;
        }
        OpenStream(opens, now);
        if stream == None { reopenSkipTicks := REOPEN_SKIP; }
        return;
      }
      match poll
      case Fails =>
        stream := None;
        reopenSkipTicks := 0;
      case Nothing =>
      case Delivers(change) =>
        var at := stream.value;
        stream := Some(at + 1);
        HandleEvent(at, change);
    }

    /** The token is stored before the change is looked at. */
    method HandleEvent(at: nat, change: Change)
      modifies this, provisioner
      ensures State() == AfterChange(old(State()).(token := Some(at)), society, change)
    {
      resumeToken := Some(at);
      match change
      case Delete(id) =>
        if id !in idToUser { return; }
        provisioner.Deprovision(idToUser[id]);
        idToUser := idToUser - {id};
      case Upsert(id, doc, full) =>
        if !full { return; }
        if doc.society != society { return; }
        Upserted(id, doc);
    }
  }
}
