/** Creating and deleting a subscriber's objects in Asterisk's dynamic configuration.
    Requests are assumed to succeed. */
module Provisioning {

  type User = string

  /** The dynamic objects of Asterisk, by type. */
  datatype Sorcery = Sorcery(endpoints: set<string>, aors: set<string>, auths: set<string>)

  datatype Request =
    | PutAor(id: string) | PutEndpoint(id: string)
    | DeleteAor(id: string) | DeleteEndpoint(id: string) | DeleteAuth(id: string)

  function Serve(s: Sorcery, r: Request): Sorcery {
    match r
    case PutAor(id) => s.(aors := s.aors + {id})
    case PutEndpoint(id) => s.(endpoints := s.endpoints + {id})
    case DeleteAor(id) => s.(aors := s.aors - {id})
    case DeleteEndpoint(id) => s.(endpoints := s.endpoints - {id})
    case DeleteAuth(id) => s.(auths := s.auths - {id})
  }

  function ServeAll(s: Sorcery, rs: seq<Request>): Sorcery {
    if rs == [] then s else Serve(ServeAll(s, rs[..|rs| - 1]), rs[|rs| - 1])
  }

  function ProvisionScript(user: User): seq<Request> {
    if user == "" then [] else [DeleteAuth(user + "-auth"), PutAor(user), PutEndpoint(user)]
  }

  function DeprovisionScript(user: User): seq<Request> {
    if user == "" then []
    else [DeleteEndpoint(user), DeleteAuth(user + "-auth"), DeleteAor(user), DeleteAor(user + "-aor")]
  }

  /** Every endpoint has the address of record it names: its own. */
  predicate Resolvable(s: Sorcery) {
    s.endpoints <= s.aors
  }

  class PjsipProvisioner {
    var sorcery: Sorcery

    constructor (sorcery: Sorcery)
      ensures this.sorcery == sorcery
    {
      this.sorcery := sorcery;
    }

    method Send(r: Request)
      modifies this
      ensures sorcery == Serve(old(sorcery), r)
    {
      sorcery := Serve(sorcery, r);
    }

    method Provision(user: User)
      modifies this
      ensures sorcery == ServeAll(old(sorcery), ProvisionScript(user))
      ensures user == "" ==> sorcery == old(sorcery)
      ensures user != "" ==> sorcery == Sorcery(
        old(sorcery.endpoints) + {user}, old(sorcery.aors) + {user}, old(sorcery.auths) - {user + "-auth"})
    {
      if user == "" { return; }
      Send(DeleteAuth(user + "-auth"));
      Send(PutAor(user));
      Send(PutEndpoint(user));
      Unroll3(old(sorcery), ProvisionScript(user));
    }

    method Deprovision(user: User)
      modifies this
      ensures sorcery == ServeAll(old(sorcery), DeprovisionScript(user))
      ensures user == "" ==> sorcery == old(sorcery)
      ensures user != "" ==> sorcery == Sorcery(
        old(sorcery.endpoints) - {user}, old(sorcery.aors) - {user, user + "-aor"}, old(sorcery.auths) - {user + "-auth"})
    {
      if user == "" { return; }
      Send(DeleteEndpoint(user));
      Send(DeleteAuth(user + "-auth"));
      Send(DeleteAor(user));
      Send(DeleteAor(user + "-aor"));
      Unroll4(old(sorcery), DeprovisionScript(user));
    }
  }

  lemma Unroll3(s: Sorcery, rs: seq<Request>)
    requires |rs| == 3
    ensures ServeAll(s, rs) == Serve(Serve(Serve(s, rs[0]), rs[1]), rs[2])
  {
    hide Serve;
    assert rs[..2][..1] == rs[..1] && rs[..1][..0] == [];
    assert ServeAll(s, rs[..1]) == Serve(s, rs[0]);
    assert ServeAll(s, rs[..2]) == Serve(Serve(s, rs[0]), rs[1]);
  }

  lemma Unroll4(s: Sorcery, rs: seq<Request>)
    requires |rs| == 4
    ensures ServeAll(s, rs) == Serve(Serve(Serve(Serve(s, rs[0]), rs[1]), rs[2]), rs[3])
  {
    hide Serve;
    Unroll3(s, rs[..3]);
  }

  /** Whatever moment a provisioning is observed at, no endpoint dangles. */
  lemma ProvisionNeverDangles(s: Sorcery, user: User, n: nat)
    requires Resolvable(s) && n <= |ProvisionScript(user)|
    ensures Resolvable(ServeAll(s, ProvisionScript(user)[..n]))
  {
    var rs := ProvisionScript(user);
    if n > 0 {
      ProvisionNeverDangles(s, user, n - 1);
      assert rs[..n][..n - 1] == rs[..n - 1];
      if n == 3 {
        assert rs[..2][..1] == rs[..1];
        assert ServeAll(s, rs[..2]) == Serve(ServeAll(s, rs[..1]), PutAor(user));
        assert user in ServeAll(s, rs[..2]).aors;
      }
    }
  }

  /** The configuration after the first `n` requests of a script. */
  function Midway(s: Sorcery, rs: seq<Request>, n: nat): Sorcery
    requires n <= |rs|
  {
    ServeAll(s, rs[..n])
  }

  /** Deprovisioning is safe at every moment exactly when no other endpoint carries the
      user's legacy address-of-record name. */
  lemma DeprovisionNeverDanglesIff(s: Sorcery, user: User)
    requires Resolvable(s)
    ensures (forall n: nat :: n <= |DeprovisionScript(user)| ==> Resolvable(Midway(s, DeprovisionScript(user), n)))
      <==> user == "" || user + "-aor" !in s.endpoints
  {
    var rs := DeprovisionScript(user);
    if user == "" {
      assert Midway(s, rs, 0) == s;
    } else {
      Prefixes(s, user);
      hide ServeAll, DeprovisionScript;
      var legacy := user + "-aor";
      assert |rs| == 4 && |legacy| != |user|;
      if legacy in s.endpoints {
        var end := Midway(s, rs, 4);
        assert legacy in end.endpoints && legacy !in end.aors;
      } else {
        forall n: nat | n <= 4
          ensures Resolvable(Midway(s, rs, n))
        {
          assert n == 0 || n == 1 || n == 2 || n == 3 || n == 4;
        }
      }
    }
  }

  lemma Prefixes(s: Sorcery, user: User)
    requires user != ""
    ensures |DeprovisionScript(user)| == 4
    ensures var rs := DeprovisionScript(user);
      && ServeAll(s, rs[..0]) == s
      && ServeAll(s, rs[..1]) == s.(endpoints := s.endpoints - {user})
      && ServeAll(s, rs[..2]) == Sorcery(s.endpoints - {user}, s.aors, s.auths - {user + "-auth"})
      && ServeAll(s, rs[..3]) == Sorcery(s.endpoints - {user}, s.aors - {user}, s.auths - {user + "-auth"})
      && ServeAll(s, rs[..4]) == Sorcery(s.endpoints - {user}, s.aors - {user} - {user + "-aor"}, s.auths - {user + "-auth"})
  {
    var rs := DeprovisionScript(user);
    assert rs[..1][..0] == rs[..0] && rs[..2][..1] == rs[..1] && rs[..3][..2] == rs[..2] && rs[..4][..3] == rs[..3];
  }

  // ---- every sequence of calls --------------------------------------------

  datatype Call = Make(user: User) | Remove(user: User)

  function Script(c: Call): seq<Request> {
    match c case Make(user) => ProvisionScript(user) case Remove(user) => DeprovisionScript(user)
  }

  predicate SafeDuring(s: Sorcery, c: Call) {
    forall n: nat :: n <= |Script(c)| ==> Resolvable(Midway(s, Script(c), n))
  }

  /** No endpoint dangles at any moment of any of the calls. */
  predicate SafeThroughout(s: Sorcery, calls: seq<Call>)
    decreases |calls|
  {
    calls == [] || (SafeDuring(s, calls[0]) && SafeThroughout(ServeAll(s, Script(calls[0])), calls[1..]))
  }

  predicate Among(calls: seq<Call>, users: set<User>) {
    forall i :: 0 <= i < |calls| ==> calls[i].user in users
  }

  /** No user is called like another one plus the legacy suffix. */
  predicate NoLegacyNames(users: set<User>) {
    forall u :: u in users && u != "" ==> u + "-aor" !in users
  }

  lemma CallKeeps(s: Sorcery, c: Call, users: set<User>)
    requires Resolvable(s) && s.endpoints <= users && c.user in users && NoLegacyNames(users)
    ensures SafeDuring(s, c)
    ensures var t := ServeAll(s, Script(c)); Resolvable(t) && t.endpoints <= users
  {
    var rs := Script(c);
    assert rs[..|rs|] == rs;
    match c
    case Make(user) =>
      forall n: nat | n <= |rs|
        ensures Resolvable(Midway(s, rs, n))
      {
        ProvisionNeverDangles(s, user, n);
      }
      if user != "" { Unroll3(s, rs); }
    case Remove(user) =>
      DeprovisionNeverDanglesIff(s, user);
      assert Resolvable(Midway(s, rs, |rs|));
      if user != "" { Unroll4(s, rs); }
  }

  lemma {:induction false} SafeWithoutLegacyNames(s: Sorcery, calls: seq<Call>, users: set<User>)
    requires Resolvable(s) && s.endpoints <= users && Among(calls, users) && NoLegacyNames(users)
    ensures SafeThroughout(s, calls)
    decreases |calls|
  {
    if calls != [] {
      hide ServeAll, SafeDuring, Resolvable, Script;
      CallKeeps(s, calls[0], users);
      SafeWithoutLegacyNames(ServeAll(s, Script(calls[0])), calls[1..], users);
    }
  }

  const EMPTY := Sorcery({}, {}, {})

  /** With such a pair of names, making the one and removing the other dangles. */
  lemma LegacyNameDangles(u: User)
    requires u != ""
    ensures !SafeThroughout(EMPTY, [Make(u + "-aor"), Remove(u)])
  {
    var v := u + "-aor";
    var made := ServeAll(EMPTY, ProvisionScript(v));
    Unroll3(EMPTY, ProvisionScript(v));
    assert made.endpoints == {v} && Resolvable(made);
    DeprovisionNeverDanglesIff(made, u);
    hide ServeAll;
    var n: nat :| n <= |DeprovisionScript(u)| && !Resolvable(Midway(made, DeprovisionScript(u), n));
    assert !Resolvable(Midway(made, Script(Remove(u)), n));
    var calls := [Make(v), Remove(u)];
    assert calls[1..] == [Remove(u)];
    assert !SafeThroughout(made, [Remove(u)]);
  }

  /** Whatever calls are made for a set of users, every endpoint keeps its address of
      record at every moment, if and only if no user is called like another one plus the
      legacy suffix. */
  lemma NeverDanglesIff(users: set<User>)
    ensures (forall calls: seq<Call> :: Among(calls, users) ==> SafeThroughout(EMPTY, calls)) <==> NoLegacyNames(users)
  {
    if NoLegacyNames(users) {
      forall calls: seq<Call> | Among(calls, users)
        ensures SafeThroughout(EMPTY, calls)
      {
        SafeWithoutLegacyNames(EMPTY, calls, users);
      }
    } else {
      var u :| u in users && u != "" && u + "-aor" in users;
      LegacyNameDangles(u);
      assert Among([Make(u + "-aor"), Remove(u)], users);
    }
  }
}
