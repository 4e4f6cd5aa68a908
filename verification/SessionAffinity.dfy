/**
 * What a caller gets from a lease and from a session: releasing undoes the
 * count of an acquisition once, and a session keeps its account as long as the
 * account can take its requests.
 */
module SessionAffinity {
  import opened Common
  import opened AccountRouting
  import opened RoutingGuarantees

  // ---------------------------------------------------------------- leases

  /** An accepted request took an available account, and exactly that one counts one request more. */
  lemma GrantTakesOne(r: Router, req: Request, now: int)
    requires Sound(r) && Acquire(r, req, now).1.Some?
    ensures var (t, lease) := (Acquire(r, req, now).0, Acquire(r, req, now).1.value);
            var i := IndexOf(r.accounts, lease.account);
            && i < |r.accounts| && Available(r.accounts[i], req, now)
            && t.accounts == r.accounts[i := r.accounts[i].(inflight := r.accounts[i].inflight + 1, lastUsedAt := now)]
            && lease.id !in r.active && t.active == r.active[lease.id := lease.account]
  {
    var (after, candidates) := Candidates(r, req, now);
    var i := Choice(r, req, candidates).value;
    CandidatesAreAvailable(r, req, now);
    assert i in candidates;
    CandidatesKeepSessions(r, req, now);
    TakeIs(after, i, req, now);
    IndexIs(r.accounts, i);
    hide Candidates, Take, Available, Known, CarriesItsLeases, DistinctKeys;
  }

  lemma ReleaseOfTaken(r: Router, t: Router, i: nat, lease: nat, now: int)
    requires Sound(r) && Sound(t) && i < |r.accounts| && lease !in r.active
    requires t.accounts == r.accounts[i := r.accounts[i].(inflight := r.accounts[i].inflight + 1, lastUsedAt := now)]
    requires t.active == r.active[lease := r.accounts[i].member.id]
    ensures var u := Release(t, lease).0;
            && Release(t, lease).1 && u.active == r.active && |u.accounts| == |r.accounts|
            && (forall k | 0 <= k < |r.accounts| :: u.accounts[k].inflight == r.accounts[k].inflight)
            && Release(u, lease) == (u, false)
  {
    IndexIs(t.accounts, i);
    assert r.active[lease := r.accounts[i].member.id] - {lease} == r.active;
    hide CarriesItsLeases, Known, DistinctKeys;
  }

  /** Releasing a lease restores every count of before the acquisition; releasing it again does nothing. */
  lemma ReleaseUndoesAcquire(r: Router, req: Request, now: int)
    requires Sound(r) && Acquire(r, req, now).1.Some?
    ensures var (t, lease) := (Acquire(r, req, now).0, Acquire(r, req, now).1.value);
            var u := Release(t, lease.id).0;
            && Release(t, lease.id).1 && u.active == r.active && |u.accounts| == |r.accounts|
            && (forall i | 0 <= i < |r.accounts| :: u.accounts[i].inflight == r.accounts[i].inflight)
            && Release(u, lease.id) == (u, false)
  {
    GrantTakesOne(r, req, now);
    AcquireIsSound(r, req, now);
    hide Acquire, Available, Release, Sound, SameMembers;
    var t, lease := Acquire(r, req, now).0, Acquire(r, req, now).1.value;
    ReleaseOfTaken(r, t, IndexOf(r.accounts, lease.account), lease.id, now);
  }

  // ---------------------------------------------------------------- sessions

  /** The session is bound to the account, and was last seen then. */
  ghost predicate BoundTo(r: Router, key: string, account: string, seen: int) {
    var k := SessionIndex(r.sessions, key);
    k < |r.sessions| && r.sessions[k] == Session(key, account, seen)
  }

  ghost predicate Affine(r: Router, key: string) {
    r.cfg.sessionAffinity && key != "" && r.cfg.maxSessions >= 1
  }

  lemma {:induction false} SessionIndexIs(sessions: seq<Session>, k: nat)
    requires DistinctKeys(sessions) && k < |sessions|
    ensures SessionIndex(sessions, sessions[k].key) == k
  {
    var j := SessionIndex(sessions, sessions[k].key);
    assert j <= k;
  }

  /** Remembering binds: no eviction takes the binding just made. */
  lemma RememberBinds(r: Router, key: string, account: string, now: int)
    requires DistinctKeys(r.sessions) && |r.sessions| <= r.cfg.maxSessions && Affine(r, key)
    ensures BoundTo(Remember(r, key, account, now), key, account, now)
  {
    var pruned := Prune(r.sessions, r, now);
    var s := Session(key, account, now);
    PruneKeeps(r.sessions, r, now);
    PutKeeps(pruned, s);
    RememberKeeps(r, key, account, now);
    var sessions := Remember(r, key, account, now).sessions;
    var k := SessionIndex(pruned, key);
    if k < |pruned| {
      SessionIndexIs(sessions, k);
    } else {
      assert sessions[|sessions| - 1] == s;
      SessionIndexIs(sessions, |sessions| - 1);
    }
  }

  lemma TakeBinds(r: Router, i: nat, req: Request, now: int)
    requires i < |r.accounts| && Affine(r, req.session)
    requires DistinctKeys(r.sessions) && |r.sessions| <= r.cfg.maxSessions
    ensures BoundTo(Take(r, i, req, now), req.session, r.accounts[i].member.id, now)
  {
    var a := r.accounts[i];
    var taken := r.(accounts := r.accounts[i := a.(inflight := a.inflight + 1, lastUsedAt := now)]);
    RememberBinds(taken, req.session, a.member.id, now);
    hide Remember, DistinctKeys, SessionIndex;
  }

  /** An accepted request binds its session to the account it was given. */
  lemma AcquireBinds(r: Router, req: Request, now: int)
    requires Sound(r) && Affine(r, req.session) && Acquire(r, req, now).1.Some?
    ensures BoundTo(Acquire(r, req, now).0, req.session, Acquire(r, req, now).1.value.account, now)
  {
    var (after, candidates) := Candidates(r, req, now);
    CandidatesKeepSessions(r, req, now);
    TakeBinds(after, Choice(r, req, candidates).value, req, now);
    hide Candidates, Take, BoundTo, CarriesItsLeases, Known, Members;
  }

  lemma {:induction false} PruneKeepsFresh(sessions: seq<Session>, r: Router, key: string, now: int)
    requires DistinctKeys(sessions)
    requires var k := SessionIndex(sessions, key);
             k < |sessions| && now - sessions[k].lastSeenAt < r.cfg.sessionTtlMs && Known(r.accounts, sessions[k].account)
    ensures var pruned := Prune(sessions, r, now);
            var k := SessionIndex(pruned, key);
            k < |pruned| && pruned[k] == sessions[SessionIndex(sessions, key)]
  {
    var s := sessions[0];
    var rest := Prune(sessions[1..], r, now);
    assert Prune(sessions, r, now) == rest || Prune(sessions, r, now) == [s] + rest;
    assert s.key == key ==> Prune(sessions, r, now) == [s] + rest;
    hide Prune;
    if s.key != key {
      PruneKeepsFresh(sessions[1..], r, key, now);
      FoundBehind(s, rest, key);
    }
  }

  lemma FoundBehind(s: Session, rest: seq<Session>, key: string)
    requires s.key != key
    ensures SessionIndex([s] + rest, key) == 1 + SessionIndex(rest, key)
  {
    assert ([s] + rest)[1..] == rest;
  }

  /** The account a bound session finds when it looks: its own, while that is ready and allows the model. */
  lemma BoundSessionFindsItsAccount(r: Router, key: string, account: string, seen: int, model: string, now: int)
    requires Sound(r) && Affine(r, key) && BoundTo(r, key, account, seen)
    requires now - seen < r.cfg.sessionTtlMs
    requires var i := IndexOf(r.accounts, account);
             i < |r.accounts| && StatusOf(r.accounts[i], now) == Ready && AllowsModel(r.accounts[i].member, model)
    ensures SessionAccount(r, key, model, now).1 == account
  {
    PruneKeepsFresh(r.sessions, r, key, now);
  }

  lemma {:induction false} PlaceIsThere(r: Router, found: seq<nat>, i: nat)
    requires Members(r.accounts) && Positions(r, found) && i in found
    ensures var k := PlaceOf(r, found, r.accounts[i].member.id); k < |found| && found[k] == i
  {
    var k := PlaceOf(r, found, r.accounts[i].member.id);
    var j :| 0 <= j < |found| && found[j] == i;
    assert k <= j;
  }

  /** No account that the caller prefers by name is available. */
  ghost predicate NothingPreferred(r: Router, req: Request, now: int) {
    req.preferred != "" ==>
      forall i: nat | i < |r.accounts| && r.accounts[i].member.id == req.preferred :: !Available(r.accounts[i], req, now)
  }

  /** A bound session gets its account whenever that is available, whatever the strategy would rank first. */
  lemma BindingIsHonoured(r: Router, req: Request, account: string, seen: int, now: int)
    requires Sound(r) && r.cfg.enabled && Affine(r, req.session) && account != ""
    requires BoundTo(r, req.session, account, seen) && now - seen < r.cfg.sessionTtlMs
    requires req.account == "" && NothingPreferred(r, req, now)
    requires var i := IndexOf(r.accounts, account); i < |r.accounts| && Available(r.accounts[i], req, now)
    ensures Acquire(r, req, now).1 == Some(Lease(r.nextLease, account))
  {
    var i := IndexOf(r.accounts, account);
    var found := Found(r, req, now);
    FoundIs(r, req, now);
    assert i in found;
    BoundSessionFindsItsAccount(r, req.session, account, seen, req.model, now);
    PlaceIsThere(r, found, i);
    if req.preferred != "" {
      forall k | 0 <= k < |found| ensures r.accounts[found[k]].member.id != req.preferred {
        assert found[k] in found;
      }
    }
    assert Bound(r, req, found, now).1 == account;
    hide Found, Bound, Available, SessionAccount, PlaceOf;
    assert Order(r, found, account)[0] == i;
  }

  /** So two requests of one session in a row go to one account. */
  lemma SessionSticks(r: Router, req: Request, now: int, again: Request, later: int)
    requires Sound(r) && r.cfg.enabled && Affine(r, req.session) && Acquire(r, req, now).1.Some?
    requires again.session == req.session && again.account == "" && later - now < r.cfg.sessionTtlMs
    requires var (t, account) := (Acquire(r, req, now).0, Acquire(r, req, now).1.value.account);
             account != "" && NothingPreferred(t, again, later)
             && var i := IndexOf(t.accounts, account); i < |t.accounts| && Available(t.accounts[i], again, later)
    ensures var (t, account) := (Acquire(r, req, now).0, Acquire(r, req, now).1.value.account);
            Acquire(t, again, later).1 == Some(Lease(t.nextLease, account))
  {
    var t, account := Acquire(r, req, now).0, Acquire(r, req, now).1.value.account;
    AcquireBinds(r, req, now);
    AcquireIsSound(r, req, now);
    AcquireKeepsConfig(r, req, now);
    hide Acquire, Available, NothingPreferred, Sound;
    BindingIsHonoured(t, again, account, now, later);
  }

  /** Pruning keeps exactly the bindings that have not expired and whose account is known. */
  lemma {:induction false} PrunedAre(sessions: seq<Session>, r: Router, now: int)
    ensures forall s :: s in Prune(sessions, r, now) <==> s in sessions && now - s.lastSeenAt < r.cfg.sessionTtlMs && Known(r.accounts, s.account)
  {
    if sessions != [] {
      PrunedAre(sessions[1..], r, now);
      assert sessions == [sessions[0]] + sessions[1..];
    }
  }
}
