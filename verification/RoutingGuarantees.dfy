/**
 * What routing guarantees over whole histories of calls: the count of requests
 * in flight is the count of leases out and stays within each account's limit,
 * round-robin starves nobody, and only repeated authentication failures block.
 */
module RoutingGuarantees {
  import opened Common
  import opened AccountRouting

  // ---------------------------------------------------------------- leases

  ghost function LeasesOf(active: map<nat, string>, id: string): set<nat> {
    set l | l in active && active[l] == id
  }

  ghost predicate Members(accounts: seq<Account>) {
    && (forall i | 0 <= i < |accounts| :: accounts[i].order == i)
    && (forall i, j | 0 <= i < j < |accounts| :: accounts[i].member.id != accounts[j].member.id)
  }

  /** Requests in flight are leases out, within the limit. */
  ghost predicate CarriesItsLeases(a: Account, active: map<nat, string>) {
    a.inflight == |LeasesOf(active, a.member.id)| && a.inflight <= a.member.maxConcurrency
  }

  ghost predicate Known(accounts: seq<Account>, id: string) {
    IndexOf(accounts, id) < |accounts|
  }

  ghost predicate DistinctKeys(sessions: seq<Session>) {
    forall i, j | 0 <= i < j < |sessions| :: sessions[i].key != sessions[j].key
  }

  ghost predicate Sound(r: Router) {
    && Members(r.accounts)
    && (r.accounts != [] ==> r.cursor < |r.accounts|)
    && (forall l | l in r.active :: l < r.nextLease && Known(r.accounts, r.active[l]))
    && (forall i | 0 <= i < |r.accounts| :: CarriesItsLeases(r.accounts[i], r.active))
    && DistinctKeys(r.sessions) && |r.sessions| <= r.cfg.maxSessions
  }

  /** Same accounts under the same names, whatever their condition. */
  ghost predicate SameMembers(a: seq<Account>, b: seq<Account>) {
    |a| == |b| && forall i | 0 <= i < |a| ::
      a[i].member.id == b[i].member.id && a[i].order == b[i].order && a[i].member.maxConcurrency == b[i].member.maxConcurrency
  }

  lemma {:induction false} IndexIs(accounts: seq<Account>, i: nat)
    requires Members(accounts) && i < |accounts|
    ensures IndexOf(accounts, accounts[i].member.id) == i
  {
    var k := IndexOf(accounts, accounts[i].member.id);
    assert k <= i;
  }

  lemma {:induction false} SameIndex(a: seq<Account>, b: seq<Account>, id: string)
    requires SameMembers(a, b)
    ensures IndexOf(a, id) == IndexOf(b, id)
  {
    var j, k := IndexOf(a, id), IndexOf(b, id);
    assert j < |a| ==> b[j].member.id == id;
    assert k < |b| ==> a[k].member.id == id;
  }

  lemma LeaseAdded(active: map<nat, string>, l: nat, id: string, other: string)
    requires l !in active
    ensures |LeasesOf(active[l := id], other)| == |LeasesOf(active, other)| + if other == id then 1 else 0
  {
    if other == id {
      assert LeasesOf(active[l := id], id) == LeasesOf(active, id) + {l};
    } else {
      assert LeasesOf(active[l := id], other) == LeasesOf(active, other);
    }
  }

  lemma LeaseEnded(active: map<nat, string>, l: nat, other: string)
    requires l in active
    ensures |LeasesOf(active - {l}, other)| == |LeasesOf(active, other)| - if other == active[l] then 1 else 0
  {
    if other == active[l] {
      assert LeasesOf(active, other) == LeasesOf(active - {l}, other) + {l};
    } else {
      assert LeasesOf(active - {l}, other) == LeasesOf(active, other);
    }
  }

  // ---------------------------------------------------------------- sessions stay bounded and distinct

  ghost predicate Within(sessions: seq<Session>, of: seq<Session>) {
    forall i | 0 <= i < |sessions| :: exists j :: 0 <= j < |of| && of[j].key == sessions[i].key
  }

  lemma {:induction false} PruneKeeps(sessions: seq<Session>, r: Router, now: int)
    requires DistinctKeys(sessions)
    ensures DistinctKeys(Prune(sessions, r, now)) && |Prune(sessions, r, now)| <= |sessions| && Within(Prune(sessions, r, now), sessions)
  {
    if sessions != [] {
      var rest := Prune(sessions[1..], r, now);
      PruneKeeps(sessions[1..], r, now);
      forall i | 0 <= i < |rest| ensures rest[i].key != sessions[0].key && exists j :: 0 <= j < |sessions| && sessions[j].key == rest[i].key {
        var j :| 0 <= j < |sessions[1..]| && sessions[1..][j].key == rest[i].key;
        assert sessions[j + 1].key == rest[i].key;
      }
    }
  }

  lemma {:induction false} DropAccountKeeps(sessions: seq<Session>, account: string)
    requires DistinctKeys(sessions)
    ensures DistinctKeys(DropAccount(sessions, account)) && |DropAccount(sessions, account)| <= |sessions|
    ensures Within(DropAccount(sessions, account), sessions)
    ensures forall i | 0 <= i < |DropAccount(sessions, account)| :: DropAccount(sessions, account)[i].account != account
  {
    if sessions != [] {
      var rest := DropAccount(sessions[1..], account);
      DropAccountKeeps(sessions[1..], account);
      forall i | 0 <= i < |rest| ensures rest[i].key != sessions[0].key && exists j :: 0 <= j < |sessions| && sessions[j].key == rest[i].key {
        var j :| 0 <= j < |sessions[1..]| && sessions[1..][j].key == rest[i].key;
        assert sessions[j + 1].key == rest[i].key;
      }
    }
  }

  lemma PutKeeps(sessions: seq<Session>, s: Session)
    requires DistinctKeys(sessions)
    ensures DistinctKeys(Put(sessions, s))
  {
  }

  lemma RememberKeeps(r: Router, key: string, account: string, now: int)
    requires DistinctKeys(r.sessions) && |r.sessions| <= r.cfg.maxSessions
    ensures var t := Remember(r, key, account, now);
            DistinctKeys(t.sessions) && |t.sessions| <= r.cfg.maxSessions && t == r.(sessions := t.sessions)
  {
    PruneKeeps(r.sessions, r, now);
    PutKeeps(Prune(r.sessions, r, now), Session(key, account, now));
  }

  lemma DropSessionKeeps(sessions: seq<Session>, key: string)
    requires DistinctKeys(sessions)
    ensures DistinctKeys(DropSession(sessions, key)) && |DropSession(sessions, key)| <= |sessions|
  {
  }

  lemma TouchKeeps(sessions: seq<Session>, k: nat, now: int)
    requires DistinctKeys(sessions) && k < |sessions|
    ensures DistinctKeys(sessions[k := sessions[k].(lastSeenAt := now)])
  {
  }

  lemma LookUpKeeps(sessions: seq<Session>, accounts: seq<Account>, key: string, model: string, now: int)
    requires DistinctKeys(sessions)
    ensures var t := LookUp(sessions, accounts, key, model, now).0; DistinctKeys(t) && |t| <= |sessions|
  {
    DropSessionKeeps(sessions, key);
    var k := SessionIndex(sessions, key);
    if k < |sessions| { TouchKeeps(sessions, k, now); }
    hide DistinctKeys, DropSession, StatusOf, AllowsModel;
  }

  lemma SessionAccountKeeps(r: Router, key: string, model: string, now: int)
    requires DistinctKeys(r.sessions) && |r.sessions| <= r.cfg.maxSessions
    ensures var t := SessionAccount(r, key, model, now).0; DistinctKeys(t.sessions) && |t.sessions| <= r.cfg.maxSessions
  {
    PruneKeeps(r.sessions, r, now);
    LookUpKeeps(Prune(r.sessions, r, now), r.accounts, key, model, now);
    hide LookUp, Prune, DistinctKeys;
  }

  // ---------------------------------------------------------------- every call

  lemma {:induction false} InsertHas(r: Router, i: nat, rest: seq<nat>)
    requires i < |r.accounts| && Positions(r, rest)
    ensures forall x :: x in InsertRanked(r, i, rest) <==> x == i || x in rest
  {
    if rest != [] && Before(r, rest[0], i) {
      InsertHas(r, i, rest[1..]);
      assert rest == [rest[0]] + rest[1..];
    }
  }

  lemma {:induction false} RankedHas(r: Router, indices: seq<nat>)
    requires Positions(r, indices)
    ensures forall x :: x in Ranked(r, indices) <==> x in indices
  {
    if indices != [] {
      RankedHas(r, indices[1..]);
      InsertHas(r, indices[0], Ranked(r, indices[1..]));
      assert indices == [indices[0]] + indices[1..];
    }
  }

  lemma OrderHas(r: Router, found: seq<nat>, bound: string)
    requires Positions(r, found)
    ensures forall i: nat :: i in Order(r, found, bound) <==> i in found
  {
    var k := if bound == "" then |found| else PlaceOf(r, found, bound);
    if k == |found| {
      RankedHas(r, found);
    } else {
      RankedHas(r, found[..k] + found[k + 1..]);
      assert found == found[..k] + [found[k]] + found[k + 1..];
    }
  }

  lemma FoundIs(r: Router, req: Request, now: int)
    ensures forall i: nat :: i in Found(r, req, now) <==> i < |r.accounts| && Available(r.accounts[i], req, now)
  {
    AvailableAre(r.accounts, |r.accounts|, req, now);
    hide Available;
  }

  /** Every candidate is an available account, and every available account is a candidate. */
  lemma CandidatesAreAvailable(r: Router, req: Request, now: int)
    ensures forall i: nat :: i in Candidates(r, req, now).1 <==> r.cfg.enabled && i < |r.accounts| && Available(r.accounts[i], req, now)
  {
    FoundIs(r, req, now);
    var found := Found(r, req, now);
    OrderHas(r, found, Bound(r, req, found, now).1);
    hide Found, Order, Bound, Available;
  }

  lemma AcquireIsSound(r: Router, req: Request, now: int)
    requires Sound(r)
    ensures Sound(Acquire(r, req, now).0) && SameMembers(Acquire(r, req, now).0.accounts, r.accounts)
  {
    var (after, candidates) := Candidates(r, req, now);
    CandidatesAreAvailable(r, req, now);
    CandidatesKeepSessions(r, req, now);
    var choice := Choice(r, req, candidates);
    if choice.Some? {
      assert choice.value in candidates;
      TakeIsSound(after, choice.value, req, now);
    }
  }

  lemma CandidatesKeepSessions(r: Router, req: Request, now: int)
    requires Sound(r)
    ensures Sound(Candidates(r, req, now).0)
  {
    SessionAccountKeeps(r, req.session, req.model, now);
  }

  lemma TakenIsBalanced(r: Router, i: nat, j: nat, now: int)
    requires Sound(r) && i < |r.accounts| && j < |r.accounts| && r.accounts[i].inflight < r.accounts[i].member.maxConcurrency
    ensures var id := r.accounts[i].member.id;
            CarriesItsLeases(if i == j then r.accounts[i].(inflight := r.accounts[i].inflight + 1, lastUsedAt := now) else r.accounts[j], r.active[r.nextLease := id])
  {
    LeaseAdded(r.active, r.nextLease, r.accounts[i].member.id, r.accounts[j].member.id);
    assert CarriesItsLeases(r.accounts[j], r.active);
  }

  lemma TakenAreKnown(r: Router, i: nat, accounts: seq<Account>)
    requires Sound(r) && i < |r.accounts| && SameMembers(accounts, r.accounts)
    ensures var active := r.active[r.nextLease := r.accounts[i].member.id];
            forall l | l in active :: l < r.nextLease + 1 && Known(accounts, active[l])
  {
    var active := r.active[r.nextLease := r.accounts[i].member.id];
    forall l | l in active ensures Known(accounts, active[l]) {
      SameIndex(accounts, r.accounts, active[l]);
      IndexIs(r.accounts, i);
    }
  }

  lemma TakeIs(r: Router, i: nat, req: Request, now: int)
    requires Sound(r) && i < |r.accounts|
    ensures var t := Take(r, i, req, now);
            var a := r.accounts[i];
            && t.cfg == r.cfg && t.accounts == r.accounts[i := a.(inflight := a.inflight + 1, lastUsedAt := now)]
            && t.active == r.active[r.nextLease := a.member.id] && t.nextLease == r.nextLease + 1 && t.cursor < |r.accounts|
            && DistinctKeys(t.sessions) && |t.sessions| <= r.cfg.maxSessions
  {
    var a := r.accounts[i];
    RememberKeeps(r.(accounts := r.accounts[i := a.(inflight := a.inflight + 1, lastUsedAt := now)]), req.session, a.member.id, now);
    hide CarriesItsLeases, Known, DistinctKeys, Remember;
  }

  lemma TakeIsSound(r: Router, i: nat, req: Request, now: int)
    requires Sound(r) && i < |r.accounts| && r.accounts[i].inflight < r.accounts[i].member.maxConcurrency
    ensures Sound(Take(r, i, req, now)) && SameMembers(Take(r, i, req, now).accounts, r.accounts)
  {
    TakeIs(r, i, req, now);
    hide Take, DistinctKeys;
    var t := Take(r, i, req, now);
    assert SameMembers(t.accounts, r.accounts);
    TakenAreKnown(r, i, t.accounts);
    hide Known;
    forall j | 0 <= j < |t.accounts| ensures CarriesItsLeases(t.accounts[j], t.active) {
      TakenIsBalanced(r, i, j, now);
      hide CarriesItsLeases;
    }
  }

  lemma ReleaseIsSound(r: Router, lease: nat)
    requires Sound(r)
    ensures Sound(Release(r, lease).0) && SameMembers(Release(r, lease).0.accounts, r.accounts)
  {
    if lease in r.active {
      var t := Release(r, lease).0;
      var i := IndexOf(r.accounts, r.active[lease]);
      assert Known(r.accounts, r.active[lease]);
      forall j | 0 <= j < |t.accounts| ensures CarriesItsLeases(t.accounts[j], t.active) {
        LeaseEnded(r.active, lease, r.accounts[j].member.id);
        assert CarriesItsLeases(r.accounts[j], r.active);
        if j != i { IndexIs(r.accounts, j); }
        if j == i { assert lease in LeasesOf(r.active, r.active[lease]); }
      }
      forall l | l in t.active ensures l < t.nextLease && Known(t.accounts, t.active[l]) {
        SameIndex(t.accounts, r.accounts, t.active[l]);
      }
    }
  }

  /** Replacing the condition of one account but not its requests in flight. */
  lemma ConditionIsSound(r: Router, i: nat, a: Account, sessions: seq<Session>)
    requires Sound(r) && i < |r.accounts|
    requires a.member.id == r.accounts[i].member.id && a.order == r.accounts[i].order
    requires a.member.maxConcurrency == r.accounts[i].member.maxConcurrency && a.inflight == r.accounts[i].inflight
    requires DistinctKeys(sessions) && |sessions| <= r.cfg.maxSessions
    ensures var t := r.(accounts := r.accounts[i := a], sessions := sessions); Sound(t) && SameMembers(t.accounts, r.accounts)
  {
    var t := r.(accounts := r.accounts[i := a], sessions := sessions);
    forall j | 0 <= j < |t.accounts| ensures CarriesItsLeases(t.accounts[j], t.active) {
      assert CarriesItsLeases(r.accounts[j], r.active);
    }
    forall l | l in t.active ensures l < t.nextLease && Known(t.accounts, t.active[l]) {
      SameIndex(t.accounts, r.accounts, t.active[l]);
    }
  }

  lemma SuccessIsSound(r: Router, account: string, session: string, now: int)
    requires Sound(r)
    ensures var t := ReportSuccess(r, account, session, now); Sound(t) && SameMembers(t.accounts, r.accounts)
  {
    var i := IndexOf(r.accounts, account);
    if i < |r.accounts| {
      var a := Cleared(r.accounts[i]).(lastUsedAt := now);
      RememberKeeps(r.(accounts := r.accounts[i := a]), session, account, now);
      ConditionIsSound(r, i, a, ReportSuccess(r, account, session, now).sessions);
    }
  }

  lemma ResetIsSound(r: Router, account: string)
    requires Sound(r)
    ensures var t := ResetRuntime(r, account); Sound(t) && SameMembers(t.accounts, r.accounts)
  {
    var i := IndexOf(r.accounts, account);
    if i < |r.accounts| {
      DropAccountKeeps(r.sessions, account);
      ConditionIsSound(r, i, Cleared(r.accounts[i]), DropAccount(r.sessions, account));
    }
  }

  lemma FailureIsSound(r: Router, account: string, f: Failure, now: int)
    requires Sound(r)
    ensures var t := ReportFailure(r, account, f, now); Sound(t) && SameMembers(t.accounts, r.accounts)
  {
    var i := IndexOf(r.accounts, account);
    if i < |r.accounts| {
      DropAccountKeeps(r.sessions, account);
      ConditionIsSound(r, i, Failed(r.cfg, r.accounts[i], f, now), ReportFailure(r, account, f, now).sessions);
    }
  }

  /** A new router has no lease out. */
  lemma FreshIsSound(cfg: Config, members: seq<Member>, blocked: set<string>, cooling: map<string, int>)
    requires forall i, j | 0 <= i < j < |members| :: members[i].id != members[j].id
    ensures Sound(Fresh(cfg, members, blocked, cooling))
  {
    var r := Fresh(cfg, members, blocked, cooling);
    forall i | 0 <= i < |r.accounts| ensures CarriesItsLeases(r.accounts[i], r.active) {
      assert LeasesOf(r.active, r.accounts[i].member.id) == {};
    }
  }

  datatype Call =
    | AcquireCall(req: Request, now: int)
    | ReleaseCall(lease: nat)
    | SuccessCall(account: string, session: string, now: int)
    | FailureCall(account: string, failure: Failure, now: int)
    | ResetCall(account: string)

  function After(r: Router, c: Call): Router {
    match c
    case AcquireCall(req, now) => Acquire(r, req, now).0
    case ReleaseCall(lease) => Release(r, lease).0
    case SuccessCall(account, session, now) => ReportSuccess(r, account, session, now)
    case FailureCall(account, failure, now) => ReportFailure(r, account, failure, now)
    case ResetCall(account) => ResetRuntime(r, account)
  }

  function Play(r: Router, calls: seq<Call>): Router {
    if calls == [] then r else After(Play(r, calls[..|calls| - 1]), calls[|calls| - 1])
  }

  lemma CallIsSound(r: Router, c: Call)
    requires Sound(r)
    ensures Sound(After(r, c)) && SameMembers(After(r, c).accounts, r.accounts)
  {
    match c
    case AcquireCall(req, now) => AcquireIsSound(r, req, now);
    case ReleaseCall(lease) => ReleaseIsSound(r, lease);
    case SuccessCall(account, session, now) => SuccessIsSound(r, account, session, now);
    case FailureCall(account, failure, now) => FailureIsSound(r, account, failure, now);
    case ResetCall(account) => ResetIsSound(r, account);
  }

  /** In every history each account carries exactly its outstanding leases, never more than its limit. */
  lemma {:induction false} LeasesAlwaysBalance(r: Router, calls: seq<Call>)
    requires Sound(r)
    ensures Sound(Play(r, calls)) && SameMembers(Play(r, calls).accounts, r.accounts)
  {
    if calls != [] {
      LeasesAlwaysBalance(r, calls[..|calls| - 1]);
      CallIsSound(Play(r, calls[..|calls| - 1]), calls[|calls| - 1]);
    }
  }

  // ---------------------------------------------------------------- the first candidate ranks first

  lemma BeforeIsTransitive(r: Router, a: nat, b: nat, c: nat)
    requires a < |r.accounts| && b < |r.accounts| && c < |r.accounts|
    requires !Before(r, b, a) && !Before(r, c, b)
    ensures !Before(r, c, a)
  {
  }

  lemma BeforeIsStrict(r: Router, a: nat, b: nat)
    requires a < |r.accounts| && b < |r.accounts| && Before(r, a, b)
    ensures !Before(r, b, a)
  {
  }

  ghost predicate InOrder(r: Router, ranked: seq<nat>)
    requires Positions(r, ranked)
  {
    forall i, j | 0 <= i < j < |ranked| :: !Before(r, ranked[j], ranked[i])
  }

  lemma {:induction false} InsertInOrder(r: Router, i: nat, rest: seq<nat>)
    requires i < |r.accounts| && Positions(r, rest) && InOrder(r, rest)
    ensures InOrder(r, InsertRanked(r, i, rest))
  {
    if rest == [] {
    } else if !Before(r, rest[0], i) {
      forall k | 0 <= k < |rest| ensures !Before(r, rest[k], i) {
        if 0 < k { BeforeIsTransitive(r, i, rest[0], rest[k]); }
      }
    } else {
      InsertInOrder(r, i, rest[1..]);
      InsertHas(r, i, rest[1..]);
      BeforeIsStrict(r, rest[0], i);
      var tail := InsertRanked(r, i, rest[1..]);
      forall k | 0 <= k < |tail| ensures !Before(r, tail[k], rest[0]) {
        assert tail[k] in tail;
        if tail[k] != i {
          var j :| 0 <= j < |rest[1..]| && rest[1..][j] == tail[k];
          assert rest[j + 1] == tail[k];
        }
      }
    }
  }

  /** The ranking is in order under every strategy. */
  lemma {:induction false} RankedInOrder(r: Router, indices: seq<nat>)
    requires Positions(r, indices)
    ensures InOrder(r, Ranked(r, indices))
  {
    if indices != [] {
      RankedInOrder(r, indices[1..]);
      InsertInOrder(r, indices[0], Ranked(r, indices[1..]));
    }
  }

  /** A request that names no account, session or preference. */
  predicate Plain(req: Request) {
    req.session == "" && req.preferred == "" && req.account == ""
  }

  /** Such a request takes an available account that no available account ranks before, whenever there is one. */
  lemma PlainTakesTheBest(r: Router, req: Request, now: int, t: nat)
    requires r.cfg.enabled && Plain(req) && t < |r.accounts| && Available(r.accounts[t], req, now)
    ensures var choice := Choice(r, req, Candidates(r, req, now).1);
            && choice.Some? && choice.value < |r.accounts| && Available(r.accounts[choice.value], req, now)
            && !Before(r, t, choice.value)
            && Acquire(r, req, now).1 == Some(Lease(r.nextLease, r.accounts[choice.value].member.id))
  {
    CandidatesAreAvailable(r, req, now);
    var candidates := Candidates(r, req, now).1;
    assert t in candidates;
    RankedInOrder(r, Found(r, req, now));
    var k :| 0 <= k < |candidates| && candidates[k] == t;
    assert candidates == Ranked(r, Found(r, req, now));
    assert candidates[0] in candidates;
    if k == 0 {
      NotBeforeItself(r, t);
    } else {
      assert !Before(r, candidates[k], candidates[0]);
    }
  }

  lemma NotBeforeItself(r: Router, a: nat)
    requires a < |r.accounts|
    ensures !Before(r, a, a)
  {
  }

  // ---------------------------------------------------------------- round-robin

  lemma DistanceIs(r: Router, i: nat)
    requires i < |r.accounts| && r.cursor < |r.accounts|
    ensures Distance(r, i) == if r.cursor <= i then i - r.cursor else i - r.cursor + |r.accounts|
  {
    var n := |r.accounts|;
    if r.cursor <= i {
      Wraps(i - r.cursor, n);
    } else {
      assert 0 <= i - r.cursor + n < n;
      SmallRemainder(i - r.cursor + n, n);
    }
  }

  lemma SmallRemainder(x: int, n: int)
    requires 0 <= x < n
    ensures x % n == x
  {
  }

  lemma Wraps(x: int, n: int)
    requires 0 <= x < n
    ensures (x + n) % n == x
  {
  }

  /** Moving the start just past i brings every account beyond i nearer. */
  lemma PassingBringsNearer(r: Router, after: Router, i: nat, t: nat)
    requires i < |r.accounts| == |after.accounts| && t < |r.accounts| && t != i && r.cursor < |r.accounts|
    requires Distance(r, i) <= Distance(r, t) && after.cursor == (i + 1) % |r.accounts|
    ensures Distance(after, t) < Distance(r, t)
  {
    if i + 1 < |r.accounts| {
      SmallRemainder(i + 1, |r.accounts|);
    } else {
      Wraps(0, |r.accounts|);
    }
    DistanceIs(r, i);
    DistanceIs(r, t);
    DistanceIs(after, t);
    hide Distance;
  }

  lemma ChosenIsNearest(r: Router, i: nat, t: nat)
    requires r.cfg.strategy.RoundRobin? && i < |r.accounts| && t < |r.accounts| && !Before(r, t, i)
    ensures Distance(r, i) <= Distance(r, t)
  {
  }

  /** Choosing another account brings a waiting account strictly nearer. */
  lemma WaitingComesNearer(r: Router, req: Request, now: int, t: nat)
    requires Sound(r) && r.cfg.enabled && r.cfg.strategy.RoundRobin?
    requires Plain(req) && t < |r.accounts| && Available(r.accounts[t], req, now)
    requires Acquire(r, req, now).1 != Some(Lease(r.nextLease, r.accounts[t].member.id))
    ensures Distance(Acquire(r, req, now).0, t) < Distance(r, t)
  {
    PlainTakesTheBest(r, req, now, t);
    var i := Choice(r, req, Candidates(r, req, now).1).value;
    AcquireIsSound(r, req, now);
    ChosenIsNearest(r, i, t);
    hide Distance, Before, Candidates, Available, CarriesItsLeases, Known, DistinctKeys, Choice, Remember;
    PassingBringsNearer(r, Acquire(r, req, now).0, i, t);
  }

  ghost function Acquisitions(calls: seq<Call>): nat {
    if calls == [] then 0 else Acquisitions(calls[..|calls| - 1]) + if calls[|calls| - 1].AcquireCall? then 1 else 0
  }

  /** At an acquisition the account t could have been taken, and was not. */
  ghost predicate PassedOver(r: Router, c: Call, t: nat) {
    c.AcquireCall? ==>
      && Plain(c.req) && t < |r.accounts| && Available(r.accounts[t], c.req, c.now)
      && Acquire(r, c.req, c.now).1 != Some(Lease(r.nextLease, r.accounts[t].member.id))
  }

  lemma OtherCallsKeepTheCursor(r: Router, c: Call)
    requires !c.AcquireCall?
    ensures After(r, c).cursor == r.cursor && After(r, c).cfg == r.cfg
  {
  }

  lemma OneCallNearer(r: Router, c: Call, t: nat)
    requires Sound(r) && r.cfg.enabled && r.cfg.strategy.RoundRobin? && t < |r.accounts| && PassedOver(r, c, t)
    ensures |After(r, c).accounts| == |r.accounts| && After(r, c).cfg == r.cfg
    ensures Distance(After(r, c), t) + (if c.AcquireCall? then 1 else 0) <= Distance(r, t)
  {
    CallIsSound(r, c);
    if c.AcquireCall? {
      WaitingComesNearer(r, c.req, c.now, t);
      AcquireKeepsConfig(r, c.req, c.now);
    } else {
      OtherCallsKeepTheCursor(r, c);
    }
  }

  lemma AcquireKeepsConfig(r: Router, req: Request, now: int)
    ensures Acquire(r, req, now).0.cfg == r.cfg
  {
  }

  lemma DistanceBounded(r: Router, t: nat)
    requires t < |r.accounts|
    ensures 0 <= Distance(r, t) < |r.accounts|
  {
  }

  ghost predicate AlwaysPassedOver(r: Router, calls: seq<Call>, t: nat) {
    forall k | 0 <= k < |calls| :: PassedOver(Play(r, calls[..k]), calls[k], t)
  }

  lemma PassedOverBefore(r: Router, calls: seq<Call>, t: nat)
    requires calls != [] && AlwaysPassedOver(r, calls, t)
    ensures var n := |calls| - 1; AlwaysPassedOver(r, calls[..n], t) && PassedOver(Play(r, calls[..n]), calls[n], t)
  {
    var n := |calls| - 1;
    forall k | 0 <= k < n ensures PassedOver(Play(r, calls[..n][..k]), calls[..n][k], t) {
      assert calls[..n][..k] == calls[..k];
      assert PassedOver(Play(r, calls[..k]), calls[k], t);
    }
  }

  /**
   * An account that is available at every acquisition is passed over fewer
   * times than there are accounts, whatever happens to the others; every
   * acquisition in between succeeds.
   */
  lemma {:induction false} RoundRobinStarvesNobody(r: Router, calls: seq<Call>, t: nat)
    requires Sound(r) && r.cfg.enabled && r.cfg.strategy.RoundRobin? && t < |r.accounts|
    requires AlwaysPassedOver(r, calls, t)
    ensures Play(r, calls).cfg == r.cfg && |Play(r, calls).accounts| == |r.accounts|
    ensures Acquisitions(calls) + Distance(Play(r, calls), t) <= Distance(r, t) < |r.accounts|
  {
    DistanceBounded(r, t);
    if calls != [] {
      var n := |calls| - 1;
      PassedOverBefore(r, calls, t);
      RoundRobinStarvesNobody(r, calls[..n], t);
      LeasesAlwaysBalance(r, calls[..n]);
      OneCallNearer(Play(r, calls[..n]), calls[n], t);
    }
  }

  // ---------------------------------------------------------------- what blocks an account

  ghost function FailAll(cfg: Config, a: Account, failures: seq<(Failure, int)>): Account {
    if failures == [] then a
    else
      var n := |failures| - 1;
      Failed(cfg, FailAll(cfg, a, failures[..n]), failures[n].0, failures[n].1)
  }

  predicate SaysUncertain(f: Failure) {
    !f.disabled && !f.authRequired && ClassOf(f) == AuthUncertain
  }

  predicate SaysDefinite(f: Failure) {
    !f.disabled && (f.authRequired || ClassOf(f) == AuthDefinite)
  }

  /** Failures that say nothing about credentials or the transport leave the strikes as they are. */
  predicate SaysNothing(f: Failure) {
    !f.disabled && !f.authRequired && (ClassOf(f) == Client || ClassOf(f) == Unknown)
  }

  /** How many failures at the end are of one kind, not counting those that say nothing. */
  ghost function Streak(failures: seq<(Failure, int)>, uncertain: bool): nat {
    if failures == [] then 0
    else
      var n := |failures| - 1;
      var f := failures[n].0;
      if (if uncertain then SaysUncertain(f) else SaysDefinite(f)) then Streak(failures[..n], uncertain) + 1
      else if SaysNothing(f) || (!uncertain && NeitherResetsDefinite(f)) then Streak(failures[..n], uncertain)
      else 0
  }

  /** Transport failures reset the soft and uncertain counts but not the definite one. */
  predicate NeitherResetsDefinite(f: Failure) {
    !f.disabled && !f.authRequired && (ClassOf(f) == Network || ClassOf(f) == RateLimit || ClassOf(f) == Server)
  }

  lemma StrikesStep(cfg: Config, a: Account, f: Failure, now: int)
    ensures var t := Failed(cfg, a, f, now);
            && t.uncertainStrikes == (if SaysUncertain(f) then Strike(a.uncertainStrikes) else if SaysNothing(f) then a.uncertainStrikes else 0)
            && t.definiteStrikes == (if SaysDefinite(f) then Strike(a.definiteStrikes)
                                     else if SaysNothing(f) || NeitherResetsDefinite(f) then a.definiteStrikes else 0)
  {
    hide Delay, Retryable;
  }

  /** The strike counters are the lengths of the present streaks. */
  lemma {:induction false} StrikesAreStreaks(cfg: Config, a: Account, failures: seq<(Failure, int)>)
    requires a.uncertainStrikes == 0 && a.definiteStrikes == 0
    ensures FailAll(cfg, a, failures).uncertainStrikes == Min(31, Streak(failures, true))
    ensures FailAll(cfg, a, failures).definiteStrikes == Min(31, Streak(failures, false))
  {
    if failures != [] {
      var n := |failures| - 1;
      StrikesAreStreaks(cfg, a, failures[..n]);
      StrikesStep(cfg, FailAll(cfg, a, failures[..n]), failures[n].0, failures[n].1);
      hide Failed, ClassOf;
    }
  }

  /** A failure blocks an account that was not blocked exactly when it completes a streak of the required length. */
  lemma BlockedExactlyWhen(cfg: Config, a: Account, failures: seq<(Failure, int)>, f: Failure, now: int)
    requires a.uncertainStrikes == 0 && a.definiteStrikes == 0 && cfg.definiteRequired <= 31 && cfg.uncertainRequired <= 31
    requires !FailAll(cfg, a, failures).authRequired
    ensures FailAll(cfg, a, failures + [(f, now)]).authRequired <==>
              || (SaysUncertain(f) && Streak(failures + [(f, now)], true) >= cfg.uncertainRequired)
              || (SaysDefinite(f) && Streak(failures + [(f, now)], false) >= cfg.definiteRequired)
  {
    var all := failures + [(f, now)];
    assert all[..|all| - 1] == failures;
    StrikesAreStreaks(cfg, a, all);
  }

  /** Transport and soft failures alone never block or disable an account. */
  lemma {:induction false} SoftFailuresNeverBlock(cfg: Config, a: Account, failures: seq<(Failure, int)>)
    requires !a.authRequired
    requires forall k | 0 <= k < |failures| :: !failures[k].0.disabled && !SaysUncertain(failures[k].0) && !SaysDefinite(failures[k].0)
    ensures !FailAll(cfg, a, failures).authRequired && FailAll(cfg, a, failures).member == a.member
  {
    if failures != [] {
      SoftFailuresNeverBlock(cfg, a, failures[..|failures| - 1]);
    }
  }

  /** A rejected credential, counted with the one reported now, that reaches the strikes its kind requires. */
  predicate Rejects(cfg: Config, a: Account, f: Failure) {
    || (SaysDefinite(f) && Strike(a.definiteStrikes) >= cfg.definiteRequired)
    || (SaysUncertain(f) && Strike(a.uncertainStrikes) >= cfg.uncertainRequired)
  }

  /**
   * Whether an account is blocked after any failure, blocked before or not: a
   * block stands only through a rejection that reaches its strikes, or a failure
   * that says nothing and asks for no waiting time.  Every other failure lifts
   * it, an authentication failure under its threshold included.
   */
  lemma BlockAfterFailureExactlyWhen(cfg: Config, a: Account, f: Failure, now: int)
    ensures Failed(cfg, a, f, now).authRequired <==>
              Rejects(cfg, a, f) || (a.authRequired && SaysNothing(f) && !Retryable(ClassOf(f), f))
    ensures Failed(cfg, a, f, now).member.enabled <==> a.member.enabled && !f.disabled
  {
    hide Delay;
  }

  /** So any failure of a request still in flight, other than those two kinds, makes an account ready again whose credential was rejected. */
  lemma LateFailureLiftsTheBlock(cfg: Config, a: Account, f: Failure, now: int, later: int)
    requires a.authRequired && a.member.enabled && later >= Failed(cfg, a, f, now).cooldownUntil
    ensures StatusOf(a, now) == AuthRequired
    ensures StatusOf(Failed(cfg, a, f, now), later) == Ready <==>
              !f.disabled && !Rejects(cfg, a, f) && !(SaysNothing(f) && !Retryable(ClassOf(f), f))
  {
    BlockAfterFailureExactlyWhen(cfg, a, f, now);
    hide Failed, ClassOf, Retryable;
  }

  /** For example an uncertain rejection that is one short of the two it takes. */
  lemma UnderThresholdLiftsTheBlock(cfg: Config, a: Account, f: Failure, now: int)
    requires a.authRequired && a.uncertainStrikes == 0 && cfg.uncertainRequired == 2 && SaysUncertain(f)
    ensures !Failed(cfg, a, f, now).authRequired
  {
    BlockAfterFailureExactlyWhen(cfg, a, f, now);
  }

  /** A cooldown lasts at least the base time and at most the longest, unless the base is longer. */
  lemma CooldownIsBounded(cfg: Config, a: Account, c: FailureClass, f: Failure, now: int)
    ensures var base := if Networkish(c, f) then cfg.networkCooldownMs else cfg.baseCooldownMs;
            now + base <= Cool(cfg, a, c, f, now).cooldownUntil <= now + Max(cfg.maxCooldownMs, base)
  {
  }
}
