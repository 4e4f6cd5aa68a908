/**
 * What the broker keeps: every live lease holds one router lease of its own, is
 * the only one of its account, and carries the present generation of an
 * account whose stored credential is verified.
 */
module BrokerGuarantees {
  import opened Common
  import opened AccountRouting
  import opened RoutingGuarantees
  import opened OrganizationBroker

  // ---------------------------------------------------------------- the router beneath fits

  ghost predicate DistinctAccounts(cfg: OrgConfig) {
    forall i, j | 0 <= i < j < |cfg.accounts| :: cfg.accounts[i].id != cfg.accounts[j].id
  }

  /** The router has the broker's accounts, one request each, and none enabled that the broker has disabled. */
  ghost predicate MemberFits(m: Member, a: OrgAccount) {
    m.id == a.id && m.maxConcurrency == 1 && (m.enabled ==> a.enabled)
  }

  /** No enabled account of the router is blocked, save perhaps the one named. */
  ghost predicate BlocksFit(r: Router, blocks: map<string, Block>, save: Option<string>) {
    forall i | 0 <= i < |r.accounts| :: UnblockedMember(r.accounts[i].member, blocks, save)
  }

  ghost predicate UnblockedMember(m: Member, blocks: map<string, Block>, save: Option<string>) {
    m.enabled ==> m.id !in blocks || Some(m.id) == save
  }

  ghost predicate Fits(b: Broker) {
    |b.router.accounts| == |b.cfg.accounts|
    && forall i | 0 <= i < |b.cfg.accounts| :: MemberFits(b.router.accounts[i].member, b.cfg.accounts[i])
  }

  /** The lease's own router lease is out, on the same account. */
  ghost predicate Held(r: Router, record: LeaseRecord) {
    record.routerLease in r.active && r.active[record.routerLease] == record.account
  }

  ghost predicate DistinctLeases(leases: seq<LeaseRecord>) {
    && (forall i, j | 0 <= i < j < |leases| :: leases[i].id != leases[j].id)
    && (forall i, j | 0 <= i < j < |leases| :: leases[i].routerLease != leases[j].routerLease)
  }

  ghost predicate Structure(b: Broker) {
    && Sound(b.router) && DistinctAccounts(b.cfg) && Fits(b) && DistinctLeases(b.leases)
    && (forall i | 0 <= i < |b.leases| :: Held(b.router, b.leases[i]))
    && (b.closed ==> b.leases == [])
  }

  ghost predicate LiveLease(b: Broker, r: LeaseRecord) {
    r.generation == Generation(b, r.account) && Verified(b, r.account) && r.account !in b.blocks
  }

  ghost predicate Fenced(b: Broker) {
    Structure(b) && BlocksFit(b.router, b.blocks, None) && forall i | 0 <= i < |b.leases| :: LiveLease(b, b.leases[i])
  }

  /** The router's members, but that accounts may have been disabled. */
  ghost predicate MembersKept(t: Router, r: Router) {
    |t.accounts| == |r.accounts| && forall i | 0 <= i < |r.accounts| ::
      t.accounts[i].member == r.accounts[i].member || t.accounts[i].member == r.accounts[i].member.(enabled := false)
  }

  lemma AcquireKeepsMembers(r: Router, req: Request, now: int)
    ensures MembersKept(Acquire(r, req, now).0, r)
  {
  }

  lemma ReleaseKeepsMembers(r: Router, lease: nat)
    ensures MembersKept(Release(r, lease).0, r)
  {
  }

  lemma SuccessKeepsMembers(r: Router, account: string, session: string, now: int)
    ensures MembersKept(ReportSuccess(r, account, session, now), r) && ReportSuccess(r, account, session, now).active == r.active
  {
  }

  lemma FailedKeepsMember(cfg: Config, a: Account, f: Failure, now: int)
    ensures var t := Failed(cfg, a, f, now); t.member == a.member || t.member == a.member.(enabled := false)
  {
    hide Delay, Retryable, ClassOf;
  }

  lemma FailureKeepsMembers(r: Router, account: string, f: Failure, now: int)
    ensures MembersKept(ReportFailure(r, account, f, now), r) && ReportFailure(r, account, f, now).active == r.active
  {
    var i := IndexOf(r.accounts, account);
    if i < |r.accounts| { FailedKeepsMember(r.cfg, r.accounts[i], f, now); }
    hide Failed;
  }

  lemma BlocksStillFit(t: Router, r: Router, blocks: map<string, Block>, save: Option<string>)
    requires BlocksFit(r, blocks, save) && MembersKept(t, r)
    ensures BlocksFit(t, blocks, save)
  {
    forall i | 0 <= i < |t.accounts| ensures UnblockedMember(t.accounts[i].member, blocks, save) {
      assert UnblockedMember(r.accounts[i].member, blocks, save);
    }
  }

  lemma StillFits(b: Broker, router: Router)
    requires Fits(b) && MembersKept(router, b.router)
    ensures Fits(b.(router := router))
  {
    forall i | 0 <= i < |b.cfg.accounts| ensures MemberFits(router.accounts[i].member, b.cfg.accounts[i]) {
      assert MemberFits(b.router.accounts[i].member, b.cfg.accounts[i]);
    }
  }

  /** A report to the router touches no lease. */
  lemma ReportKeepsStructure(b: Broker, router: Router)
    requires Structure(b) && Sound(router) && MembersKept(router, b.router) && router.active == b.router.active
    ensures Structure(b.(router := router))
  {
    StillFits(b, router);
    forall i | 0 <= i < |b.leases| ensures Held(router, b.leases[i]) {
      assert Held(b.router, b.leases[i]);
    }
    hide Held, DistinctLeases, Sound, Fits;
  }

  lemma RouterFailureKeeps(b: Broker, id: string, f: Failure, now: int)
    requires Structure(b)
    ensures Structure(RouterFailure(b, id, f, now))
  {
    FailureIsSound(b.router, id, f, now);
    FailureKeepsMembers(b.router, id, f, now);
    hide ReportFailure;
    ReportKeepsStructure(b, ReportFailure(b.router, id, f, now));
  }

  // ---------------------------------------------------------------- one lease an account

  lemma OnlyMember(s: set<nat>, x: nat, y: nat)
    requires x in s && y in s && |s| <= 1
    ensures x == y
  {
    if x != y {
      assert {x, y} <= s;
      assert |{x, y}| == 2;
      Smaller({x, y}, s);
    }
  }

  lemma {:induction false} Smaller(a: set<nat>, b: set<nat>)
    requires a <= b
    ensures |a| <= |b|
  {
    if a != {} {
      var x :| x in a;
      Smaller(a - {x}, b - {x});
    }
  }

  lemma MemberIndex(b: Broker, id: string)
    requires Structure(b) && Known(b.router.accounts, id)
    ensures |LeasesOf(b.router.active, id)| <= 1
  {
    var k := IndexOf(b.router.accounts, id);
    assert MemberFits(b.router.accounts[k].member, b.cfg.accounts[k]);
    assert CarriesItsLeases(b.router.accounts[k], b.router.active);
  }

  /** No account has two live leases. */
  lemma OneLeaseAnAccount(b: Broker, i: nat, j: nat)
    requires Structure(b) && i < j < |b.leases|
    ensures b.leases[i].account != b.leases[j].account
  {
    var x, y := b.leases[i], b.leases[j];
    assert Held(b.router, x) && Held(b.router, y);
    if x.account == y.account {
      MemberIndex(b, x.account);
      OnlyMember(LeasesOf(b.router.active, x.account), x.routerLease, y.routerLease);
    }
  }

  // ---------------------------------------------------------------- stopping leases

  lemma DistinctAfter(leases: seq<LeaseRecord>, k: nat)
    requires DistinctLeases(leases) && k < |leases|
    ensures var less := leases[..k] + leases[k + 1..];
            && DistinctLeases(less)
            && forall i | 0 <= i < |less| :: less[i] in leases && less[i].routerLease != leases[k].routerLease
  {
    var less := leases[..k] + leases[k + 1..];
    forall i | 0 <= i < |less| ensures less[i] in leases && less[i].routerLease != leases[k].routerLease {
      assert less[i] == leases[if i < k then i else i + 1];
    }
  }

  lemma HeldAfter(r: Router, lease: nat, record: LeaseRecord)
    requires Held(r, record) && record.routerLease != lease
    ensures Held(Release(r, lease).0, record)
  {
  }

  lemma StopAtKeeps(b: Broker, k: nat)
    requires Structure(b) && k < |b.leases|
    ensures var t := StopAt(b, k);
            Structure(t) && t == b.(leases := t.leases, router := t.router) && MembersKept(t.router, b.router)
  {
    var lease := b.leases[k].routerLease;
    var t := StopAt(b, k);
    ReleaseIsSound(b.router, lease);
    ReleaseKeepsMembers(b.router, lease);
    DistinctAfter(b.leases, k);
    StillFits(b, t.router);
    hide Sound, Fits, Held, Release, DistinctLeases, DistinctAccounts, MembersKept;
    forall i | 0 <= i < |t.leases| ensures Held(t.router, t.leases[i]) {
      HeldAfter(b.router, lease, t.leases[i]);
    }
  }

  lemma MembersKeptTwice(a: Router, b: Router, c: Router)
    requires MembersKept(b, a) && MembersKept(c, b)
    ensures MembersKept(c, a)
  {
  }

  predicate Matches(r: LeaseRecord, account: Option<string>) {
    account.None? || r.account == account.value
  }

  lemma RemovedRecord(leases: seq<LeaseRecord>, k: nat)
    requires k < |leases|
    ensures forall r :: r in leases <==> r in (leases[..k] + leases[k + 1..]) || r == leases[k]
  {
    assert leases == leases[..k] + [leases[k]] + leases[k + 1..];
  }

  /** Stopping removes exactly the matching leases. */
  lemma {:induction false} StopFromKeeps(b: Broker, k: nat, account: Option<string>)
    requires Structure(b) && k <= |b.leases| && forall i | 0 <= i < k :: !Matches(b.leases[i], account)
    ensures var t := StopFrom(b, k, account);
            && Structure(t) && t == b.(leases := t.leases, router := t.router) && MembersKept(t.router, b.router)
            && (forall r :: r in t.leases <==> r in b.leases && !Matches(r, account))
            && (account.None? && k == 0 ==> t.leases == [])
    decreases |b.leases| - k
  {
    hide Structure, MembersKept;
    if k == |b.leases| {
      SameMembersKept(b.router);
    } else if Matches(b.leases[k], account) {
      var s := StopAt(b, k);
      StopAtKeeps(b, k);
      RemovedRecord(b.leases, k);
      StopFromKeeps(s, k, account);
      MembersKeptTwice(b.router, s.router, StopFrom(s, k, account).router);
    } else {
      StopFromKeeps(b, k + 1, account);
    }
  }

  lemma {:induction false} StopFromFields(b: Broker, k: nat, account: Option<string>)
    requires k <= |b.leases|
    ensures var t := StopFrom(b, k, account); t == b.(leases := t.leases, router := t.router)
    decreases |b.leases| - k
  {
    hide Release;
    if k == |b.leases| {
    } else if account.None? || b.leases[k].account == account.value {
      StopFromFields(StopAt(b, k), k, account);
    } else {
      StopFromFields(b, k + 1, account);
    }
  }

  lemma SameMembersKept(r: Router)
    ensures MembersKept(r, r)
  {
  }

  /** A fence leaves the leases of other accounts and no lease of its own. */
  lemma FenceKeeps(b: Broker, id: string)
    requires Structure(b)
    ensures var t := Fence(b, id);
            && Structure(t) && MembersKept(t.router, b.router)
            && t == Bump(b, id).(leases := t.leases, router := t.router, operations := AbortOperations(b.operations, Some(id)))
            && (forall r :: r in t.leases <==> r in b.leases && r.account != id)
  {
    var bumped := Bump(b, id).(operations := AbortOperations(b.operations, Some(id)));
    assert Structure(bumped);
    hide Structure, MembersKept;
    StopFromKeeps(bumped, 0, Some(id));
  }

  /** What a call may change before the fence of one account: only that account's own entries. */
  ghost predicate SameElsewhere(t: Broker, b: Broker, id: string) {
    && t.leases == b.leases && t.generations == b.generations && t.router == b.router
    && (forall x | x != id :: (x in t.verifications <==> x in b.verifications) && (x in b.verifications ==> t.verifications[x] == b.verifications[x]))
    && (forall x | x != id :: x in t.secrets <==> x in b.secrets)
    && (forall x | x != id :: x in t.blocks <==> x in b.blocks)
  }

  lemma OtherLeaseLives(t: Broker, b: Broker, r: LeaseRecord, id: string)
    requires SameElsewhere(t, b, id) && LiveLease(b, r) && r.account != id
    ensures LiveLease(Bump(t, id), r)
  {
  }

  lemma SameLease(t: Broker, b: Broker, r: LeaseRecord)
    requires t.generations == b.generations && t.verifications == b.verifications && t.secrets == b.secrets && t.blocks == b.blocks
    ensures LiveLease(t, r) <==> LiveLease(b, r)
  {
  }

  /** Disabling the account in the router makes good for a block set before. */
  lemma DisabledFits(r: Router, blocks: map<string, Block>, id: string, f: Failure, now: int)
    requires Members(r.accounts) && BlocksFit(r, blocks, Some(id)) && f.disabled
    ensures BlocksFit(ReportFailure(r, id, f, now), blocks, None)
  {
    hide Delay, ClassOf, Retryable;
    var t := ReportFailure(r, id, f, now);
    forall i | 0 <= i < |t.accounts| ensures UnblockedMember(t.accounts[i].member, blocks, None) {
      IndexIs(r.accounts, i);
      assert UnblockedMember(r.accounts[i].member, blocks, Some(id));
    }
  }

  lemma ElsewhereFits(b: Broker, t: Broker, id: string)
    requires BlocksFit(b.router, b.blocks, None) && SameElsewhere(t, b, id)
    ensures BlocksFit(t.router, t.blocks, Some(id)) && (id !in t.blocks || id in b.blocks ==> BlocksFit(t.router, t.blocks, None))
  {
    forall i | 0 <= i < |t.router.accounts|
      ensures UnblockedMember(t.router.accounts[i].member, t.blocks, Some(id))
      ensures id !in t.blocks || id in b.blocks ==> UnblockedMember(t.router.accounts[i].member, t.blocks, None)
    {
      assert UnblockedMember(b.router.accounts[i].member, b.blocks, None);
    }
  }

  /** After an account's entries change, fencing it and telling the router leaves only live leases. */
  lemma FenceRestores(b: Broker, t: Broker, id: string, f: Failure, now: int)
    requires Fenced(b) && Structure(t) && SameElsewhere(t, b, id) && (id !in t.blocks || id in b.blocks || f.disabled)
    ensures Fenced(RouterFailure(Fence(t, id), id, f, now))
    ensures forall r :: r in RouterFailure(Fence(t, id), id, f, now).leases <==> r in b.leases && r.account != id
  {
    FenceKeeps(t, id);
    var s := Fence(t, id);
    RouterFailureKeeps(s, id, f, now);
    var u := RouterFailure(s, id, f, now);
    assert u == s.(router := u.router);
    FencedRouterFits(b, t, id, f, now);
    hide Fence, RouterFailure, Structure, BlocksFit;
    forall i | 0 <= i < |u.leases| ensures LiveLease(u, u.leases[i]) {
      var r := u.leases[i];
      assert r in s.leases;
      AllLive(b, r);
      OtherLeaseLives(t, b, r, id);
      SameLease(u, Bump(t, id), r);
      hide LiveLease;
    }
  }

  lemma FencedRouterFits(b: Broker, t: Broker, id: string, f: Failure, now: int)
    requires Fenced(b) && Structure(t) && SameElsewhere(t, b, id) && (id !in t.blocks || id in b.blocks || f.disabled)
    ensures BlocksFit(ReportFailure(Fence(t, id).router, id, f, now), t.blocks, None)
  {
    var s := Fence(t, id).router;
    FenceKeeps(t, id);
    ElsewhereFits(b, t, id);
    FailureKeepsMembers(s, id, f, now);
    hide Fence, ReportFailure, BlocksFit, MembersKept, LiveLease;
    if f.disabled {
      BlocksStillFit(s, t.router, t.blocks, Some(id));
      DisabledFits(s, t.blocks, id, f, now);
    } else {
      BlocksStillFit(s, t.router, t.blocks, None);
      BlocksStillFit(ReportFailure(s, id, f, now), s, t.blocks, None);
    }
  }

  lemma AllLive(b: Broker, r: LeaseRecord)
    requires Fenced(b) && r in b.leases
    ensures LiveLease(b, r)
  {
  }

  // ---------------------------------------------------------------- taking a lease

  lemma NotExcludedIsVerified(b: Broker, req: LeaseRequest, i: nat)
    requires i < |b.cfg.accounts| && b.cfg.accounts[i].id !in Excluded(b, req)
    ensures Verified(b, b.cfg.accounts[i].id)
  {
  }

  /** The router only ever grants a verified account that is not blocked. */
  lemma GrantIsVerified(b: Broker, req: LeaseRequest, now: int)
    requires Structure(b) && BlocksFit(b.router, b.blocks, None) && Acquire(b.router, RouterRequest(b, req), now).1.Some?
    ensures var lease := Acquire(b.router, RouterRequest(b, req), now).1.value;
            && Verified(b, lease.account) && lease.account !in b.blocks && lease.account !in req.excluded
            && lease.id == b.router.nextLease && lease.id !in b.router.active && HasAccount(b.cfg, lease.account)
  {
    var r := RouterRequest(b, req);
    CandidatesAreAvailable(b.router, r, now);
    var candidates := Candidates(b.router, r, now).1;
    var i := Choice(b.router, r, candidates).value;
    assert i in candidates;
    assert Available(b.router.accounts[i], r, now);
    assert MemberFits(b.router.accounts[i].member, b.cfg.accounts[i]);
    assert UnblockedMember(b.router.accounts[i].member, b.blocks, None);
    NotExcludedIsVerified(b, req, i);
  }

  lemma GrantedActive(r: Router, req: Request, now: int)
    ensures var (t, lease) := Acquire(r, req, now);
            t.active == if lease.Some? then r.active[lease.value.id := lease.value.account] else r.active
  {
    hide Candidates, Remember;
  }

  /** A router call that only adds leases keeps those that are held. */
  lemma GrantKeepsStructure(b: Broker, req: LeaseRequest, now: int)
    requires Structure(b)
    ensures Structure(b.(router := Acquire(b.router, RouterRequest(b, req), now).0))
  {
    var r := RouterRequest(b, req);
    var (router, lease) := Acquire(b.router, r, now);
    AcquireIsSound(b.router, r, now);
    AcquireKeepsMembers(b.router, r, now);
    GrantedActive(b.router, r, now);
    GrantIsNew(b.router, r, now);
    hide Acquire;
    StillFits(b, router);
    forall i | 0 <= i < |b.leases| ensures Held(router, b.leases[i]) {
      assert Held(b.router, b.leases[i]);
    }
    hide Sound, Fits, Held;
  }

  lemma GrantIsNew(r: Router, req: Request, now: int)
    requires Sound(r)
    ensures var lease := Acquire(r, req, now).1; lease.Some? ==> lease.value.id == r.nextLease && lease.value.id !in r.active
  {
    hide Candidates, Take;
  }

  lemma GiveBackKeepsStructure(b: Broker, lease: nat)
    requires Structure(b) && forall i | 0 <= i < |b.leases| :: b.leases[i].routerLease != lease
    ensures Structure(b.(router := Release(b.router, lease).0))
  {
    ReleaseIsSound(b.router, lease);
    ReleaseKeepsMembers(b.router, lease);
    StillFits(b, Release(b.router, lease).0);
    hide Sound, Fits, Held, Release, DistinctLeases;
    forall i | 0 <= i < |b.leases| ensures Held(Release(b.router, lease).0, b.leases[i]) {
      HeldAfter(b.router, lease, b.leases[i]);
    }
  }

  lemma SameLeasesLive(t: Broker, b: Broker)
    requires Fenced(b) && Structure(t) && t.leases == b.leases && MembersKept(t.router, b.router)
    requires t.generations == b.generations && t.verifications == b.verifications && t.secrets == b.secrets && t.blocks == b.blocks
    ensures Fenced(t)
  {
    BlocksStillFit(t.router, b.router, b.blocks, None);
    hide Structure, BlocksFit;
    forall i | 0 <= i < |t.leases| ensures LiveLease(t, t.leases[i]) {
      assert LiveLease(b, b.leases[i]);
    }
  }

  /** A granted router lease is new, so it can be given back or be held by a new record. */
  lemma GrantIsFree(b: Broker, req: LeaseRequest, now: int)
    requires Fenced(b) && Acquire(b.router, RouterRequest(b, req), now).1.Some?
    ensures var (router, lease) := Acquire(b.router, RouterRequest(b, req), now);
            && (forall i | 0 <= i < |b.leases| :: b.leases[i].routerLease != lease.value.id)
            && lease.value.id in router.active && router.active[lease.value.id] == lease.value.account
  {
    GrantIsVerified(b, req, now);
    GrantedActive(b.router, RouterRequest(b, req), now);
    hide Acquire;
    forall i | 0 <= i < |b.leases| ensures Held(b.router, b.leases[i]) {
    }
  }

  lemma GivenBackKeepsFence(b: Broker, req: LeaseRequest, now: int)
    requires Fenced(b) && Acquire(b.router, RouterRequest(b, req), now).1.Some?
    ensures var (router, lease) := Acquire(b.router, RouterRequest(b, req), now);
            Fenced(b.(router := Release(router, lease.value.id).0))
  {
    var (router, lease) := Acquire(b.router, RouterRequest(b, req), now);
    GrantKeepsStructure(b, req, now);
    GrantIsFree(b, req, now);
    AcquireKeepsMembers(b.router, RouterRequest(b, req), now);
    ReleaseKeepsMembers(router, lease.value.id);
    hide Acquire, Release, Structure, RouterRequest, MembersKept;
    GiveBackKeepsStructure(b.(router := router), lease.value.id);
    var back := Release(router, lease.value.id).0;
    assert b.(router := router).(router := back) == b.(router := back);
    MembersKeptTwice(b.router, router, back);
    SameLeasesLive(b.(router := back), b);
  }

  lemma GrantedKeepsFence(b: Broker, req: LeaseRequest, now: int)
    requires Fenced(b)
    ensures Fenced(b.(router := Acquire(b.router, RouterRequest(b, req), now).0))
  {
    GrantKeepsStructure(b, req, now);
    AcquireKeepsMembers(b.router, RouterRequest(b, req), now);
    hide Acquire, Structure, RouterRequest, MembersKept;
    SameLeasesLive(b.(router := Acquire(b.router, RouterRequest(b, req), now).0), b);
  }

  lemma LeasedKeepsFence(b: Broker, req: LeaseRequest, now: int, id: string)
    requires Fenced(b) && !b.closed && !OpaqueIdUsed(b, id) && Acquire(b.router, RouterRequest(b, req), now).1.Some?
    ensures var (router, lease) := Acquire(b.router, RouterRequest(b, req), now);
            var record := LeaseRecord(id, lease.value.id, lease.value.account, Generation(b, lease.value.account));
            Fenced(b.(router := router, leases := b.leases + [record]))
  {
    var (router, lease) := Acquire(b.router, RouterRequest(b, req), now);
    GrantedKeepsFence(b, req, now);
    GrantIsFree(b, req, now);
    GrantIsVerified(b, req, now);
    hide Acquire, Structure, RouterRequest, BlocksFit;
    var t := b.(router := router);
    var record := LeaseRecord(id, lease.value.id, lease.value.account, Generation(b, lease.value.account));
    SameLease(t, b, record);
    NewLeaseKeepsFence(t, record);
    assert t.(leases := t.leases + [record]) == b.(router := router, leases := b.leases + [record]);
  }

  lemma NewLeaseKeepsFence(b: Broker, record: LeaseRecord)
    requires Fenced(b) && !b.closed && Held(b.router, record) && LiveLease(b, record)
    requires forall i | 0 <= i < |b.leases| :: b.leases[i].id != record.id && b.leases[i].routerLease != record.routerLease
    ensures Fenced(b.(leases := b.leases + [record]))
  {
    var t := b.(leases := b.leases + [record]);
    assert Fits(t);
    hide Sound, Held, BlocksFit;
    forall i | 0 <= i < |t.leases| ensures LiveLease(t, t.leases[i]) {
      SameLease(t, b, t.leases[i]);
      if i < |b.leases| { assert LiveLease(b, b.leases[i]); }
      hide LiveLease;
    }
    hide LiveLease;
  }

  lemma AcquireKeepsFence(b: Broker, req: LeaseRequest, now: int, drawn: Option<string>, aborted: bool)
    requires Fenced(b)
    ensures Fenced(AcquireLease(b, req, now, drawn, aborted).0)
  {
    GrantedKeepsFence(b, req, now);
    if !b.closed && Acquire(b.router, RouterRequest(b, req), now).1.Some? {
      GivenBackKeepsFence(b, req, now);
      if drawn.Some? && !OpaqueIdUsed(b, drawn.value) { LeasedKeepsFence(b, req, now, drawn.value); }
    }
    hide Acquire, Release, Fenced, RouterRequest, OpaqueIdUsed, Verified;
  }

  // ---------------------------------------------------------------- using a lease

  lemma StopKeepsFence(b: Broker, k: nat)
    requires Fenced(b) && k < |b.leases|
    ensures Fenced(StopAt(b, k))
  {
    StopAtKeeps(b, k);
    var t := StopAt(b, k);
    BlocksStillFit(t.router, b.router, b.blocks, None);
    assert t.generations == b.generations && t.verifications == b.verifications && t.secrets == b.secrets && t.blocks == b.blocks;
    assert t.leases == b.leases[..k] + b.leases[k + 1..];
    hide Structure, BlocksFit, MembersKept, LiveLease, StopAt;
    forall i | 0 <= i < |t.leases| ensures LiveLease(t, t.leases[i]) {
      assert t.leases[i] == b.leases[if i < k then i else i + 1];
      SameLease(t, b, t.leases[i]);
    }
  }

  /** In a fenced broker a known lease is never stale. */
  lemma LiveRecordIsFound(b: Broker, id: string)
    requires Fenced(b)
    ensures var (t, r) := LiveRecord(b, id);
            var k := FindLease(b.leases, id);
            t == b && (if k < |b.leases| then r == Ok(b.leases[k]) && LiveLease(b, b.leases[k]) else r == Err(LeaseNotFound))
  {
    var k := FindLease(b.leases, id);
    if k < |b.leases| { assert LiveLease(b, b.leases[k]); }
  }

  lemma SuccessKeepsFence(b: Broker, id: string, session: string, now: int)
    requires Fenced(b)
    ensures Fenced(Succeeded(b, id, session, now).0)
  {
    LiveRecordIsFound(b, id);
    var k := FindLease(b.leases, id);
    if !b.closed && k < |b.leases| {
      var account := b.leases[k].account;
      SuccessIsSound(b.router, account, session, now);
      SuccessKeepsMembers(b.router, account, session, now);
      hide ReportSuccess, Structure, LiveRecord, MembersKept, BlocksFit;
      ReportKeepsStructure(b, ReportSuccess(b.router, account, session, now));
      SameLeasesLive(b.(router := ReportSuccess(b.router, account, session, now)), b);
    }
  }

  lemma OtherFailureKeepsFence(b: Broker, id: string, f: Failure, now: int)
    requires Fenced(b)
    ensures Fenced(RouterFailure(b, id, f, now))
  {
    RouterFailureKeeps(b, id, f, now);
    FailureKeepsMembers(b.router, id, f, now);
    hide ReportFailure, Structure, MembersKept, BlocksFit;
    SameLeasesLive(RouterFailure(b, id, f, now), b);
  }

  /** The broker after an entitlement or authentication failure was noted, before the fence. */
  function Noted(b: Broker, account: string, f: OrgFailure): Broker {
    if f.quotaExhausted || f.entitlementDenied
    then b.(blocks := b.blocks[account := if f.quotaExhausted then QuotaExhausted else EntitlementDenied])
    else b.(verifications := b.verifications - {account})
  }

  predicate NeedsFence(f: OrgFailure) {
    f.quotaExhausted || f.entitlementDenied || Authentication(f.failure)
  }

  lemma NotedKeeps(b: Broker, account: string, f: OrgFailure)
    requires Structure(b)
    ensures Structure(Noted(b, account, f)) && SameElsewhere(Noted(b, account, f), b, account)
  {
    hide Sound, DistinctLeases, Held, DistinctAccounts;
  }

  /** A failure that needs a fence leaves only live leases, unless the generations have run out. */
  lemma FailureFences(b: Broker, id: string, f: OrgFailure, now: int)
    requires Fenced(b) && !b.closed && FindLease(b.leases, id) < |b.leases| && NeedsFence(f)
    ensures var account := b.leases[FindLease(b.leases, id)].account;
            Fenced(Refused(b, id, f, now).0) <==> !Exhausted(b, account)
  {
    LiveRecordIsFound(b, id);
    var k := FindLease(b.leases, id);
    var account := b.leases[k].account;
    NotedKeeps(b, account, f);
    var noted := Noted(b, account, f);
    if Exhausted(b, account) {
      assert !LiveLease(noted, noted.leases[k]);
      assert Refused(b, id, f, now).0 == noted;
    } else {
      var safe := f.failure.(invalidKey := false);
      var told := if f.quotaExhausted || f.entitlementDenied then safe.(disabled := true) else safe;
      hide Structure, BlocksFit, Fence, RouterFailure, Exhausted;
      FenceRestores(b, noted, account, told, now);
      assert Refused(b, id, f, now).0 == RouterFailure(Fence(noted, account), account, told, now);
    }
  }

  lemma FailureKeepsFence(b: Broker, id: string, f: OrgFailure, now: int)
    requires Fenced(b)
    ensures var k := FindLease(b.leases, id);
            Fenced(Refused(b, id, f, now).0) <==> (b.closed || k == |b.leases| || !NeedsFence(f) || !Exhausted(b, b.leases[k].account))
  {
    var k := FindLease(b.leases, id);
    if !b.closed {
      LiveRecordIsFound(b, id);
      if k < |b.leases| {
        if NeedsFence(f) {
          FailureFences(b, id, f, now);
        } else {
          OtherFailureKeepsFence(b, b.leases[k].account, f.failure.(invalidKey := false), now);
        }
      }
    }
    hide Fenced, RouterFailure, LiveRecord, Exhausted, Fence;
  }
}
