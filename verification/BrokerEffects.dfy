/**
 * What the calls of the broker do, told by its fields before and after: whom a
 * lease request gets and exactly when it is refused, and what a success, a
 * failure, a check and a revocation leave of an account.
 */
module BrokerEffects {
  import opened Common
  import opened AccountRouting
  import opened RoutingGuarantees
  import opened RoutingEffects
  import opened OrganizationBroker
  import opened BrokerGuarantees
  import BrokerHistory

  // ---------------------------------------------------------------- the policy of a lease

  /** The account's policy lets it serve the model and the project. */
  ghost predicate Serves(a: OrgAccount, req: LeaseRequest) {
    && (a.models.None? || (req.model != "" && req.model in a.models.value))
    && (a.projects.None? || (req.project != "" && req.project in a.projects.value))
  }

  /** The stored credential of the account was affirmed in its present generation. */
  ghost predicate Affirmed(b: Broker, id: string) {
    id in b.secrets && id in b.verifications && b.verifications[id] == (if id in b.generations then b.generations[id] else 0)
  }

  lemma NotExcludedServes(b: Broker, req: LeaseRequest, i: nat)
    requires i < |b.cfg.accounts|
    ensures b.cfg.accounts[i].id !in Excluded(b, req) ==>
              Serves(b.cfg.accounts[i], req) && Verified(b, b.cfg.accounts[i].id) && b.cfg.accounts[i].id !in req.excluded
  {
  }

  lemma GrantServes(b: Broker, req: LeaseRequest, now: int) returns (i: nat)
    requires Fenced(b) && Acquire(b.router, RouterRequest(b, req), now).1.Some?
    ensures var lease := Acquire(b.router, RouterRequest(b, req), now).1.value;
            && i < |b.cfg.accounts| && b.cfg.accounts[i].id == lease.account && b.cfg.accounts[i].enabled
            && Serves(b.cfg.accounts[i], req) && Verified(b, lease.account)
            && lease.account !in req.excluded && lease.account !in b.blocks
            && (req.account != "" ==> lease.account == req.account)
  {
    var r := RouterRequest(b, req);
    CandidatesAreAvailable(b.router, r, now);
    GrantedExactlyWhen(b.router, r, now);
    var candidates := Candidates(b.router, r, now).1;
    i := Choice(b.router, r, candidates).value;
    assert i in candidates;
    assert Available(b.router.accounts[i], r, now);
    assert MemberFits(b.router.accounts[i].member, b.cfg.accounts[i]);
    assert UnblockedMember(b.router.accounts[i].member, b.blocks, None);
    NotExcludedServes(b, req, i);
  }

  /**
   * A lease that is given is for an enabled account whose policy serves the
   * model and the project, whose credential is affirmed, and which the caller
   * did not exclude; it is recorded with the account's present generation, and
   * nothing else in the broker moves but the router.
   */
  lemma LeaseKeepsThePolicy(b: Broker, req: LeaseRequest, now: int, drawn: Option<string>, aborted: bool, id: string)
    requires Fenced(b)
    requires AcquireLease(b, req, now, drawn, aborted).1 == Ok(Some(id))
    ensures var t := AcquireLease(b, req, now, drawn, aborted).0;
            exists record: LeaseRecord, i ::
              && t == b.(router := t.router, leases := b.leases + [record])
              && record.id == id && drawn == Some(id) && record.generation == Generation(b, record.account)
              && record.routerLease in t.router.active && t.router.active[record.routerLease] == record.account
              && 0 <= i < |b.cfg.accounts| && b.cfg.accounts[i].id == record.account && b.cfg.accounts[i].enabled
              && Serves(b.cfg.accounts[i], req) && Affirmed(b, record.account)
              && record.account !in req.excluded && record.account !in b.blocks
              && (req.account != "" ==> record.account == req.account)
  {
    var i := GrantServes(b, req, now);
    GrantIsFree(b, req, now);
    var (router, lease) := Acquire(b.router, RouterRequest(b, req), now);
    var record := LeaseRecord(id, lease.value.id, lease.value.account, Generation(b, lease.value.account));
    var t := AcquireLease(b, req, now, drawn, aborted).0;
    assert Affirmed(b, record.account);
    hide Acquire, Fenced, RouterRequest, Serves, Release;
    assert t == b.(router := router, leases := b.leases + [record]);
  }

  // ---------------------------------------------------------------- when a request is refused

  /** The member stands for the account, but that it may be disabled. */
  ghost predicate StandsFor(m: Member, a: OrgAccount) {
    m.id == a.id && m.models == a.models && m.weight == a.weight && m.priority == a.priority && m.maxConcurrency == 1
  }

  /** The router beneath runs on the configuration of the broker, and its members stand for the accounts. */
  ghost predicate Mirrors(b: Broker) {
    && b.router.cfg == RouterConfig(b.cfg) && |b.router.accounts| == |b.cfg.accounts|
    && forall i :: 0 <= i < |b.cfg.accounts| ==> StandsFor(b.router.accounts[i].member, b.cfg.accounts[i])
  }

  /** The account at `i` could be leased: affirmed, serving, not excluded, and in the router enabled, ready and free. */
  ghost predicate MayLease(b: Broker, req: LeaseRequest, now: int, i: int) {
    && 0 <= i < |b.cfg.accounts| && i < |b.router.accounts|
    && var (a, s) := (b.cfg.accounts[i], b.router.accounts[i]);
       && Affirmed(b, a.id) && Serves(a, req) && a.id !in req.excluded
       && s.member.enabled && !s.authRequired && s.cooldownUntil <= now && s.inflight == 0
       && (req.account == "" || a.id == req.account)
  }

  lemma MayLeaseIsCanTake(b: Broker, req: LeaseRequest, now: int, i: nat)
    requires Fenced(b) && Mirrors(b) && i < |b.cfg.accounts|
    ensures MayLease(b, req, now, i) <==>
              CanTake(b.router.accounts[i], RouterRequest(b, req), now) && (req.account == "" || b.router.accounts[i].member.id == req.account)
  {
    assert MemberFits(b.router.accounts[i].member, b.cfg.accounts[i]) && StandsFor(b.router.accounts[i].member, b.cfg.accounts[i]);
    assert CarriesItsLeases(b.router.accounts[i], b.router.active);
    ExcludedMeans(b, req, i);
    hide Excluded, Known, BlocksFit, LiveLease;
  }

  lemma ExcludedMeans(b: Broker, req: LeaseRequest, i: nat)
    requires DistinctAccounts(b.cfg) && i < |b.cfg.accounts|
    ensures var a := b.cfg.accounts[i];
            a.id !in Excluded(b, req) <==> a.id !in req.excluded && Verified(b, a.id) && Serves(a, req)
  {
    var a := b.cfg.accounts[i];
    if a.id in Excluded(b, req) && a.id !in req.excluded {
      var k :| 0 <= k < |b.cfg.accounts| && b.cfg.accounts[k].id == a.id
               && (!Verified(b, a.id) || !Allows(b.cfg.accounts[k].models, req.model) || !Allows(b.cfg.accounts[k].projects, req.project));
      assert k == i;
    }
  }

  /**
   * An open broker that can draw an identifier turns a request away exactly when
   * the organization is disabled or no account may be leased for it.
   */
  lemma LeaseRefusedExactlyWhen(b: Broker, req: LeaseRequest, now: int, drawn: Option<string>)
    requires Fenced(b) && Mirrors(b) && !b.closed && drawn.Some? && !OpaqueIdUsed(b, drawn.value)
    ensures AcquireLease(b, req, now, drawn, false).1 == Ok(None) <==> !b.cfg.enabled || forall i :: !MayLease(b, req, now, i)
    ensures AcquireLease(b, req, now, drawn, false).1 != Ok(None) ==> AcquireLease(b, req, now, drawn, false).1 == Ok(drawn)
  {
    RouterGrantsExactlyWhen(b, req, now);
    if Acquire(b.router, RouterRequest(b, req), now).1.Some? { GrantIsVerified(b, req, now); }
    hide Acquire, Fenced, RouterRequest, Release, MayLease, Verified, OpaqueIdUsed, Mirrors;
  }

  lemma RouterGrantsExactlyWhen(b: Broker, req: LeaseRequest, now: int)
    requires Fenced(b) && Mirrors(b)
    ensures Acquire(b.router, RouterRequest(b, req), now).1.Some? <==> b.cfg.enabled && exists i :: MayLease(b, req, now, i)
  {
    var r := RouterRequest(b, req);
    GrantedExactlyWhen(b.router, r, now);
    forall i | 0 <= i < |b.cfg.accounts|
      ensures MayLease(b, req, now, i) <==> CanTake(b.router.accounts[i], r, now) && (r.account == "" || b.router.accounts[i].member.id == r.account)
    {
      MayLeaseIsCanTake(b, req, now, i);
    }
    assert r.account == req.account && b.router.cfg.enabled == b.cfg.enabled;
    hide Acquire, Fenced, RouterRequest, CanTake, Affirmed, Serves;
    if Acquire(b.router, r, now).1.Some? {
      var i :| 0 <= i < |b.router.accounts| && CanTake(b.router.accounts[i], r, now) && (r.account == "" || b.router.accounts[i].member.id == r.account);
      assert MayLease(b, req, now, i);
    }
  }

  // ---------------------------------------------------------------- the router stays a mirror

  /** A router with the same configuration and members, but that accounts may have been disabled. */
  ghost predicate Like(t: Router, r: Router) {
    t.cfg == r.cfg && MembersKept(t, r)
  }

  lemma LikeItself(r: Router)
    ensures Like(r, r)
  {
  }

  lemma LikeTwice(a: Router, b: Router, c: Router)
    requires Like(b, a) && Like(c, b)
    ensures Like(c, a)
  {
  }

  lemma StillMirrors(t: Broker, b: Broker)
    requires Mirrors(b) && t.cfg == b.cfg && Like(t.router, b.router)
    ensures Mirrors(t)
  {
    forall i | 0 <= i < |t.cfg.accounts| ensures StandsFor(t.router.accounts[i].member, t.cfg.accounts[i]) {
      assert StandsFor(b.router.accounts[i].member, b.cfg.accounts[i]);
    }
  }

  lemma RouterCallsAreLike(r: Router, req: Request, lease: nat, account: string, session: string, f: Failure, now: int)
    ensures Like(Acquire(r, req, now).0, r) && Like(Release(r, lease).0, r)
    ensures Like(ReportSuccess(r, account, session, now), r) && Like(ReportFailure(r, account, f, now), r)
  {
    AcquireKeepsMembers(r, req, now);
    AcquireKeepsConfig(r, req, now);
    ReleaseKeepsMembers(r, lease);
    SuccessKeepsMembers(r, account, session, now);
    FailureKeepsMembers(r, account, f, now);
    hide MembersKept, Failed, Candidates, Take;
  }

  lemma {:induction false} StopFromIsLike(b: Broker, k: nat, account: Option<string>)
    requires k <= |b.leases|
    ensures Like(StopFrom(b, k, account).router, b.router) && StopFrom(b, k, account).cfg == b.cfg
    decreases |b.leases| - k
  {
    StopFromFields(b, k, account);
    if k == |b.leases| {
      LikeItself(b.router);
    } else if account.None? || b.leases[k].account == account.value {
      var s := StopAt(b, k);
      ReleaseKeepsMembers(b.router, b.leases[k].routerLease);
      assert Like(s.router, b.router);
      StopFromIsLike(s, k, account);
      hide Like;
      LikeTwice(b.router, s.router, StopFrom(s, k, account).router);
    } else {
      StopFromIsLike(b, k + 1, account);
    }
  }

  lemma FenceIsLike(b: Broker, id: string, f: Failure, now: int)
    ensures Like(RouterFailure(Fence(b, id), id, f, now).router, b.router) && RouterFailure(Fence(b, id), id, f, now).cfg == b.cfg
  {
    var bumped := Bump(b, id).(operations := AbortOperations(b.operations, Some(id)));
    StopFromIsLike(bumped, 0, Some(id));
    var s := Fence(b, id);
    RouterCallsAreLike(s.router, Request("", "", "", {}, ""), 0, id, "", f, now);
    hide Like, ReportFailure, StopFrom, Acquire, Release, ReportSuccess;
    LikeTwice(b.router, s.router, ReportFailure(s.router, id, f, now));
  }

  lemma FailVerificationIsLike(b: Broker, id: string, now: int)
    ensures var t := FailVerification(b, id, now).0; Like(t.router, b.router) && t.cfg == b.cfg
  {
    FenceIsLike(b.(verifications := b.verifications - {id}), id, AUTH_REQUIRED, now);
    LikeItself(b.router);
    hide Like, Fence, RouterFailure, Exhausted;
  }

  lemma LeaseCallsAreLike(b: Broker, op: BrokerHistory.Op)
    requires op.AcquireOp? || op.AssertOp? || op.ReleaseOp? || op.CancelOp? || op.SuccessOp?
    ensures var t := BrokerHistory.Step(b, op); Like(t.router, b.router) && t.cfg == b.cfg
  {
    LikeItself(b.router);
    match op {
      case AcquireOp(req, now, drawn, aborted) =>
        AcquireIsLike(b, req, now, drawn, aborted);
      case SuccessOp(id, session, now) =>
        var t := LiveRecord(b, id).0;
        LiveRecordIsLike(b, id);
        if !b.closed && LiveRecord(b, id).1.Ok? {
          SuccessKeepsMembers(t.router, LiveRecord(b, id).1.value.account, session, now);
        }
      case AssertOp(id) => LiveRecordIsLike(b, id);
      case ReleaseOp(id) => LiveRecordIsLike(b, id);
      case CancelOp(id) => LiveRecordIsLike(b, id);
    }
  }

  lemma LiveRecordIsLike(b: Broker, id: string)
    ensures Like(LiveRecord(b, id).0.router, b.router) && LiveRecord(b, id).0.cfg == b.cfg
    ensures var k := FindLease(b.leases, id); k < |b.leases| ==> Like(StopAt(b, k).router, b.router)
  {
    LikeItself(b.router);
    var k := FindLease(b.leases, id);
    if k < |b.leases| { ReleaseKeepsMembers(b.router, b.leases[k].routerLease); }
  }

  lemma AcquireIsLike(b: Broker, req: LeaseRequest, now: int, drawn: Option<string>, aborted: bool)
    ensures var t := AcquireLease(b, req, now, drawn, aborted).0; Like(t.router, b.router) && t.cfg == b.cfg
  {
    hide Like, Acquire, Release, Verified, OpaqueIdUsed, RouterRequest;
    LikeItself(b.router);
    var (router, lease) := Acquire(b.router, RouterRequest(b, req), now);
    GrantIsLike(b.router, RouterRequest(b, req), now);
    if lease.Some? {
      BackIsLike(router, lease.value.id);
      LikeTwice(b.router, router, Release(router, lease.value.id).0);
    }
  }

  lemma GrantIsLike(r: Router, req: Request, now: int)
    ensures Like(Acquire(r, req, now).0, r)
  {
    AcquireKeepsMembers(r, req, now);
    AcquireKeepsConfig(r, req, now);
    hide Acquire;
  }

  lemma BackIsLike(r: Router, lease: nat)
    ensures Like(Release(r, lease).0, r)
  {
    ReleaseKeepsMembers(r, lease);
  }

  lemma RefusedIsLike(b: Broker, id: string, f: OrgFailure, now: int)
    ensures var t := Refused(b, id, f, now).0; Like(t.router, b.router) && t.cfg == b.cfg
  {
    LiveRecordIsLike(b, id);
    var t := LiveRecord(b, id).0;
    LikeItself(b.router);
    if !b.closed && LiveRecord(b, id).1.Ok? {
      var account := LiveRecord(b, id).1.value.account;
      assert t == b;
      var safe := f.failure.(invalidKey := false);
      var blocked := b.(blocks := b.blocks[account := if f.quotaExhausted then QuotaExhausted else EntitlementDenied]);
      FenceIsLike(blocked, account, safe.(disabled := true), now);
      FenceIsLike(b.(verifications := b.verifications - {account}), account, safe, now);
      FailureKeepsMembers(b.router, account, safe, now);
      assert Like(RouterFailure(b, account, safe, now).router, b.router);
    }
    hide Like, Fence, RouterFailure, Exhausted, LiveRecord;
  }

  lemma StepIsLike(b: Broker, op: BrokerHistory.Op)
    requires !op.ReconfigureOp?
    ensures var t := BrokerHistory.Step(b, op); Like(t.router, b.router) && t.cfg == b.cfg
  {
    LikeItself(b.router);
    if op.AcquireOp? || op.AssertOp? || op.ReleaseOp? || op.CancelOp? || op.SuccessOp? {
      LeaseCallsAreLike(b, op);
    } else if op.FailureOp? {
      RefusedIsLike(b, op.id, op.failure, op.now);
    } else if op.BeginCheckOp? {
      FailVerificationIsLike(b, op.account, op.now);
      hide Like, FailVerification;
    } else if op.EndCheckOp? {
      EndCheckIsLike(b, op.operation, op.affirmed, op.now);
    } else if op.RevokeOp? {
      FenceIsLike(b.(secrets := b.secrets - {op.account}, verifications := b.verifications - {op.account}, blocks := b.blocks - {op.account}),
                  op.account, AUTH_REQUIRED, op.now);
      hide Like, Fence, RouterFailure;
    } else {
      StopFromIsLike(b.(operations := AbortOperations(b.operations, None)), 0, None);
      hide Like, StopFrom;
    }
  }

  lemma EndCheckIsLike(b: Broker, operation: string, affirmed: bool, now: int)
    ensures var t := EndVerification(b, operation, affirmed, now).0; Like(t.router, b.router) && t.cfg == b.cfg
  {
    LikeItself(b.router);
    var k := FindOperation(b.operations, operation);
    if k < |b.operations| {
      var t := BrokerHistory.Ended(b, k);
      FailVerificationIsLike(t, b.operations[k].account, now);
      SuccessKeepsMembers(t.router, b.operations[k].account, "", now);
      assert Like(ReportSuccess(t.router, b.operations[k].account, "", now), b.router);
      BrokerHistory.EndCheckIs(b, operation, affirmed, now);
      hide Like, FailVerification, ReportSuccess, Overtaken;
    }
  }

  lemma NewRouterMirrors(b: Broker)
    ensures Mirrors(b.(router := NewRouter(b)))
  {
  }

  /** A new router shows an account as disabled exactly when it is disabled or blocked, as waiting for its credential exactly when it is not and lacks an affirmed one, and as ready otherwise. */
  lemma NewRouterShows(b: Broker, i: nat, now: int)
    requires DistinctAccounts(b.cfg) && i < |b.cfg.accounts| && 0 <= now
    ensures var (a, s) := (b.cfg.accounts[i], NewRouter(b).accounts[i]);
            && StandsFor(s.member, a) && s.inflight == 0
            && (StatusOf(s, now) == Disabled <==> !a.enabled || a.id in b.blocks)
            && (StatusOf(s, now) == AuthRequired <==> a.enabled && a.id !in b.blocks && !Affirmed(b, a.id))
            && (StatusOf(s, now) == Ready <==> a.enabled && a.id !in b.blocks && Affirmed(b, a.id))
  {
    var a := b.cfg.accounts[i];
    assert a.id in Unverified(b) <==> a.enabled && a.id !in b.blocks && !Verified(b, a.id);
  }

  lemma StepMirrors(b: Broker, op: BrokerHistory.Op)
    requires Mirrors(b)
    ensures Mirrors(BrokerHistory.Step(b, op))
  {
    if op.ReconfigureOp? {
      ReconfigureMirrors(b, op.cfg, op.secrets);
    } else {
      StepIsLike(b, op);
      StillMirrors(BrokerHistory.Step(b, op), b);
    }
  }

  lemma ReconfigureMirrors(b: Broker, cfg: OrgConfig, given: Option<map<string, string>>)
    requires Mirrors(b)
    ensures Mirrors(Reconfigure(b, cfg, given).0)
  {
    StopFromIsLike(b, 0, None);
    var stopped := StopAll(b).(operations := AbortOperations(b.operations, None));
    StillMirrors(stopped, b);
    hide Mirrors, StopFrom, NewRouter, NextGenerations, CarriedVerifications, CarriedBlocks, AnyExhausted, Like;
    var secrets := if given.Some? then given.value else b.secrets;
    var next := stopped.(
      cfg := cfg, secrets := secrets,
      generations := NextGenerations(b, cfg),
      verifications := CarriedVerifications(b, cfg, secrets),
      blocks := CarriedBlocks(b, cfg, secrets));
    NewRouterMirrors(next);
  }

  /** From opening on, the router runs on the broker's configuration. */
  lemma {:induction false} RouterAlwaysMirrors(cfg: OrgConfig, secrets: map<string, string>, ops: seq<BrokerHistory.Op>)
    ensures Mirrors(BrokerHistory.Play(Open(cfg, secrets), ops))
  {
    if ops == [] {
      NewRouterMirrors(Open(cfg, secrets));
    } else {
      var n := |ops| - 1;
      RouterAlwaysMirrors(cfg, secrets, ops[..n]);
      StepMirrors(BrokerHistory.Play(Open(cfg, secrets), ops[..n]), ops[n]);
    }
  }

  // ---------------------------------------------------------------- reports

  /** A lease is released exactly when the broker is open and knows it; then it and its router lease are gone, and no other. */
  lemma ReleasedLease(b: Broker, id: string)
    requires Fenced(b)
    ensures var t := ReleaseLease(b, id).0;
            && (ReleaseLease(b, id).1 <==> !b.closed && exists i :: 0 <= i < |b.leases| && b.leases[i].id == id)
            && (!ReleaseLease(b, id).1 ==> t == b)
            && t == b.(leases := t.leases, router := t.router)
            && (ReleaseLease(b, id).1 ==>
                  && (forall r :: r in t.leases <==> r in b.leases && r.id != id)
                  && (forall r :: r in b.leases && r.id == id ==> r.routerLease !in t.router.active))
  {
    var k := FindLease(b.leases, id);
    if !b.closed && k < |b.leases| {
      assert Held(b.router, b.leases[k]);
      RemovedRecord(b.leases, k);
      var less := b.leases[..k] + b.leases[k + 1..];
      forall r | r in less ensures r.id != id {
        var i :| 0 <= i < |less| && less[i] == r;
        assert r == b.leases[if i < k then i else i + 1];
      }
      forall r | r in b.leases && r.id == id ensures r == b.leases[k] {
        var i :| 0 <= i < |b.leases| && b.leases[i] == r;
        assert i == k;
      }
    }
    hide Fenced, Sound;
  }

  /** The router's state of an account after a report about it. */
  ghost predicate RouterShows(r: Router, id: string, p: Account -> bool) {
    exists i :: 0 <= i < |r.accounts| && r.accounts[i].member.id == id && p(r.accounts[i])
  }

  /** A success for a live lease clears its account in the router and moves nothing else; for a lease there is not, it fails. */
  lemma SuccessReported(b: Broker, id: string, session: string, now: int)
    requires Fenced(b) && 0 <= now
    ensures var t := Succeeded(b, id, session, now).0;
            && t == b.(router := t.router)
            && (Succeeded(b, id, session, now).1.Ok? <==> !b.closed && exists i :: 0 <= i < |b.leases| && b.leases[i].id == id)
            && (Succeeded(b, id, session, now).1.Ok? ==>
                  exists i :: 0 <= i < |b.leases| && b.leases[i].id == id && Succeeded(b, id, session, now).1 == Ok(b.leases[i].account)
                    && RouterShows(t.router, b.leases[i].account, a => Clean(a) && a.lastUsedAt == now))
            && (Succeeded(b, id, session, now).1.Err? ==> t == b)
  {
    LiveRecordIsFound(b, id);
    var k := FindLease(b.leases, id);
    if !b.closed && k < |b.leases| {
      LeasedIsMember(b, k);
      var i := IndexOf(b.router.accounts, b.leases[k].account);
      SuccessClears(b.router, i, session, now);
      hide Fenced, LiveRecord, ReportSuccess, Sound;
      assert ReportSuccess(b.router, b.leases[k].account, session, now).accounts[i].member.id == b.leases[k].account;
    }
  }

  lemma LeasedIsMember(b: Broker, k: nat)
    requires Fenced(b) && k < |b.leases|
    ensures IndexOf(b.router.accounts, b.leases[k].account) < |b.router.accounts| && Sound(b.router)
  {
    assert Held(b.router, b.leases[k]);
    assert Known(b.router.accounts, b.router.active[b.leases[k].routerLease]);
  }

  ghost predicate SameBut<T>(m: map<string, T>, n: map<string, T>, id: string) {
    forall x :: x != id ==> (x in m <==> x in n) && (x in m ==> m[x] == n[x])
  }

  /** The broker's entries of the other accounts are as they were. */
  ghost predicate OthersAsBefore(t: Broker, b: Broker, id: string) {
    && t.cfg == b.cfg && t.closed == b.closed
    && SameBut(t.secrets, b.secrets, id) && SameBut(t.verifications, b.verifications, id) && SameBut(t.blocks, b.blocks, id)
    && (forall x :: x != id ==> Generation(t, x) == Generation(b, x))
    && (forall r :: r in t.leases && r.account != id <==> r in b.leases && r.account != id)
    && |t.operations| == |b.operations|
    && (forall i :: 0 <= i < |b.operations| && b.operations[i].account != id ==> t.operations[i] == b.operations[i])
  }

  /** The account was fenced: one generation on, without a lease, and its checks aborted. */
  ghost predicate FencedOff(t: Broker, b: Broker, id: string) {
    && Generation(t, id) == Generation(b, id) + 1
    && (forall r :: r in t.leases ==> r.account != id)
    && |t.operations| == |b.operations|
    && (forall i :: 0 <= i < |b.operations| && b.operations[i].account == id ==> t.operations[i] == b.operations[i].(aborted := true))
  }

  lemma FenceOff(t: Broker, b: Broker, id: string, f: Failure, now: int)
    requires Structure(t) && t == b.(secrets := t.secrets, verifications := t.verifications, blocks := t.blocks)
    requires SameBut(t.secrets, b.secrets, id) && SameBut(t.verifications, b.verifications, id) && SameBut(t.blocks, b.blocks, id)
    ensures var u := RouterFailure(Fence(t, id), id, f, now);
            && OthersAsBefore(u, b, id) && FencedOff(u, b, id)
            && u.secrets == t.secrets && u.verifications == t.verifications && u.blocks == t.blocks
  {
    hide Fence, Structure, ReportFailure, SameBut, Bump, Generation;
    FencedIs(t, id);
    SameGenerations(t, b);
    SameGenerations(RouterFailure(Fence(t, id), id, f, now), Fence(t, id));
  }

  lemma FencedIs(b: Broker, id: string)
    requires Structure(b)
    ensures var t := Fence(b, id);
            && t == b.(leases := t.leases, router := t.router, operations := t.operations, generations := t.generations)
            && (forall x :: Generation(t, x) == Generation(b, x) + if x == id then 1 else 0)
            && (forall r :: r in t.leases <==> r in b.leases && r.account != id)
            && |t.operations| == |b.operations|
            && (forall i :: 0 <= i < |b.operations| ==>
                  t.operations[i] == if b.operations[i].account == id then b.operations[i].(aborted := true) else b.operations[i])
  {
    FenceKeeps(b, id);
    hide Structure, Fence, MembersKept, Generation;
    BumpedGenerations(b, id);
    AbortedOperations(b.operations, id);
    hide AbortOperations, Bump;
    SameGenerations(Fence(b, id), Bump(b, id));
  }

  lemma SameGenerations(t: Broker, b: Broker)
    requires t.generations == b.generations
    ensures forall x :: Generation(t, x) == Generation(b, x)
  {
  }

  lemma BumpedGenerations(b: Broker, id: string)
    ensures Bump(b, id) == b.(generations := Bump(b, id).generations)
    ensures forall x :: Generation(Bump(b, id), x) == Generation(b, x) + if x == id then 1 else 0
  {
  }

  lemma AbortedOperations(operations: seq<Operation>, id: string)
    ensures var after := AbortOperations(operations, Some(id));
            && |after| == |operations|
            && forall i :: 0 <= i < |operations| ==>
                 after[i] == if operations[i].account == id then operations[i].(aborted := true) else operations[i]
  {
  }

  lemma NotedElsewhere(b: Broker, account: string, f: OrgFailure)
    ensures var t := Noted(b, account, f);
            && t == b.(secrets := t.secrets, verifications := t.verifications, blocks := t.blocks)
            && SameBut(t.secrets, b.secrets, account) && SameBut(t.verifications, b.verifications, account) && SameBut(t.blocks, b.blocks, account)
  {
  }

  lemma RefusedAfterNoting(b: Broker, id: string, f: OrgFailure, now: int, k: nat)
    requires Fenced(b) && !b.closed && k < |b.leases| && b.leases[k].id == id && !Exhausted(b, b.leases[k].account) && NeedsFence(f)
    ensures var account := b.leases[k].account;
            var safe := f.failure.(invalidKey := false);
            Refused(b, id, f, now) ==
              (RouterFailure(Fence(Noted(b, account, f), account), account,
                             if f.quotaExhausted || f.entitlementDenied then safe.(disabled := true) else safe, now),
               Ok(account))
  {
    hide LiveRecord, Fence, RouterFailure, Exhausted;
    LiveRecordIsFound(b, id);
    LeaseIndex(b, k);
    hide Fenced, FindLease;
  }

  /** A failure that denies the entitlement blocks its account under the right reason, and fences it. */
  lemma EntitlementDenialBlocks(b: Broker, id: string, f: OrgFailure, now: int, k: nat)
    requires Fenced(b) && !b.closed && k < |b.leases| && b.leases[k].id == id && !Exhausted(b, b.leases[k].account)
    requires f.quotaExhausted || f.entitlementDenied
    ensures var (t, account) := (Refused(b, id, f, now).0, b.leases[k].account);
            && Refused(b, id, f, now).1 == Ok(account)
            && account in t.blocks && t.blocks[account] == (if f.quotaExhausted then QuotaExhausted else EntitlementDenied)
            && OthersAsBefore(t, b, account) && FencedOff(t, b, account)
            && t.secrets == b.secrets && t.verifications == b.verifications
  {
    RefusedAfterNoting(b, id, f, now, k);
    hide Refused, Exhausted;
    var account := b.leases[k].account;
    NotedKeeps(b, account, f);
    NotedElsewhere(b, account, f);
    hide Fence, RouterFailure, Fenced, Structure, OthersAsBefore, FencedOff, SameBut;
    FenceOff(Noted(b, account, f), b, account, f.failure.(invalidKey := false).(disabled := true), now);
  }

  /** A failure that rejects the credential drops the verification of its account, and fences it. */
  lemma RejectionUnverifies(b: Broker, id: string, f: OrgFailure, now: int, k: nat)
    requires Fenced(b) && !b.closed && k < |b.leases| && b.leases[k].id == id && !Exhausted(b, b.leases[k].account)
    requires !f.quotaExhausted && !f.entitlementDenied
    requires f.failure.authRequired || f.failure.given == Some(AuthDefinite) || f.failure.statusCode == 401
    ensures var (t, account) := (Refused(b, id, f, now).0, b.leases[k].account);
            && Refused(b, id, f, now).1 == Ok(account) && account !in t.verifications
            && OthersAsBefore(t, b, account) && FencedOff(t, b, account)
            && t.secrets == b.secrets && t.blocks == b.blocks
  {
    RefusedAfterNoting(b, id, f, now, k);
    hide Refused, Exhausted;
    var account := b.leases[k].account;
    NotedKeeps(b, account, f);
    NotedElsewhere(b, account, f);
    hide Fence, RouterFailure, Fenced, Structure, OthersAsBefore, FencedOff, SameBut;
    FenceOff(Noted(b, account, f), b, account, f.failure.(invalidKey := false), now);
  }

  /** Any other failure goes to the router only, without the message that shows an invalid key. */
  lemma OtherFailureIsPassedOn(b: Broker, id: string, f: OrgFailure, now: int, k: nat)
    requires Fenced(b) && !b.closed && k < |b.leases| && b.leases[k].id == id
    requires !f.quotaExhausted && !f.entitlementDenied
    requires !f.failure.authRequired && f.failure.given != Some(AuthDefinite) && f.failure.statusCode != 401
    ensures Refused(b, id, f, now) ==
              (b.(router := ReportFailure(b.router, b.leases[k].account, f.failure.(invalidKey := false), now)), Ok(b.leases[k].account))
  {
    hide LiveRecord, ReportFailure, Fence, Exhausted;
    LiveRecordIsFound(b, id);
    LeaseIndex(b, k);
    hide Fenced, FindLease;
  }

  lemma LeaseIndex(b: Broker, k: nat)
    requires Fenced(b) && k < |b.leases|
    ensures FindLease(b.leases, b.leases[k].id) == k
  {
    assert DistinctLeases(b.leases);
    hide Fenced, Structure;
    var j := FindLease(b.leases, b.leases[k].id);
    assert j <= k;
  }

  // ---------------------------------------------------------------- credentials

  /** A check that starts keeps the very key and generation it was started with. */
  lemma BegunCheck(b: Broker, id: string, drawn: Option<string>, now: int)
    requires BeginVerification(b, id, drawn, now).1.Ok?
    ensures var t := BeginVerification(b, id, drawn, now).0;
            && HasAccount(b.cfg, id) && id in b.secrets && !b.closed && BeginVerification(b, id, drawn, now).1 == Ok(drawn.value)
            && t == b.(operations := b.operations + [Operation(drawn.value, id, b.secrets[id], Generation(b, id), false)])
  {
    hide FailVerification;
  }

  /** Something has happened to the account since the check began. */
  ghost predicate CrossedAFence(b: Broker, o: Operation) {
    o.aborted || o.generation != Generation(b, o.account) || o.account !in b.secrets || b.secrets[o.account] != o.key
  }

  /**
   * A check that ends across a fence changes nothing. One that affirms the
   * credential makes the account verified and ready in the router. One that does
   * not drops the verification and fences the account.
   */
  lemma EndedCheck(b: Broker, operation: string, affirmed: bool, now: int, k: nat)
    requires Fenced(b) && 0 <= now && k < |b.operations| && FindOperation(b.operations, operation) == k
    requires HasAccount(b.cfg, b.operations[k].account) && b.operations[k].account in b.generations && !Exhausted(b, b.operations[k].account)
    ensures var (o, t) := (b.operations[k], EndVerification(b, operation, affirmed, now).0);
            var rest := b.(operations := b.operations[..k] + b.operations[k + 1..]);
            && (CrossedAFence(b, o) ==> t == rest && EndVerification(b, operation, affirmed, now).1 == Err(OperationStale))
            && (!CrossedAFence(b, o) && affirmed ==>
                  && EndVerification(b, operation, affirmed, now).1 == Ok(o.account) && Affirmed(t, o.account)
                  && t == rest.(verifications := b.verifications[o.account := Generation(b, o.account)], router := t.router)
                  && RouterShows(t.router, o.account, a => Clean(a)))
            && (!CrossedAFence(b, o) && !affirmed ==>
                  && EndVerification(b, operation, affirmed, now).1 == Err(VerificationFailed) && o.account !in t.verifications
                  && OthersAsBefore(t, rest, o.account) && FencedOff(t, rest, o.account)
                  && t.secrets == b.secrets && t.blocks == b.blocks)
  {
    var o, rest := b.operations[k], BrokerHistory.Ended(b, k);
    BrokerHistory.EndCheckIs(b, operation, affirmed, now);
    BrokerHistory.OperationsAreFree(b, rest.operations);
    MemberIsThere(b, o.account);
    if !CrossedAFence(b, o) {
      if affirmed {
        var i := IndexOf(b.router.accounts, o.account);
        SuccessClears(b.router, i, "", now);
        assert ReportSuccess(b.router, o.account, "", now).accounts[i].member.id == o.account;
      } else {
        var dropped := rest.(verifications := rest.verifications - {o.account});
        BrokerHistory.DroppedKeeps(rest, o.account);
        FenceOff(dropped, rest, o.account, AUTH_REQUIRED, now);
        hide Fence, RouterFailure, OthersAsBefore, FencedOff;
      }
    }
    hide Fenced, Structure, ReportSuccess, Sound, Clean;
  }

  lemma MemberIsThere(b: Broker, id: string)
    requires Fenced(b) && HasAccount(b.cfg, id)
    ensures IndexOf(b.router.accounts, id) < |b.router.accounts| && Sound(b.router)
  {
    var i :| 0 <= i < |b.cfg.accounts| && b.cfg.accounts[i].id == id;
    assert MemberFits(b.router.accounts[i].member, b.cfg.accounts[i]);
  }

  /** A revocation is refused exactly for a closed broker, an unknown account or no generation left; it takes the credential with all that stood on it, and fences the account. */
  lemma Revoked(b: Broker, id: string, now: int)
    requires Fenced(b)
    ensures Revoke(b, id, now).1.Ok? <==> !b.closed && HasAccount(b.cfg, id) && !Exhausted(b, id)
    ensures Revoke(b, id, now).1.Ok? ==>
              var t := Revoke(b, id, now).0;
              && id !in t.secrets && id !in t.verifications && id !in t.blocks
              && OthersAsBefore(t, b, id) && FencedOff(t, b, id)
    ensures Revoke(b, id, now).1.Err? ==> Revoke(b, id, now).0 == b
  {
    if Revoke(b, id, now).1.Ok? {
      BrokerHistory.RevokedKeeps(b, id);
      FenceOff(b.(secrets := b.secrets - {id}, verifications := b.verifications - {id}, blocks := b.blocks - {id}), b, id, AUTH_REQUIRED, now);
    }
    hide Fence, RouterFailure, Fenced, Structure, OthersAsBefore, FencedOff, Exhausted;
  }

  // ---------------------------------------------------------------- the whole configuration

  /** The stored credential of the account is the same before and after. */
  ghost predicate SameSecret(b: Broker, t: Broker, id: string) {
    (id in b.secrets <==> id in t.secrets) && (id in b.secrets ==> t.secrets[id] == b.secrets[id])
  }

  /** How an account comes through a reconfiguration: a generation on, and a verification or a block stays exactly with an unchanged credential. */
  ghost predicate CarriedOver(b: Broker, t: Broker, id: string) {
    && id in t.generations && t.generations[id] == Generation(b, id) + 1
    && (id in t.verifications <==> id in b.verifications && SameSecret(b, t, id))
    && (id in t.verifications ==> t.verifications[id] == t.generations[id])
    && (id in t.blocks <==> id in b.blocks && SameSecret(b, t, id))
    && (id in t.blocks ==> t.blocks[id] == b.blocks[id])
  }

  lemma AccountCarriedOver(b: Broker, t: Broker, id: string)
    requires id in Ids(t.cfg) && t.generations == NextGenerations(b, t.cfg)
    requires t.verifications == CarriedVerifications(b, t.cfg, t.secrets) && t.blocks == CarriedBlocks(b, t.cfg, t.secrets)
    ensures CarriedOver(b, t, id)
  {
  }

  lemma ReconfiguredFields(b: Broker, cfg: OrgConfig, given: Option<map<string, string>>)
    requires Structure(b) && Reconfigure(b, cfg, given).1.Ok?
    ensures var t := Reconfigure(b, cfg, given).0;
            && t.cfg == cfg && t.secrets == (if given.Some? then given.value else b.secrets) && t.leases == [] && !t.closed
            && t.operations == AbortOperations(b.operations, None)
            && t.generations == NextGenerations(b, cfg)
            && t.verifications == CarriedVerifications(b, cfg, t.secrets) && t.blocks == CarriedBlocks(b, cfg, t.secrets)
  {
    BrokerHistory.StopAllStopsAll(b);
    hide Structure, StopFrom, NewRouter, MembersKept, AbortOperations, NextGenerations, CarriedVerifications, CarriedBlocks, AnyExhausted;
  }

  /** A reconfiguration puts configuration and credentials in place, carries each account over, drops the accounts that are gone, every lease and every check. */
  lemma Reconfigured(b: Broker, cfg: OrgConfig, given: Option<map<string, string>>)
    requires Structure(b) && Reconfigure(b, cfg, given).1.Ok?
    ensures var t := Reconfigure(b, cfg, given).0;
            && t.cfg == cfg && t.secrets == (if given.Some? then given.value else b.secrets) && t.leases == [] && !t.closed
            && t.generations.Keys == Ids(cfg) && t.verifications.Keys <= Ids(cfg) && t.blocks.Keys <= Ids(cfg)
            && (forall id :: id in Ids(cfg) ==> CarriedOver(b, t, id))
            && (forall i :: 0 <= i < |t.operations| ==> t.operations[i].aborted)
  {
    ReconfiguredFields(b, cfg, given);
    var t := Reconfigure(b, cfg, given).0;
    hide Reconfigure, Structure;
    forall id | id in Ids(cfg) ensures CarriedOver(b, t, id) {
      AccountCarriedOver(b, t, id);
    }
  }

  /** Closing stops every lease and aborts every check, and closing again changes nothing. */
  lemma ClosedDown(b: Broker)
    requires Fenced(b)
    ensures var t := Close(b);
            && t.closed && t.leases == [] && (b.closed ==> t == b) && Close(t) == t
            && (!b.closed ==> forall i :: 0 <= i < |t.operations| ==> t.operations[i].aborted)
            && t == b.(closed := true, leases := [], operations := t.operations, router := t.router)
  {
    if !b.closed {
      var aborted := b.(operations := AbortOperations(b.operations, None));
      BrokerHistory.OperationsAreFree(b, aborted.operations);
      BrokerHistory.StopAllStopsAll(aborted);
      hide Structure, StopFrom, MembersKept;
    }
  }

  // ---------------------------------------------------------------- opening, and calls that cannot start

  /** A broker is opened with every account in generation one and none affirmed, no lease and no check; enabled accounts wait for their credential. */
  lemma Opened(cfg: OrgConfig, secrets: map<string, string>, now: int)
    requires DistinctAccounts(cfg) && 0 <= now
    ensures var b := Open(cfg, secrets);
            && b.cfg == cfg && b.secrets == secrets && b.verifications == map[] && b.blocks == map[] && b.leases == [] && b.operations == [] && !b.closed
            && b.generations.Keys == Ids(cfg) && (forall id :: id in Ids(cfg) ==> b.generations[id] == 1)
            && |b.router.accounts| == |cfg.accounts|
            && forall i :: 0 <= i < |cfg.accounts| ==>
                 StatusOf(b.router.accounts[i], now) == if cfg.accounts[i].enabled then AuthRequired else Disabled
  {
    var b := Broker(cfg, secrets, map id | id in Ids(cfg) :: 1, map[], map[], [], [], Fresh(RouterConfig(cfg), [], {}, map[]), false);
    forall i | 0 <= i < |cfg.accounts|
      ensures StatusOf(NewRouter(b).accounts[i], now) == if cfg.accounts[i].enabled then AuthRequired else Disabled
    {
      NewRouterShows(b, i, now);
    }
  }

  /** A check that cannot start counts as failed: the account loses its verification and is fenced, even where it was in use. */
  lemma CheckThatCannotStart(b: Broker, id: string, drawn: Option<string>, now: int)
    requires Fenced(b) && HasAccount(b.cfg, id) && id in b.generations && !Exhausted(b, id)
    requires b.closed || id !in b.secrets || drawn.None? || OpaqueIdUsed(b, drawn.value)
    ensures var t := BeginVerification(b, id, drawn, now).0;
            && BeginVerification(b, id, drawn, now).1 == Err(VerificationFailed) && id !in t.verifications
            && OthersAsBefore(t, b, id) && FencedOff(t, b, id) && t.secrets == b.secrets && t.blocks == b.blocks
  {
    var dropped := b.(verifications := b.verifications - {id});
    BrokerHistory.DroppedKeeps(b, id);
    hide Fence, RouterFailure, Fenced, Structure, OthersAsBefore, FencedOff, Exhausted, OpaqueIdUsed;
    FenceOff(dropped, b, id, AUTH_REQUIRED, now);
  }

  /** A caller that cancels stops its lease, on a closed broker too, and no other. */
  lemma CancelledLease(b: Broker, id: string)
    requires Fenced(b)
    ensures var t := CancelLease(b, id);
            && t == b.(leases := t.leases, router := t.router)
            && (forall r :: r in t.leases <==> r in b.leases && r.id != id)
            && (forall r :: r in b.leases && r.id == id ==> r.routerLease !in t.router.active)
  {
    var k := FindLease(b.leases, id);
    if k < |b.leases| {
      LeaseIndex(b, k);
      RemovedRecord(b.leases, k);
      OthersHaveOtherIds(b.leases, k);
    }
    hide Fenced, Sound;
  }

  lemma OthersHaveOtherIds(leases: seq<LeaseRecord>, k: nat)
    requires k < |leases| && FindLease(leases, leases[k].id) == k
    requires forall i, j | 0 <= i < j < |leases| :: leases[i].id != leases[j].id
    ensures forall r :: r in leases && r.id == leases[k].id ==> r == leases[k]
    ensures forall r :: r in leases[..k] + leases[k + 1..] ==> r.id != leases[k].id
  {
    var less := leases[..k] + leases[k + 1..];
    forall r | r in less ensures r.id != leases[k].id {
      var i :| 0 <= i < |less| && less[i] == r;
      assert r == leases[if i < k then i else i + 1];
    }
    forall r | r in leases && r.id == leases[k].id ensures r == leases[k] {
      var i :| 0 <= i < |leases| && leases[i] == r;
    }
  }
}
