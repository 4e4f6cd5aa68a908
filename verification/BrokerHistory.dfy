/**
 * Whole histories of the broker: leases stay fenced, only a credential that the
 * worker affirmed is ever leased, and router leases leak exactly when drawing
 * an identifier fails after the router has granted.
 */
module BrokerHistory {
  import opened Common
  import opened AccountRouting
  import opened RoutingGuarantees
  import opened OrganizationBroker
  import opened BrokerGuarantees

  // ---------------------------------------------------------------- credentials

  /** A failed check fences its account, unless the generations have run out while the account is leased. */
  lemma FailVerificationFences(b: Broker, id: string, now: int)
    requires Fenced(b)
    ensures Fenced(FailVerification(b, id, now).0) <==>
              !(id in b.generations && Exhausted(b, id) && exists i :: 0 <= i < |b.leases| && b.leases[i].account == id)
    ensures id in b.generations && !Exhausted(b, id) ==> forall r :: r in FailVerification(b, id, now).0.leases <==> r in b.leases && r.account != id
  {
    if id in b.generations {
      var dropped := b.(verifications := b.verifications - {id});
      DroppedKeeps(b, id);
      if Exhausted(b, id) {
        DroppedStaysFenced(b, id);
      } else {
        hide Structure, Fence, RouterFailure, Exhausted;
        FenceRestores(b, dropped, id, AUTH_REQUIRED, now);
      }
    }
  }

  lemma DroppedKeeps(b: Broker, id: string)
    requires Structure(b)
    ensures var t := b.(verifications := b.verifications - {id});
            Structure(t) && SameElsewhere(t, b, id) && t.blocks == b.blocks
  {
    hide Sound, DistinctLeases, Held, DistinctAccounts;
  }

  lemma DroppedStaysFenced(b: Broker, id: string)
    requires Fenced(b)
    ensures var t := b.(verifications := b.verifications - {id});
            Fenced(t) <==> !exists i :: 0 <= i < |b.leases| && b.leases[i].account == id
  {
    var t := b.(verifications := b.verifications - {id});
    DroppedKeeps(b, id);
    hide Structure, BlocksFit;
    forall i | 0 <= i < |b.leases| ensures LiveLease(t, t.leases[i]) <==> b.leases[i].account != id {
      assert LiveLease(b, b.leases[i]);
    }
  }

  lemma AffirmedStaysLive(b: Broker, id: string, r: LeaseRecord)
    requires LiveLease(b, r) && id in b.secrets
    ensures LiveLease(b.(verifications := b.verifications[id := Generation(b, id)]), r)
  {
  }

  lemma AffirmedKeeps(b: Broker, id: string)
    requires Fenced(b) && id in b.secrets
    ensures Fenced(b.(verifications := b.verifications[id := Generation(b, id)]))
  {
    var t := b.(verifications := b.verifications[id := Generation(b, id)]);
    assert Structure(t) by {
      hide Sound, DistinctLeases, Held, DistinctAccounts;
    }
    hide Structure, BlocksFit, LiveLease;
    forall i | 0 <= i < |t.leases| ensures LiveLease(t, t.leases[i]) {
      assert LiveLease(b, b.leases[i]);
      AffirmedStaysLive(b, id, b.leases[i]);
    }
  }

  lemma AffirmedKeepsFence(b: Broker, id: string, now: int)
    requires Fenced(b) && id in b.secrets
    ensures Fenced(b.(verifications := b.verifications[id := Generation(b, id)], router := ReportSuccess(b.router, id, "", now)))
  {
    AffirmedKeeps(b, id);
    var t := b.(verifications := b.verifications[id := Generation(b, id)]);
    SuccessIsSound(t.router, id, "", now);
    SuccessKeepsMembers(t.router, id, "", now);
    hide ReportSuccess, Structure, MembersKept, BlocksFit, LiveLease;
    ReportKeepsStructure(t, ReportSuccess(t.router, id, "", now));
    SameLeasesLive(t.(router := ReportSuccess(t.router, id, "", now)), t);
    assert b.router == t.router;
  }

  lemma OperationsAreFree(b: Broker, operations: seq<Operation>)
    requires Fenced(b)
    ensures Fenced(b.(operations := operations))
  {
    var t := b.(operations := operations);
    assert Structure(t) by {
      hide Sound, DistinctLeases, Held, DistinctAccounts;
    }
    hide Structure, BlocksFit;
    forall i | 0 <= i < |t.leases| ensures LiveLease(t, t.leases[i]) {
      assert LiveLease(b, b.leases[i]);
    }
  }

  lemma RevokeKeepsFence(b: Broker, id: string, now: int)
    requires Fenced(b)
    ensures Fenced(Revoke(b, id, now).0)
    ensures Revoke(b, id, now).1.Ok? ==> id !in Revoke(b, id, now).0.secrets && forall r | r in Revoke(b, id, now).0.leases :: r.account != id
  {
    if Revoke(b, id, now).1.Ok? {
      var dropped := b.(secrets := b.secrets - {id}, verifications := b.verifications - {id}, blocks := b.blocks - {id});
      RevokedKeeps(b, id);
      FenceKeeps(dropped, id);
      hide Structure, Fence, Exhausted, MembersKept;
      FenceRestores(b, dropped, id, AUTH_REQUIRED, now);
    }
  }

  lemma RevokedKeeps(b: Broker, id: string)
    requires Structure(b)
    ensures var t := b.(secrets := b.secrets - {id}, verifications := b.verifications - {id}, blocks := b.blocks - {id});
            Structure(t) && SameElsewhere(t, b, id) && id !in t.blocks
  {
    hide Sound, DistinctLeases, Held, DistinctAccounts;
  }

  // ---------------------------------------------------------------- the whole configuration

  lemma StopAllStopsAll(b: Broker)
    requires Structure(b)
    ensures StopAll(b) == b.(leases := [], router := StopAll(b).router) && Structure(StopAll(b)) && MembersKept(StopAll(b).router, b.router)
  {
    hide Structure, MembersKept;
    StopFromKeeps(b, 0, None);
  }

  lemma NothingLeased(b: Broker)
    requires Structure(b) && BlocksFit(b.router, b.blocks, None) && b.leases == []
    ensures Fenced(b)
  {
  }

  lemma NewRouterFits(b: Broker)
    requires DistinctAccounts(b.cfg) && b.leases == []
    ensures Fenced(b.(router := NewRouter(b)))
  {
    var t := b.(router := NewRouter(b));
    var members := MembersOf(b.cfg, b.blocks);
    FreshIsSound(RouterConfig(b.cfg), members, Unverified(b), map[]);
    hide Sound;
    forall i | 0 <= i < |b.cfg.accounts|
      ensures MemberFits(t.router.accounts[i].member, t.cfg.accounts[i]) && UnblockedMember(t.router.accounts[i].member, t.blocks, None)
    {
    }
  }

  /** A reconfiguration, applied or refused for want of generations, leaves no lease behind. */
  lemma ReconfigureFences(b: Broker, cfg: OrgConfig, given: Option<map<string, string>>)
    requires Fenced(b) && DistinctAccounts(cfg)
    ensures Fenced(Reconfigure(b, cfg, given).0)
    ensures !b.closed && Reconfigure(b, cfg, given).1 != Err(SecretAccountUnknown) ==> Reconfigure(b, cfg, given).0.leases == []
  {
    var secrets := if given.Some? then given.value else b.secrets;
    if !b.closed && secrets.Keys <= Ids(cfg) {
      StopAllStopsAll(b);
      var stopped := StopAll(b).(operations := AbortOperations(b.operations, None));
      if AnyExhausted(b, cfg) {
        BlocksStillFit(StopAll(b).router, b.router, b.blocks, None);
        NothingLeased(StopAll(b));
        OperationsAreFree(StopAll(b), AbortOperations(b.operations, None));
      } else {
        var next := stopped.(
          cfg := cfg, secrets := secrets,
          generations := NextGenerations(b, cfg),
          verifications := CarriedVerifications(b, cfg, secrets),
          blocks := CarriedBlocks(b, cfg, secrets));
        hide Fenced, StopAll;
        NewRouterFits(next);
      }
    }
  }

  lemma CloseKeepsFence(b: Broker)
    requires Fenced(b)
    ensures Fenced(Close(b)) && (Close(b).leases == [] || Close(b) == b)
  {
    if !b.closed {
      var aborted := b.(operations := AbortOperations(b.operations, None));
      OperationsAreFree(b, AbortOperations(b.operations, None));
      StopAllStopsAll(aborted);
      BlocksStillFit(StopAll(aborted).router, b.router, b.blocks, None);
      NothingLeased(StopAll(aborted));
      ClosedFits(StopAll(aborted));
    }
  }

  lemma ClosedFits(b: Broker)
    requires Fenced(b) && b.leases == []
    ensures Fenced(b.(closed := true))
  {
    hide Sound, BlocksFit;
  }

  // ---------------------------------------------------------------- histories

  datatype Op =
    | AcquireOp(req: LeaseRequest, now: int, drawn: Option<string>, aborted: bool)
    | AssertOp(id: string)
    | ReleaseOp(id: string)
    | CancelOp(id: string)
    | SuccessOp(id: string, session: string, now: int)
    | FailureOp(id: string, failure: OrgFailure, now: int)
    | BeginCheckOp(account: string, drawn: Option<string>, now: int)
    | EndCheckOp(operation: string, affirmed: bool, now: int)
    | RevokeOp(account: string, now: int)
    | ReconfigureOp(cfg: OrgConfig, secrets: Option<map<string, string>>)
    | CloseOp

  function Step(b: Broker, op: Op): Broker {
    match op
    case AcquireOp(req, now, drawn, aborted) => AcquireLease(b, req, now, drawn, aborted).0
    case AssertOp(id) => if b.closed then b else LiveRecord(b, id).0
    case ReleaseOp(id) => ReleaseLease(b, id).0
    case CancelOp(id) => CancelLease(b, id)
    case SuccessOp(id, session, now) => Succeeded(b, id, session, now).0
    case FailureOp(id, f, now) => Refused(b, id, f, now).0
    case BeginCheckOp(account, drawn, now) => BeginVerification(b, account, drawn, now).0
    case EndCheckOp(operation, affirmed, now) => EndVerification(b, operation, affirmed, now).0
    case RevokeOp(account, now) => Revoke(b, account, now).0
    case ReconfigureOp(cfg, secrets) => Reconfigure(b, cfg, secrets).0
    case CloseOp => Close(b)
  }

  ghost predicate WellFormed(op: Op) {
    op.ReconfigureOp? ==> DistinctAccounts(op.cfg)
  }

  lemma BeginCheckKeepsFence(b: Broker, account: string, drawn: Option<string>, now: int)
    requires Fenced(b) && !Exhausted(b, account)
    ensures Fenced(BeginVerification(b, account, drawn, now).0)
  {
    FailVerificationFences(b, account, now);
    if account in b.secrets && drawn.Some? {
      OperationsAreFree(b, b.operations + [Operation(drawn.value, account, b.secrets[account], Generation(b, account), false)]);
    }
    hide Fenced, FailVerification;
  }

  /** The broker once a check is over, whatever it said. */
  function Ended(b: Broker, k: nat): Broker
    requires k < |b.operations|
  {
    b.(operations := b.operations[..k] + b.operations[k + 1..])
  }

  lemma EndCheckIs(b: Broker, operation: string, affirmed: bool, now: int)
    requires FindOperation(b.operations, operation) < |b.operations|
    ensures var k := FindOperation(b.operations, operation);
            var o, t := b.operations[k], Ended(b, k);
            EndVerification(b, operation, affirmed, now).0 ==
              if Overtaken(b, o) then t
              else if affirmed then t.(verifications := t.verifications[o.account := Generation(t, o.account)], router := ReportSuccess(t.router, o.account, "", now))
              else FailVerification(t, o.account, now).0
  {
    hide FailVerification, ReportSuccess, Overtaken, Generation;
  }

  lemma EndCheckKeepsFence(b: Broker, operation: string, affirmed: bool, now: int)
    requires Fenced(b) && forall id :: !Exhausted(b, id)
    ensures Fenced(EndVerification(b, operation, affirmed, now).0)
  {
    var k := FindOperation(b.operations, operation);
    if k < |b.operations| {
      var o, t := b.operations[k], Ended(b, k);
      EndCheckIs(b, operation, affirmed, now);
      OperationsAreFree(b, t.operations);
      hide Fenced, FailVerification, ReportSuccess, EndVerification;
      if !Overtaken(b, o) {
        if affirmed {
          AffirmedKeepsFence(t, o.account, now);
        } else {
          assert !Exhausted(b, o.account);
          FailVerificationFences(t, o.account, now);
        }
      }
    }
  }

  /** No call leaves a stale lease while generations last. */
  lemma StepKeepsFence(b: Broker, op: Op)
    requires Fenced(b) && WellFormed(op) && forall id :: !Exhausted(b, id)
    ensures Fenced(Step(b, op))
  {
    hide Fenced, AcquireLease, LiveRecord, StopAt, Succeeded, Refused, BeginVerification, EndVerification, Revoke, Reconfigure, Close;
    match op {
      case AcquireOp(req, now, drawn, aborted) => AcquireKeepsFence(b, req, now, drawn, aborted);
      case AssertOp(id) => LiveRecordIsFound(b, id);
      case ReleaseOp(id) =>
        if FindLease(b.leases, id) < |b.leases| { StopKeepsFence(b, FindLease(b.leases, id)); }
      case CancelOp(id) =>
        if FindLease(b.leases, id) < |b.leases| { StopKeepsFence(b, FindLease(b.leases, id)); }
      case SuccessOp(id, session, now) => SuccessKeepsFence(b, id, session, now);
      case FailureOp(id, f, now) => FailureKeepsFence(b, id, f, now);
      case BeginCheckOp(account, drawn, now) => BeginCheckKeepsFence(b, account, drawn, now);
      case EndCheckOp(operation, affirmed, now) => EndCheckKeepsFence(b, operation, affirmed, now);
      case RevokeOp(account, now) => RevokeKeepsFence(b, account, now);
      case ReconfigureOp(cfg, secrets) => ReconfigureFences(b, cfg, secrets);
      case CloseOp => CloseKeepsFence(b);
    }
  }

  // ---------------------------------------------------------------- generations count the calls

  lemma FenceFields(b: Broker, id: string)
    ensures var t := Fence(b, id);
            t == b.(leases := t.leases, router := t.router, operations := t.operations, generations := Bump(b, id).generations)
  {
    StopFromFields(Bump(b, id).(operations := AbortOperations(b.operations, Some(id))), 0, Some(id));
    hide StopFrom;
  }

  lemma AccountIsPresent(cfg: OrgConfig, id: string)
    ensures id in Ids(cfg) <==> HasAccount(cfg, id)
  {
  }

  lemma FencedGeneration(b: Broker, t: Broker, account: string, f: Failure, now: int, id: string)
    requires t.generations == b.generations
    ensures Generation(RouterFailure(Fence(t, account), account, f, now), id) <= Generation(b, id) + 1
  {
    FenceFields(t, account);
    hide Fence, ReportFailure;
  }

  lemma FailVerificationGeneration(b: Broker, account: string, now: int, id: string)
    ensures Generation(FailVerification(b, account, now).0, id) <= Generation(b, id) + 1
  {
    FencedGeneration(b, b.(verifications := b.verifications - {account}), account, AUTH_REQUIRED, now, id);
    hide Fence, RouterFailure, Exhausted;
  }

  lemma RefusedGeneration(b: Broker, lease: string, f: OrgFailure, now: int, id: string)
    ensures Generation(Refused(b, lease, f, now).0, id) <= Generation(b, id) + 1
  {
    var k := FindLease(b.leases, lease);
    if k < |b.leases| {
      var account := b.leases[k].account;
      var safe := f.failure.(invalidKey := false);
      FencedGeneration(b, Noted(b, account, f), account, safe, now, id);
      FencedGeneration(b, Noted(b, account, f), account, safe.(disabled := true), now, id);
    }
    hide Fence, ReportFailure, Exhausted, Release, Verified;
  }

  lemma RevokeGeneration(b: Broker, account: string, now: int, id: string)
    ensures Generation(Revoke(b, account, now).0, id) <= Generation(b, id) + 1
  {
    var dropped := b.(secrets := b.secrets - {account}, verifications := b.verifications - {account}, blocks := b.blocks - {account});
    FencedGeneration(b, dropped, account, AUTH_REQUIRED, now, id);
    hide Fence, RouterFailure, Exhausted;
  }

  lemma EndCheckGeneration(b: Broker, operation: string, affirmed: bool, now: int, id: string)
    ensures Generation(EndVerification(b, operation, affirmed, now).0, id) <= Generation(b, id) + 1
  {
    var k := FindOperation(b.operations, operation);
    if k < |b.operations| {
      EndCheckIs(b, operation, affirmed, now);
      FailVerificationGeneration(Ended(b, k), b.operations[k].account, now, id);
    }
    hide FailVerification, ReportSuccess, Overtaken;
  }

  lemma ReconfigureGeneration(b: Broker, cfg: OrgConfig, given: Option<map<string, string>>, id: string)
    ensures Generation(Reconfigure(b, cfg, given).0, id) <= Generation(b, id) + 1
  {
    StopFromFields(b, 0, None);
    hide StopFrom, NewRouter, AnyExhausted;
  }

  lemma CloseGeneration(b: Broker, id: string)
    ensures Generation(Close(b), id) == Generation(b, id)
  {
    StopFromFields(b.(operations := AbortOperations(b.operations, None)), 0, None);
    hide StopFrom;
  }

  lemma AcquireGeneration(b: Broker, req: LeaseRequest, now: int, drawn: Option<string>, aborted: bool)
    ensures AcquireLease(b, req, now, drawn, aborted).0.generations == b.generations
  {
    hide Acquire, Release, Verified, OpaqueIdUsed;
  }

  /** One call advances a generation by at most one. */
  lemma StepGenerations(b: Broker, op: Op, id: string)
    ensures Generation(Step(b, op), id) <= Generation(b, id) + 1
  {
    hide AcquireLease, Release, ReportSuccess, Refused, FailVerification, EndVerification, Revoke, Reconfigure, Close, Verified, OpaqueIdUsed;
    match op {
      case AcquireOp(req, now, drawn, aborted) => AcquireGeneration(b, req, now, drawn, aborted);
      case FailureOp(lease, f, now) => RefusedGeneration(b, lease, f, now, id);
      case BeginCheckOp(account, drawn, now) => FailVerificationGeneration(b, account, now, id);
      case EndCheckOp(operation, affirmed, now) => EndCheckGeneration(b, operation, affirmed, now, id);
      case RevokeOp(account, now) => RevokeGeneration(b, account, now, id);
      case ReconfigureOp(cfg, secrets) => ReconfigureGeneration(b, cfg, secrets, id);
      case CloseOp => CloseGeneration(b, id);
      case _ =>
    }
  }

  function Play(b: Broker, ops: seq<Op>): Broker {
    if ops == [] then b else Step(Play(b, ops[..|ops| - 1]), ops[|ops| - 1])
  }

  lemma {:induction false} GenerationsCountCalls(b: Broker, ops: seq<Op>, id: string)
    requires Generation(b, id) <= 1
    ensures Generation(Play(b, ops), id) <= 1 + |ops|
  {
    hide Step, Generation;
    if ops != [] {
      GenerationsCountCalls(b, ops[..|ops| - 1], id);
      StepGenerations(Play(b, ops[..|ops| - 1]), ops[|ops| - 1], id);
    }
  }

  lemma OpenIsFenced(cfg: OrgConfig, secrets: map<string, string>)
    requires DistinctAccounts(cfg)
    ensures Fenced(Open(cfg, secrets)) && forall id :: Generation(Open(cfg, secrets), id) <= 1
  {
    var b := Broker(cfg, secrets, map id | id in Ids(cfg) :: 1, map[], map[], [], [], Fresh(RouterConfig(cfg), [], {}, map[]), false);
    NewRouterFits(b);
    hide Fenced, NewRouter;
  }

  /**
   * From opening on, after every call each live lease holds its own router
   * lease, is the only one of its account, and carries the present generation
   * of a verified account.  It takes more than 2^53 calls to run out of
   * generations.
   */
  lemma {:induction false} LeasesStayFenced(cfg: OrgConfig, secrets: map<string, string>, ops: seq<Op>)
    requires DistinctAccounts(cfg) && (forall i | 0 <= i < |ops| :: WellFormed(ops[i])) && |ops| < MAX_SAFE_INTEGER
    ensures Fenced(Play(Open(cfg, secrets), ops))
  {
    OpenIsFenced(cfg, secrets);
    var b := Open(cfg, secrets);
    hide Fenced, Open, Step;
    if ops != [] {
      var n := |ops| - 1;
      LeasesStayFenced(cfg, secrets, ops[..n]);
      forall id ensures !Exhausted(Play(b, ops[..n]), id) {
        GenerationsCountCalls(b, ops[..n], id);
      }
      StepKeepsFence(Play(b, ops[..n]), ops[n]);
    }
  }

  // ---------------------------------------------------------------- router leases that nobody holds

  /** Every router lease that is out is held by a live lease. */
  ghost predicate NoneLeaked(b: Broker) {
    forall l | l in b.router.active :: exists i :: 0 <= i < |b.leases| && b.leases[i].routerLease == l
  }

  /** The router has granted, and then no identifier can be drawn. */
  ghost predicate Leaks(b: Broker, op: Op) {
    && op.AcquireOp? && !b.closed
    && Acquire(b.router, RouterRequest(b, op.req), op.now).1.Some?
    && (op.drawn.None? || OpaqueIdUsed(b, op.drawn.value))
  }

  lemma StopAtLeaksNothing(b: Broker, k: nat)
    requires NoneLeaked(b) && k < |b.leases|
    ensures NoneLeaked(StopAt(b, k))
  {
    var t := StopAt(b, k);
    forall l | l in t.router.active ensures exists i :: 0 <= i < |t.leases| && t.leases[i].routerLease == l {
      assert l in b.router.active && l != b.leases[k].routerLease;
      var i :| 0 <= i < |b.leases| && b.leases[i].routerLease == l;
      assert t.leases[if i < k then i else i - 1] == b.leases[i];
    }
  }

  lemma {:induction false} StopFromLeaksNothing(b: Broker, k: nat, account: Option<string>)
    requires NoneLeaked(b) && k <= |b.leases|
    ensures NoneLeaked(StopFrom(b, k, account))
    decreases |b.leases| - k
  {
    hide NoneLeaked, Release;
    if k == |b.leases| {
    } else if account.None? || b.leases[k].account == account.value {
      StopAtLeaksNothing(b, k);
      StopFromLeaksNothing(StopAt(b, k), k, account);
    } else {
      StopFromLeaksNothing(b, k + 1, account);
    }
  }

  lemma SameLeased(t: Broker, b: Broker)
    requires NoneLeaked(b) && t.leases == b.leases && t.router.active == b.router.active
    ensures NoneLeaked(t)
  {
  }

  lemma FenceLeaksNothing(b: Broker, id: string, f: Failure, now: int)
    requires NoneLeaked(b)
    ensures NoneLeaked(RouterFailure(Fence(b, id), id, f, now))
  {
    var bumped := Bump(b, id).(operations := AbortOperations(b.operations, Some(id)));
    SameLeased(bumped, b);
    StopFromLeaksNothing(bumped, 0, Some(id));
    FailureKeepsMembers(Fence(b, id).router, id, f, now);
    hide NoneLeaked, ReportFailure, MembersKept, StopFrom;
    SameLeased(RouterFailure(Fence(b, id), id, f, now), Fence(b, id));
  }

  lemma AcquireLeaks(b: Broker, op: Op)
    requires Fenced(b) && NoneLeaked(b) && op.AcquireOp?
    ensures NoneLeaked(Step(b, op)) <==> !Leaks(b, op)
  {
    if !b.closed {
      var (router, lease) := Acquire(b.router, RouterRequest(b, op.req), op.now);
      GrantedActive(b.router, RouterRequest(b, op.req), op.now);
      if lease.Some? {
        GrantIsFree(b, op.req, op.now);
        GrantIsVerified(b, op.req, op.now);
        GrantLeaks(b, op, router, lease.value);
      } else {
        hide Acquire;
        SameLeased(b.(router := router), b);
      }
    }
    hide Acquire, Release, Fenced, RouterRequest, OpaqueIdUsed, NoneLeaked, Verified;
  }

  lemma GrantLeaks(b: Broker, op: Op, router: Router, lease: Lease)
    requires Fenced(b) && NoneLeaked(b) && op.AcquireOp? && !b.closed && (router, Some(lease)) == Acquire(b.router, RouterRequest(b, op.req), op.now)
    requires Verified(b, lease.account) && router.active == b.router.active[lease.id := lease.account] && lease.id !in b.router.active
    requires forall i | 0 <= i < |b.leases| :: b.leases[i].routerLease != lease.id
    ensures NoneLeaked(Step(b, op)) <==> !Leaks(b, op)
  {
    hide Acquire, Fenced, RouterRequest, OpaqueIdUsed, Verified;
    var t := Step(b, op);
    if Leaks(b, op) {
      assert lease.id in t.router.active;
    } else if op.aborted {
      assert t.router.active == b.router.active;
      SameLeased(t, b);
    } else {
      assert t.leases[|b.leases|].routerLease == lease.id;
      forall l | l in t.router.active ensures exists i :: 0 <= i < |t.leases| && t.leases[i].routerLease == l {
        if l != lease.id {
          var i :| 0 <= i < |b.leases| && b.leases[i].routerLease == l;
          assert t.leases[i] == b.leases[i];
        }
      }
    }
  }

  lemma ReportsLeakNothing(b: Broker, id: string, session: string, f: Failure, now: int)
    requires NoneLeaked(b)
    ensures NoneLeaked(b.(router := ReportSuccess(b.router, id, session, now))) && NoneLeaked(RouterFailure(b, id, f, now))
  {
    SuccessKeepsMembers(b.router, id, session, now);
    FailureKeepsMembers(b.router, id, f, now);
    hide ReportSuccess, ReportFailure, MembersKept, NoneLeaked;
    SameLeased(b.(router := ReportSuccess(b.router, id, session, now)), b);
    SameLeased(RouterFailure(b, id, f, now), b);
  }

  lemma FailVerificationLeaksNothing(b: Broker, id: string, now: int)
    requires NoneLeaked(b)
    ensures NoneLeaked(FailVerification(b, id, now).0)
  {
    var dropped := b.(verifications := b.verifications - {id});
    SameLeased(dropped, b);
    FenceLeaksNothing(dropped, id, AUTH_REQUIRED, now);
    hide NoneLeaked, RouterFailure, Fence;
  }

  lemma RefusedIs(b: Broker, id: string, f: OrgFailure, now: int)
    requires Fenced(b) && !b.closed && FindLease(b.leases, id) < |b.leases|
    ensures var account := b.leases[FindLease(b.leases, id)].account;
            var safe := f.failure.(invalidKey := false);
            var told := if f.quotaExhausted || f.entitlementDenied then safe.(disabled := true) else safe;
            Refused(b, id, f, now).0 ==
              if !NeedsFence(f) then RouterFailure(b, account, safe, now)
              else if Exhausted(b, account) then Noted(b, account, f)
              else RouterFailure(Fence(Noted(b, account, f), account), account, told, now)
  {
    LiveRecordIsFound(b, id);
    hide Fenced, LiveRecord, RouterFailure, Fence, Exhausted;
  }

  lemma RefusedLeaksNothing(b: Broker, id: string, f: OrgFailure, now: int)
    requires Fenced(b) && NoneLeaked(b)
    ensures NoneLeaked(Refused(b, id, f, now).0)
  {
    var k := FindLease(b.leases, id);
    if !b.closed && k < |b.leases| {
      RefusedIs(b, id, f, now);
      hide Fenced, NoneLeaked, Refused, RouterFailure, Fence, Exhausted;
      var account := b.leases[k].account;
      var safe := f.failure.(invalidKey := false);
      SameLeased(Noted(b, account, f), b);
      FenceLeaksNothing(Noted(b, account, f), account, safe, now);
      FenceLeaksNothing(Noted(b, account, f), account, safe.(disabled := true), now);
      ReportsLeakNothing(b, account, "", safe, now);
    }
  }

  /** A call loses track of a router lease exactly when the router has granted and drawing an identifier then fails. */
  lemma LeaksExactlyWhen(b: Broker, op: Op)
    requires Fenced(b) && NoneLeaked(b)
    ensures NoneLeaked(Step(b, op)) <==> !Leaks(b, op)
  {
    hide NoneLeaked, Fenced, RouterFailure, Fence, StopAt, StopFrom, Verified, OpaqueIdUsed, AnyExhausted, Exhausted, Refused, FailVerification;
    match op {
      case AcquireOp(_, _, _, _) => AcquireLeaks(b, op);
      case AssertOp(id) => LiveRecordIsFound(b, id);
      case ReleaseOp(id) =>
        if FindLease(b.leases, id) < |b.leases| { StopAtLeaksNothing(b, FindLease(b.leases, id)); }
      case CancelOp(id) =>
        if FindLease(b.leases, id) < |b.leases| { StopAtLeaksNothing(b, FindLease(b.leases, id)); }
      case SuccessOp(id, session, now) =>
        LiveRecordIsFound(b, id);
        var k := FindLease(b.leases, id);
        if k < |b.leases| { ReportsLeakNothing(b, b.leases[k].account, session, AUTH_REQUIRED, now); }
      case FailureOp(id, f, now) => RefusedLeaksNothing(b, id, f, now);
      case BeginCheckOp(account, drawn, now) => BeginCheckLeaksNothing(b, account, drawn, now);
      case EndCheckOp(operation, affirmed, now) => EndCheckLeaksNothing(b, operation, affirmed, now);
      case RevokeOp(account, now) => RevokeLeaksNothing(b, account, now);
      case ReconfigureOp(cfg, secrets) => ReconfigureLeaksNothing(b, cfg, secrets);
      case CloseOp => CloseLeaksNothing(b);
    }
  }

  lemma BeginCheckLeaksNothing(b: Broker, account: string, drawn: Option<string>, now: int)
    requires NoneLeaked(b)
    ensures NoneLeaked(BeginVerification(b, account, drawn, now).0)
  {
    FailVerificationLeaksNothing(b, account, now);
    SameLeased(BeginVerification(b, account, drawn, now).0.(leases := b.leases, router := b.router), b);
    hide NoneLeaked, FailVerification;
  }

  lemma EndCheckLeaksNothing(b: Broker, operation: string, affirmed: bool, now: int)
    requires NoneLeaked(b)
    ensures NoneLeaked(EndVerification(b, operation, affirmed, now).0)
  {
    var k := FindOperation(b.operations, operation);
    if k < |b.operations| {
      var o := b.operations[k];
      var t := b.(operations := b.operations[..k] + b.operations[k + 1..]);
      SameLeased(t, b);
      FailVerificationLeaksNothing(t, o.account, now);
      var affirmedTo := t.(verifications := t.verifications[o.account := Generation(t, o.account)]);
      SameLeased(affirmedTo, b);
      ReportsLeakNothing(affirmedTo, o.account, "", AUTH_REQUIRED, now);
    }
    hide NoneLeaked, FailVerification, ReportSuccess, Overtaken;
  }

  lemma RevokeLeaksNothing(b: Broker, account: string, now: int)
    requires NoneLeaked(b)
    ensures NoneLeaked(Revoke(b, account, now).0)
  {
    var dropped := b.(secrets := b.secrets - {account}, verifications := b.verifications - {account}, blocks := b.blocks - {account});
    SameLeased(dropped, b);
    FenceLeaksNothing(dropped, account, AUTH_REQUIRED, now);
    hide NoneLeaked, RouterFailure, Fence, Exhausted;
  }

  lemma ReconfigureLeaksNothing(b: Broker, cfg: OrgConfig, given: Option<map<string, string>>)
    requires NoneLeaked(b)
    ensures NoneLeaked(Reconfigure(b, cfg, given).0)
  {
    StopFromLeaksNothing(b, 0, None);
    var stopped := StopAll(b).(operations := AbortOperations(b.operations, None));
    SameLeased(stopped, StopAll(b));
    hide StopFrom, AnyExhausted;
  }

  lemma CloseLeaksNothing(b: Broker)
    requires NoneLeaked(b)
    ensures NoneLeaked(Close(b))
  {
    var aborted := b.(operations := AbortOperations(b.operations, None));
    SameLeased(aborted, b);
    StopFromLeaksNothing(aborted, 0, None);
    SameLeased(StopAll(aborted).(closed := true), StopAll(aborted));
    hide NoneLeaked, StopFrom;
  }

  // ---------------------------------------------------------------- only affirmed credentials

  /** The keys the worker affirmed last, account by account. */
  ghost function Affirmed(b: Broker, op: Op, affirmed: map<string, string>): map<string, string> {
    if op.EndCheckOp? && EndVerification(b, op.operation, op.affirmed, op.now).1.Ok?
    then var o := b.operations[FindOperation(b.operations, op.operation)]; affirmed[o.account := o.key]
    else affirmed
  }

  /** A verification stands only for the very key that was affirmed. */
  ghost predicate Trusted(b: Broker, affirmed: map<string, string>) {
    forall id | id in b.verifications && id in b.secrets :: id in affirmed && affirmed[id] == b.secrets[id]
  }

  lemma FewerTrusted(t: Broker, b: Broker, affirmed: map<string, string>)
    requires Trusted(b, affirmed)
    requires forall id | id in t.verifications && id in t.secrets :: id in b.verifications && id in b.secrets && t.secrets[id] == b.secrets[id]
    ensures Trusted(t, affirmed)
  {
  }

  lemma FailVerificationTrusts(b: Broker, id: string, now: int, affirmed: map<string, string>)
    requires Trusted(b, affirmed)
    ensures Trusted(FailVerification(b, id, now).0, affirmed)
  {
    var dropped := b.(verifications := b.verifications - {id});
    FenceFields(dropped, id);
    hide Fence, ReportFailure, Exhausted, Trusted;
    FewerTrusted(FailVerification(b, id, now).0, b, affirmed);
  }

  lemma RefusedTrusts(b: Broker, lease: string, f: OrgFailure, now: int, affirmed: map<string, string>)
    requires Trusted(b, affirmed)
    ensures Trusted(Refused(b, lease, f, now).0, affirmed)
  {
    var k := FindLease(b.leases, lease);
    if k < |b.leases| { FenceFields(Noted(b, b.leases[k].account, f), b.leases[k].account); }
    hide Fence, ReportFailure, Exhausted, Release, Verified, Trusted;
    FewerTrusted(Refused(b, lease, f, now).0, b, affirmed);
  }

  lemma EndCheckTrusts(b: Broker, op: Op, affirmed: map<string, string>)
    requires Trusted(b, affirmed) && op.EndCheckOp?
    ensures Trusted(Step(b, op), Affirmed(b, op, affirmed))
  {
    var k := FindOperation(b.operations, op.operation);
    if k < |b.operations| {
      EndCheckIs(b, op.operation, op.affirmed, op.now);
      FewerTrusted(Ended(b, k), b, affirmed);
      FailVerificationTrusts(Ended(b, k), b.operations[k].account, op.now, affirmed);
    }
    hide FailVerification, ReportSuccess;
  }

  lemma RevokeTrusts(b: Broker, account: string, now: int, affirmed: map<string, string>)
    requires Trusted(b, affirmed)
    ensures Trusted(Revoke(b, account, now).0, affirmed)
  {
    FenceFields(b.(secrets := b.secrets - {account}, verifications := b.verifications - {account}, blocks := b.blocks - {account}), account);
    hide Fence, ReportFailure, Exhausted, Trusted;
    FewerTrusted(Revoke(b, account, now).0, b, affirmed);
  }

  /** A reconfiguration carries a verification over only with the key it stood for. */
  lemma ReconfigureTrusts(b: Broker, cfg: OrgConfig, given: Option<map<string, string>>, affirmed: map<string, string>)
    requires Trusted(b, affirmed)
    ensures Trusted(Reconfigure(b, cfg, given).0, affirmed)
  {
    StopFromFields(b, 0, None);
    hide StopFrom, NewRouter, AnyExhausted, Trusted;
    FewerTrusted(Reconfigure(b, cfg, given).0, b, affirmed);
  }

  lemma CloseTrusts(b: Broker, affirmed: map<string, string>)
    requires Trusted(b, affirmed)
    ensures Trusted(Close(b), affirmed)
  {
    StopFromFields(b.(operations := AbortOperations(b.operations, None)), 0, None);
    hide StopFrom, Trusted;
    FewerTrusted(Close(b), b, affirmed);
  }

  lemma BeginCheckTrusts(b: Broker, account: string, drawn: Option<string>, now: int, affirmed: map<string, string>)
    requires Trusted(b, affirmed)
    ensures Trusted(BeginVerification(b, account, drawn, now).0, affirmed)
  {
    FailVerificationTrusts(b, account, now, affirmed);
    FewerTrusted(b.(operations := BeginVerification(b, account, drawn, now).0.operations), b, affirmed);
    hide FailVerification, OpaqueIdUsed, Trusted;
  }

  lemma LeaseCallTrusts(b: Broker, op: Op, affirmed: map<string, string>)
    requires Trusted(b, affirmed) && (op.AcquireOp? || op.AssertOp? || op.ReleaseOp? || op.CancelOp? || op.SuccessOp?)
    ensures Trusted(Step(b, op), affirmed)
  {
    hide Acquire, Release, ReportSuccess, Verified, OpaqueIdUsed, RouterRequest, Trusted;
    FewerTrusted(Step(b, op), b, affirmed);
  }

  lemma StepTrusts(b: Broker, op: Op, affirmed: map<string, string>)
    requires Trusted(b, affirmed)
    ensures Trusted(Step(b, op), Affirmed(b, op, affirmed))
  {
    if op.EndCheckOp? {
      EndCheckTrusts(b, op, affirmed);
    } else {
      hide Trusted, AcquireLease, LiveRecord, ReleaseLease, CancelLease, Succeeded, Refused, BeginVerification, Revoke, Reconfigure, Close, EndVerification;
      match op {
        case FailureOp(lease, f, now) => RefusedTrusts(b, lease, f, now, affirmed);
        case BeginCheckOp(account, drawn, now) => BeginCheckTrusts(b, account, drawn, now, affirmed);
        case RevokeOp(account, now) => RevokeTrusts(b, account, now, affirmed);
        case ReconfigureOp(cfg, secrets) => ReconfigureTrusts(b, cfg, secrets, affirmed);
        case CloseOp => CloseTrusts(b, affirmed);
        case _ => LeaseCallTrusts(b, op, affirmed);
      }
    }
  }

  ghost function AllAffirmed(b: Broker, ops: seq<Op>): map<string, string> {
    if ops == [] then map[]
    else
      var n := |ops| - 1;
      Affirmed(Play(b, ops[..n]), ops[n], AllAffirmed(b, ops[..n]))
  }

  /** In every history a lease is only out under the key that the worker affirmed last for its account. */
  lemma {:induction false} LeasedKeysWereAffirmed(cfg: OrgConfig, secrets: map<string, string>, ops: seq<Op>)
    ensures Trusted(Play(Open(cfg, secrets), ops), AllAffirmed(Open(cfg, secrets), ops))
  {
    if ops == [] {
      hide NewRouter;
    } else {
      var n := |ops| - 1;
      LeasedKeysWereAffirmed(cfg, secrets, ops[..n]);
      hide Open, Step, Affirmed, Trusted;
      StepTrusts(Play(Open(cfg, secrets), ops[..n]), ops[n], AllAffirmed(Open(cfg, secrets), ops[..n]));
    }
  }
}
