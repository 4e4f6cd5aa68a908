/**
 * The broker object: maps it updates in place over a router object it owns and
 * replaces when it is reconfigured.  Each method leaves exactly the broker that
 * its specification in OrganizationBroker names.
 */
module KiroBroker {
  import opened Common
  import opened AccountRouting
  import opened OrganizationBroker
  import opened AccountPool
  import opened BrokerGuarantees

  class KiroOrganizationBroker {
    var cfg: OrgConfig
    var secrets: map<string, string>
    var generations: map<string, nat>
    var verifications: map<string, nat>
    var blocks: map<string, Block>
    var leases: seq<LeaseRecord>
    var operations: seq<Operation>
    var router: ProviderAccountPoolRouter
    var closed: bool

    function Contents(): Broker
      reads this, router
    {
      Broker(cfg, secrets, generations, verifications, blocks, leases, operations, router.Contents(), closed)
    }

    constructor (cfg: OrgConfig, secrets: map<string, string>)
      requires forall i, j | 0 <= i < j < |cfg.accounts| :: cfg.accounts[i].id != cfg.accounts[j].id
      ensures Contents() == Open(cfg, secrets) && fresh(router)
    {
      this.cfg, this.secrets := cfg, secrets;
      generations := map id | id in Ids(cfg) :: 1;
      verifications, blocks, leases, operations, closed := map[], map[], [], [], false;
      var b := Broker(cfg, secrets, map id | id in Ids(cfg) :: 1, map[], map[], [], [], Fresh(RouterConfig(cfg), [], {}, map[]), false);
      router := new ProviderAccountPoolRouter(RouterConfig(cfg), MembersOf(cfg, map[]), Unverified(b), map[]);
    }

    method FindLeaseIndex(id: string) returns (k: nat)
      ensures k == FindLease(leases, id)
    {
      k := 0;
      while k < |leases| && leases[k].id != id
        invariant k <= |leases| && forall i | 0 <= i < k :: leases[i].id != id
      {
        k := k + 1;
      }
    }

    method StopLease(k: nat) returns (released: bool)
      requires k < |leases|
      modifies this`leases, router
      ensures Contents() == StopAt(old(Contents()), k)
      ensures released == Release(old(router.Contents()), old(leases)[k].routerLease).1
    {
      var record := leases[k];
      leases := leases[..k] + leases[k + 1..];
      released := router.ReleaseLease(record.routerLease);
    }

    /** Walks the leases in the order they were taken and stops those that match. */
    method StopLeases(account: Option<string>)
      modifies this`leases, router
      ensures Contents() == StopFrom(old(Contents()), 0, account)
    {
      var k: nat := 0;
      while k < |leases|
        invariant k <= |leases|
        invariant StopFrom(Contents(), k, account) == StopFrom(old(Contents()), 0, account)
        decreases |leases| - k
      {
        if account.None? || leases[k].account == account.value {
          var _ := StopLease(k);
        } else {
          k := k + 1;
        }
      }
    }

    method AbortOperationsOf(account: Option<string>)
      modifies this`operations
      ensures operations == AbortOperations(old(operations), account)
    {
      var before := operations;
      var i := 0;
      while i < |before|
        invariant 0 <= i <= |before| == |operations|
        invariant operations[..i] == AbortOperations(before, account)[..i] && operations[i..] == before[i..]
      {
        assert operations[i] == operations[i..][0] == before[i];
        if account.None? || operations[i].account == account.value {
          operations := operations[i := operations[i].(aborted := true)];
        }
        i := i + 1;
      }
    }

    method FenceAccount(id: string)
      modifies this`generations, this`operations, this`leases, router
      ensures Contents() == Fence(old(Contents()), id)
    {
      generations := generations[id := (if id in generations then generations[id] else 0) + 1];
      AbortOperationsOf(Some(id));
      StopLeases(Some(id));
    }

    method Acquire(req: LeaseRequest, now: int, drawn: Option<string>, aborted: bool) returns (r: Result<Option<string>, BrokerError>)
      modifies this`leases, router
      ensures (Contents(), r) == AcquireLease(old(Contents()), req, now, drawn, aborted)
    {
      hide AccountRouting.Acquire, AccountRouting.Release;
      if closed { return Err(Closed); }
      ghost var before := Contents();
      var lease := router.AcquireLease(RouterRequest(Contents(), req), now);
      if lease.None? { return Ok(None); }
      var account := lease.value.account;
      var generation := if account in generations then generations[account] else 0;
      if !(account in verifications && verifications[account] == generation && account in secrets) {
        var _ := router.ReleaseLease(lease.value.id);
        return Ok(None);
      }
      if drawn.None? || OpaqueIdUsed(Contents(), drawn.value) { return Err(OpaqueIdRefused); }
      if aborted {
        var _ := router.ReleaseLease(lease.value.id);
        return Ok(None);
      }
      leases := leases + [LeaseRecord(drawn.value, lease.value.id, account, generation)];
      return Ok(Some(drawn.value));
    }

    method LeaseOf(id: string) returns (r: Result<LeaseRecord, BrokerError>)
      modifies this`leases, router
      ensures (Contents(), r) == LiveRecord(old(Contents()), id)
    {
      var k := FindLeaseIndex(id);
      if k == |leases| { return Err(LeaseNotFound); }
      var record := leases[k];
      if record.generation != Generation(Contents(), record.account) || !Verified(Contents(), record.account) {
        var _ := StopLease(k);
        return Err(LeaseStale);
      }
      return Ok(record);
    }

    method ReleaseOf(id: string) returns (released: bool)
      modifies this`leases, router
      ensures (Contents(), released) == ReleaseLease(old(Contents()), id)
    {
      if closed { return false; }
      var k := FindLeaseIndex(id);
      if k == |leases| { return false; }
      released := StopLease(k);
    }

    method ReportSuccessOf(id: string, session: string, now: int) returns (r: Result<string, BrokerError>)
      modifies this`leases, router
      ensures (Contents(), r) == Succeeded(old(Contents()), id, session, now)
    {
      hide LiveRecord, ReportSuccess;
      if closed { return Err(Closed); }
      var record := LeaseOf(id);
      if record.Err? { return Err(record.error); }
      router.ReportSuccessOf(record.value.account, session, now);
      return Ok(record.value.account);
    }

    method ReportFailureOf(id: string, f: OrgFailure, now: int) returns (r: Result<string, BrokerError>)
      modifies this`leases, this`blocks, this`verifications, this`generations, this`operations, router
      ensures (Contents(), r) == Refused(old(Contents()), id, f, now)
    {
      hide LiveRecord, ReportFailure, Fence;
      if closed { return Err(Closed); }
      var record := LeaseOf(id);
      if record.Err? { return Err(record.error); }
      var account := record.value.account;
      var safe := f.failure.(invalidKey := false);
      var exhausted := Exhausted(Contents(), account);
      if f.quotaExhausted || f.entitlementDenied {
        blocks := blocks[account := if f.quotaExhausted then QuotaExhausted else EntitlementDenied];
        if exhausted { return Err(GenerationExhausted); }
        FenceAccount(account);
        safe := safe.(disabled := true);
      } else if Authentication(safe) {
        verifications := verifications - {account};
        if exhausted { return Err(GenerationExhausted); }
        FenceAccount(account);
      }
      router.ReportFailureOf(account, safe, now);
      return Ok(account);
    }

    method FailVerificationOf(id: string, now: int) returns (e: BrokerError)
      modifies this`leases, this`verifications, this`generations, this`operations, router
      ensures (Contents(), e) == FailVerification(old(Contents()), id, now)
    {
      hide ReportFailure, Fence;
      if id !in generations { return VerificationFailed; }
      var exhausted := Exhausted(Contents(), id);
      verifications := verifications - {id};
      if exhausted { return GenerationExhausted; }
      FenceAccount(id);
      router.ReportFailureOf(id, AUTH_REQUIRED, now);
      return VerificationFailed;
    }

    method BeginVerificationOf(id: string, drawn: Option<string>, now: int) returns (r: Result<string, BrokerError>)
      modifies this`leases, this`verifications, this`generations, this`operations, router
      ensures (Contents(), r) == BeginVerification(old(Contents()), id, drawn, now)
    {
      hide FailVerification;
      if !HasAccount(cfg, id) { return Err(AccountNotFound); }
      if closed || id !in secrets || drawn.None? || OpaqueIdUsed(Contents(), drawn.value) {
        var e := FailVerificationOf(id, now);
        return Err(e);
      }
      operations := operations + [Operation(drawn.value, id, secrets[id], Generation(Contents(), id), false)];
      return Ok(drawn.value);
    }

    method EndVerificationOf(operation: string, affirmed: bool, now: int) returns (r: Result<string, BrokerError>)
      modifies this`leases, this`verifications, this`generations, this`operations, router
      ensures (Contents(), r) == EndVerification(old(Contents()), operation, affirmed, now)
    {
      hide FailVerification, ReportSuccess;
      var k := FindOperation(operations, operation);
      if k == |operations| { return Err(OperationNotFound); }
      var o := operations[k];
      var stale := Overtaken(Contents(), o);
      operations := operations[..k] + operations[k + 1..];
      if stale { return Err(OperationStale); }
      if affirmed {
        verifications := verifications[o.account := Generation(Contents(), o.account)];
        router.ReportSuccessOf(o.account, "", now);
        return Ok(o.account);
      }
      var e := FailVerificationOf(o.account, now);
      return Err(e);
    }

    method RevokeOf(id: string, now: int) returns (r: Result<string, BrokerError>)
      modifies this`leases, this`secrets, this`blocks, this`verifications, this`generations, this`operations, router
      ensures (Contents(), r) == Revoke(old(Contents()), id, now)
    {
      hide ReportFailure, Fence;
      if closed { return Err(Closed); }
      if !HasAccount(cfg, id) { return Err(AccountNotFound); }
      if Exhausted(Contents(), id) { return Err(GenerationExhausted); }
      secrets, verifications, blocks := secrets - {id}, verifications - {id}, blocks - {id};
      FenceAccount(id);
      router.ReportFailureOf(id, AUTH_REQUIRED, now);
      return Ok(id);
    }

    /** What each account of the next configuration keeps: a later generation, and what stood with an unchanged credential. */
    method CarryOver(next: OrgConfig, nextSecrets: map<string, string>)
      returns (nextGenerations: map<string, nat>, nextVerifications: map<string, nat>, nextBlocks: map<string, Block>)
      ensures nextGenerations == NextGenerations(Contents(), next)
      ensures nextVerifications == CarriedVerifications(Contents(), next, nextSecrets)
      ensures nextBlocks == CarriedBlocks(Contents(), next, nextSecrets)
    {
      nextGenerations, nextVerifications, nextBlocks := map[], map[], map[];
      NothingCarried(Contents(), next, nextSecrets);
      var k := 0;
      while k < |next.accounts|
        invariant 0 <= k <= |next.accounts|
        invariant nextGenerations == NextGenerations(Contents(), Prefix(next, k))
        invariant nextVerifications == CarriedVerifications(Contents(), Prefix(next, k), nextSecrets)
        invariant nextBlocks == CarriedBlocks(Contents(), Prefix(next, k), nextSecrets)
      {
        var id := next.accounts[k].id;
        NextGeneration(Contents(), next, k);
        NextVerification(Contents(), next, k, nextSecrets);
        NextBlock(Contents(), next, k, nextSecrets);
        hide NextGenerations, CarriedVerifications, CarriedBlocks;
        var generation := (if id in generations then generations[id] else 0) + 1;
        nextGenerations := nextGenerations[id := generation];
        var kept := if id in secrets then id in nextSecrets && nextSecrets[id] == secrets[id] else id !in nextSecrets;
        if id in verifications && kept { nextVerifications := nextVerifications[id := generation]; }
        if id in blocks && kept { nextBlocks := nextBlocks[id := blocks[id]]; }
        k := k + 1;
      }
      assert Prefix(next, k) == next;
    }

    method ReconfigureTo(next: OrgConfig, given: Option<map<string, string>>) returns (r: Result<(), BrokerError>)
      requires forall i, j | 0 <= i < j < |next.accounts| :: next.accounts[i].id != next.accounts[j].id
      modifies this, router
      ensures (Contents(), r) == Reconfigure(old(Contents()), next, given)
      ensures router == old(router) || fresh(router)
    {
      hide StopFrom, NextGenerations, CarriedVerifications, CarriedBlocks, Ids, AnyExhausted;
      ghost var before := Contents();
      var nextSecrets := if given.Some? then given.value else secrets;
      if closed { return Err(Closed); }
      if !(nextSecrets.Keys <= Ids(next)) { return Err(SecretAccountUnknown); }
      var exhausted := AnyExhausted(Contents(), next);
      var nextGenerations, nextVerifications, nextBlocks := CarryOver(next, nextSecrets);
      StopLeases(None);
      AbortOperationsOf(None);
      StopFromFields(before, 0, None);
      if exhausted { return Err(GenerationExhausted); }
      cfg, secrets, generations, verifications, blocks := next, nextSecrets, nextGenerations, nextVerifications, nextBlocks;
      ReplaceRouter();
      return Ok(());
    }

    /** A new router over the present accounts, with no lease out. */
    method ReplaceRouter()
      requires forall i, j | 0 <= i < j < |cfg.accounts| :: cfg.accounts[i].id != cfg.accounts[j].id
      modifies this`router
      ensures fresh(router) && Contents() == old(Contents()).(router := NewRouter(old(Contents())))
    {
      router := new ProviderAccountPoolRouter(RouterConfig(cfg), MembersOf(cfg, blocks), Unverified(Contents()), map[]);
    }

    method CloseAll()
      modifies this`closed, this`leases, this`operations, router
      ensures Contents() == Close(old(Contents()))
    {
      if closed { return; }
      ghost var before := Contents();
      closed := true;
      AbortOperationsOf(None);
      ClosedStopsTheSame(before.(operations := operations), 0, None);
      StopLeases(None);
    }
  }

  lemma NextIds(cfg: OrgConfig, k: nat)
    requires k < |cfg.accounts|
    ensures Ids(Prefix(cfg, k + 1)) == Ids(Prefix(cfg, k)) + {cfg.accounts[k].id}
  {
    var more, less := cfg.accounts[..k + 1], cfg.accounts[..k];
    forall id ensures id in Ids(cfg.(accounts := more)) <==> id in Ids(cfg.(accounts := less)) || id == cfg.accounts[k].id {
      if id in Ids(cfg.(accounts := less)) {
        var i :| 0 <= i < k && less[i].id == id;
        assert more[i].id == id;
      }
      assert more[k] == cfg.accounts[k];
      if id in Ids(cfg.(accounts := more)) {
        var i :| 0 <= i <= k && more[i].id == id;
        if i < k { assert less[i].id == id; }
      }
    }
  }

  function Prefix(cfg: OrgConfig, k: nat): OrgConfig
    requires k <= |cfg.accounts|
  {
    cfg.(accounts := cfg.accounts[..k])
  }

  lemma NothingCarried(b: Broker, cfg: OrgConfig, secrets: map<string, string>)
    ensures NextGenerations(b, Prefix(cfg, 0)) == map[] && CarriedVerifications(b, Prefix(cfg, 0), secrets) == map[] && CarriedBlocks(b, Prefix(cfg, 0), secrets) == map[]
  {
  }

  lemma NextGeneration(b: Broker, cfg: OrgConfig, k: nat)
    requires k < |cfg.accounts|
    ensures var id := cfg.accounts[k].id;
            NextGenerations(b, Prefix(cfg, k + 1)) == NextGenerations(b, Prefix(cfg, k))[id := Generation(b, id) + 1]
  {
    NextIds(cfg, k);
    hide Ids, Generation;
  }

  lemma NextVerification(b: Broker, cfg: OrgConfig, k: nat, secrets: map<string, string>)
    requires k < |cfg.accounts|
    ensures var id := cfg.accounts[k].id;
            var before := CarriedVerifications(b, Prefix(cfg, k), secrets);
            CarriedVerifications(b, Prefix(cfg, k + 1), secrets)
            == if id in b.verifications && SecretKept(b, secrets, id) then before[id := Generation(b, id) + 1] else before
  {
    NextIds(cfg, k);
    hide Ids, Generation, SecretKept;
  }

  lemma NextBlock(b: Broker, cfg: OrgConfig, k: nat, secrets: map<string, string>)
    requires k < |cfg.accounts|
    ensures var id := cfg.accounts[k].id;
            var before := CarriedBlocks(b, Prefix(cfg, k), secrets);
            CarriedBlocks(b, Prefix(cfg, k + 1), secrets)
            == if id in b.blocks && SecretKept(b, secrets, id) then before[id := b.blocks[id]] else before
  {
    NextIds(cfg, k);
    hide Ids, SecretKept;
  }

  /** Stopping leases does not depend on whether the broker is already marked closed. */
  lemma {:induction false} ClosedStopsTheSame(b: Broker, k: nat, account: Option<string>)
    requires k <= |b.leases|
    ensures StopFrom(b.(closed := true), k, account) == StopFrom(b, k, account).(closed := true)
    decreases |b.leases| - k
  {
    hide Release;
    if k == |b.leases| {
    } else if account.None? || b.leases[k].account == account.value {
      ClosedStopsTheSame(StopAt(b, k), k, account);
    } else {
      ClosedStopsTheSame(b, k + 1, account);
    }
  }
}
