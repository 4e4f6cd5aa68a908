/**
 * The organization broker: credentials, their verification, generations that
 * fence leases, and leases held one to one over leases of the router beneath.
 * Each call is a step from broker to broker; a call that throws part-way
 * leaves the part that it had done.
 */
module OrganizationBroker {
  import opened Common
  import opened AccountRouting

  datatype OrgAccount = OrgAccount(id: string, enabled: bool, weight: nat, priority: nat, models: Option<set<string>>, projects: Option<set<string>>)

  datatype OrgConfig = OrgConfig(enabled: bool, strategy: Strategy, sessionAffinity: bool, accounts: seq<OrgAccount>)

  datatype Block = QuotaExhausted | EntitlementDenied

  datatype LeaseRecord = LeaseRecord(id: string, routerLease: nat, account: string, generation: nat)

  /** A credential check under way: the key it was given and the generation it started in. */
  datatype Operation = Operation(id: string, account: string, key: string, generation: nat, aborted: bool)

  datatype Broker = Broker(
    cfg: OrgConfig,
    secrets: map<string, string>,
    generations: map<string, nat>,
    verifications: map<string, nat>,
    blocks: map<string, Block>,
    leases: seq<LeaseRecord>,
    operations: seq<Operation>,
    router: Router,
    closed: bool)

  datatype BrokerError =
    | Closed
    | AccountNotFound
    | SecretAccountUnknown
    | GenerationExhausted
    | OpaqueIdRefused
    | LeaseNotFound
    | LeaseStale
    | OperationNotFound
    | OperationStale
    | VerificationFailed

  const MAX_SAFE_INTEGER: nat := 0x1F_FFFF_FFFF_FFFF

  // ---------------------------------------------------------------- reading the state

  predicate HasAccount(cfg: OrgConfig, id: string) {
    exists i :: 0 <= i < |cfg.accounts| && cfg.accounts[i].id == id
  }

  function Generation(b: Broker, id: string): nat {
    if id in b.generations then b.generations[id] else 0
  }

  /** Verified in the present generation, with the credential still stored. */
  predicate Verified(b: Broker, id: string) {
    id in b.verifications && b.verifications[id] == Generation(b, id) && id in b.secrets
  }

  predicate Allows(list: Option<set<string>>, requested: string) {
    list.None? || (requested != "" && requested in list.value)
  }

  function FindLease(leases: seq<LeaseRecord>, id: string): (k: nat)
    ensures k <= |leases| && (k < |leases| ==> leases[k].id == id)
    ensures forall i | 0 <= i < k :: leases[i].id != id
  {
    if leases == [] || leases[0].id == id then 0 else 1 + FindLease(leases[1..], id)
  }

  function FindOperation(operations: seq<Operation>, id: string): (k: nat)
    ensures k <= |operations| && (k < |operations| ==> operations[k].id == id)
    ensures forall i | 0 <= i < k :: operations[i].id != id
  {
    if operations == [] || operations[0].id == id then 0 else 1 + FindOperation(operations[1..], id)
  }

  // ---------------------------------------------------------------- the router beneath

  /** One home directory is one process at a time, so every account takes one request. */
  function MembersOf(cfg: OrgConfig, blocks: map<string, Block>): seq<Member> {
    seq(|cfg.accounts|, i requires 0 <= i < |cfg.accounts| =>
      var a := cfg.accounts[i];
      Member(a.id, a.enabled && a.id !in blocks, a.weight, a.priority, 1, a.models))
  }

  function RouterConfig(cfg: OrgConfig): Config {
    Config(cfg.enabled, cfg.strategy, cfg.sessionAffinity, 1_000, 1_500, 86_400_000, 86_400_000, 10_000, 1, 2)
  }

  /** Enabled accounts that still have to be verified. */
  function Unverified(b: Broker): set<string> {
    set i | 0 <= i < |b.cfg.accounts| && b.cfg.accounts[i].enabled && b.cfg.accounts[i].id !in b.blocks && !Verified(b, b.cfg.accounts[i].id)
      :: b.cfg.accounts[i].id
  }

  function NewRouter(b: Broker): Router {
    Fresh(RouterConfig(b.cfg), MembersOf(b.cfg, b.blocks), Unverified(b), map[])
  }

  // ---------------------------------------------------------------- stopping leases and operations

  /** Removes the lease at k and gives its router lease back. */
  function StopAt(b: Broker, k: nat): Broker
    requires k < |b.leases|
  {
    b.(leases := b.leases[..k] + b.leases[k + 1..], router := Release(b.router, b.leases[k].routerLease).0)
  }

  /** Stops the leases that match, in the order they were taken. */
  function StopFrom(b: Broker, k: nat, account: Option<string>): Broker
    requires k <= |b.leases|
    decreases |b.leases| - k
  {
    if k == |b.leases| then b
    else if account.None? || b.leases[k].account == account.value then StopFrom(StopAt(b, k), k, account)
    else StopFrom(b, k + 1, account)
  }

  function StopAccount(b: Broker, account: string): Broker {
    StopFrom(b, 0, Some(account))
  }

  function StopAll(b: Broker): Broker {
    StopFrom(b, 0, None)
  }

  function AbortOperations(operations: seq<Operation>, account: Option<string>): seq<Operation> {
    seq(|operations|, i requires 0 <= i < |operations| =>
      if account.None? || operations[i].account == account.value then operations[i].(aborted := true) else operations[i])
  }

  function Bump(b: Broker, id: string): Broker {
    b.(generations := b.generations[id := Generation(b, id) + 1])
  }

  predicate Exhausted(b: Broker, id: string) {
    Generation(b, id) >= MAX_SAFE_INTEGER
  }

  /** The fence of one account: a new generation, its operations aborted, its leases stopped. */
  function Fence(b: Broker, id: string): Broker {
    var bumped := Bump(b, id);
    StopAccount(bumped.(operations := AbortOperations(b.operations, Some(id))), id)
  }

  const AUTH_REQUIRED := Failure(None, true, false, 0, None, false, 0, 0)

  function RouterFailure(b: Broker, id: string, f: Failure, now: int): Broker {
    b.(router := ReportFailure(b.router, id, f, now))
  }

  // ---------------------------------------------------------------- leases

  datatype LeaseRequest = LeaseRequest(session: string, preferred: string, account: string, excluded: set<string>, model: string, project: string)

  /** The accounts a request may not use: not verified, or not allowing its model or project. */
  function Excluded(b: Broker, req: LeaseRequest): set<string> {
    req.excluded + set i |
      0 <= i < |b.cfg.accounts|
      && var a := b.cfg.accounts[i]; !Verified(b, a.id) || !Allows(a.models, req.model) || !Allows(a.projects, req.project)
      :: b.cfg.accounts[i].id
  }

  function RouterRequest(b: Broker, req: LeaseRequest): Request {
    Request(req.session, req.preferred, req.account, Excluded(b, req), req.model)
  }

  predicate OpaqueIdUsed(b: Broker, id: string) {
    FindLease(b.leases, id) < |b.leases| || FindOperation(b.operations, id) < |b.operations|
  }

  /**
   * Takes a lease.  `drawn` is the identifier the factory gave, if it has the
   * right form; `aborted` says whether the caller had already cancelled.
   */
  function AcquireLease(b: Broker, req: LeaseRequest, now: int, drawn: Option<string>, aborted: bool): (Broker, Result<Option<string>, BrokerError>) {
    if b.closed then (b, Err(Closed))
    else
      var (router, lease) := Acquire(b.router, RouterRequest(b, req), now);
      var t := b.(router := router);
      if lease.None? then (t, Ok(None))
      else if !Verified(b, lease.value.account) then (t.(router := Release(router, lease.value.id).0), Ok(None))
      else if drawn.None? || OpaqueIdUsed(b, drawn.value) then (t, Err(OpaqueIdRefused))
      else if aborted then (t.(router := Release(router, lease.value.id).0), Ok(None))
      else
        var record := LeaseRecord(drawn.value, lease.value.id, lease.value.account, Generation(b, lease.value.account));
        (t.(leases := b.leases + [record]), Ok(Some(drawn.value)))
  }

  /** Looks a lease up, and stops it if a fence has passed since it was taken. */
  function LiveRecord(b: Broker, id: string): (Broker, Result<LeaseRecord, BrokerError>) {
    var k := FindLease(b.leases, id);
    if k == |b.leases| then (b, Err(LeaseNotFound))
    else
      var record := b.leases[k];
      if record.generation != Generation(b, record.account) || !Verified(b, record.account) then (StopAt(b, k), Err(LeaseStale))
      else (b, Ok(record))
  }

  function ReleaseLease(b: Broker, id: string): (Broker, bool) {
    var k := FindLease(b.leases, id);
    if b.closed || k == |b.leases| then (b, false)
    else (StopAt(b, k), Release(b.router, b.leases[k].routerLease).1)
  }

  /** The caller's signal fires: the lease stops, even on a closed broker. */
  function CancelLease(b: Broker, id: string): Broker {
    var k := FindLease(b.leases, id);
    if k == |b.leases| then b else StopAt(b, k)
  }

  function Succeeded(b: Broker, id: string, session: string, now: int): (Broker, Result<string, BrokerError>) {
    if b.closed then (b, Err(Closed))
    else
      var (t, record) := LiveRecord(b, id);
      match record
      case Err(e) => (t, Err(e))
      case Ok(r) => (t.(router := ReportSuccess(t.router, r.account, session, now)), Ok(r.account))
  }

  /** The caller's account of a failure adds to the router's the two entitlement flags; its message text is not passed on. */
  datatype OrgFailure = OrgFailure(failure: Failure, quotaExhausted: bool, entitlementDenied: bool)

  predicate Authentication(f: Failure) {
    f.authRequired || f.given == Some(AuthDefinite) || f.statusCode == 401
  }

  function Refused(b: Broker, id: string, f: OrgFailure, now: int): (Broker, Result<string, BrokerError>) {
    if b.closed then (b, Err(Closed))
    else
      var (t, record) := LiveRecord(b, id);
      match record
      case Err(e) => (t, Err(e))
      case Ok(r) =>
        var safe := f.failure.(invalidKey := false);
        if f.quotaExhausted || f.entitlementDenied then
          var blocked := t.(blocks := t.blocks[r.account := if f.quotaExhausted then QuotaExhausted else EntitlementDenied]);
          if Exhausted(t, r.account) then (blocked, Err(GenerationExhausted))
          else (RouterFailure(Fence(blocked, r.account), r.account, safe.(disabled := true), now), Ok(r.account))
        else if Authentication(safe) then
          var dropped := t.(verifications := t.verifications - {r.account});
          if Exhausted(t, r.account) then (dropped, Err(GenerationExhausted))
          else (RouterFailure(Fence(dropped, r.account), r.account, safe, now), Ok(r.account))
        else (RouterFailure(t, r.account, safe, now), Ok(r.account))
  }

  // ---------------------------------------------------------------- credentials

  /** What every failed check does, unless it was overtaken by a fence. */
  function FailVerification(b: Broker, id: string, now: int): (Broker, BrokerError) {
    if id !in b.generations then (b, VerificationFailed)
    else
      var dropped := b.(verifications := b.verifications - {id});
      if Exhausted(b, id) then (dropped, GenerationExhausted)
      else (RouterFailure(Fence(dropped, id), id, AUTH_REQUIRED, now), VerificationFailed)
  }

  /** Starts a check with the credential stored now; if it cannot start, it has failed. */
  function BeginVerification(b: Broker, id: string, drawn: Option<string>, now: int): (Broker, Result<string, BrokerError>) {
    if !HasAccount(b.cfg, id) then (b, Err(AccountNotFound))
    else if b.closed || id !in b.secrets || drawn.None? || OpaqueIdUsed(b, drawn.value) then
      var (t, e) := FailVerification(b, id, now);
      (t, Err(e))
    else
      (b.(operations := b.operations + [Operation(drawn.value, id, b.secrets[id], Generation(b, id), false)]), Ok(drawn.value))
  }

  predicate Overtaken(b: Broker, o: Operation) {
    o.aborted || o.generation != Generation(b, o.account) || o.account !in b.secrets || b.secrets[o.account] != o.key
  }

  /** A check ends: the worker affirmed the credential or not. */
  function EndVerification(b: Broker, operation: string, affirmed: bool, now: int): (Broker, Result<string, BrokerError>) {
    var k := FindOperation(b.operations, operation);
    if k == |b.operations| then (b, Err(OperationNotFound))
    else
      var o := b.operations[k];
      var t := b.(operations := b.operations[..k] + b.operations[k + 1..]);
      if Overtaken(b, o) then (t, Err(OperationStale))
      else if affirmed then
        (t.(verifications := t.verifications[o.account := Generation(t, o.account)],
            router := ReportSuccess(t.router, o.account, "", now)),
         Ok(o.account))
      else
        var (failed, e) := FailVerification(t, o.account, now);
        (failed, Err(e))
  }

  function Revoke(b: Broker, id: string, now: int): (Broker, Result<string, BrokerError>) {
    if b.closed then (b, Err(Closed))
    else if !HasAccount(b.cfg, id) then (b, Err(AccountNotFound))
    else if Exhausted(b, id) then (b, Err(GenerationExhausted))
    else
      var dropped := b.(secrets := b.secrets - {id}, verifications := b.verifications - {id}, blocks := b.blocks - {id});
      (RouterFailure(Fence(dropped, id), id, AUTH_REQUIRED, now), Ok(id))
  }

  // ---------------------------------------------------------------- the whole configuration

  predicate SecretKept(b: Broker, secrets: map<string, string>, id: string) {
    if id in b.secrets then id in secrets && secrets[id] == b.secrets[id] else id !in secrets
  }

  function Ids(cfg: OrgConfig): set<string> {
    set i | 0 <= i < |cfg.accounts| :: cfg.accounts[i].id
  }

  function NextGenerations(b: Broker, cfg: OrgConfig): map<string, nat> {
    map id | id in Ids(cfg) :: Generation(b, id) + 1
  }

  function CarriedVerifications(b: Broker, cfg: OrgConfig, secrets: map<string, string>): map<string, nat> {
    map id | id in Ids(cfg) && id in b.verifications && SecretKept(b, secrets, id) :: Generation(b, id) + 1
  }

  function CarriedBlocks(b: Broker, cfg: OrgConfig, secrets: map<string, string>): map<string, Block> {
    map id | id in Ids(cfg) && id in b.blocks && SecretKept(b, secrets, id) :: b.blocks[id]
  }

  predicate AnyExhausted(b: Broker, cfg: OrgConfig) {
    exists i :: 0 <= i < |cfg.accounts| && Exhausted(b, cfg.accounts[i].id)
  }

  /** A reconfiguration fences every account, even when nothing in it changes. */
  function Reconfigure(b: Broker, cfg: OrgConfig, given: Option<map<string, string>>): (Broker, Result<(), BrokerError>) {
    var secrets := if given.Some? then given.value else b.secrets;
    if b.closed then (b, Err(Closed))
    else if !(secrets.Keys <= Ids(cfg)) then (b, Err(SecretAccountUnknown))
    else
      var stopped := StopAll(b).(operations := AbortOperations(b.operations, None));
      if AnyExhausted(b, cfg) then (stopped, Err(GenerationExhausted))
      else
        var next := stopped.(
          cfg := cfg, secrets := secrets,
          generations := NextGenerations(b, cfg),
          verifications := CarriedVerifications(b, cfg, secrets),
          blocks := CarriedBlocks(b, cfg, secrets));
        (next.(router := NewRouter(next)), Ok(()))
  }

  function Close(b: Broker): Broker {
    if b.closed then b
    else StopAll(b.(operations := AbortOperations(b.operations, None))).(closed := true)
  }

  /** A broker as it is opened: every account in generation one and none verified. */
  function Open(cfg: OrgConfig, secrets: map<string, string>): Broker {
    var b := Broker(cfg, secrets, map id | id in Ids(cfg) :: 1, map[], map[], [], [], Fresh(RouterConfig(cfg), [], {}, map[]), false);
    b.(router := NewRouter(b))
  }
}
