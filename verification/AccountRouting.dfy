/**
 * Routing requests over the accounts of one provider: who may be chosen, in
 * which order, and what leases, successes and failures do to the accounts.
 * A call reads the clock once and is given what it read.
 */
module AccountRouting {
  import opened Common

  datatype Strategy = Balanced | RoundRobin | FillFirst | LeastUsed

  datatype Member = Member(id: string, enabled: bool, weight: nat, priority: nat, maxConcurrency: nat, models: Option<set<string>>)

  datatype FailureClass = Network | RateLimit | Server | AuthDefinite | AuthUncertain | AuthSoft | Client | Unknown

  datatype Account = Account(
    member: Member,
    order: nat,
    authRequired: bool,
    cooldownUntil: int,
    failures: nat,
    softStrikes: nat,
    definiteStrikes: nat,
    uncertainStrikes: nat,
    lastFailure: Option<FailureClass>,
    inflight: int,
    lastUsedAt: int)

  datatype Session = Session(key: string, account: string, lastSeenAt: int)

  datatype Config = Config(
    enabled: bool,
    strategy: Strategy,
    sessionAffinity: bool,
    baseCooldownMs: nat,
    networkCooldownMs: nat,
    maxCooldownMs: nat,
    sessionTtlMs: nat,
    maxSessions: nat,
    definiteRequired: nat,
    uncertainRequired: nat)

  datatype Router = Router(
    cfg: Config,
    accounts: seq<Account>,
    sessions: seq<Session>,
    active: map<nat, string>,
    cursor: nat,
    nextLease: nat)

  /** Every given account idle; `blocked` and `cooling` come from the saved status. */
  function Idle(members: seq<Member>, blocked: set<string>, cooling: map<string, int>): seq<Account> {
    seq(|members|, i requires 0 <= i < |members| =>
      Account(members[i], i, members[i].id in blocked, if members[i].id in cooling then cooling[members[i].id] else 0, 0, 0, 0, 0, None, 0, 0))
  }

  function Fresh(cfg: Config, members: seq<Member>, blocked: set<string>, cooling: map<string, int>): Router {
    Router(cfg, Idle(members, blocked, cooling), [], map[], 0, 1)
  }

  /** Absent text parts of a request are empty. */
  datatype Request = Request(session: string, preferred: string, account: string, excluded: set<string>, model: string)

  datatype Status = Disabled | AuthRequired | Cooldown | Ready

  // ---------------------------------------------------------------- who may be chosen

  function StatusOf(a: Account, now: int): Status {
    if !a.member.enabled then Disabled
    else if a.authRequired then AuthRequired
    else if a.cooldownUntil > now then Cooldown
    else Ready
  }

  predicate AllowsModel(m: Member, model: string) {
    m.models.None? || (model != "" && model in m.models.value)
  }

  predicate Available(a: Account, req: Request, now: int) {
    && StatusOf(a, now) == Ready
    && a.inflight < a.member.maxConcurrency
    && a.member.id !in req.excluded
    && AllowsModel(a.member, req.model)
  }

  function IndexOf(accounts: seq<Account>, id: string): (k: nat)
    ensures k <= |accounts| && (k < |accounts| ==> accounts[k].member.id == id)
    ensures forall i | 0 <= i < k :: accounts[i].member.id != id
  {
    if accounts == [] || accounts[0].member.id == id then 0 else 1 + IndexOf(accounts[1..], id)
  }

  /** The positions of the available accounts among the first n, in their saved order. */
  function AvailableUpTo(accounts: seq<Account>, n: nat, req: Request, now: int): seq<nat>
    requires n <= |accounts|
  {
    if n == 0 then []
    else AvailableUpTo(accounts, n - 1, req, now) + (if Available(accounts[n - 1], req, now) then [n - 1] else [])
  }

  // ---------------------------------------------------------------- sessions

  function Prune(sessions: seq<Session>, r: Router, now: int): seq<Session> {
    if sessions == [] then []
    else
      var s := sessions[0];
      (if now - s.lastSeenAt >= r.cfg.sessionTtlMs || IndexOf(r.accounts, s.account) == |r.accounts| then [] else [s])
      + Prune(sessions[1..], r, now)
  }

  function SessionIndex(sessions: seq<Session>, key: string): (k: nat)
    ensures k <= |sessions| && (k < |sessions| ==> sessions[k].key == key)
    ensures forall i | 0 <= i < k :: sessions[i].key != key
  {
    if sessions == [] || sessions[0].key == key then 0 else 1 + SessionIndex(sessions[1..], key)
  }

  /** Setting a key that is there keeps its place; a new key goes last. */
  function Put(sessions: seq<Session>, s: Session): seq<Session> {
    var k := SessionIndex(sessions, s.key);
    if k < |sessions| then sessions[k := s] else sessions + [s]
  }

  function DropSession(sessions: seq<Session>, key: string): seq<Session> {
    var k := SessionIndex(sessions, key);
    if k < |sessions| then sessions[..k] + sessions[k + 1..] else sessions
  }

  function DropAccount(sessions: seq<Session>, account: string): seq<Session> {
    if sessions == [] then []
    else (if sessions[0].account == account then [] else [sessions[0]]) + DropAccount(sessions[1..], account)
  }

  function Newest(sessions: seq<Session>, limit: nat): seq<Session> {
    if |sessions| > limit then sessions[|sessions| - limit..] else sessions
  }

  function Remember(r: Router, key: string, account: string, now: int): Router {
    if !r.cfg.sessionAffinity || key == "" then r
    else r.(sessions := Newest(Put(Prune(r.sessions, r, now), Session(key, account, now)), r.cfg.maxSessions))
  }

  /** The account a session is bound to, if it is ready and allows the model; a binding to an account that is not ready is dropped. */
  function LookUp(sessions: seq<Session>, accounts: seq<Account>, key: string, model: string, now: int): (seq<Session>, string) {
    var k := SessionIndex(sessions, key);
    if k == |sessions| then (sessions, "")
    else
      var s := sessions[k];
      var a := IndexOf(accounts, s.account);
      if a == |accounts| || StatusOf(accounts[a], now) != Ready then (DropSession(sessions, key), "")
      else if !AllowsModel(accounts[a].member, model) then (sessions, "")
      else (sessions[k := s.(lastSeenAt := now)], s.account)
  }

  function SessionAccount(r: Router, key: string, model: string, now: int): (result: (Router, string))
    ensures result.0 == r.(sessions := result.0.sessions)
  {
    if !r.cfg.sessionAffinity || key == "" then (r, "")
    else
      var (sessions, account) := LookUp(Prune(r.sessions, r, now), r.accounts, key, model, now);
      (r.(sessions := sessions), account)
  }

  // ---------------------------------------------------------------- the order

  /** Concurrent work a unit of weight would carry with one more request. */
  function Load(a: Account): real {
    if a.member.weight == 0 then 0.0 else (a.inflight + 1) as real / a.member.weight as real
  }

  function Distance(r: Router, i: nat): nat
    requires i < |r.accounts|
  {
    (i - r.cursor + |r.accounts|) % |r.accounts|
  }

  function ThenOrder(a: Account, b: Account): bool {
    if a.member.priority != b.member.priority then a.member.priority < b.member.priority else a.order < b.order
  }

  /** Whether the account at i ranks strictly before the one at j. */
  predicate Before(r: Router, i: nat, j: nat)
    requires i < |r.accounts| && j < |r.accounts|
  {
    var a, b := r.accounts[i], r.accounts[j];
    match r.cfg.strategy
    case RoundRobin =>
      if Distance(r, i) != Distance(r, j) then Distance(r, i) < Distance(r, j) else a.order < b.order
    case FillFirst => ThenOrder(a, b)
    case LeastUsed =>
      if a.lastUsedAt != b.lastUsedAt then a.lastUsedAt < b.lastUsedAt else ThenOrder(a, b)
    case Balanced =>
      if Load(a) != Load(b) then Load(a) < Load(b)
      else if a.lastUsedAt != b.lastUsedAt then a.lastUsedAt < b.lastUsedAt
      else ThenOrder(a, b)
  }

  predicate Positions(r: Router, indices: seq<nat>) {
    forall k | 0 <= k < |indices| :: indices[k] < |r.accounts|
  }

  /** Stable insertion. */
  function InsertRanked(r: Router, i: nat, rest: seq<nat>): (ranked: seq<nat>)
    requires i < |r.accounts| && Positions(r, rest)
    ensures Positions(r, ranked)
  {
    if rest == [] || !Before(r, rest[0], i) then [i] + rest else [rest[0]] + InsertRanked(r, i, rest[1..])
  }

  function Ranked(r: Router, indices: seq<nat>): (ranked: seq<nat>)
    requires Positions(r, indices)
    ensures Positions(r, ranked)
  {
    if indices == [] then [] else InsertRanked(r, indices[0], Ranked(r, indices[1..]))
  }

  /** The position in a list of positions at which an account stands. */
  function PlaceOf(r: Router, indices: seq<nat>, id: string): (k: nat)
    requires Positions(r, indices)
    ensures k <= |indices| && (k < |indices| ==> r.accounts[indices[k]].member.id == id)
    ensures forall j | 0 <= j < k :: r.accounts[indices[j]].member.id != id
  {
    if indices == [] || r.accounts[indices[0]].member.id == id then 0 else 1 + PlaceOf(r, indices[1..], id)
  }

  lemma {:induction false} AvailableAre(accounts: seq<Account>, n: nat, req: Request, now: int)
    requires n <= |accounts|
    ensures var found := AvailableUpTo(accounts, n, req, now);
            && (forall k | 0 <= k < |found| :: found[k] < n && Available(accounts[found[k]], req, now))
            && (forall j, k | 0 <= j < k < |found| :: found[j] < found[k])
            && (forall i: nat :: i in found <==> i < n && Available(accounts[i], req, now))
  {
    if n > 0 { AvailableAre(accounts, n - 1, req, now); }
  }

  lemma AvailablePositions(r: Router, req: Request, now: int)
    ensures Positions(r, AvailableUpTo(r.accounts, |r.accounts|, req, now))
  {
    AvailableAre(r.accounts, |r.accounts|, req, now);
  }

  function Found(r: Router, req: Request, now: int): (found: seq<nat>)
    ensures Positions(r, found)
  {
    AvailablePositions(r, req, now);
    AvailableUpTo(r.accounts, |r.accounts|, req, now)
  }

  /** The account to try first: the preferred one if it is available, else the session's. */
  function Bound(r: Router, req: Request, found: seq<nat>, now: int): (result: (Router, string))
    requires Positions(r, found)
    ensures result.0 == r.(sessions := result.0.sessions)
  {
    if req.preferred != "" && PlaceOf(r, found, req.preferred) < |found| then (r, req.preferred)
    else SessionAccount(r, req.session, req.model, now)
  }

  function Order(r: Router, found: seq<nat>, bound: string): (ordered: seq<nat>)
    requires Positions(r, found)
    ensures Positions(r, ordered)
  {
    var k := if bound == "" then |found| else PlaceOf(r, found, bound);
    if k == |found| then Ranked(r, found) else [found[k]] + Ranked(r, found[..k] + found[k + 1..])
  }

  /** The candidates in the order they are tried, and the router with its session bindings brought up to date. */
  function Candidates(r: Router, req: Request, now: int): (result: (Router, seq<nat>))
    ensures result.0 == r.(sessions := result.0.sessions) && Positions(r, result.1)
  {
    var found := Found(r, req, now);
    if !r.cfg.enabled || found == [] then (r, [])
    else
      var (after, bound) := Bound(r, req, found, now);
      (after, Order(r, found, bound))
  }

  datatype Lease = Lease(id: nat, account: string)

  /** Which candidate a request takes: the named account, or the first. */
  function Choice(r: Router, req: Request, candidates: seq<nat>): Option<nat>
    requires Positions(r, candidates)
  {
    var k := if req.account == "" then 0 else PlaceOf(r, candidates, req.account);
    if k < |candidates| then Some(candidates[k]) else None
  }

  function Take(r: Router, i: nat, req: Request, now: int): Router
    requires i < |r.accounts|
  {
    var a := r.accounts[i];
    var taken := r.(accounts := r.accounts[i := a.(inflight := a.inflight + 1, lastUsedAt := now)]);
    var remembered := Remember(taken, req.session, a.member.id, now);
    remembered.(
      cursor := if r.cfg.strategy.RoundRobin? then (a.order + 1) % |r.accounts| else r.cursor,
      active := r.active[r.nextLease := a.member.id],
      nextLease := r.nextLease + 1)
  }

  function Acquire(r: Router, req: Request, now: int): (Router, Option<Lease>) {
    var (after, candidates) := Candidates(r, req, now);
    match Choice(r, req, candidates)
    case None => (after, None)
    case Some(i) => (Take(after, i, req, now), Some(Lease(r.nextLease, r.accounts[i].member.id)))
  }

  function Release(r: Router, lease: nat): (Router, bool) {
    if lease !in r.active then (r, false)
    else
      var i := IndexOf(r.accounts, r.active[lease]);
      var freed := r.(active := r.active - {lease});
      if i == |r.accounts| then (freed, true)
      else
        var n := r.accounts[i].inflight;
        (freed.(accounts := r.accounts[i := r.accounts[i].(inflight := if n > 0 then n - 1 else 0)]), true)
  }

  // ---------------------------------------------------------------- successes and failures

  function Cleared(a: Account): Account {
    a.(failures := 0, softStrikes := 0, definiteStrikes := 0, uncertainStrikes := 0, lastFailure := None, authRequired := false, cooldownUntil := 0)
  }

  function ReportSuccess(r: Router, account: string, session: string, now: int): Router {
    var i := IndexOf(r.accounts, account);
    if i == |r.accounts| then r
    else
      var a := Cleared(r.accounts[i]).(lastUsedAt := now);
      var cleared := r.(accounts := r.accounts[i := a]);
      if a.member.enabled then Remember(cleared, session, account, now) else cleared
  }

  function ResetRuntime(r: Router, account: string): Router {
    var i := IndexOf(r.accounts, account);
    if i == |r.accounts| then r
    else r.(accounts := r.accounts[i := Cleared(r.accounts[i])], sessions := DropAccount(r.sessions, account))
  }

  /**
   * What a caller says about a failed request: an explicit class, flags, the
   * status code (zero when there is none), whether the message shows an invalid
   * key, and the waiting times it was told.
   */
  datatype Failure = Failure(
    given: Option<FailureClass>,
    authRequired: bool,
    disabled: bool,
    statusCode: nat,
    retryable: Option<bool>,
    invalidKey: bool,
    retryAfterMs: int,
    retryAfterHeaderMs: int)

  function ClassOf(f: Failure): FailureClass {
    if f.given.Some? then f.given.value
    else if f.authRequired then AuthDefinite
    else if f.disabled then Client
    else if f.statusCode == 401 then (if f.invalidKey then AuthDefinite else AuthUncertain)
    else if f.statusCode == 403 then AuthSoft
    else if f.statusCode == 429 then RateLimit
    else if f.statusCode == 408 || f.statusCode == 425 then Network
    else if f.statusCode >= 500 then Server
    else if f.statusCode == 0 && f.retryable == Some(true) then Network
    else if f.statusCode >= 400 then Client
    else if f.retryable == Some(true) then Network
    else Unknown
  }

  function Power(n: nat): nat {
    if n == 0 then 1 else 2 * Power(n - 1)
  }

  function Max(a: int, b: int): int {
    if a < b then b else a
  }

  function Min(a: int, b: int): int {
    if a < b then a else b
  }

  predicate Networkish(c: FailureClass, f: Failure) {
    c == Network || f.statusCode == 408 || f.statusCode == 425
  }

  function Delay(cfg: Config, a: Account, c: FailureClass, f: Failure): int {
    var networkish := Networkish(c, f);
    var base := if networkish then cfg.networkCooldownMs else cfg.baseCooldownMs;
    var exponential := Min(cfg.maxCooldownMs, base * Power(if a.failures > 0 then a.failures - 1 else 0));
    var soft := if c == AuthSoft then Min(cfg.maxCooldownMs, cfg.baseCooldownMs * Power(if a.softStrikes > 0 then a.softStrikes - 1 else 0)) else 0;
    var longest := Max(Max(Max(if networkish then cfg.networkCooldownMs else 0, exponential), soft), Max(Max(0, f.retryAfterMs), f.retryAfterHeaderMs));
    Max(Min(cfg.maxCooldownMs, longest), base)
  }

  /** Puts an account aside for a while; it also takes back an authentication block. */
  function Cool(cfg: Config, a: Account, c: FailureClass, f: Failure, now: int): Account {
    a.(authRequired := false, cooldownUntil := now + Delay(cfg, a, c, f))
  }

  predicate Retryable(c: FailureClass, f: Failure) {
    || f.retryable == Some(true) || c == Network || c == RateLimit || c == Server
    || (f.retryable != Some(false)
        && (f.statusCode == 0 || f.statusCode == 408 || f.statusCode == 425 || f.statusCode == 429 || f.statusCode >= 500))
  }

  function Strike(n: nat): nat {
    if n + 1 < 31 then n + 1 else 31
  }

  function Failed(cfg: Config, before: Account, f: Failure, now: int): Account {
    var c := ClassOf(f);
    var a := before.(failures := Strike(before.failures), lastFailure := Some(c));
    if f.disabled then
      a.(member := a.member.(enabled := false), authRequired := false, cooldownUntil := 0, softStrikes := 0, definiteStrikes := 0, uncertainStrikes := 0)
    else if f.authRequired || c == AuthDefinite then
      var s := a.(softStrikes := 0, uncertainStrikes := 0, definiteStrikes := Strike(a.definiteStrikes));
      if s.definiteStrikes >= cfg.definiteRequired then s.(authRequired := true, cooldownUntil := 0) else Cool(cfg, s, AuthDefinite, f, now)
    else if c == AuthUncertain then
      var s := a.(softStrikes := 0, definiteStrikes := 0, uncertainStrikes := Strike(a.uncertainStrikes));
      if s.uncertainStrikes >= cfg.uncertainRequired then s.(authRequired := true, cooldownUntil := 0) else Cool(cfg, s, AuthUncertain, f, now)
    else if c == AuthSoft then
      Cool(cfg, a.(uncertainStrikes := 0, definiteStrikes := 0, softStrikes := Strike(a.softStrikes)), AuthSoft, f, now)
    else
      var s := if c == Network || c == RateLimit || c == Server then a.(softStrikes := 0, uncertainStrikes := 0) else a;
      if Retryable(c, f) then Cool(cfg, s, c, f, now) else s
  }

  function ReportFailure(r: Router, account: string, f: Failure, now: int): Router {
    var i := IndexOf(r.accounts, account);
    if i == |r.accounts| then r
    else
      var a := Failed(r.cfg, r.accounts[i], f, now);
      r.(accounts := r.accounts[i := a],
         sessions := if StatusOf(a, now) != Ready then DropAccount(r.sessions, account) else r.sessions)
  }
}
