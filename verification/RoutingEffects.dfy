/**
 * What the calls of the router do, told by the fields of accounts and sessions
 * before and after: who a request gets, and what a success, a failure and a
 * reset leave of an account.
 */
module RoutingEffects {
  import opened Common
  import opened AccountRouting
  import opened RoutingGuarantees
  import opened SessionAffinity

  // ---------------------------------------------------------------- who a request gets

  /** The account can take one more request of this kind. */
  ghost predicate CanTake(a: Account, req: Request, now: int) {
    && a.member.enabled && !a.authRequired && a.cooldownUntil <= now
    && a.inflight < a.member.maxConcurrency && a.member.id !in req.excluded
    && (a.member.models.Some? ==> req.model != "" && req.model in a.member.models.value)
  }

  lemma CanTakeIsAvailable(a: Account, req: Request, now: int)
    ensures CanTake(a, req, now) <==> Available(a, req, now)
  {
  }

  /** A request is granted exactly when the pool is enabled and some account can take it, and, where it names one, that one; it then gets the account it names. */
  lemma GrantedExactlyWhen(r: Router, req: Request, now: int)
    requires Sound(r)
    ensures Acquire(r, req, now).1.Some? <==>
              r.cfg.enabled
              && exists i :: 0 <= i < |r.accounts| && CanTake(r.accounts[i], req, now)
                             && (req.account == "" || r.accounts[i].member.id == req.account)
    ensures Acquire(r, req, now).1.Some? && req.account != "" ==> Acquire(r, req, now).1.value.account == req.account
  {
    CandidatesAreAvailable(r, req, now);
    var candidates := Candidates(r, req, now).1;
    forall i | 0 <= i < |r.accounts| ensures CanTake(r.accounts[i], req, now) <==> Available(r.accounts[i], req, now) {
      CanTakeIsAvailable(r.accounts[i], req, now);
    }
    hide Candidates, Available, CanTake;
    if Acquire(r, req, now).1.Some? {
      var i := Choice(r, req, candidates).value;
      assert i in candidates;
    }
    if i :| 0 <= i < |r.accounts| && CanTake(r.accounts[i], req, now) && (req.account == "" || r.accounts[i].member.id == req.account) {
      if r.cfg.enabled {
        assert i in candidates;
        if req.account != "" { PlaceIsThere(r, candidates, i); }
      }
    }
  }

  /** A request that prefers an account and names none gets the preferred one whenever that can take it. */
  lemma PreferredIsGranted(r: Router, req: Request, now: int, i: nat)
    requires Sound(r) && r.cfg.enabled && req.account == "" && req.preferred != ""
    requires i < |r.accounts| && r.accounts[i].member.id == req.preferred && CanTake(r.accounts[i], req, now)
    ensures Acquire(r, req, now).1 == Some(Lease(r.nextLease, req.preferred))
  {
    CanTakeIsAvailable(r.accounts[i], req, now);
    var found := Found(r, req, now);
    FoundIs(r, req, now);
    assert i in found;
    PlaceIsThere(r, found, i);
    assert Bound(r, req, found, now) == (r, req.preferred);
    hide Found, Bound, Available, CanTake, PlaceOf;
    assert Order(r, found, req.preferred)[0] == i;
  }

  // ---------------------------------------------------------------- successes, failures, resets

  /** At most the account at `i` differs, and its member and requests in flight do not. */
  ghost predicate OnlyCondition(r: Router, t: Router, i: nat) {
    && |t.accounts| == |r.accounts| && t.cfg == r.cfg && t.active == r.active && t.cursor == r.cursor && t.nextLease == r.nextLease
    && (forall k :: 0 <= k < |r.accounts| && k != i ==> t.accounts[k] == r.accounts[k])
    && (i < |r.accounts| ==> t.accounts[i].inflight == r.accounts[i].inflight && t.accounts[i].order == r.accounts[i].order)
  }

  /** Nothing is held against the account any more. */
  ghost predicate Clean(a: Account) {
    && !a.authRequired && a.cooldownUntil == 0 && a.failures == 0
    && a.softStrikes == 0 && a.definiteStrikes == 0 && a.uncertainStrikes == 0 && a.lastFailure.None?
  }

  /** After a success an enabled account is ready, whatever was held against it, and the other accounts are as they were. */
  lemma SuccessClears(r: Router, i: nat, session: string, now: int)
    requires Sound(r) && i < |r.accounts| && 0 <= now
    ensures var t := ReportSuccess(r, r.accounts[i].member.id, session, now);
            && OnlyCondition(r, t, i) && t.accounts[i].member == r.accounts[i].member
            && Clean(t.accounts[i]) && t.accounts[i].lastUsedAt == now
            && (r.accounts[i].member.enabled ==> StatusOf(t.accounts[i], now) == Ready)
            && (!r.accounts[i].member.enabled ==> StatusOf(t.accounts[i], now) == Disabled && t.sessions == r.sessions)
            && (r.accounts[i].member.enabled && Affine(r, session) ==> BoundTo(t, session, r.accounts[i].member.id, now))
  {
    var id := r.accounts[i].member.id;
    IndexIs(r.accounts, i);
    var cleared := r.(accounts := r.accounts[i := Cleared(r.accounts[i]).(lastUsedAt := now)]);
    RememberKeeps(cleared, session, id, now);
    hide Known, CarriesItsLeases, Remember, BoundTo;
    if Affine(r, session) { RememberBinds(cleared, session, id, now); }
  }

  /** A reset clears the account's condition and every session bound to it, and nothing else. */
  lemma ResetClears(r: Router, i: nat, now: int)
    requires Sound(r) && i < |r.accounts| && 0 <= now
    ensures var (t, id) := (ResetRuntime(r, r.accounts[i].member.id), r.accounts[i].member.id);
            && OnlyCondition(r, t, i) && t.accounts[i].member == r.accounts[i].member
            && Clean(t.accounts[i]) && t.accounts[i].lastUsedAt == r.accounts[i].lastUsedAt
            && (r.accounts[i].member.enabled ==> StatusOf(t.accounts[i], now) == Ready)
            && (forall s :: s in t.sessions <==> s in r.sessions && s.account != id)
  {
    IndexIs(r.accounts, i);
    DroppedAre(r.sessions, r.accounts[i].member.id);
  }

  lemma {:induction false} DroppedAre(sessions: seq<Session>, account: string)
    ensures forall s :: s in DropAccount(sessions, account) <==> s in sessions && s.account != account
  {
    if sessions != [] {
      DroppedAre(sessions[1..], account);
      assert sessions == [sessions[0]] + sessions[1..];
    }
  }

  /**
   * A failure counts one more, up to 31, and is remembered; a failure that
   * disables takes the account out and holds nothing else against it; the
   * account's sessions are dropped exactly when it is not ready afterwards.
   */
  lemma FailureCounts(r: Router, i: nat, f: Failure, now: int)
    requires Sound(r) && i < |r.accounts|
    ensures var (t, id) := (ReportFailure(r, r.accounts[i].member.id, f, now), r.accounts[i].member.id);
            && OnlyCondition(r, t, i) && t.accounts[i].lastUsedAt == r.accounts[i].lastUsedAt
            && t.accounts[i].failures == Min(31, r.accounts[i].failures + 1)
            && t.accounts[i].lastFailure == Some(ClassOf(f))
            && (f.disabled ==> StatusOf(t.accounts[i], now) == Disabled && !t.accounts[i].authRequired && t.accounts[i].cooldownUntil == 0)
            && (!f.disabled ==> t.accounts[i].member == r.accounts[i].member)
            && (forall s :: s in t.sessions <==> s in r.sessions && (s.account != id || StatusOf(t.accounts[i], now) == Ready))
  {
    IndexIs(r.accounts, i);
    DroppedAre(r.sessions, r.accounts[i].member.id);
    FailedCounts(r.cfg, r.accounts[i], f, now);
    hide Failed, ClassOf;
  }

  lemma FailedCounts(cfg: Config, a: Account, f: Failure, now: int)
    ensures var t := Failed(cfg, a, f, now);
            && t.inflight == a.inflight && t.order == a.order && t.lastUsedAt == a.lastUsedAt
            && t.failures == Min(31, a.failures + 1) && t.lastFailure == Some(ClassOf(f))
            && (f.disabled ==> t.member == a.member.(enabled := false) && !t.authRequired && t.cooldownUntil == 0)
            && (!f.disabled ==> t.member == a.member)
  {
    hide Delay, Retryable;
  }

  // ---------------------------------------------------------------- cooldowns

  /** The failures that put an account aside for a while. */
  ghost predicate Cools(cfg: Config, a: Account, f: Failure) {
    !f.disabled && !Rejects(cfg, a, f) && !(SaysNothing(f) && !Retryable(ClassOf(f), f))
  }

  ghost function ClassCooled(f: Failure): FailureClass {
    if f.authRequired then AuthDefinite else ClassOf(f)
  }

  lemma CoolingIs(cfg: Config, a: Account, f: Failure, now: int)
    requires Cools(cfg, a, f)
    ensures exists s :: Failed(cfg, a, f, now) == Cool(cfg, s, ClassCooled(f), f, now) && s.failures == Strike(a.failures)
  {
    var s0 := Failed(cfg, a, f, now);
    var s := s0.(authRequired := a.authRequired, cooldownUntil := a.cooldownUntil);
    hide Delay, ClassOf;
    assert Failed(cfg, a, f, now) == Cool(cfg, s, ClassCooled(f), f, now);
  }

  /** A failure that cools keeps the account away at least as long as the provider asks for, up to the longest time. */
  lemma CooldownHeedsTheProvider(cfg: Config, a: Account, f: Failure, now: int)
    requires Cools(cfg, a, f)
    ensures Failed(cfg, a, f, now).cooldownUntil >= now + Min(cfg.maxCooldownMs, Max(f.retryAfterMs, f.retryAfterHeaderMs))
  {
    CoolingIs(cfg, a, f, now);
    var s :| Failed(cfg, a, f, now) == Cool(cfg, s, ClassCooled(f), f, now) && s.failures == Strike(a.failures);
    hide Power, ClassOf;
  }

  lemma {:induction false} PowerGrows(n: nat)
    ensures Power(n) >= 1 && Power(n + 1) == 2 * Power(n)
  {
    if n > 0 { PowerGrows(n - 1); }
  }

  /** Without advice each cooldown in a row doubles, until the longest is reached; the first lasts the base time. */
  lemma CooldownDoubles(cfg: Config, a: Account, f: Failure, now: int, later: int)
    requires Cools(cfg, a, f) && Cools(cfg, Failed(cfg, a, f, now), f) && !(ClassOf(f) == AuthSoft && !f.authRequired)
    requires f.retryAfterMs <= 0 && f.retryAfterHeaderMs <= 0 && a.failures < 30
    requires cfg.baseCooldownMs <= cfg.maxCooldownMs && cfg.networkCooldownMs <= cfg.maxCooldownMs
    ensures var first, second := Failed(cfg, a, f, now), Failed(cfg, Failed(cfg, a, f, now), f, later);
            && second.cooldownUntil - later == Min(cfg.maxCooldownMs, 2 * (first.cooldownUntil - now))
            && (a.failures == 0 ==> first.cooldownUntil - now == if Networkish(ClassCooled(f), f) then cfg.networkCooldownMs else cfg.baseCooldownMs)
  {
    CooledFor(cfg, a, f, now);
    CooledFor(cfg, Failed(cfg, a, f, now), f, later);
    FailedCounts(cfg, a, f, now);
    PlainDoubles(cfg, f, a.failures);
    hide Failed, ClassOf, Cools, PlainCooldown, ClassCooled;
  }

  /** The base time doubled so many times, up to the longest. */
  ghost function PlainCooldown(cfg: Config, f: Failure, n: nat): int {
    Min(cfg.maxCooldownMs, (if Networkish(ClassCooled(f), f) then cfg.networkCooldownMs else cfg.baseCooldownMs) * Power(n))
  }

  lemma PlainDoubles(cfg: Config, f: Failure, n: nat)
    requires cfg.baseCooldownMs <= cfg.maxCooldownMs && cfg.networkCooldownMs <= cfg.maxCooldownMs
    ensures PlainCooldown(cfg, f, n + 1) == Min(cfg.maxCooldownMs, 2 * PlainCooldown(cfg, f, n))
    ensures PlainCooldown(cfg, f, 0) == if Networkish(ClassCooled(f), f) then cfg.networkCooldownMs else cfg.baseCooldownMs
  {
    var base: nat := if Networkish(ClassCooled(f), f) then cfg.networkCooldownMs else cfg.baseCooldownMs;
    Twice(base, n);
    hide Power, Networkish, ClassCooled;
    PowerZero();
  }

  lemma PowerZero()
    ensures Power(0) == 1
  {
  }

  lemma Twice(base: nat, n: nat)
    ensures base * Power(n + 1) == 2 * (base * Power(n))
  {
    PowerGrows(n);
    hide Power;
  }

  lemma CooledFor(cfg: Config, a: Account, f: Failure, now: int)
    requires Cools(cfg, a, f) && !(ClassOf(f) == AuthSoft && !f.authRequired)
    requires f.retryAfterMs <= 0 && f.retryAfterHeaderMs <= 0 && a.failures < 31
    requires cfg.baseCooldownMs <= cfg.maxCooldownMs && cfg.networkCooldownMs <= cfg.maxCooldownMs
    ensures Failed(cfg, a, f, now).cooldownUntil - now == PlainCooldown(cfg, f, a.failures)
  {
    CoolingIs(cfg, a, f, now);
    var s :| Failed(cfg, a, f, now) == Cool(cfg, s, ClassCooled(f), f, now) && s.failures == Strike(a.failures);
    hide Failed, ClassOf, Cools, Power, Delay;
    PlainDelay(cfg, s, ClassCooled(f), f);
  }

  lemma PlainDelay(cfg: Config, a: Account, c: FailureClass, f: Failure)
    requires c != AuthSoft && f.retryAfterMs <= 0 && f.retryAfterHeaderMs <= 0 && a.failures >= 1
    requires cfg.baseCooldownMs <= cfg.maxCooldownMs && cfg.networkCooldownMs <= cfg.maxCooldownMs
    ensures var base := if Networkish(c, f) then cfg.networkCooldownMs else cfg.baseCooldownMs;
            Delay(cfg, a, c, f) == Min(cfg.maxCooldownMs, base * Power(a.failures - 1))
  {
    var base := if Networkish(c, f) then cfg.networkCooldownMs else cfg.baseCooldownMs;
    PowerGrows(a.failures - 1);
    assert base * Power(a.failures - 1) >= base;
  }

  // ---------------------------------------------------------------- a new router

  /** A new router shows each account as it was saved, idle, with no lease and no session. */
  lemma FreshShows(cfg: Config, members: seq<Member>, blocked: set<string>, cooling: map<string, int>, now: int)
    ensures var r := Fresh(cfg, members, blocked, cooling);
            && r.cfg == cfg && r.sessions == [] && r.active == map[] && |r.accounts| == |members|
            && forall i :: 0 <= i < |members| ==>
                 var a := r.accounts[i];
                 && a.member == members[i] && a.order == i && a.inflight == 0 && a.failures == 0
                 && (StatusOf(a, now) == Disabled <==> !members[i].enabled)
                 && (StatusOf(a, now) == AuthRequired <==> members[i].enabled && members[i].id in blocked)
                 && (members[i].enabled && members[i].id !in blocked && members[i].id in cooling && cooling[members[i].id] > now ==> StatusOf(a, now) == Cooldown)
  {
  }

  // ---------------------------------------------------------------- strategies

  /** The account does not come after the other under the strategy, told by their fields. */
  ghost predicate NoWorse(r: Router, i: nat, j: nat)
    requires i < |r.accounts| && j < |r.accounts|
  {
    var (a, b) := (r.accounts[i], r.accounts[j]);
    match r.cfg.strategy
    case RoundRobin => Turns(r, a) <= Turns(r, b)
    case FillFirst => RanksFirst(a, b)
    case LeastUsed => a.lastUsedAt < b.lastUsedAt || (a.lastUsedAt == b.lastUsedAt && RanksFirst(a, b))
    case Balanced =>
      var (x, y) := (Burden(a), Burden(b));
      x < y || (x == y && (a.lastUsedAt < b.lastUsedAt || (a.lastUsedAt == b.lastUsedAt && RanksFirst(a, b))))
  }

  /** How many accounts come before this one, going round from the cursor. */
  ghost function Turns(r: Router, a: Account): int {
    if a.order >= r.cursor then a.order - r.cursor else a.order - r.cursor + |r.accounts|
  }

  ghost predicate RanksFirst(a: Account, b: Account) {
    a.member.priority < b.member.priority || (a.member.priority == b.member.priority && a.order <= b.order)
  }

  /** The requests an account would carry with one more, by its weight; an account without weight carries none. */
  ghost function Burden(a: Account): real {
    if a.member.weight > 0 then (a.inflight + 1) as real / a.member.weight as real else 0.0
  }

  lemma NotBeforeIsNoWorse(r: Router, i: nat, j: nat)
    requires Sound(r) && i < |r.accounts| && j < |r.accounts| && !Before(r, j, i)
    ensures NoWorse(r, i, j)
  {
    if r.cfg.strategy.RoundRobin? {
      DistanceIs(r, i);
      DistanceIs(r, j);
    }
  }

  /** A plain request gets an account than which no available one is better: the next in turn, the first in rank, the one used longest ago, or the one that would carry the least for its weight. */
  lemma StrategyIsFollowed(r: Router, req: Request, now: int, j: nat)
    requires Sound(r) && r.cfg.enabled && Plain(req) && j < |r.accounts| && CanTake(r.accounts[j], req, now)
    ensures Acquire(r, req, now).1.Some?
    ensures exists i :: 0 <= i < |r.accounts| && CanTake(r.accounts[i], req, now)
              && r.accounts[i].member.id == Acquire(r, req, now).1.value.account && NoWorse(r, i, j)
  {
    CanTakeIsAvailable(r.accounts[j], req, now);
    PlainTakesTheBest(r, req, now, j);
    var i := Choice(r, req, Candidates(r, req, now).1).value;
    CanTakeIsAvailable(r.accounts[i], req, now);
    NotBeforeIsNoWorse(r, i, j);
    hide Acquire, Candidates, Choice, Available, CanTake, Before, NoWorse;
  }
}
