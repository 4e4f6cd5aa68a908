/**
 * The router object, which keeps accounts, session bindings and leases in
 * fields it updates in place.  Each method leaves exactly the state its
 * specification in AccountRouting names.
 */
module AccountPool {
  import opened Common
  import opened AccountRouting
  import opened RoutingGuarantees

  class ProviderAccountPoolRouter {
    const cfg: Config
    var accounts: seq<Account>
    var sessions: seq<Session>
    var active: map<nat, string>
    var cursor: nat
    var nextLease: nat

    function Contents(): Router
      reads this
    {
      Router(cfg, accounts, sessions, active, cursor, nextLease)
    }

    constructor (cfg: Config, members: seq<Member>, blocked: set<string>, cooling: map<string, int>)
      requires forall i, j | 0 <= i < j < |members| :: members[i].id != members[j].id
      ensures Contents() == Fresh(cfg, members, blocked, cooling)
    {
      this.cfg := cfg;
      accounts := Idle(members, blocked, cooling);
      sessions, active, cursor, nextLease := [], map[], 0, 1;
    }

    method FindAccount(id: string) returns (k: nat)
      ensures k == IndexOf(accounts, id)
    {
      k := 0;
      while k < |accounts| && accounts[k].member.id != id
        invariant k <= |accounts| && forall i | 0 <= i < k :: accounts[i].member.id != id
      {
        k := k + 1;
      }
    }

    method FindSession(key: string) returns (k: nat)
      ensures k == SessionIndex(sessions, key)
    {
      k := 0;
      while k < |sessions| && sessions[k].key != key
        invariant k <= |sessions| && forall i | 0 <= i < k :: sessions[i].key != key
      {
        k := k + 1;
      }
    }

    method PruneSessions(now: int)
      modifies this`sessions
      ensures sessions == Prune(old(sessions), old(Contents()), now)
    {
      var all := sessions;
      ghost var r := Contents();
      var kept: seq<Session> := [];
      var k := |all|;
      while 0 < k
        invariant 0 <= k <= |all| && kept == Prune(all[k..], r, now)
      {
        k := k - 1;
        assert all[k..][0] == all[k] && all[k..][1..] == all[k + 1..];
        var owner := FindAccount(all[k].account);
        if !(now - all[k].lastSeenAt >= cfg.sessionTtlMs || owner == |accounts|) {
          kept := [all[k]] + kept;
        }
      }
      assert all[0..] == all;
      sessions := kept;
    }

    method PutSession(s: Session)
      modifies this`sessions
      ensures sessions == Put(old(sessions), s)
    {
      var k := FindSession(s.key);
      if k < |sessions| {
        sessions := sessions[k := s];
      } else {
        sessions := sessions + [s];
      }
    }

    /** Drops the oldest bindings until the rest fit. */
    method EvictSessions()
      modifies this`sessions
      ensures sessions == Newest(old(sessions), cfg.maxSessions)
    {
      ghost var full := sessions;
      while |sessions| > cfg.maxSessions
        invariant |sessions| <= |full| && sessions == full[|full| - |sessions|..]
        invariant |sessions| >= cfg.maxSessions || sessions == full
      {
        sessions := sessions[1..];
      }
    }

    method RememberSession(key: string, account: string, now: int)
      modifies this`sessions
      ensures Contents() == Remember(old(Contents()), key, account, now)
    {
      hide Prune, Put, Newest;
      if !cfg.sessionAffinity || key == "" { return; }
      PruneSessions(now);
      PutSession(Session(key, account, now));
      EvictSessions();
    }

    method LookUpSession(key: string, model: string, now: int) returns (account: string)
      modifies this`sessions
      ensures (sessions, account) == LookUp(old(sessions), accounts, key, model, now)
    {
      var k := FindSession(key);
      if k == |sessions| { return ""; }
      var s := sessions[k];
      var owner := FindAccount(s.account);
      if owner == |accounts| || StatusOf(accounts[owner], now) != Ready {
        sessions := sessions[..k] + sessions[k + 1..];
        return "";
      }
      if !AllowsModel(accounts[owner].member, model) { return ""; }
      sessions := sessions[k := s.(lastSeenAt := now)];
      return s.account;
    }

    method GetSessionAccount(key: string, model: string, now: int) returns (account: string)
      modifies this`sessions
      ensures (Contents(), account) == SessionAccount(old(Contents()), key, model, now)
    {
      hide Prune, LookUp;
      if !cfg.sessionAffinity || key == "" { return ""; }
      PruneSessions(now);
      account := LookUpSession(key, model, now);
    }

    method ClearAccountSessions(account: string)
      modifies this`sessions
      ensures sessions == DropAccount(old(sessions), account)
    {
      var all := sessions;
      var kept: seq<Session> := [];
      var k := |all|;
      while 0 < k
        invariant 0 <= k <= |all| && kept == DropAccount(all[k..], account)
      {
        k := k - 1;
        assert all[k..][0] == all[k] && all[k..][1..] == all[k + 1..];
        if all[k].account != account { kept := [all[k]] + kept; }
      }
      assert all[0..] == all;
      sessions := kept;
    }

    method FilterAvailable(req: Request, now: int) returns (found: seq<nat>)
      ensures found == Found(Contents(), req, now)
    {
      found := [];
      var k: nat := 0;
      while k < |accounts|
        invariant k <= |accounts| && found == AvailableUpTo(accounts, k, req, now)
      {
        if Available(accounts[k], req, now) { found := found + [k]; }
        k := k + 1;
      }
    }

    method OrderedCandidates(req: Request, now: int) returns (ordered: seq<nat>)
      modifies this`sessions
      ensures (Contents(), ordered) == Candidates(old(Contents()), req, now)
    {
      if !cfg.enabled { return []; }
      var found := FilterAvailable(req, now);
      if found == [] { return []; }
      ghost var r := Contents();
      var bound := req.preferred;
      if req.preferred == "" || PlaceOf(Contents(), found, req.preferred) == |found| {
        bound := GetSessionAccount(req.session, req.model, now);
      }
      OrderIgnoresSessions(r, Contents(), found, bound);
      ordered := Order(Contents(), found, bound);
    }

    method TakeLease(i: nat, req: Request, now: int) returns (lease: Lease)
      requires i < |accounts|
      modifies this
      ensures Contents() == Take(old(Contents()), i, req, now)
      ensures lease == Lease(old(nextLease), old(accounts)[i].member.id)
    {
      hide Remember;
      var a := accounts[i];
      accounts := accounts[i := a.(inflight := a.inflight + 1, lastUsedAt := now)];
      RememberSession(req.session, a.member.id, now);
      if cfg.strategy.RoundRobin? {
        cursor := (a.order + 1) % |accounts|;
      }
      lease := Lease(nextLease, a.member.id);
      nextLease := nextLease + 1;
      active := active[lease.id := a.member.id];
    }

    method AcquireLease(req: Request, now: int) returns (lease: Option<Lease>)
      modifies this
      ensures (Contents(), lease) == Acquire(old(Contents()), req, now)
    {
      hide Candidates, Take;
      ghost var r := Contents();
      var ordered := OrderedCandidates(req, now);
      PlaceIgnoresSessions(r, Contents(), ordered, req.account);
      var place := if req.account == "" then 0 else PlaceOf(Contents(), ordered, req.account);
      if place >= |ordered| { return None; }
      var taken := TakeLease(ordered[place], req, now);
      return Some(taken);
    }

    method ReleaseLease(lease: nat) returns (released: bool)
      modifies this`active, this`accounts
      ensures (Contents(), released) == Release(old(Contents()), lease)
    {
      if lease !in active { return false; }
      var k := FindAccount(active[lease]);
      active := active - {lease};
      if k < |accounts| {
        var n := accounts[k].inflight;
        accounts := accounts[k := accounts[k].(inflight := if n > 0 then n - 1 else 0)];
      }
      return true;
    }

    method ReportSuccessOf(account: string, session: string, now: int)
      modifies this`accounts, this`sessions
      ensures Contents() == ReportSuccess(old(Contents()), account, session, now)
    {
      var k := FindAccount(account);
      if k == |accounts| { return; }
      accounts := accounts[k := Cleared(accounts[k]).(lastUsedAt := now)];
      if accounts[k].member.enabled { RememberSession(session, account, now); }
    }

    method ResetRuntimeOf(account: string)
      modifies this`accounts, this`sessions
      ensures Contents() == ResetRuntime(old(Contents()), account)
    {
      var k := FindAccount(account);
      if k == |accounts| { return; }
      accounts := accounts[k := Cleared(accounts[k])];
      ClearAccountSessions(account);
    }

    method ApplyCooldown(k: nat, a: Account, c: FailureClass, f: Failure, now: int)
      requires k < |accounts|
      modifies this`accounts
      ensures accounts == old(accounts)[k := Cool(cfg, a, c, f, now)]
    {
      accounts := accounts[k := a.(authRequired := false, cooldownUntil := now + Delay(cfg, a, c, f))];
    }

    method ReportFailureOf(account: string, f: Failure, now: int)
      modifies this`accounts, this`sessions
      ensures Contents() == ReportFailure(old(Contents()), account, f, now)
    {
      hide Delay;
      var k := FindAccount(account);
      if k == |accounts| { return; }
      var c := ClassOf(f);
      var a := accounts[k].(failures := Strike(accounts[k].failures), lastFailure := Some(c));
      accounts := accounts[k := a];
      if f.disabled {
        a := a.(member := a.member.(enabled := false), authRequired := false, cooldownUntil := 0,
                softStrikes := 0, definiteStrikes := 0, uncertainStrikes := 0);
        accounts := accounts[k := a];
      } else if f.authRequired || c == AuthDefinite {
        a := a.(softStrikes := 0, uncertainStrikes := 0, definiteStrikes := Strike(a.definiteStrikes));
        if a.definiteStrikes >= cfg.definiteRequired {
          accounts := accounts[k := a.(authRequired := true, cooldownUntil := 0)];
        } else {
          ApplyCooldown(k, a, AuthDefinite, f, now);
        }
      } else if c == AuthUncertain {
        a := a.(softStrikes := 0, definiteStrikes := 0, uncertainStrikes := Strike(a.uncertainStrikes));
        if a.uncertainStrikes >= cfg.uncertainRequired {
          accounts := accounts[k := a.(authRequired := true, cooldownUntil := 0)];
        } else {
          ApplyCooldown(k, a, AuthUncertain, f, now);
        }
      } else if c == AuthSoft {
        a := a.(uncertainStrikes := 0, definiteStrikes := 0, softStrikes := Strike(a.softStrikes));
        ApplyCooldown(k, a, AuthSoft, f, now);
      } else {
        if c == Network || c == RateLimit || c == Server {
          a := a.(softStrikes := 0, uncertainStrikes := 0);
          accounts := accounts[k := a];
        }
        if Retryable(c, f) { ApplyCooldown(k, a, c, f, now); }
      }
      if StatusOf(accounts[k], now) != Ready { ClearAccountSessions(account); }
    }
  }

  lemma {:induction false} InsertIgnoresSessions(r: Router, t: Router, i: nat, rest: seq<nat>)
    requires t == r.(sessions := t.sessions) && i < |r.accounts| && Positions(r, rest)
    ensures Positions(t, rest) && InsertRanked(t, i, rest) == InsertRanked(r, i, rest)
  {
    if rest != [] && Before(r, rest[0], i) { InsertIgnoresSessions(r, t, i, rest[1..]); }
  }

  lemma {:induction false} RankIgnoresSessions(r: Router, t: Router, indices: seq<nat>)
    requires t == r.(sessions := t.sessions) && Positions(r, indices)
    ensures Positions(t, indices) && Ranked(t, indices) == Ranked(r, indices)
  {
    if indices != [] {
      RankIgnoresSessions(r, t, indices[1..]);
      InsertIgnoresSessions(r, t, indices[0], Ranked(r, indices[1..]));
    }
  }

  lemma {:induction false} PlaceIgnoresSessions(r: Router, t: Router, indices: seq<nat>, id: string)
    requires t == r.(sessions := t.sessions) && Positions(r, indices)
    ensures Positions(t, indices) && PlaceOf(t, indices, id) == PlaceOf(r, indices, id)
  {
    if indices != [] { PlaceIgnoresSessions(r, t, indices[1..], id); }
  }

  /** Bringing the session bindings up to date does not change the order of the candidates. */
  lemma OrderIgnoresSessions(r: Router, t: Router, found: seq<nat>, bound: string)
    requires t == r.(sessions := t.sessions) && Positions(r, found)
    ensures Positions(t, found) && Order(t, found, bound) == Order(r, found, bound)
  {
    PlaceIgnoresSessions(r, t, found, bound);
    RankIgnoresSessions(r, t, found);
    var k := if bound == "" then |found| else PlaceOf(r, found, bound);
    if k < |found| { RankIgnoresSessions(r, t, found[..k] + found[k + 1..]); }
  }
}
