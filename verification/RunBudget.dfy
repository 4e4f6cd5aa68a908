/**
 * The run budget: monotone consumption, limits, and the exhausted / overdrawn /
 * overage marks derived from them.  Amounts are reals; the integer fields must
 * hold whole numbers within JavaScript's safe range.
 */
module RunBudget {
  import opened Common

  datatype Field =
    | InputTokens | OutputTokens | TotalTokens | Calls | WallTime | RepairCycles | Assistance | Cost

  const FIELDS: seq<Field> := [InputTokens, OutputTokens, TotalTokens, Calls, WallTime, RepairCycles, Assistance, Cost]
  const MAX_SAFE: real := 9007199254740991.0

  type Amounts = map<Field, real>

  /** A consumption report: increments per field, and provider calls without metering. */
  datatype Charge = Charge(amounts: Amounts, unmetered: int)

  datatype BudgetError = UsageInvalid | NonMonotonic | TotalInvalid | Exhausted

  datatype Budget = Budget(
    limits: Amounts,
    consumed: Amounts,
    unmetered: int,
    exhausted: bool,
    overdrawn: bool,
    overage: Amounts)

  predicate Whole(x: real) {
    x == x.Floor as real && -MAX_SAFE <= x <= MAX_SAFE
  }

  function Get(a: Amounts, f: Field): real {
    if f in a then a[f] else 0.0
  }

  /** A value one field may be set to, given what was there before. */
  predicate Acceptable(f: Field, value: real, prior: real) {
    value >= prior && value >= 0.0 && (f != Cost ==> Whole(value))
  }

  /** The usage the limits are compared with: unmetered calls count, and a missing total is input plus output. */
  function Used(b: Budget, f: Field): real {
    match f
    case TotalTokens =>
      if TotalTokens in b.consumed then b.consumed[TotalTokens]
      else Get(b.consumed, InputTokens) + Get(b.consumed, OutputTokens)
    case Calls => Get(b.consumed, Calls) + b.unmetered as real
    case _ => Get(b.consumed, f)
  }

  predicate Reached(b: Budget, f: Field) {
    f in b.limits && Used(b, f) >= b.limits[f]
  }

  predicate Over(b: Budget, f: Field) {
    f in b.limits && Used(b, f) > b.limits[f]
  }

  predicate AnyReached(b: Budget) {
    exists f :: f in b.limits && Reached(b, f)
  }

  predicate AnyOver(b: Budget) {
    exists f :: f in b.limits && Over(b, f)
  }

  function Overage(b: Budget): Amounts {
    map f: Field | f in b.limits && Over(b, f) :: Used(b, f) - b.limits[f]
  }

  // ---------------------------------------------------------------- patch

  /** Recompute the marks; exhausted and overdrawn stay set once they are. */
  function Mark(b: Budget): Budget {
    b.(exhausted := b.exhausted || AnyReached(b),
       overdrawn := b.overdrawn || AnyOver(b),
       overage := Overage(b))
  }

  /** Set absolute values: refused unless every one is acceptable and the token total covers its parts. */
  function Patch(b: Budget, supplied: Amounts, unmetered: Option<int>): Result<Budget, BudgetError> {
    if exists f :: f in supplied && !Acceptable(f, supplied[f], Get(b.consumed, f)) then
      Err(FirstFault(b, supplied, FIELDS))
    else
      var consumed := b.consumed + supplied;
      var calls := if unmetered.Some? then unmetered.value else b.unmetered;
      if TotalTokens in consumed
         && consumed[TotalTokens] < Get(consumed, InputTokens) + Get(consumed, OutputTokens) then Err(TotalInvalid)
      else if calls < 0 then Err(UsageInvalid)
      else if calls < b.unmetered then Err(NonMonotonic)
      else Ok(Mark(b.(consumed := consumed, unmetered := calls)))
  }

  /** The error of the first field, in field order, that is not acceptable. */
  function FirstFault(b: Budget, supplied: Amounts, fields: seq<Field>): BudgetError
    decreases |fields|
  {
    if |fields| == 0 then UsageInvalid
    else
      var f := fields[0];
      if f in supplied && !Acceptable(f, supplied[f], Get(b.consumed, f)) then
        if 0.0 <= supplied[f] < Get(b.consumed, f) then NonMonotonic else UsageInvalid
      else FirstFault(b, supplied, fields[1..])
  }

  lemma FieldsAreAll(f: Field)
    ensures f in FIELDS
  {
    assert FIELDS[0] == InputTokens && FIELDS[1] == OutputTokens && FIELDS[2] == TotalTokens && FIELDS[3] == Calls;
    assert FIELDS[4] == WallTime && FIELDS[5] == RepairCycles && FIELDS[6] == Assistance && FIELDS[7] == Cost;
  }

  /** The two loops of applyBudgetPatch: accept the supplied fields, then compare usage with the limits. */
  method ApplyBudgetPatch(b: Budget, supplied: Amounts, unmetered: Option<int>) returns (r: Result<Budget, BudgetError>)
    ensures r == Patch(b, supplied, unmetered)
  {
    forall f: Field ensures f in FIELDS { FieldsAreAll(f); }
    var accepted := AcceptFields(b, supplied, FIELDS);
    if accepted.Err? { return Err(accepted.error); }
    var consumed := accepted.value;
    if TotalTokens in consumed && consumed[TotalTokens] < Get(consumed, InputTokens) + Get(consumed, OutputTokens) {
      return Err(TotalInvalid);
    }
    var calls := if unmetered.Some? then unmetered.value else b.unmetered;
    if calls < 0 { return Err(UsageInvalid); }
    if calls < b.unmetered { return Err(NonMonotonic); }
    var marked := MarkLimits(b.(consumed := consumed, unmetered := calls), FIELDS);
    return Ok(marked);
  }

  method AcceptFields(b: Budget, supplied: Amounts, fields: seq<Field>) returns (r: Result<Amounts, BudgetError>)
    requires forall f: Field :: f in fields
    ensures r.Ok? <==> !exists f :: f in supplied && !Acceptable(f, supplied[f], Get(b.consumed, f))
    ensures r.Ok? ==> r.value == b.consumed + supplied
    ensures r.Err? ==> r.error == FirstFault(b, supplied, fields)
  {
    hide AcceptedUpTo, FirstFault, Taken;
    var consumed := b.consumed;
    var i := 0;
    NothingTaken(b, supplied, fields);
    while i < |fields|
      invariant 0 <= i <= |fields|
      invariant AcceptedUpTo(b, supplied, fields, i)
      invariant consumed == b.consumed + Taken(supplied, fields[..i])
    {
      var field := fields[i];
      assert fields[..i + 1] == fields[..i] + [field];
      AcceptOneMore(b, supplied, fields, i);
      if field in supplied {
        var value, prior := supplied[field], Get(b.consumed, field);
        if value < prior || value < 0.0 || (field != Cost && !Whole(value)) {
          return Err(if 0.0 <= value < prior then NonMonotonic else UsageInvalid);
        }
        consumed := consumed[field := value];
      }
      TakenStep(b.consumed, supplied, fields[..i], field);
      i := i + 1;
    }
    assert fields[..i] == fields;
    AllAccepted(b, supplied, fields);
    return Ok(consumed);
  }

  /** The fields before `i` are acceptable where they are supplied, so the first fault lies behind them. */
  ghost predicate AcceptedUpTo(b: Budget, supplied: Amounts, fields: seq<Field>, i: nat)
    requires i <= |fields|
  {
    && (forall j :: 0 <= j < i && fields[j] in supplied ==> Acceptable(fields[j], supplied[fields[j]], Get(b.consumed, fields[j])))
    && FirstFault(b, supplied, fields) == FirstFault(b, supplied, fields[i..])
  }

  lemma AcceptOneMore(b: Budget, supplied: Amounts, fields: seq<Field>, i: nat)
    requires i < |fields| && AcceptedUpTo(b, supplied, fields, i)
    ensures var f := fields[i];
            if f in supplied && !Acceptable(f, supplied[f], Get(b.consumed, f))
            then FirstFault(b, supplied, fields) == (if 0.0 <= supplied[f] < Get(b.consumed, f) then NonMonotonic else UsageInvalid)
            else AcceptedUpTo(b, supplied, fields, i + 1)
  {
    assert fields[i..][0] == fields[i] && fields[i..][1..] == fields[i + 1..];
    hide Acceptable;
  }

  lemma AllAccepted(b: Budget, supplied: Amounts, fields: seq<Field>)
    requires AcceptedUpTo(b, supplied, fields, |fields|) && forall f: Field :: f in fields
    ensures Taken(supplied, fields) == supplied
    ensures !exists f :: f in supplied && !Acceptable(f, supplied[f], Get(b.consumed, f))
  {
    hide Acceptable;
  }

  ghost function Taken(supplied: Amounts, fields: seq<Field>): Amounts {
    map f | f in supplied && f in fields :: supplied[f]
  }

  lemma TakenStep(base: Amounts, supplied: Amounts, fields: seq<Field>, f: Field)
    ensures base + Taken(supplied, fields + [f])
         == if f in supplied then (base + Taken(supplied, fields))[f := supplied[f]] else base + Taken(supplied, fields)
  {
    if f !in supplied {
      assert Taken(supplied, fields + [f]) == Taken(supplied, fields);
    }
  }

  lemma NothingTaken(b: Budget, supplied: Amounts, fields: seq<Field>)
    ensures AcceptedUpTo(b, supplied, fields, 0) && b.consumed + Taken(supplied, fields[..0]) == b.consumed
  {
    assert fields[0..] == fields;
  }

  ghost function OverageWithin(b: Budget, fields: seq<Field>): Amounts {
    map f: Field | f in b.limits && f in fields && Over(b, f) :: Used(b, f) - b.limits[f]
  }

  lemma OverageStep(b: Budget, fields: seq<Field>, f: Field)
    ensures OverageWithin(b, fields + [f])
         == if Over(b, f) then OverageWithin(b, fields)[f := Used(b, f) - b.limits[f]] else OverageWithin(b, fields)
  {
  }

  method MarkLimits(b: Budget, fields: seq<Field>) returns (r: Budget)
    requires forall f: Field :: f in fields
    ensures r == Mark(b)
  {
    var overage: Amounts := map[];
    var exhausted, overdrawn := false, false;
    var i := 0;
    while i < |fields|
      invariant 0 <= i <= |fields|
      invariant exhausted <==> exists f :: f in fields[..i] && Reached(b, f)
      invariant overdrawn <==> exists f :: f in fields[..i] && Over(b, f)
      invariant overage == OverageWithin(b, fields[..i])
    {
      var field := fields[i];
      assert fields[..i + 1] == fields[..i] + [field];
      OverageStep(b, fields[..i], field);
      assert forall f :: f in fields[..i + 1] <==> f in fields[..i] || f == field;
      assert field in fields[..i + 1];
      if field in b.limits {
        var used, limit := Used(b, field), b.limits[field];
        if used >= limit { exhausted := true; }
        if used > limit {
          overdrawn := true;
          overage := overage[field := used - limit];
        }
      }
      i := i + 1;
    }
    assert fields[..i] == fields;
    assert overage == Overage(b);
    r := b.(exhausted := b.exhausted || exhausted, overdrawn := b.overdrawn || overdrawn, overage := overage);
  }

  // ---------------------------------------------------------------- delta

  predicate TokensTogether(c: Charge) {
    || (InputTokens in c.amounts && OutputTokens in c.amounts && TotalTokens in c.amounts)
    || (InputTokens !in c.amounts && OutputTokens !in c.amounts && TotalTokens !in c.amounts)
  }

  predicate Chargeable(f: Field, increment: real, prior: real) {
    && increment >= 0.0
    && (f != Cost ==> Whole(increment) && Whole(prior + increment))
  }

  function Sum(b: Budget, c: Charge, fields: seq<Field>): Amounts {
    map f: Field | f in fields :: Get(b.consumed, f) + Get(c.amounts, f)
  }

  /** Add a charge to the consumption. */
  function Delta(b: Budget, c: Charge): Result<Budget, BudgetError> {
    DeltaOver(b, c, FIELDS)
  }

  function DeltaOver(b: Budget, c: Charge, fields: seq<Field>): Result<Budget, BudgetError> {
    if !TokensTogether(c) then Err(UsageInvalid)
    else if !forall f :: f in fields ==> Chargeable(f, Get(c.amounts, f), Get(b.consumed, f)) then Err(UsageInvalid)
    else if c.unmetered < 0 then Err(UsageInvalid)
    else Patch(b, Sum(b, c, fields), Some(b.unmetered + c.unmetered))
  }

  method ApplyBudgetDelta(b: Budget, c: Charge) returns (r: Result<Budget, BudgetError>)
    ensures r == Delta(b, c)
  {
    r := ApplyBudgetDeltaOver(b, c, FIELDS);
  }

  method ApplyBudgetDeltaOver(b: Budget, c: Charge, fields: seq<Field>) returns (r: Result<Budget, BudgetError>)
    ensures r == DeltaOver(b, c, fields)
  {
    if !TokensTogether(c) { return Err(UsageInvalid); }
    var summed := AddFields(b, c, fields);
    if summed.Err? { return Err(UsageInvalid); }
    if c.unmetered < 0 { return Err(UsageInvalid); }
    r := ApplyBudgetPatch(b, summed.value, Some(b.unmetered + c.unmetered));
  }

  method AddFields(b: Budget, c: Charge, fields: seq<Field>) returns (r: Result<Amounts, BudgetError>)
    ensures r.Ok? <==> forall f :: f in fields ==> Chargeable(f, Get(c.amounts, f), Get(b.consumed, f))
    ensures r.Ok? ==> r.value == Sum(b, c, fields)
  {
    var consumed: Amounts := map[];
    var i := 0;
    while i < |fields|
      invariant 0 <= i <= |fields|
      invariant forall f :: f in fields[..i] ==> Chargeable(f, Get(c.amounts, f), Get(b.consumed, f))
      invariant consumed == Sum(b, c, fields[..i])
    {
      var field := fields[i];
      assert fields[..i + 1] == fields[..i] + [field];
      var increment, prior := Get(c.amounts, field), Get(b.consumed, field);
      if increment < 0.0 || (field != Cost && (!Whole(increment) || !Whole(prior + increment))) {
        assert field in fields && !Chargeable(field, Get(c.amounts, field), Get(b.consumed, field));
        return Err(UsageInvalid);
      }
      consumed := consumed[field := prior + increment];
      i := i + 1;
    }
    assert fields[..i] == fields;
    return Ok(consumed);
  }

  // ---------------------------------------------------------------- repair cycles

  /** A repeated execution costs one repair cycle, if the limit has one left. */
  function RepairCharge(b: Budget): Result<Budget, BudgetError> {
    var cycles := Get(b.consumed, RepairCycles);
    if !Whole(cycles) || cycles < 0.0 then Err(UsageInvalid)
    else if RepairCycles in b.limits && cycles >= b.limits[RepairCycles] then Err(Exhausted)
    else
      Ok(b.(consumed := b.consumed[RepairCycles := cycles + 1.0],
            exhausted := b.exhausted || (RepairCycles in b.limits && cycles + 1.0 >= b.limits[RepairCycles])))
  }

  // ---------------------------------------------------------------- laws

  ghost predicate NonNegative(b: Budget) {
    && b.unmetered >= 0
    && forall f :: f in b.consumed ==> b.consumed[f] >= 0.0
  }

  /** Limits as normalizeLimits makes them: positive, and a whole number of repair cycles. */
  ghost predicate PositiveLimits(b: Budget) {
    && (forall f :: f in b.limits ==> b.limits[f] > 0.0)
    && (RepairCycles in b.limits ==> b.limits[RepairCycles] == b.limits[RepairCycles].Floor as real)
  }

  /** The marks say exactly what the consumption says. */
  ghost predicate MarksExact(b: Budget) {
    && (b.exhausted <==> AnyReached(b))
    && (b.overdrawn <==> AnyOver(b))
    && b.overage == Overage(b)
  }

  ghost predicate TokensBalanced(b: Budget) {
    Get(b.consumed, TotalTokens) == Get(b.consumed, InputTokens) + Get(b.consumed, OutputTokens)
  }

  lemma UsedIsMonotone(b: Budget, b': Budget)
    requires b'.limits == b.limits && b'.unmetered >= b.unmetered
    requires TotalTokens in b'.consumed || TotalTokens !in b.consumed
    requires TotalTokens in b'.consumed ==>
               b'.consumed[TotalTokens] >= Get(b'.consumed, InputTokens) + Get(b'.consumed, OutputTokens)
    requires forall f: Field :: Get(b'.consumed, f) >= Get(b.consumed, f)
    ensures forall f: Field :: Used(b', f) >= Used(b, f)
  {
    forall f: Field ensures Used(b', f) >= Used(b, f) {
      assert Get(b'.consumed, f) >= Get(b.consumed, f);
      assert Get(b'.consumed, InputTokens) >= Get(b.consumed, InputTokens);
      assert Get(b'.consumed, OutputTokens) >= Get(b.consumed, OutputTokens);
    }
  }

  lemma SameUsage(b: Budget, m: Budget)
    requires m.limits == b.limits
    requires forall f :: f in b.limits ==> Used(m, f) == Used(b, f)
    ensures AnyReached(m) == AnyReached(b) && AnyOver(m) == AnyOver(b) && Overage(m) == Overage(b)
  {
    forall f | f in b.limits ensures Reached(m, f) == Reached(b, f) && Over(m, f) == Over(b, f) { }
  }

  lemma MoreUsage(b: Budget, c: Budget)
    requires c.limits == b.limits
    requires forall f :: f in b.limits ==> Used(c, f) >= Used(b, f)
    ensures (AnyReached(b) ==> AnyReached(c)) && (AnyOver(b) ==> AnyOver(c))
  {
    if AnyReached(b) {
      var f :| f in b.limits && Reached(b, f);
      assert Used(c, f) >= Used(b, f);
      assert Reached(c, f);
    }
    if AnyOver(b) {
      var f :| f in b.limits && Over(b, f);
      assert Used(c, f) >= Used(b, f);
      assert Over(c, f);
    }
  }

  lemma MarkIsExact(b: Budget, prior: Budget)
    requires MarksExact(prior) && b.limits == prior.limits
    requires b.exhausted == prior.exhausted && b.overdrawn == prior.overdrawn
    requires forall f: Field :: Used(b, f) >= Used(prior, f)
    ensures MarksExact(Mark(b))
  {
    SameUsage(b, Mark(b));
    MoreUsage(prior, b);
  }

  /** A patch never lowers any consumption, keeps the limits, and leaves the marks exact. */
  lemma PatchLaws(b: Budget, supplied: Amounts, unmetered: Option<int>)
    requires NonNegative(b)
    requires Patch(b, supplied, unmetered).Ok?
    ensures var b' := Patch(b, supplied, unmetered).value;
            && b'.limits == b.limits && NonNegative(b')
            && (forall f: Field :: Get(b'.consumed, f) == if f in supplied then supplied[f] else Get(b.consumed, f))
            && (forall f: Field :: Get(b'.consumed, f) >= Get(b.consumed, f))
            && b'.unmetered >= b.unmetered
            && (MarksExact(b) ==> MarksExact(b'))
  {
    var b' := Patch(b, supplied, unmetered).value;
    var c := b.(consumed := b'.consumed, unmetered := b'.unmetered);
    assert b' == Mark(c);
    forall f: Field ensures Get(b'.consumed, f) >= Get(b.consumed, f) {
      if f in supplied { assert Acceptable(f, supplied[f], Get(b.consumed, f)); }
    }
    forall f | f in b'.consumed ensures b'.consumed[f] >= 0.0 {
      if f in supplied { assert Acceptable(f, supplied[f], Get(b.consumed, f)); }
    }
    UsedIsMonotone(b, c);
    if MarksExact(b) { MarkIsExact(c, b); }
  }

  /** A charge is added field by field, nothing else moves, and balanced tokens stay balanced. */
  lemma ChargeConserves(b: Budget, c: Charge)
    requires NonNegative(b)
    requires Delta(b, c).Ok?
    ensures var b' := Delta(b, c).value;
            && (forall f: Field :: Get(b'.consumed, f) == Get(b.consumed, f) + Get(c.amounts, f))
            && (forall f: Field :: Get(c.amounts, f) >= 0.0)
            && b'.unmetered == b.unmetered + c.unmetered >= b.unmetered
            && b'.limits == b.limits && NonNegative(b')
            && (MarksExact(b) ==> MarksExact(b'))
            && (TokensBalanced(b) && Get(c.amounts, TotalTokens) == Get(c.amounts, InputTokens) + Get(c.amounts, OutputTokens)
                ==> TokensBalanced(b'))
  {
    var sum := Sum(b, c, FIELDS);
    DeltaIsPatch(b, c);
    PatchLaws(b, sum, Some(b.unmetered + c.unmetered));
    hide Delta, MarksExact, Whole, Patch, Chargeable, Sum, NonNegative;
    forall f: Field
      ensures Get(Delta(b, c).value.consumed, f) == Get(b.consumed, f) + Get(c.amounts, f)
      ensures Get(c.amounts, f) >= 0.0
    {
      assert f in sum;
    }
  }

  /** An accepted charge is a patch of every field, to its sum. */
  lemma DeltaIsPatch(b: Budget, c: Charge)
    requires Delta(b, c).Ok?
    ensures Delta(b, c) == Patch(b, Sum(b, c, FIELDS), Some(b.unmetered + c.unmetered))
    ensures Delta(b, c).value.unmetered == b.unmetered + c.unmetered >= b.unmetered
    ensures forall f: Field :: f in Sum(b, c, FIELDS) && Sum(b, c, FIELDS)[f] == Get(b.consumed, f) + Get(c.amounts, f) && Get(c.amounts, f) >= 0.0
  {
    forall f: Field
      ensures f in Sum(b, c, FIELDS) && Sum(b, c, FIELDS)[f] == Get(b.consumed, f) + Get(c.amounts, f) && Get(c.amounts, f) >= 0.0
    {
      FieldsAreAll(f);
      assert Chargeable(f, Get(c.amounts, f), Get(b.consumed, f));
    }
    hide Acceptable, FirstFault;
  }

  /** A repair charge adds exactly one cycle, stays within the limit, and keeps the marks exact. */
  lemma RepairLaws(b: Budget)
    requires NonNegative(b)
    requires RepairCharge(b).Ok?
    ensures var b' := RepairCharge(b).value;
            && b'.limits == b.limits && NonNegative(b') && b'.unmetered == b.unmetered
            && (forall f: Field :: Get(b'.consumed, f) == Get(b.consumed, f) + if f == RepairCycles then 1.0 else 0.0)
            && (RepairCycles in b.limits ==> Get(b.consumed, RepairCycles) < b.limits[RepairCycles])
            && (TokensBalanced(b) ==> TokensBalanced(b'))
            && (PositiveLimits(b) && MarksExact(b) ==> MarksExact(b'))
  {
    var b' := RepairCharge(b).value;
    if PositiveLimits(b) && MarksExact(b) { RepairMarks(b, b'); }
  }

  lemma RepairIsNotOver(b: Budget, b': Budget)
    requires PositiveLimits(b) && RepairCharge(b) == Ok(b')
    ensures !Over(b', RepairCycles) && !Over(b, RepairCycles)
  {
    if RepairCycles in b.limits {
      var cycles, limit := Get(b.consumed, RepairCycles), b.limits[RepairCycles];
      assert cycles.Floor < limit.Floor;
      assert cycles + 1.0 <= limit;
    }
  }

  lemma RepairUsage(b: Budget, b': Budget, f: Field)
    requires PositiveLimits(b) && RepairCharge(b) == Ok(b')
    ensures Used(b', f) == Used(b, f) + if f == RepairCycles then 1.0 else 0.0
    ensures Over(b', f) == Over(b, f)
  {
    RepairIsNotOver(b, b');
  }

  lemma RepairMarks(b: Budget, b': Budget)
    requires PositiveLimits(b) && MarksExact(b) && RepairCharge(b) == Ok(b')
    ensures MarksExact(b')
  {
    forall f | f in b.limits
      ensures Used(b', f) == Used(b, f) + if f == RepairCycles then 1.0 else 0.0
      ensures Over(b', f) == Over(b, f)
    {
      RepairUsage(b, b', f);
    }
    MoreUsage(b, b');
    assert Overage(b') == Overage(b);
    RepairReached(b, b');
    assert AnyOver(b') == AnyOver(b);
  }

  lemma RepairReached(b: Budget, b': Budget)
    requires PositiveLimits(b) && MarksExact(b) && RepairCharge(b) == Ok(b')
    ensures b'.exhausted <==> AnyReached(b')
  {
    if b.exhausted {
      var f :| f in b.limits && Reached(b, f);
      RepairUsage(b, b', f);
      assert Reached(b', f);
    } else if b'.exhausted {
      assert Reached(b', RepairCycles);
    } else if AnyReached(b') {
      var f :| f in b.limits && Reached(b', f);
      RepairUsage(b, b', f);
    }
  }

  /** A fresh budget with positive limits is marked exactly; one with a zero limit is not. */
  lemma FreshBudget(limits: Amounts)
    ensures var b := Budget(limits, map[], 0, false, false, map[]);
            && NonNegative(b) && TokensBalanced(b)
            && (MarksExact(b) <==> forall f :: f in limits ==> limits[f] > 0.0)
  {
    var b := Budget(limits, map[], 0, false, false, map[]);
    assert forall f: Field :: Used(b, f) == 0.0;
    if forall f :: f in limits ==> limits[f] > 0.0 {
      assert Overage(b) == map[];
    } else {
      var f :| f in limits && limits[f] <= 0.0;
      assert Reached(b, f);
    }
  }

  /** Exactly when a patch is accepted: no field goes down, every field but the cost is a safe whole number, the token total covers its parts, and unmetered calls do not go down. */
  lemma PatchAcceptedExactlyWhen(b: Budget, supplied: Amounts, unmetered: Option<int>)
    requires NonNegative(b)
    ensures Patch(b, supplied, unmetered).Ok? <==>
              && (forall f :: f in supplied ==> supplied[f] >= Get(b.consumed, f) && supplied[f] >= 0.0)
              && (forall f :: f in supplied && f != Cost ==> supplied[f] == supplied[f].Floor as real && supplied[f] <= MAX_SAFE)
              && (TotalTokens in supplied || TotalTokens in b.consumed ==>
                    var total := if TotalTokens in supplied then supplied[TotalTokens] else b.consumed[TotalTokens];
                    var input := if InputTokens in supplied then supplied[InputTokens] else Get(b.consumed, InputTokens);
                    var output := if OutputTokens in supplied then supplied[OutputTokens] else Get(b.consumed, OutputTokens);
                    input + output <= total)
              && (unmetered.Some? ==> unmetered.value >= b.unmetered)
  {
    forall f | f in supplied
      ensures Acceptable(f, supplied[f], Get(b.consumed, f)) <==>
                && supplied[f] >= Get(b.consumed, f) && supplied[f] >= 0.0
                && (f != Cost ==> supplied[f] == supplied[f].Floor as real && supplied[f] <= MAX_SAFE)
    {
    }
  }

  /** Every amount but the cost is a whole number, and a token total on record covers its parts. */
  ghost predicate WholeAmounts(b: Budget) {
    && (forall f: Field :: f != Cost ==> Get(b.consumed, f) == Get(b.consumed, f).Floor as real)
    && (TotalTokens in b.consumed ==> b.consumed[TotalTokens] >= Get(b.consumed, InputTokens) + Get(b.consumed, OutputTokens))
  }

  lemma PatchKeepsWhole(b: Budget, supplied: Amounts, unmetered: Option<int>)
    requires WholeAmounts(b) && Patch(b, supplied, unmetered).Ok?
    ensures WholeAmounts(Patch(b, supplied, unmetered).value)
  {
    var b' := Patch(b, supplied, unmetered).value;
    forall f: Field | f != Cost ensures Get(b'.consumed, f) == Get(b'.consumed, f).Floor as real {
      if f in supplied {
        assert Acceptable(f, supplied[f], Get(b.consumed, f));
      } else {
        assert Get(b'.consumed, f) == Get(b.consumed, f);
      }
    }
  }

  lemma OneMoreIsWhole(x: real)
    requires x == x.Floor as real
    ensures x + 1.0 == (x + 1.0).Floor as real
  {
    var n := x.Floor + 1;
    assert x + 1.0 == n as real;
  }

  lemma RepairKeepsWhole(b: Budget)
    requires WholeAmounts(b) && RepairCharge(b).Ok?
    ensures WholeAmounts(RepairCharge(b).value)
  {
    var b' := RepairCharge(b).value;
    var cycles := Get(b.consumed, RepairCycles);
    OneMoreIsWhole(cycles);
    assert b'.consumed == b.consumed[RepairCycles := cycles + 1.0];
    hide Whole, RepairCharge;
    forall f: Field | f != Cost ensures Get(b'.consumed, f) == Get(b'.consumed, f).Floor as real {
      if f == RepairCycles {
        assert Get(b'.consumed, f) == cycles + 1.0;
      } else {
        assert Get(b'.consumed, f) == Get(b.consumed, f);
      }
    }
  }

  /** Exact marks in terms of the amounts alone: unmetered calls count as calls, and the token total is input plus output. */
  lemma ExhaustedMeans(b: Budget)
    requires MarksExact(b) && TokensBalanced(b)
    ensures b.exhausted <==>
              || (TotalTokens in b.limits && Get(b.consumed, InputTokens) + Get(b.consumed, OutputTokens) >= b.limits[TotalTokens])
              || (Calls in b.limits && Get(b.consumed, Calls) + b.unmetered as real >= b.limits[Calls])
              || exists f :: f in b.limits && f != TotalTokens && f != Calls && Get(b.consumed, f) >= b.limits[f]
  {
    forall f | f in b.limits
      ensures Reached(b, f) <==>
                (if f == TotalTokens then Get(b.consumed, InputTokens) + Get(b.consumed, OutputTokens)
                 else if f == Calls then Get(b.consumed, Calls) + b.unmetered as real
                 else Get(b.consumed, f)) >= b.limits[f]
    {
    }
    if Calls in b.limits { assert Reached(b, Calls) ==> AnyReached(b); }
    if TotalTokens in b.limits { assert Reached(b, TotalTokens) ==> AnyReached(b); }
  }
}
