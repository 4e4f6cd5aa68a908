/**
 * The structural JSON diff and patch of the run journal.
 *
 * A JSON object is a map: the journal compares states by a digest of their
 * key-sorted form, so key order carries no meaning.  The loops of BuildDelta
 * visit keys in an arbitrary order, hence every fact below holds for whatever
 * order the runtime enumerates keys in.
 */
module JsonDelta {
  import opened Common

  /**
   * A number as its decimal text gives it: a whole number, or a fraction of so
   * many places whose last digit is not zero.  Every finite number has one form.
   */
  datatype Numeral = Whole(i: int) | Fraction(digits: int, places: nat)

  type Number = x: Numeral | x.Fraction? ==> x.places > 0 && x.digits % 10 != 0 witness Whole(0)

  datatype Json =
    | Null
    | Bool(b: bool)
    | Num(n: Number)
    | Str(s: string)
    | Arr(items: seq<Json>)
    | Obj(fields: map<string, Json>)

  datatype Segment = Index(i: nat) | Key(k: string)

  type Path = seq<Segment>

  datatype Edit = Put(value: Json) | Drop

  datatype Operation = Operation(path: Path, edit: Edit)

  datatype Corrupt = StateCorrupt

  const MAX_PATH := 64
  const MAX_KEY := 300
  const RESERVED_KEYS: set<string> := {"__proto__", "prototype", "constructor"}

  // ---------------------------------------------------------------- paths

  predicate SafeSegment(s: Segment) {
    s.Key? ==> 0 < |s.k| <= MAX_KEY && s.k !in RESERVED_KEYS
  }

  predicate ValidDeltaPath(path: Path) {
    |path| <= MAX_PATH && forall i :: 0 <= i < |path| ==> SafeSegment(path[i])
  }

  predicate AllValid(ops: seq<Operation>) {
    forall i :: 0 <= i < |ops| ==> ValidDeltaPath(ops[i].path)
  }

  // ---------------------------------------------------------------- patch

  /** The own member of a container that a segment names, if there is one. */
  function Child(v: Json, s: Segment): Option<Json> {
    match (v, s)
    case (Arr(items), Index(i)) => if i < |items| then Some(items[i]) else None
    case (Obj(fields), Key(k)) => if k in fields then Some(fields[k]) else None
    case _ => None
  }

  /** Put or drop the member of a container that the last segment names. */
  function EditMember(v: Json, s: Segment, e: Edit): Result<Json, Corrupt> {
    match (v, s, e)
    case (Arr(items), Index(i), Put(x)) =>
      if i < |items| then Ok(Arr(items[i := x]))
      else if i == |items| then Ok(Arr(items + [x]))
      else Err(StateCorrupt)
    case (Arr(items), Index(i), Drop) =>
      if i < |items| then Ok(Arr(items[..i] + items[i + 1..])) else Err(StateCorrupt)
    case (Obj(fields), Key(k), Put(x)) => Ok(Obj(fields[k := x]))
    case (Obj(fields), Key(k), Drop) =>
      if k in fields then Ok(Obj(fields - {k})) else Err(StateCorrupt)
    case _ => Err(StateCorrupt)
  }

  /** Walk to the parent of the last segment and edit there. */
  function EditAt(v: Json, path: Path, e: Edit): Result<Json, Corrupt>
    decreases |path|
  {
    if |path| == 0 then
      if e.Put? then Ok(e.value) else Err(StateCorrupt)
    else if |path| == 1 then
      EditMember(v, path[0], e)
    else
      match Child(v, path[0])
      case None => Err(StateCorrupt)
      case Some(c) =>
        match EditAt(c, path[1..], e)
        case Err(x) => Err(x)
        case Ok(c') => EditMember(v, path[0], Put(c'))
  }

  /** Edits applied in order, without looking at the path rules. */
  function EditAll(v: Json, ops: seq<Operation>): Result<Json, Corrupt>
    decreases |ops|
  {
    if |ops| == 0 then Ok(v)
    else
      match EditAt(v, ops[0].path, ops[0].edit)
      case Err(x) => Err(x)
      case Ok(w) => EditAll(w, ops[1..])
  }

  /** What applyDelta computes: it rejects at the first bad path or bad edit. */
  function Apply(v: Json, ops: seq<Operation>): Result<Json, Corrupt>
    decreases |ops|
  {
    if |ops| == 0 then Ok(v)
    else if !ValidDeltaPath(ops[0].path) then Err(StateCorrupt)
    else
      match EditAt(v, ops[0].path, ops[0].edit)
      case Err(x) => Err(x)
      case Ok(w) => Apply(w, ops[1..])
  }

  /** The loop of applyDelta over the operations of one journal row. */
  method ApplyDelta(base: Json, operations: seq<Operation>) returns (r: Result<Json, Corrupt>)
    ensures r == Apply(base, operations)
    ensures AllValid(operations) ==> r == EditAll(base, operations)
  {
    if AllValid(operations) { ApplyIsEditAll(base, operations); }
    var value := base;
    var i := 0;
    while i < |operations|
      invariant 0 <= i <= |operations|
      invariant Apply(base, operations) == Apply(value, operations[i..])
    {
      var operation := operations[i];
      if !ValidDeltaPath(operation.path) {
        return Err(StateCorrupt);
      }
      var edited := EditAt(value, operation.path, operation.edit);
      if edited.Err? {
        return edited;
      }
      assert operations[i..][1..] == operations[i + 1..];
      value := edited.value;
      i := i + 1;
    }
    return Ok(value);
  }

  lemma {:induction false} ApplyIsEditAll(v: Json, ops: seq<Operation>)
    ensures AllValid(ops) ==> Apply(v, ops) == EditAll(v, ops)
    decreases |ops|
  {
    if |ops| > 0 {
      var head := EditAt(v, ops[0].path, ops[0].edit);
      if head.Ok? {
        ApplyIsEditAll(head.value, ops[1..]);
      }
    }
  }

  /** A delta that passes through a bad path is refused wherever that path stands. */
  lemma {:induction false} BadPathIsRefused(v: Json, ops: seq<Operation>)
    requires !AllValid(ops)
    ensures Apply(v, ops).Err?
    decreases |ops|
  {
    if ValidDeltaPath(ops[0].path) {
      var head := EditAt(v, ops[0].path, ops[0].edit);
      if head.Ok? {
        var bad :| 0 <= bad < |ops| && !ValidDeltaPath(ops[bad].path);
        assert ops[1..][bad - 1] == ops[bad];
        BadPathIsRefused(head.value, ops[1..]);
      }
    }
  }

  lemma {:induction false} EditAllConcat(v: Json, a: seq<Operation>, b: seq<Operation>)
    ensures EditAll(v, a + b)
         == match EditAll(v, a) { case Err(x) => Err(x) case Ok(w) => EditAll(w, b) }
    decreases |a|
  {
    if |a| == 0 {
      assert a + b == b;
    } else {
      assert (a + b)[1..] == a[1..] + b;
      var head := EditAt(v, a[0].path, a[0].edit);
      if head.Ok? {
        EditAllConcat(head.value, a[1..], b);
      }
    }
  }

  // ---------------------------------------------------------------- relative operations

  ghost predicate Under(path: Path, ops: seq<Operation>) {
    forall i :: 0 <= i < |ops| ==> path <= ops[i].path
  }

  /** The operations as seen from the subtree at the given depth. */
  ghost function Relative(ops: seq<Operation>, depth: nat): (r: seq<Operation>)
    requires forall i :: 0 <= i < |ops| ==> depth <= |ops[i].path|
    ensures |r| == |ops|
  {
    seq(|ops|, i requires 0 <= i < |ops| => Operation(ops[i].path[depth..], ops[i].edit))
  }

  /** Patching one child inside its container is patching the container. */
  lemma {:induction false} LiftIntoContainer(v: Json, path: Path, s: Segment, ops: seq<Operation>, c: Json, c': Json)
    requires Under(path + [s], ops)
    requires Child(v, s) == Some(c)
    requires EditAll(c, Relative(ops, |path| + 1)) == Ok(c')
    ensures EditMember(v, s, Put(c')).Ok?
    ensures EditAll(v, Relative(ops, |path|)) == EditMember(v, s, Put(c'))
    decreases |ops|
  {
    var inner, outer := Relative(ops, |path| + 1), Relative(ops, |path|);
    if |ops| == 0 {
      assert v.Arr? ==> v.items[s.i := c] == v.items;
      assert v.Obj? ==> v.fields[s.k := c] == v.fields;
    } else {
      var full := ops[0].path;
      assert full[|path|] == (path + [s])[|path|] == s;
      assert outer[0].path[0] == s;
      assert outer[0].path[1..] == inner[0].path;
      var d := EditAt(c, inner[0].path, inner[0].edit).value;
      var w := EditMember(v, s, Put(d)).value;
      assert EditAt(v, outer[0].path, outer[0].edit) == Ok(w);
      assert Relative(ops[1..], |path| + 1) == inner[1..];
      assert Relative(ops[1..], |path|) == outer[1..];
      LiftIntoContainer(w, path, s, ops[1..], d, c');
      assert EditMember(w, s, Put(c')) == EditMember(v, s, Put(c')) by {
        if v.Arr? { assert v.items[s.i := d][s.i := c'] == v.items[s.i := c']; }
        if v.Obj? { assert v.fields[s.k := d][s.k := c'] == v.fields[s.k := c']; }
      }
    }
  }

  lemma ExtendByChild(base: Json, path: Path, ops: seq<Operation>, v: Json, s: Segment, more: seq<Operation>, c: Json, c': Json)
    requires Under(path, ops) && EditAll(base, Relative(ops, |path|)) == Ok(v)
    requires Child(v, s) == Some(c)
    requires Under(path + [s], more) && EditAll(c, Relative(more, |path| + 1)) == Ok(c')
    ensures Under(path, ops + more)
    ensures EditAll(base, Relative(ops + more, |path|)) == EditMember(v, s, Put(c'))
  {
    assert path <= path + [s];
    assert forall i :: 0 <= i < |more| ==> path <= more[i].path by {
      forall i | 0 <= i < |more| ensures path <= more[i].path {
        assert path + [s] <= more[i].path;
      }
    }
    LiftIntoContainer(v, path, s, more, c, c');
    assert Relative(ops + more, |path|) == Relative(ops, |path|) + Relative(more, |path|);
    EditAllConcat(base, Relative(ops, |path|), Relative(more, |path|));
  }

  lemma ExtendByMember(base: Json, path: Path, ops: seq<Operation>, v: Json, s: Segment, e: Edit)
    requires Under(path, ops) && EditAll(base, Relative(ops, |path|)) == Ok(v)
    ensures Under(path, ops + [Operation(path + [s], e)])
    ensures EditAll(base, Relative(ops + [Operation(path + [s], e)], |path|)) == EditMember(v, s, e)
  {
    var one := [Operation(path + [s], e)];
    assert (path + [s])[|path|..] == [s];
    assert Relative(ops + one, |path|) == Relative(ops, |path|) + Relative(one, |path|);
    EditAllConcat(base, Relative(ops, |path|), Relative(one, |path|));
    var r := Relative(one, |path|);
    assert r[0].path == [s] && r[1..] == [];
    match EditMember(v, s, e) {
      case Ok(w) => assert EditAll(v, r) == Ok(w);
      case Err(_) => 
    }
  }

  // ---------------------------------------------------------------- diff

  /**
   * Whether every place where two trees differ can be named by a legal path:
   * at most 64 segments, every key non-empty, at most 300 characters and not
   * one of the three reserved names.  A caller can decide this before diffing.
   */
  ghost predicate Replayable(before: Json, after: Json, path: Path)
    decreases before
  {
    match (before, after)
    case (Arr(xs), Arr(ys)) =>
      && (forall i :: 0 <= i < |xs| && i < |ys| ==> Replayable(xs[i], ys[i], path + [Index(i)]))
      && (|xs| != |ys| ==> ValidDeltaPath(path + [Index(0)]))
    case (Obj(f), Obj(g)) =>
      && (forall k :: k in f && k in g ==> Replayable(f[k], g[k], path + [Key(k)]))
      && (forall k :: k in f.Keys + g.Keys && (k !in f || k !in g) ==> ValidDeltaPath(path + [Key(k)]))
    case _ => before == after || ValidDeltaPath(path)
  }

  /** The operations so far, all below `path`, turn `base` into `v`. */
  ghost predicate Turns(base: Json, v: Json, path: Path, ops: seq<Operation>) {
    Under(path, ops) && EditAll(base, Relative(ops, |path|)) == Ok(v)
  }

  /** A complete diff of the subtree at `path`: it patches it, and it is legal throughout iff Replayable. */
  ghost predicate Diffs(before: Json, after: Json, path: Path, ops: seq<Operation>) {
    Turns(before, after, path, ops) && (AllValid(ops) <==> Replayable(before, after, path))
  }

  method BuildDelta(before: Json, after: Json, path: Path, operations: seq<Operation>)
    returns (result: seq<Operation>, ghost added: seq<Operation>)
    ensures result == operations + added
    ensures Diffs(before, after, path, added)
    ensures operations <= result && Diffs(before, after, path, result[|operations|..])
    decreases before, 1
  {
    if before.Arr? && after.Arr? {
      var xs, ys := before.items, after.items;
      result, added := DiffShared(xs, ys, path, operations, before);
      if |xs| > |ys| {
        result, added := DropTail(xs, ys, path, operations, result, added);
      } else {
        result, added := PutTail(xs, ys, path, operations, result, added);
      }
    } else if before.Obj? && after.Obj? {
      var f, g := before.fields, after.fields;
      result, added := DropKeys(f, g, path, operations);
      result, added := PutKeys(f, g, path, operations, result, added, before);
    } else if before == after {
      result, added := operations, [];
    } else {
      added := [Operation(path, Put(after))];
      result := operations + [Operation(path, Put(after))];
      assert path[|path|..] == [];
      var r := Relative(added, |path|);
      assert r[0].path == [] && r[1..] == [];
      AllValidOne(Operation(path, Put(after)));
    }
  }

  ghost predicate SharedReplayable(xs: seq<Json>, ys: seq<Json>, path: Path, n: nat)
    requires n <= |xs| && n <= |ys|
  {
    forall j :: 0 <= j < n ==> Replayable(xs[j], ys[j], path + [Index(j)])
  }

  function Shared(xs: seq<Json>, ys: seq<Json>): nat {
    if |xs| < |ys| then |xs| else |ys|
  }

  /** The first `n` elements are diffed, and the diff is legal iff each of them is Replayable. */
  ghost predicate SharedDone(xs: seq<Json>, ys: seq<Json>, path: Path, n: nat, added: seq<Operation>)
    requires n <= |xs| && n <= |ys|
  {
    && Turns(Arr(xs), Arr(ys[..n] + xs[n..]), path, added)
    && (AllValid(added) <==> SharedReplayable(xs, ys, path, n))
  }

  lemma NothingDone(xs: seq<Json>, ys: seq<Json>, path: Path)
    ensures SharedDone(xs, ys, path, 0, [])
  {
    assert ys[..0] + xs[0..] == xs;
  }

  /** First array loop: diff the elements both arrays have. */
  method DiffShared(xs: seq<Json>, ys: seq<Json>, path: Path, operations: seq<Operation>, ghost whole: Json)
    returns (result: seq<Operation>, ghost added: seq<Operation>)
    requires whole == Arr(xs)
    ensures result == operations + added
    ensures SharedDone(xs, ys, path, Shared(xs, ys), added)
    ensures operations <= result && SharedDone(xs, ys, path, Shared(xs, ys), result[|operations|..])
    decreases whole, 0
  {
    result, added := operations, [];
    var index := 0;
    NothingDone(xs, ys, path);
    hide SharedDone, Diffs;
    while index < Shared(xs, ys)
      invariant 0 <= index <= Shared(xs, ys)
      invariant result == operations + added
      invariant SharedDone(xs, ys, path, index, added)
    {
      ghost var more;
      result, more := BuildDelta(xs[index], ys[index], path + [Index(index)], result);
      SharedStep(xs, ys, path, index, added, more);
      added := added + more;
      index := index + 1;
    }
    assert result[|operations|..] == added;
  }

  lemma SharedStep(xs: seq<Json>, ys: seq<Json>, path: Path, i: nat, added: seq<Operation>, more: seq<Operation>)
    requires i < |xs| && i < |ys|
    requires SharedDone(xs, ys, path, i, added)
    requires Diffs(xs[i], ys[i], path + [Index(i)], more)
    ensures SharedDone(xs, ys, path, i + 1, added + more)
  {
    var cur := ys[..i] + xs[i..];
    assert cur[i := ys[i]] == ys[..i + 1] + xs[i + 1..];
    ExtendByChild(Arr(xs), path, added, Arr(cur), Index(i), more, xs[i], ys[i]);
    AllValidConcat(added, more);
  }

  /** What the second array loop keeps: the elements behind `index` are gone. */
  ghost predicate DroppedTo(xs: seq<Json>, ys: seq<Json>, path: Path, index: int, added: seq<Operation>, before: seq<Operation>)
    requires |ys| - 1 <= index < |xs|
  {
    && Turns(Arr(xs), Arr(ys + xs[|ys|..index + 1]), path, added)
    && (AllValid(added) <==> AllValid(before) && (index < |xs| - 1 ==> ValidDeltaPath(path + [Index(0)])))
  }

  lemma DropOneMore(xs: seq<Json>, ys: seq<Json>, path: Path, index: nat, added: seq<Operation>, before: seq<Operation>)
    requires |ys| <= index < |xs| && DroppedTo(xs, ys, path, index, added, before)
    ensures DroppedTo(xs, ys, path, index - 1, added + [Operation(path + [Index(index)], Drop)], before)
  {
    var cur := ys + xs[|ys|..index + 1];
    var op := Operation(path + [Index(index)], Drop);
    ExtendByMember(Arr(xs), path, added, Arr(cur), Index(index), Drop);
    assert cur[..index] + cur[index + 1..] == ys + xs[|ys|..index];
    IndexPathValidity(path, index);
    AllValidConcat(added, [op]);
    AllValidOne(op);
  }

  lemma NothingDropped(xs: seq<Json>, ys: seq<Json>, path: Path, before: seq<Operation>)
    requires |xs| > |ys| && SharedDone(xs, ys, path, |ys|, before)
    ensures DroppedTo(xs, ys, path, |xs| - 1, before, before)
  {
    assert ys[..|ys|] == ys && xs[|ys|..] == xs[|ys|..|xs|];
  }

  lemma AllDropped(xs: seq<Json>, ys: seq<Json>, path: Path, added: seq<Operation>, before: seq<Operation>)
    requires |xs| > |ys| && SharedDone(xs, ys, path, |ys|, before)
    requires DroppedTo(xs, ys, path, |ys| - 1, added, before)
    ensures Diffs(Arr(xs), Arr(ys), path, added)
  {
    assert ys + xs[|ys|..|ys|] == ys;
  }

  /** Second array loop: drop the surplus elements, last one first. */
  method DropTail(xs: seq<Json>, ys: seq<Json>, path: Path, operations: seq<Operation>,
                  sofar: seq<Operation>, ghost before: seq<Operation>)
    returns (result: seq<Operation>, ghost added: seq<Operation>)
    requires |xs| > |ys|
    requires sofar == operations + before
    requires SharedDone(xs, ys, path, Shared(xs, ys), before)
    ensures result == operations + added
    ensures Diffs(Arr(xs), Arr(ys), path, added)
    ensures operations <= result && Diffs(Arr(xs), Arr(ys), path, result[|operations|..])
  {
    result, added := sofar, before;
    NothingDropped(xs, ys, path, before);
    hide DroppedTo, SharedDone, Diffs;
    var index := |xs| - 1;
    while index >= |ys|
      invariant |ys| - 1 <= index < |xs|
      invariant result == operations + added
      invariant DroppedTo(xs, ys, path, index, added, before)
    {
      var op := Operation(path + [Index(index)], Drop);
      DropOneMore(xs, ys, path, index, added, before);
      added := added + [op];
      result := result + [op];
      index := index - 1;
    }
    AllDropped(xs, ys, path, added, before);
    assert result[|operations|..] == added;
  }

  /** Third array loop: append the elements only the new array has. */
  method PutTail(xs: seq<Json>, ys: seq<Json>, path: Path, operations: seq<Operation>,
                 sofar: seq<Operation>, ghost before: seq<Operation>)
    returns (result: seq<Operation>, ghost added: seq<Operation>)
    requires |xs| <= |ys|
    requires sofar == operations + before
    requires SharedDone(xs, ys, path, Shared(xs, ys), before)
    ensures result == operations + added
    ensures Diffs(Arr(xs), Arr(ys), path, added)
    ensures operations <= result && Diffs(Arr(xs), Arr(ys), path, result[|operations|..])
  {
    result, added := sofar, before;
    assert ys[..|xs|] + xs[|xs|..] == ys[..|xs|];
    var index := |xs|;
    while index < |ys|
      invariant |xs| <= index <= |ys|
      invariant result == operations + added
      invariant Turns(Arr(xs), Arr(ys[..index]), path, added)
      invariant AllValid(added) <==> AllValid(before) && (index > |xs| ==> ValidDeltaPath(path + [Index(0)]))
    {
      var op := Operation(path + [Index(index)], Put(ys[index]));
      ExtendByMember(Arr(xs), path, added, Arr(ys[..index]), Index(index), Put(ys[index]));
      assert ys[..index] + [ys[index]] == ys[..index + 1];
      IndexPathValidity(path, index);
      AllValidConcat(added, [op]);
      AllValidOne(op);
      added := added + [op];
      result := result + [op];
      index := index + 1;
    }
    assert ys[..|ys|] == ys;
  }

  /** The fields both objects have, with the values of the first. */
  ghost function SharedFields(f: map<string, Json>, g: map<string, Json>): map<string, Json> {
    map k | k in f && k in g :: f[k]
  }

  /** First object loop: drop the keys only the old object has. */
  method DropKeys(f: map<string, Json>, g: map<string, Json>, path: Path, operations: seq<Operation>)
    returns (result: seq<Operation>, ghost added: seq<Operation>)
    ensures result == operations + added
    ensures Turns(Obj(f), Obj(SharedFields(f, g)), path, added)
    ensures operations <= result && Turns(Obj(f), Obj(SharedFields(f, g)), path, result[|operations|..])
    ensures AllValid(added) <==> forall k :: k in f && k !in g ==> ValidDeltaPath(path + [Key(k)])
  {
    result, added := operations, [];
    ghost var cur := f;
    var todo := f.Keys;
    while todo != {}
      invariant todo <= f.Keys
      invariant result == operations + added
      invariant cur == map k | k in f && (k in g || k in todo) :: f[k]
      invariant Turns(Obj(f), Obj(cur), path, added)
      invariant AllValid(added) <==> forall k :: k in f && k !in todo && k !in g ==> ValidDeltaPath(path + [Key(k)])
    {
      var key :| key in todo;
      if key !in g {
        var op := Operation(path + [Key(key)], Drop);
        ExtendByMember(Obj(f), path, added, Obj(cur), Key(key), Drop);
        AllValidConcat(added, [op]);
        AllValidOne(op);
        added := added + [op];
        result := result + [op];
        cur := cur - {key};
      }
      todo := todo - {key};
    }
    assert cur == SharedFields(f, g);
  }

  /** Second object loop: put the keys only the new object has and diff the shared ones. */
  method PutKeys(f: map<string, Json>, g: map<string, Json>, path: Path, operations: seq<Operation>,
                 sofar: seq<Operation>, ghost before: seq<Operation>, ghost whole: Json)
    returns (result: seq<Operation>, ghost added: seq<Operation>)
    requires whole == Obj(f)
    requires sofar == operations + before
    requires Turns(Obj(f), Obj(SharedFields(f, g)), path, before)
    requires AllValid(before) <==> forall k :: k in f && k !in g ==> ValidDeltaPath(path + [Key(k)])
    ensures result == operations + added
    ensures Diffs(Obj(f), Obj(g), path, added)
    ensures operations <= result && Diffs(Obj(f), Obj(g), path, result[|operations|..])
    decreases whole, 0
  {
    result, added := sofar, before;
    var todo := g.Keys;
    NothingPut(f, g, path, before);
    hide PutExcept, Turns, Diffs, AllValid;
    while todo != {}
      invariant todo <= g.Keys
      invariant result == operations + added
      invariant PutExcept(f, g, path, todo, added, before)
    {
      var key :| key in todo;
      ghost var more: seq<Operation>;
      if key !in f {
        var op := Operation(path + [Key(key)], Put(g[key]));
        PutNewKey(f, g, path, todo, key, added, before);
        more := [op];
        result := result + [op];
      } else {
        result, more := BuildDelta(f[key], g[key], path + [Key(key)], result);
        PutSharedKey(f, g, path, todo, key, added, before, more);
      }
      added := added + more;
      todo := todo - {key};
    }
    AllPut(f, g, path, added, before);
    assert result[|operations|..] == added;
  }

  /** What the second object loop keeps: only these keys are still to do. */
  ghost predicate PutExcept(f: map<string, Json>, g: map<string, Json>, path: Path, todo: set<string>,
                            added: seq<Operation>, before: seq<Operation>)
    requires todo <= g.Keys
  {
    && Turns(Obj(f), Obj(Mixed(f, g, todo)), path, added)
    && (AllValid(added) <==> AllValid(before) && KeysReplayable(f, g, path, g.Keys - todo))
  }

  lemma NothingPut(f: map<string, Json>, g: map<string, Json>, path: Path, before: seq<Operation>)
    requires Turns(Obj(f), Obj(SharedFields(f, g)), path, before)
    ensures PutExcept(f, g, path, g.Keys, before, before)
  {
    assert Mixed(f, g, g.Keys) == SharedFields(f, g);
  }

  lemma PutNewKey(f: map<string, Json>, g: map<string, Json>, path: Path, todo: set<string>, key: string,
                  added: seq<Operation>, before: seq<Operation>)
    requires key in todo && todo <= g.Keys && key !in f && PutExcept(f, g, path, todo, added, before)
    ensures PutExcept(f, g, path, todo - {key}, added + [Operation(path + [Key(key)], Put(g[key]))], before)
  {
    NewKeyStep(f, g, path, todo, key, added);
    KeysReplayableStep(f, g, path, g.Keys - todo, key);
    assert g.Keys - (todo - {key}) == g.Keys - todo + {key};
  }

  lemma PutSharedKey(f: map<string, Json>, g: map<string, Json>, path: Path, todo: set<string>, key: string,
                     added: seq<Operation>, before: seq<Operation>, more: seq<Operation>)
    requires key in todo && todo <= g.Keys && key in f && PutExcept(f, g, path, todo, added, before)
    requires Diffs(f[key], g[key], path + [Key(key)], more)
    ensures PutExcept(f, g, path, todo - {key}, added + more, before)
  {
    SharedKeyStep(f, g, path, todo, key, added, more);
    KeysReplayableStep(f, g, path, g.Keys - todo, key);
    assert g.Keys - (todo - {key}) == g.Keys - todo + {key};
  }

  lemma AllPut(f: map<string, Json>, g: map<string, Json>, path: Path, added: seq<Operation>, before: seq<Operation>)
    requires PutExcept(f, g, path, {}, added, before)
    requires AllValid(before) <==> forall k :: k in f && k !in g ==> ValidDeltaPath(path + [Key(k)])
    ensures Diffs(Obj(f), Obj(g), path, added)
  {
    assert Mixed(f, g, {}) == g;
    assert g.Keys - {} == g.Keys;
    ObjectReplayable(f, g, path);
  }

  /** The object half way: keys still to do have their old value, if any, the others their new one. */
  ghost function Mixed(f: map<string, Json>, g: map<string, Json>, todo: set<string>): map<string, Json> {
    map k | k in g.Keys && (k in f || k !in todo) :: if k in todo then f[k] else g[k]
  }

  lemma NewKeyStep(f: map<string, Json>, g: map<string, Json>, path: Path, todo: set<string>, key: string, added: seq<Operation>)
    requires key in todo && todo <= g.Keys && key !in f
    requires Turns(Obj(f), Obj(Mixed(f, g, todo)), path, added)
    ensures Turns(Obj(f), Obj(Mixed(f, g, todo - {key})), path, added + [Operation(path + [Key(key)], Put(g[key]))])
    ensures AllValid(added + [Operation(path + [Key(key)], Put(g[key]))]) <==> AllValid(added) && KeyReplayable(f, g, path, key)
  {
    var op := Operation(path + [Key(key)], Put(g[key]));
    ExtendByMember(Obj(f), path, added, Obj(Mixed(f, g, todo)), Key(key), Put(g[key]));
    assert Mixed(f, g, todo)[key := g[key]] == Mixed(f, g, todo - {key});
    AllValidConcat(added, [op]);
    AllValidOne(op);
  }

  lemma SharedKeyStep(f: map<string, Json>, g: map<string, Json>, path: Path, todo: set<string>, key: string,
                      added: seq<Operation>, more: seq<Operation>)
    requires key in todo && todo <= g.Keys && key in f
    requires Turns(Obj(f), Obj(Mixed(f, g, todo)), path, added)
    requires Diffs(f[key], g[key], path + [Key(key)], more)
    ensures Turns(Obj(f), Obj(Mixed(f, g, todo - {key})), path, added + more)
    ensures AllValid(added + more) <==> AllValid(added) && KeyReplayable(f, g, path, key)
  {
    ExtendByChild(Obj(f), path, added, Obj(Mixed(f, g, todo)), Key(key), more, f[key], g[key]);
    assert Mixed(f, g, todo)[key := g[key]] == Mixed(f, g, todo - {key});
    AllValidConcat(added, more);
  }

  ghost predicate KeysReplayable(f: map<string, Json>, g: map<string, Json>, path: Path, keys: set<string>)
    requires keys <= g.Keys
  {
    forall k :: k in keys ==> KeyReplayable(f, g, path, k)
  }

  lemma KeysReplayableStep(f: map<string, Json>, g: map<string, Json>, path: Path, keys: set<string>, key: string)
    requires keys <= g.Keys && key in g
    ensures KeysReplayable(f, g, path, keys + {key}) <==> KeysReplayable(f, g, path, keys) && KeyReplayable(f, g, path, key)
  {
    if KeysReplayable(f, g, path, keys + {key}) {
      assert key in keys + {key};
    }
  }

  ghost predicate KeyReplayable(f: map<string, Json>, g: map<string, Json>, path: Path, k: string)
    requires k in g
  {
    if k in f then Replayable(f[k], g[k], path + [Key(k)]) else ValidDeltaPath(path + [Key(k)])
  }

  lemma ObjectReplayable(f: map<string, Json>, g: map<string, Json>, path: Path)
    ensures Replayable(Obj(f), Obj(g), path) <==>
            && (forall k :: k in f && k !in g ==> ValidDeltaPath(path + [Key(k)]))
            && KeysReplayable(f, g, path, g.Keys)
  {
    if Replayable(Obj(f), Obj(g), path) {
      forall k | k in g ensures KeyReplayable(f, g, path, k) { }
    } else if KeysReplayable(f, g, path, g.Keys) {
      forall k | k in f && k in g ensures Replayable(f[k], g[k], path + [Key(k)]) {
        assert KeyReplayable(f, g, path, k);
      }
      forall k | k in g && k !in f ensures ValidDeltaPath(path + [Key(k)]) {
        assert KeyReplayable(f, g, path, k);
      }
    }
  }

  lemma AllValidConcat(a: seq<Operation>, b: seq<Operation>)
    ensures AllValid(a + b) <==> AllValid(a) && AllValid(b)
  {
    if AllValid(a + b) {
      assert forall i :: 0 <= i < |a| ==> a[i] == (a + b)[i];
      assert forall i :: 0 <= i < |b| ==> b[i] == (a + b)[|a| + i];
    }
  }

  lemma AllValidOne(op: Operation)
    ensures AllValid([op]) <==> ValidDeltaPath(op.path)
  {
    assert [op][0] == op;
  }

  lemma IndexPathValidity(path: Path, i: nat)
    ensures ValidDeltaPath(path + [Index(i)]) <==> ValidDeltaPath(path + [Index(0)])
  {
    var p, q := path + [Index(i)], path + [Index(0)];
    assert forall j :: 0 <= j < |path| ==> p[j] == path[j] == q[j];
    assert p[|path|] == Index(i) && q[|path|] == Index(0);
  }

  // ---------------------------------------------------------------- round trip

  /** diff then patch, at the root, for every pair of trees. */
  method DiffThenPatch(before: Json, after: Json) returns (delta: seq<Operation>, patched: Result<Json, Corrupt>)
    ensures patched == Apply(before, delta)
    ensures Replayable(before, after, []) ==> patched == Ok(after)
    ensures !Replayable(before, after, []) ==> patched == Err(StateCorrupt)
  {
    ghost var added;
    delta, added := BuildDelta(before, after, [], []);
    assert delta == added;
    RootDelta(before, after, delta);
    patched := ApplyDelta(before, delta);
  }

  /** A root diff replays to its target exactly when the two trees are Replayable. */
  lemma RootDelta(before: Json, after: Json, delta: seq<Operation>)
    requires Diffs(before, after, [], delta)
    ensures Replayable(before, after, []) ==> AllValid(delta) && Apply(before, delta) == Ok(after)
    ensures !Replayable(before, after, []) ==> Apply(before, delta) == Err(StateCorrupt)
  {
    assert Relative(delta, 0) == delta;
    if AllValid(delta) {
      ApplyIsEditAll(before, delta);
    } else {
      BadPathIsRefused(before, delta);
      assert Apply(before, delta).error == StateCorrupt;
    }
  }

  /** A tree whose keys are all legal and whose nesting leaves room below `depth` segments. */
  ghost predicate Tame(v: Json, depth: nat)
    decreases v
  {
    match v
    case Arr(xs) => (|xs| > 0 ==> depth < MAX_PATH) && forall i :: 0 <= i < |xs| ==> Tame(xs[i], depth + 1)
    case Obj(f) =>
      && (forall k :: k in f ==> depth < MAX_PATH && SafeSegment(Key(k)))
      && (forall k :: k in f ==> Tame(f[k], depth + 1))
    case _ => true
  }

  /** Trees that keep the depth and key rules are always Replayable against each other. */
  lemma {:induction false} TameIsReplayable(before: Json, after: Json, path: Path)
    requires ValidDeltaPath(path)
    requires Tame(before, |path|) && Tame(after, |path|)
    ensures Replayable(before, after, path)
    decreases before
  {
    match (before, after) {
      case (Arr(xs), Arr(ys)) =>
        forall i | 0 <= i < |xs| && i < |ys|
          ensures Replayable(xs[i], ys[i], path + [Index(i)])
        {
          TameIsReplayable(xs[i], ys[i], path + [Index(i)]);
        }
      case (Obj(f), Obj(g)) =>
        forall k | k in f && k in g
          ensures Replayable(f[k], g[k], path + [Key(k)])
        {
          TameIsReplayable(f[k], g[k], path + [Key(k)]);
        }
      case _ =>
    }
  }

  /** A changed value under a key named "constructor" yields a delta the journal refuses to replay. */
  lemma ReservedKeyIsNotReplayable(x: Json, y: Json)
    requires x.Num? && y.Num? && x != y
    ensures !Replayable(Obj(map["constructor" := x]), Obj(map["constructor" := y]), [])
  {
    var f, g := map["constructor" := x], map["constructor" := y];
    var p: Path := [] + [Key("constructor")];
    assert "constructor" in f && "constructor" in g;
    assert !SafeSegment(p[0]);
    assert !Replayable(f["constructor"], g["constructor"], p);
  }
}
