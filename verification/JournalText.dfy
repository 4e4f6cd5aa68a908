/**
 * One way to write journal rows as text that keeps the laws the journal needs:
 * a row is written as a tree, and a tree as marks that say where it ends.  The
 * results about the journal are therefore about something that exists.
 */
module JournalText {
  import opened Common
  import opened JsonDelta
  import opened RunJournal

  // ---------------------------------------------------------------- trees as marks

  /** A text is written in front of what follows it. */
  function NatText(n: nat, rest: string): string {
    if n == 0 then ['0'] + rest else ['1'] + NatText(n - 1, rest)
  }

  function IntText(i: int, rest: string): string {
    if i < 0 then ['0'] + NatText(-i, rest) else ['1'] + NatText(i, rest)
  }

  function StringText(s: string, rest: string): string {
    if s == "" then ['0'] + rest else ['1'] + NatText(s[0] as int, StringText(s[1..], rest))
  }

  function NumberText(n: Number, rest: string): string {
    match n
    case Whole(i) => ['0'] + IntText(i, rest)
    case Fraction(digits, places) => ['1'] + IntText(digits, NatText(places, rest))
  }

  ghost function SomeKey(fields: map<string, Json>): (k: string)
    requires fields != map[]
    ensures k in fields
  {
    var k :| k in fields;
    k
  }

  ghost predicate PartOf(fields: map<string, Json>, whole: Json) {
    whole.Obj? && forall k | k in fields :: k in whole.fields && fields[k] == whole.fields[k]
  }

  ghost function TreeText(v: Json, rest: string): string
    decreases v, 1, 0
  {
    match v
    case Null => NatText(0, rest)
    case Bool(b) => NatText(1, [if b then '1' else '0'] + rest)
    case Num(n) => NatText(2, NumberText(n, rest))
    case Str(s) => NatText(3, StringText(s, rest))
    case Arr(items) => NatText(4, ItemsText(v, 0, rest))
    case Obj(fields) => NatText(5, FieldsText(v, fields, rest))
  }

  ghost function ItemsText(v: Json, i: nat, rest: string): string
    requires v.Arr? && i <= |v.items|
    decreases v, 0, |v.items| - i
  {
    if i == |v.items| then ['0'] + rest else ['1'] + TreeText(v.items[i], ItemsText(v, i + 1, rest))
  }

  ghost function FieldsText(whole: Json, fields: map<string, Json>, rest: string): string
    requires PartOf(fields, whole)
    decreases whole, 0, |fields|
  {
    if fields == map[] then ['0'] + rest
    else
      var k := SomeKey(fields);
      ['1'] + StringText(k, TreeText(whole.fields[k], FieldsText(whole, fields - {k}, rest)))
  }

  // ---------------------------------------------------------------- what is written can be told apart

  lemma Cons(c: char, s: string, d: char, t: string)
    requires [c] + s == [d] + t
    ensures c == d && s == t
  {
    assert ([c] + s)[0] == c && ([d] + t)[0] == d;
    assert ([c] + s)[1..] == s && ([d] + t)[1..] == t;
  }

  lemma {:induction false} NatTextIsExact(m: nat, r: string, n: nat, s: string)
    requires NatText(m, r) == NatText(n, s)
    ensures m == n && r == s
  {
    assert NatText(m, r)[0] == NatText(n, s)[0];
    if m == 0 {
      Cons('0', r, '0', s);
    } else {
      Cons('1', NatText(m - 1, r), '1', NatText(n - 1, s));
      NatTextIsExact(m - 1, r, n - 1, s);
    }
  }

  lemma IntTextIsExact(i: int, r: string, j: int, s: string)
    requires IntText(i, r) == IntText(j, s)
    ensures i == j && r == s
  {
    assert IntText(i, r)[0] == IntText(j, s)[0];
    if i < 0 {
      Cons('0', NatText(-i, r), '0', NatText(-j, s));
      NatTextIsExact(-i, r, -j, s);
    } else {
      Cons('1', NatText(i, r), '1', NatText(j, s));
      NatTextIsExact(i, r, j, s);
    }
  }

  lemma {:induction false} StringTextIsExact(a: string, r: string, b: string, s: string)
    requires StringText(a, r) == StringText(b, s)
    ensures a == b && r == s
  {
    assert StringText(a, r)[0] == StringText(b, s)[0];
    if a == "" {
      Cons('0', r, '0', s);
    } else {
      var x, y := StringText(a[1..], r), StringText(b[1..], s);
      Cons('1', NatText(a[0] as int, x), '1', NatText(b[0] as int, y));
      NatTextIsExact(a[0] as int, x, b[0] as int, y);
      StringTextIsExact(a[1..], r, b[1..], s);
      assert a == [a[0]] + a[1..] && b == [b[0]] + b[1..];
    }
  }

  lemma NumberTextIsExact(m: Number, r: string, n: Number, s: string)
    requires NumberText(m, r) == NumberText(n, s)
    ensures m == n && r == s
  {
    assert NumberText(m, r)[0] == NumberText(n, s)[0];
    if m.Whole? {
      Cons('0', IntText(m.i, r), '0', IntText(n.i, s));
      IntTextIsExact(m.i, r, n.i, s);
    } else {
      var x, y := NatText(m.places, r), NatText(n.places, s);
      Cons('1', IntText(m.digits, x), '1', IntText(n.digits, y));
      IntTextIsExact(m.digits, x, n.digits, y);
      NatTextIsExact(m.places, r, n.places, s);
    }
  }

  ghost function KindOf(v: Json): nat {
    match v
    case Null => 0
    case Bool(_) => 1
    case Num(_) => 2
    case Str(_) => 3
    case Arr(_) => 4
    case Obj(_) => 5
  }

  ghost function AfterKind(v: Json, rest: string): string {
    match v
    case Null => rest
    case Bool(b) => [if b then '1' else '0'] + rest
    case Num(n) => NumberText(n, rest)
    case Str(s) => StringText(s, rest)
    case Arr(items) => ItemsText(v, 0, rest)
    case Obj(fields) => FieldsText(v, fields, rest)
  }

  lemma TreeTextIs(v: Json, rest: string)
    ensures TreeText(v, rest) == NatText(KindOf(v), AfterKind(v, rest))
  {
  }

  lemma {:induction false} TreeTextIsExact(a: Json, r: string, b: Json, s: string)
    requires TreeText(a, r) == TreeText(b, s)
    ensures a == b && r == s
    decreases a, 1, 0
  {
    TreeTextIs(a, r);
    TreeTextIs(b, s);
    NatTextIsExact(KindOf(a), AfterKind(a, r), KindOf(b), AfterKind(b, s));
    match a
    case Null =>
    case Bool(x) => Cons(if x then '1' else '0', r, if b.b then '1' else '0', s);
    case Num(n) => NumberTextIsExact(n, r, b.n, s);
    case Str(x) => StringTextIsExact(x, r, b.s, s);
    case Arr(items) => ItemsTextIsExact(a, 0, r, b, s);
    case Obj(fields) => FieldsTextIsExact(a, fields, r, b, b.fields, s);
  }

  lemma {:induction false} ItemsTextIsExact(a: Json, i: nat, r: string, b: Json, s: string)
    requires a.Arr? && b.Arr? && i <= |a.items| && i <= |b.items| && a.items[..i] == b.items[..i]
    requires ItemsText(a, i, r) == ItemsText(b, i, s)
    ensures a == b && r == s
    decreases a, 0, |a.items| - i
  {
    assert ItemsText(a, i, r)[0] == ItemsText(b, i, s)[0];
    if i == |a.items| {
      Cons('0', r, '0', s);
      assert a.items[..i] == a.items && b.items[..i] == b.items;
    } else {
      var x, y := ItemsText(a, i + 1, r), ItemsText(b, i + 1, s);
      Cons('1', TreeText(a.items[i], x), '1', TreeText(b.items[i], y));
      TreeTextIsExact(a.items[i], x, b.items[i], y);
      assert a.items[..i + 1] == a.items[..i] + [a.items[i]] && b.items[..i + 1] == b.items[..i] + [b.items[i]];
      ItemsTextIsExact(a, i + 1, r, b, s);
    }
  }

  lemma {:induction false} FieldsTextIsExact(a: Json, f: map<string, Json>, r: string, b: Json, g: map<string, Json>, s: string)
    requires PartOf(f, a) && PartOf(g, b) && FieldsText(a, f, r) == FieldsText(b, g, s)
    ensures f == g && r == s
    decreases a, 0, |f|
  {
    assert FieldsText(a, f, r)[0] == FieldsText(b, g, s)[0];
    if f == map[] {
      Cons('0', r, '0', s);
    } else {
      var k, l := SomeKey(f), SomeKey(g);
      var x, y := FieldsText(a, f - {k}, r), FieldsText(b, g - {l}, s);
      var v, w := TreeText(a.fields[k], x), TreeText(b.fields[l], y);
      Cons('1', StringText(k, v), '1', StringText(l, w));
      StringTextIsExact(k, v, l, w);
      TreeTextIsExact(a.fields[k], x, b.fields[l], y);
      FieldsTextIsExact(a, f - {k}, r, b, g - {l}, s);
      assert f == (f - {k})[k := f[k]] && g == (g - {l})[l := g[l]];
    }
  }

  // ---------------------------------------------------------------- marks only, in front of what follows

  ghost predicate Marks(s: string) {
    forall i | 0 <= i < |s| :: s[i] == '0' || s[i] == '1'
  }

  /** Written in front of `rest`, a text is the text alone and then `rest`, and it is made of marks. */
  ghost predicate InFront(text: string, alone: string, rest: string) {
    text == alone + rest && Marks(alone) && alone != ""
  }

  lemma Longer(c: char, text: string, alone: string, rest: string)
    requires (c == '0' || c == '1') && text == alone + rest && Marks(alone)
    ensures InFront([c] + text, [c] + alone, rest)
  {
  }

  lemma {:induction false} NatInFront(n: nat, rest: string)
    ensures InFront(NatText(n, rest), NatText(n, ""), rest)
  {
    if n == 0 {
      Longer('0', rest, "", rest);
    } else {
      NatInFront(n - 1, rest);
      Longer('1', NatText(n - 1, rest), NatText(n - 1, ""), rest);
    }
  }

  /** Two texts in a row. */
  lemma Chained(n: nat, text: string, alone: string, rest: string)
    requires text == alone + rest && Marks(alone)
    ensures InFront(NatText(n, text), NatText(n, alone), rest)
  {
    NatInFront(n, text);
    NatInFront(n, alone);
  }

  lemma IntInFront(i: int, text: string, alone: string, rest: string)
    requires text == alone + rest && Marks(alone)
    ensures InFront(IntText(i, text), IntText(i, alone), rest)
  {
    var n := if i < 0 then -i else i;
    Chained(n, text, alone, rest);
    Longer(if i < 0 then '0' else '1', NatText(n, text), NatText(n, alone), rest);
  }

  lemma {:induction false} StringInFront(s: string, text: string, alone: string, rest: string)
    requires text == alone + rest && Marks(alone)
    ensures InFront(StringText(s, text), StringText(s, alone), rest)
  {
    if s == "" {
      Longer('0', text, alone, rest);
    } else {
      StringInFront(s[1..], text, alone, rest);
      Chained(s[0] as int, StringText(s[1..], text), StringText(s[1..], alone), rest);
      Longer('1', NatText(s[0] as int, StringText(s[1..], text)), NatText(s[0] as int, StringText(s[1..], alone)), rest);
    }
  }

  lemma NumberInFront(n: Number, text: string, alone: string, rest: string)
    requires text == alone + rest && Marks(alone)
    ensures InFront(NumberText(n, text), NumberText(n, alone), rest)
  {
    match n
    case Whole(i) =>
      IntInFront(i, text, alone, rest);
      Longer('0', IntText(i, text), IntText(i, alone), rest);
    case Fraction(digits, places) =>
      Chained(places, text, alone, rest);
      IntInFront(digits, NatText(places, text), NatText(places, alone), rest);
      Longer('1', IntText(digits, NatText(places, text)), IntText(digits, NatText(places, alone)), rest);
  }

  lemma {:induction false} TreeInFront(v: Json, text: string, alone: string, rest: string)
    requires text == alone + rest && Marks(alone)
    ensures InFront(TreeText(v, text), TreeText(v, alone), rest)
    decreases v, 1, 0
  {
    TreeTextIs(v, text);
    TreeTextIs(v, alone);
    match v {
      case Null =>
      case Bool(b) => Longer(if b then '1' else '0', text, alone, rest);
      case Num(n) => NumberInFront(n, text, alone, rest);
      case Str(s) => StringInFront(s, text, alone, rest);
      case Arr(items) => ItemsInFront(v, 0, text, alone, rest);
      case Obj(fields) => FieldsInFront(v, fields, text, alone, rest);
    }
    Chained(KindOf(v), AfterKind(v, text), AfterKind(v, alone), rest);
  }

  lemma {:induction false} ItemsInFront(v: Json, i: nat, text: string, alone: string, rest: string)
    requires text == alone + rest && Marks(alone) && v.Arr? && i <= |v.items|
    ensures InFront(ItemsText(v, i, text), ItemsText(v, i, alone), rest)
    decreases v, 0, |v.items| - i
  {
    if i == |v.items| {
      Longer('0', text, alone, rest);
    } else {
      ItemsInFront(v, i + 1, text, alone, rest);
      TreeInFront(v.items[i], ItemsText(v, i + 1, text), ItemsText(v, i + 1, alone), rest);
      Longer('1', TreeText(v.items[i], ItemsText(v, i + 1, text)), TreeText(v.items[i], ItemsText(v, i + 1, alone)), rest);
    }
  }

  lemma {:induction false} FieldsInFront(v: Json, fields: map<string, Json>, text: string, alone: string, rest: string)
    requires text == alone + rest && Marks(alone) && PartOf(fields, v)
    ensures InFront(FieldsText(v, fields, text), FieldsText(v, fields, alone), rest)
    decreases v, 0, |fields|
  {
    if fields == map[] {
      Longer('0', text, alone, rest);
    } else {
      var k := SomeKey(fields);
      var x, y := FieldsText(v, fields - {k}, text), FieldsText(v, fields - {k}, alone);
      FieldsInFront(v, fields - {k}, text, alone, rest);
      TreeInFront(v.fields[k], x, y, rest);
      StringInFront(k, TreeText(v.fields[k], x), TreeText(v.fields[k], y), rest);
      Longer('1', StringText(k, TreeText(v.fields[k], x)), StringText(k, TreeText(v.fields[k], y)), rest);
    }
  }

  // ---------------------------------------------------------------- rows as trees

  function NatTree(n: nat): Json {
    Num(Whole(n))
  }

  function SegmentTree(s: Segment): Json {
    match s
    case Index(i) => NatTree(i)
    case Key(k) => Str(k)
  }

  function EditTree(e: Edit): Json {
    match e
    case Put(v) => Arr([v])
    case Drop => Null
  }

  function PathTree(p: Path): Json {
    Arr(seq(|p|, i requires 0 <= i < |p| => SegmentTree(p[i])))
  }

  function OperationTree(o: Operation): Json {
    Arr([PathTree(o.path), EditTree(o.edit)])
  }

  function OperationsTree(ops: seq<Operation>): Json {
    Arr(seq(|ops|, i requires 0 <= i < |ops| => OperationTree(ops[i])))
  }

  function ContentTree(c: Content): Json {
    match c
    case Checkpoint(state) => Arr([state])
    case Delta(base, previous, operations) => Arr([NatTree(base), Str(previous), OperationsTree(operations)])
  }

  function BodyTree(b: Body): Json {
    Arr([NatTree(b.sequence), b.payload, Str(b.payloadDigest), Str(b.resultDigest), ContentTree(b.content)])
  }

  function RowTree(row: Row): Json {
    match row
    case Event(body, digest) => Arr([BodyTree(body), Str(digest), Null])
    case Legacy(sequence, state) => Arr([NatTree(sequence), state])
  }

  lemma PathTreeIsExact(p: Path, q: Path)
    requires PathTree(p) == PathTree(q)
    ensures p == q
  {
    assert |p| == |PathTree(p).items| == |PathTree(q).items| == |q|;
    forall i | 0 <= i < |p| ensures p[i] == q[i] {
      assert PathTree(p).items[i] == SegmentTree(p[i]) && PathTree(q).items[i] == SegmentTree(q[i]);
    }
  }

  lemma OperationTreeIsExact(a: Operation, b: Operation)
    requires OperationTree(a) == OperationTree(b)
    ensures a == b
  {
    assert OperationTree(a).items[0] == OperationTree(b).items[0] && OperationTree(a).items[1] == OperationTree(b).items[1];
    PathTreeIsExact(a.path, b.path);
    if a.edit.Put? { assert EditTree(a.edit).items[0] == EditTree(b.edit).items[0]; }
  }

  lemma OperationsTreeIsExact(a: seq<Operation>, b: seq<Operation>)
    requires OperationsTree(a) == OperationsTree(b)
    ensures a == b
  {
    assert |a| == |OperationsTree(a).items| == |OperationsTree(b).items| == |b|;
    forall i | 0 <= i < |a| ensures a[i] == b[i] {
      assert OperationsTree(a).items[i] == OperationTree(a[i]) && OperationsTree(b).items[i] == OperationTree(b[i]);
      OperationTreeIsExact(a[i], b[i]);
    }
  }

  lemma ContentTreeIsExact(a: Content, b: Content)
    requires ContentTree(a) == ContentTree(b)
    ensures a == b
  {
    var x, y := ContentTree(a).items, ContentTree(b).items;
    assert |x| == |y| && x[0] == y[0];
    if a.Delta? {
      assert x[1] == y[1] && x[2] == y[2];
      OperationsTreeIsExact(a.operations, b.operations);
    }
  }

  lemma BodyTreeIsExact(a: Body, b: Body)
    requires BodyTree(a) == BodyTree(b)
    ensures a == b
  {
    var x, y := BodyTree(a).items, BodyTree(b).items;
    assert x[0] == y[0] && x[1] == y[1] && x[2] == y[2] && x[3] == y[3] && x[4] == y[4];
    ContentTreeIsExact(a.content, b.content);
  }

  lemma RowTreeIsExact(a: Row, b: Row)
    requires RowTree(a) == RowTree(b)
    ensures a == b
  {
    var x, y := RowTree(a).items, RowTree(b).items;
    assert |x| == |y| && x[0] == y[0] && x[1] == y[1];
    if a.Event? { BodyTreeIsExact(a.body, b.body); }
  }

  // ---------------------------------------------------------------- an environment that keeps the laws

  ghost function RowLine(row: Row): string {
    TreeText(RowTree(row), "")
  }

  /** A line that begins with a row's line is that row's line. */
  lemma RowLineIsExact(a: Row, b: Row, rest: string)
    requires RowLine(a) + rest == RowLine(b)
    ensures a == b && rest == ""
  {
    TreeInFront(RowTree(a), rest, "", rest);
    TreeTextIsExact(RowTree(a), rest, RowTree(b), "");
    RowTreeIsExact(a, b);
  }

  ghost predicate IsRowLine(line: string) {
    exists row :: RowLine(row) == line
  }

  ghost function ReadLine(line: string): Option<Row> {
    if IsRowLine(line) then
      var row :| RowLine(row) == line;
      Some(row)
    else None
  }

  /** Whatever the snapshot check and the digests are, there is a text form of rows that keeps the laws. */
  lemma LawsCanBeKept(env: Env) returns (kept: Env)
    ensures Lawful(kept) && PrefixFree(kept)
    ensures kept.snapshotOk == env.snapshotOk && kept.digest == env.digest && kept.digestBody == env.digestBody && kept.digestRow == env.digestRow
  {
    kept := env.(encode := row => RowLine(row), decode := line => ReadLine(line));
    forall row: Row
      ensures !Blank(kept.encode(row)) && '\n' !in kept.encode(row) && kept.decode(kept.encode(row)) == Some(row)
    {
      TreeInFront(RowTree(row), "", "", "");
      assert RowLine(row)[0] == '0' || RowLine(row)[0] == '1';
      assert IsRowLine(RowLine(row));
      var back := ReadLine(RowLine(row)).value;
      assert RowLine(back) + "" == RowLine(row);
      RowLineIsExact(back, row, "");
    }
    forall row: Row, n: nat | n < |kept.encode(row)| ensures kept.decode(kept.encode(row)[..n]) == None {
      var line := RowLine(row);
      if IsRowLine(line[..n]) {
        var short :| RowLine(short) == line[..n];
        assert line[..n] + line[n..] == line;
        RowLineIsExact(short, row, line[n..]);
      }
    }
  }
}
