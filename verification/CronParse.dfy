/**
 * Reading a five-field expression.  The reader splits text; the grammar it
 * accepts is written the other way round, as the texts that parts spell, and
 * the two are proved to agree.  Every accepted expression has a next run.
 */
module CronParse {
  import opened Common
  import opened Text
  import opened Calendar
  import opened CronSearch

  datatype FieldName = Minute | Hour | DayOfMonth | Month | DayOfWeek

  datatype CronError =
    | FiveFieldsRequired
    | Invalid(field: FieldName)
    | StepRequiresRange(field: FieldName)
    | RangeInvalid(field: FieldName)
    | StepInvalid(field: FieldName)
    | CalendarImpossible

  datatype Definition = Definition(name: FieldName, min: nat, max: nat, sundayTwice: bool) {

    /** Only the last field rewrites a value: 7 is Sunday as well. */
    function Normalize(v: int): int {
      if sundayTwice && v == 7 then 0 else v
    }
  }

  const CRON_FIELDS := [
    Definition(Minute, 0, 59, false),
    Definition(Hour, 0, 23, false),
    Definition(DayOfMonth, 1, 31, false),
    Definition(Month, 1, 12, false),
    Definition(DayOfWeek, 0, 7, true)]

  const MAX_SAFE_INTEGER := 0x1F_FFFF_FFFF_FFFF

  // ---------------------------------------------------------------- text

  predicate Space(ch: char) {
    || '\t' <= ch <= '\r' || ch == ' ' || ch == '\U{00A0}' || ch == '\U{1680}'
    || '\U{2000}' <= ch <= '\U{200A}' || ch == '\U{2028}' || ch == '\U{2029}'
    || ch == '\U{202F}' || ch == '\U{205F}' || ch == '\U{3000}' || ch == '\U{FEFF}'
  }

  predicate Digit(ch: char) {
    '0' <= ch <= '9'
  }

  predicate Allowed(ch: char) {
    Digit(ch) || ch == '*' || ch == '/' || ch == ',' || ch == '-'
  }

  /** How many characters precede the first space. */
  function WordLength(s: string): (n: nat)
    ensures n <= |s| && (n < |s| ==> Space(s[n]))
    ensures forall i | 0 <= i < n :: !Space(s[i])
  {
    if s == "" || Space(s[0]) then 0 else 1 + WordLength(s[1..])
  }

  /** Trimming and then splitting at runs of white space leaves the words between them. */
  function Words(s: string): seq<string>
    decreases |s|
  {
    if s == "" then []
    else if Space(s[0]) then Words(s[1..])
    else
      var n := WordLength(s);
      [s[..n]] + Words(s[n..])
  }

  ghost predicate AreWords(words: seq<string>) {
    forall i | 0 <= i < |words| :: words[i] != "" && forall k | 0 <= k < |words[i]| :: !Space(words[i][k])
  }

  lemma {:induction false} WordsAreWords(s: string)
    ensures AreWords(Words(s))
    decreases |s|
  {
    if s != "" {
      if Space(s[0]) {
        WordsAreWords(s[1..]);
      } else {
        WordsAreWords(s[WordLength(s)..]);
      }
    }
  }

  lemma {:induction false} WordLengthIs(w: string, rest: string)
    requires (forall k | 0 <= k < |w| :: !Space(w[k])) && (rest != "" ==> Space(rest[0]))
    ensures WordLength(w + rest) == |w|
  {
    if w == "" {
      assert w + rest == rest;
    } else {
      WordLengthIs(w[1..], rest);
      assert (w + rest)[1..] == w[1..] + rest;
    }
  }

  lemma {:induction false} WordThenSpace(w: string, rest: string)
    requires AreWords([w]) && (rest != "" ==> Space(rest[0]))
    ensures Words(w + rest) == [w] + Words(rest)
  {
    var s := w + rest;
    assert w == [w][0];
    var n := WordLength(s);
    assert !Space(s[0]);
    WordLengthIs(w, rest);
    assert s[..n] == w && s[n..] == rest;
  }

  /** Words joined by single spaces are the same words: the stored form of an expression reads the same. */
  lemma {:induction false} WordsJoin(words: seq<string>)
    requires AreWords(words)
    ensures Words(Join(words, ' ')) == words
  {
    if words != [] {
      var w := words[0];
      assert [w][0] == w;
      if |words| == 1 {
        WordThenSpace(w, "");
        assert w + "" == w;
      } else {
        WordsJoin(words[1..]);
        var rest := Join(words[1..], ' ');
        WordThenSpace(w, [' '] + rest);
        assert ([' '] + rest)[1..] == rest;
        assert w + ([' '] + rest) == w + [' '] + rest;
        assert words == [w] + words[1..];
      }
    }
  }

  // ---------------------------------------------------------------- one part of a field

  predicate AllDigits(s: string) {
    forall i | 0 <= i < |s| :: Digit(s[i])
  }

  function Value(s: string): nat
    requires AllDigits(s)
  {
    if s == "" then 0 else 10 * Value(s[..|s| - 1]) + (s[|s| - 1] as int - '0' as int)
  }

  predicate Numeral(s: string) {
    s != "" && AllDigits(s) && Value(s) <= MAX_SAFE_INTEGER
  }

  function ParseInteger(raw: string, name: FieldName): Result<nat, CronError> {
    if Numeral(raw) then Ok(Value(raw)) else Err(Invalid(name))
  }

  /** The values start, start + step, ... up to end. */
  datatype Item = Item(start: int, end: int, step: int)

  function Bounds(base: string, stepped: bool, f: Definition): Result<(int, int), CronError> {
    if base == "*" then Ok((f.min, f.max))
    else if '-' in base then
      var bounds := Split(base, '-');
      if |bounds| != 2 || bounds[0] == "" || bounds[1] == "" then Err(Invalid(f.name))
      else
        var start :- ParseInteger(bounds[0], f.name);
        var end :- ParseInteger(bounds[1], f.name);
        Ok((start, end))
    else if stepped then Err(StepRequiresRange(f.name))
    else
      var start :- ParseInteger(base, f.name);
      Ok((start, start))
  }

  function StepOf(pieces: seq<string>, f: Definition): Result<int, CronError> {
    if |pieces| != 2 then Ok(1)
    else
      var step :- ParseInteger(pieces[1], f.name);
      Ok(step)
  }

  function ReadPart(part: string, f: Definition): Result<Item, CronError> {
    var pieces := Split(part, '/');
    if |pieces| > 2 || pieces[0] == "" || (|pieces| == 2 && pieces[1] == "") then Err(Invalid(f.name))
    else
      var step :- StepOf(pieces, f);
      var bounds :- Bounds(pieces[0], |pieces| == 2, f);
      InBounds(bounds.0, bounds.1, step, f)
  }

  function InBounds(start: int, end: int, step: int, f: Definition): Result<Item, CronError> {
    if start < f.min || end > f.max || start > end then Err(RangeInvalid(f.name))
    else if step < 1 || step > end - start + 1 then Err(StepInvalid(f.name))
    else Ok(Item(start, end, step))
  }

  // ---------------------------------------------------------------- what a part may say

  datatype Base = Any | One(n: string) | Range(lo: string, hi: string)

  datatype Part = Part(base: Base, step: Option<string>)

  function SpellBase(b: Base): string {
    match b
    case Any => "*"
    case One(n) => n
    case Range(lo, hi) => lo + ['-'] + hi
  }

  function Spell(p: Part): string {
    if p.step.None? then SpellBase(p.base) else SpellBase(p.base) + ['/'] + p.step.value
  }

  ghost predicate Numerals(p: Part) {
    && (p.base.One? ==> Numeral(p.base.n))
    && (p.base.Range? ==> Numeral(p.base.lo) && Numeral(p.base.hi))
    && (p.step.Some? ==> Numeral(p.step.value))
  }

  ghost function ItemOf(p: Part, f: Definition): Item
    requires Numerals(p)
  {
    var step := if p.step.None? then 1 else Value(p.step.value);
    match p.base
    case Any => Item(f.min, f.max, step)
    case One(n) => Item(Value(n), Value(n), step)
    case Range(lo, hi) => Item(Value(lo), Value(hi), step)
  }

  /** A single value takes no step; bounds lie in the field; a step is no longer than its range. */
  ghost predicate Legal(p: Part, f: Definition) {
    && Numerals(p)
    && (p.base.One? ==> p.step.None?)
    && var i := ItemOf(p, f);
       f.min <= i.start <= i.end <= f.max && 1 <= i.step <= i.end - i.start + 1
  }

  lemma NumeralHasNo(s: string, c: char)
    requires Numeral(s) && !Digit(c)
    ensures c !in s
  {
  }

  lemma BaseHasNoSlash(b: Base)
    requires Numerals(Part(b, None))
    ensures '/' !in SpellBase(b) && SpellBase(b) != ""
  {
  }

  lemma BaseIsRead(b: Base, f: Definition, stepped: bool)
    requires Numerals(Part(b, None)) && (b.One? ==> !stepped)
    ensures var i := ItemOf(Part(b, None), f); Bounds(SpellBase(b), stepped, f) == Ok((i.start, i.end))
  {
    match b
    case Any =>
    case One(n) =>
      NumeralHasNo(n, '-');
      assert Digit(n[0]);
    case Range(lo, hi) =>
      NumeralHasNo(lo, '-');
      NumeralHasNo(hi, '-');
      SplitAt(lo, '-', hi);
      SplitWord(hi, '-');
      assert Digit(SpellBase(b)[0]);
      assert SpellBase(b)[|lo|] == '-';
  }

  lemma PiecesOf(p: Part)
    requires Numerals(p)
    ensures SpellBase(p.base) != ""
    ensures Split(Spell(p), '/') == if p.step.None? then [SpellBase(p.base)] else [SpellBase(p.base), p.step.value]
  {
    var base := SpellBase(p.base);
    BaseHasNoSlash(p.base);
    if p.step.None? {
      SplitWord(base, '/');
    } else {
      NumeralHasNo(p.step.value, '/');
      SplitAt(base, '/', p.step.value);
      SplitWord(p.step.value, '/');
    }
  }

  /** Everything the grammar allows is read, and read as what it says. */
  lemma PartIsRead(p: Part, f: Definition)
    requires Legal(p, f)
    ensures ReadPart(Spell(p), f) == Ok(ItemOf(p, f))
  {
    PiecesOf(p);
    BaseIsRead(p.base, f, p.step.Some?);
    var i := ItemOf(p, f);
    assert StepOf(Split(Spell(p), '/'), f) == Ok(i.step);
    assert InBounds(i.start, i.end, i.step, f) == Ok(i);
  }

  predicate AllAllowed(s: string) {
    forall i | 0 <= i < |s| :: Allowed(s[i])
  }

  lemma SpellingIsAllowed(p: Part)
    requires Numerals(p)
    ensures Spell(p) != "" && ',' !in Spell(p) && AllAllowed(Spell(p))
  {
    var base := SpellBase(p.base);
    assert base != "" && ',' !in base && AllAllowed(base);
  }

  lemma BaseWasWritten(base: string, stepped: bool, f: Definition) returns (b: Base)
    requires Bounds(base, stepped, f).Ok?
    ensures Numerals(Part(b, None)) && SpellBase(b) == base && (b.One? ==> !stepped)
    ensures var i := ItemOf(Part(b, None), f); Bounds(base, stepped, f).value == (i.start, i.end)
  {
    if base == "*" {
      b := Any;
    } else if '-' in base {
      var bounds := Split(base, '-');
      JoinSplit(base, '-');
      assert |bounds| == 2;
      assert bounds[1..] == [bounds[1]];
      b := Range(bounds[0], bounds[1]);
    } else {
      b := One(base);
    }
  }

  /** Everything that is read was allowed by the grammar. */
  lemma PartWasWritten(part: string, f: Definition) returns (p: Part)
    requires ReadPart(part, f).Ok?
    ensures Legal(p, f) && Spell(p) == part && ItemOf(p, f) == ReadPart(part, f).value
  {
    var pieces := Split(part, '/');
    JoinSplit(part, '/');
    var b := BaseWasWritten(pieces[0], |pieces| == 2, f);
    if |pieces| == 2 {
      assert pieces[1..] == [pieces[1]];
      p := Part(b, Some(pieces[1]));
    } else {
      p := Part(b, None);
    }
  }

  // ---------------------------------------------------------------- a whole field

  function StepAt(i: Item, n: nat): int {
    i.start + n * i.step
  }

  ghost function ItemValues(i: Item, f: Definition): set<int> {
    set n: nat | n <= i.end - i.start && StepAt(i, n) <= i.end :: f.Normalize(StepAt(i, n))
  }

  ghost function ReadParts(parts: seq<string>, f: Definition): Result<set<int>, CronError> {
    if parts == [] then Ok({})
    else
      var before :- ReadParts(parts[..|parts| - 1], f);
      var item :- ReadPart(parts[|parts| - 1], f);
      Ok(before + ItemValues(item, f))
  }

  /** The members of a set between two bounds, in ascending order. */
  function Listing(s: set<int>, lo: int, hi: int): seq<int>
    decreases hi - lo
  {
    if lo > hi then [] else (if lo in s then [lo] else []) + Listing(s, lo + 1, hi)
  }

  datatype Field = Field(values: seq<int>, wildcard: bool)

  predicate Readable(raw: string) {
    && raw != ""
    && AllAllowed(raw)
    && "" !in Split(raw, ',')
  }

  ghost function ReadField(raw: string, f: Definition): Result<Field, CronError> {
    if !Readable(raw) then Err(Invalid(f.name))
    else
      var values :- ReadParts(Split(raw, ','), f);
      Ok(Field(Listing(values, f.min, f.max), raw == "*"))
  }

  lemma {:induction false} StepsGrow(i: Item, m: nat, n: nat)
    requires i.step >= 1 && m <= n
    ensures StepAt(i, m) + (n - m) <= StepAt(i, n)
    decreases n
  {
    if m < n {
      StepsGrow(i, m, n - 1);
      assert n * i.step == (n - 1) * i.step + i.step;
    }
  }

  ghost function FirstSteps(i: Item, f: Definition, k: nat): set<int> {
    set n: nat | n < k :: f.Normalize(StepAt(i, n))
  }

  lemma NextStep(i: Item, f: Definition, k: nat)
    ensures FirstSteps(i, f, k + 1) == FirstSteps(i, f, k) + {f.Normalize(StepAt(i, k))}
    ensures StepAt(i, k + 1) == StepAt(i, k) + i.step
  {
    assert (k + 1) * i.step == k * i.step + i.step;
  }

  lemma StepsUpTo(i: Item, f: Definition, k: nat)
    requires i.step >= 1 && StepAt(i, k) > i.end
    requires forall n: nat | n < k :: StepAt(i, n) <= i.end
    ensures FirstSteps(i, f, k) == ItemValues(i, f)
  {
    forall n: nat ensures n < k <==> n <= i.end - i.start && StepAt(i, n) <= i.end {
      StepsGrow(i, 0, n);
      if k <= n { StepsGrow(i, k, n); }
    }
    forall v ensures v in FirstSteps(i, f, k) <==> v in ItemValues(i, f) {
      if v in FirstSteps(i, f, k) {
        var n: nat :| n < k && v == f.Normalize(StepAt(i, n));
        assert v in ItemValues(i, f);
      }
      if v in ItemValues(i, f) {
        var n: nat :| n <= i.end - i.start && StepAt(i, n) <= i.end && v == f.Normalize(StepAt(i, n));
        assert v in FirstSteps(i, f, k);
      }
    }
  }

  method AddValues(i: Item, f: Definition, values: set<int>) returns (more: set<int>)
    requires i.step >= 1
    ensures more == values + ItemValues(i, f)
  {
    more := values;
    var value := i.start;
    ghost var k: nat := 0;
    while value <= i.end
      invariant value == StepAt(i, k)
      invariant more == values + FirstSteps(i, f, k)
      invariant forall n: nat | n < k :: StepAt(i, n) <= i.end
      decreases i.end - value
    {
      NextStep(i, f, k);
      more := more + {f.Normalize(value)};
      value := value + i.step;
      k := k + 1;
    }
    StepsUpTo(i, f, k);
  }

  lemma {:induction false} ListingExact(s: set<int>, lo: int, hi: int)
    ensures forall v :: v in Listing(s, lo, hi) <==> v in s && lo <= v <= hi
    ensures forall i, j | 0 <= i < j < |Listing(s, lo, hi)| :: Listing(s, lo, hi)[i] < Listing(s, lo, hi)[j]
    decreases hi - lo
  {
    if lo <= hi {
      ListingExact(s, lo + 1, hi);
      var rest := Listing(s, lo + 1, hi);
      forall j | 0 <= j < |rest| ensures lo < rest[j] {
        assert rest[j] in rest;
      }
    }
  }

  method Ascending(values: set<int>, f: Definition) returns (sorted: seq<int>)
    ensures sorted == Listing(values, f.min, f.max)
  {
    sorted := [];
    var v: int := f.min;
    while v <= f.max
      invariant sorted + Listing(values, v, f.max) == Listing(values, f.min, f.max)
      decreases f.max - v
    {
      if v in values { sorted := sorted + [v]; }
      v := v + 1;
    }
  }

  lemma {:induction false} ReadPartsFails(parts: seq<string>, n: nat, f: Definition)
    requires n <= |parts| && ReadParts(parts[..n], f).Err?
    ensures ReadParts(parts, f) == ReadParts(parts[..n], f)
    decreases |parts| - n
  {
    if n < |parts| {
      assert parts[..n + 1][..n] == parts[..n];
      ReadPartsFails(parts, n + 1, f);
    } else {
      assert parts[..n] == parts;
    }
  }

  lemma ReadPartsNext(parts: seq<string>, k: nat, f: Definition)
    requires k < |parts| && ReadParts(parts[..k], f).Ok?
    ensures var item := ReadPart(parts[k], f);
            ReadParts(parts[..k + 1], f)
            == if item.Err? then Err(item.error) else Ok(ReadParts(parts[..k], f).value + ItemValues(item.value, f))
  {
    assert parts[..k + 1][..k] == parts[..k];
  }

  /** The field reader's loop over its parts, which stops at the first bad part. */
  method ParseField(raw: string, f: Definition) returns (r: Result<Field, CronError>)
    ensures r == ReadField(raw, f)
  {
    if !Readable(raw) { return Err(Invalid(f.name)); }
    var parts := Split(raw, ',');
    var values: set<int> := {};
    var k := 0;
    while k < |parts|
      invariant 0 <= k <= |parts| && ReadParts(parts[..k], f) == Ok(values)
    {
      ReadPartsNext(parts, k, f);
      var item := ReadPart(parts[k], f);
      if item.Err? {
        ReadPartsFails(parts, k + 1, f);
        return Err(item.error);
      }
      values := AddValues(item.value, f, values);
      k := k + 1;
    }
    assert parts[..k] == parts;
    var sorted := Ascending(values, f);
    return Ok(Field(sorted, raw == "*"));
  }

  ghost function Spellings(parts: seq<Part>): seq<string> {
    seq(|parts|, i requires 0 <= i < |parts| => Spell(parts[i]))
  }

  /** A text of the field's grammar, written as parts joined by commas. */
  ghost predicate Written(raw: string, parts: seq<Part>, f: Definition) {
    && parts != []
    && (forall i | 0 <= i < |parts| :: Legal(parts[i], f))
    && raw == Join(Spellings(parts), ',')
  }

  /** A value some part names, after 7 has become Sunday. */
  ghost predicate Named(parts: seq<Part>, f: Definition, v: int) {
    exists k :: 0 <= k < |parts| && NamedBy(parts[k], f, v)
  }

  ghost predicate NamedBy(p: Part, f: Definition, v: int) {
    Numerals(p) && v in ItemValues(ItemOf(p, f), f)
  }

  lemma NamedExtends(parts: seq<Part>, f: Definition, v: int)
    requires parts != []
    ensures var n := |parts| - 1; Named(parts, f, v) <==> Named(parts[..n], f, v) || NamedBy(parts[n], f, v)
  {
    var n := |parts| - 1;
    if Named(parts[..n], f, v) {
      var k :| 0 <= k < n && NamedBy(parts[..n][k], f, v);
      assert NamedBy(parts[k], f, v);
    }
    if Named(parts, f, v) && !NamedBy(parts[n], f, v) {
      var k :| 0 <= k < |parts| && NamedBy(parts[k], f, v);
      assert NamedBy(parts[..n][k], f, v);
    }
  }

  lemma {:induction false} PartsAreRead(parts: seq<Part>, f: Definition)
    requires forall i | 0 <= i < |parts| :: Legal(parts[i], f)
    ensures ReadParts(Spellings(parts), f).Ok?
    ensures forall v :: v in ReadParts(Spellings(parts), f).value <==> Named(parts, f, v)
  {
    if parts != [] {
      var n := |parts| - 1;
      PartsAreRead(parts[..n], f);
      assert Spellings(parts)[..n] == Spellings(parts[..n]);
      PartIsRead(parts[n], f);
      forall v ensures Named(parts, f, v) <==> Named(parts[..n], f, v) || NamedBy(parts[n], f, v) {
        NamedExtends(parts, f, v);
      }
    }
  }

  lemma SpellingsAppend(parts: seq<Part>, p: Part)
    ensures Spellings(parts + [p]) == Spellings(parts) + [Spell(p)]
  {
  }

  lemma {:induction false} PartsWereWritten(texts: seq<string>, f: Definition) returns (parts: seq<Part>)
    requires ReadParts(texts, f).Ok?
    ensures forall i | 0 <= i < |parts| :: Legal(parts[i], f)
    ensures Spellings(parts) == texts
  {
    if texts == [] {
      parts := [];
    } else {
      var n := |texts| - 1;
      var before := PartsWereWritten(texts[..n], f);
      var p := PartWasWritten(texts[n], f);
      SpellingsAppend(before, p);
      parts := before + [p];
      assert texts == texts[..n] + [texts[n]];
    }
  }

  lemma {:induction false} JoinIsAllowed(texts: seq<string>)
    requires texts != []
    requires forall i | 0 <= i < |texts| :: texts[i] != "" && AllAllowed(texts[i])
    ensures Join(texts, ',') != "" && AllAllowed(Join(texts, ','))
  {
    if |texts| > 1 { JoinIsAllowed(texts[1..]); }
  }

  lemma WrittenIsReadable(raw: string, parts: seq<Part>, f: Definition)
    requires Written(raw, parts, f)
    ensures Readable(raw) && Split(raw, ',') == Spellings(parts)
  {
    var texts := Spellings(parts);
    forall i | 0 <= i < |texts| ensures texts[i] != "" && ',' !in texts[i] && AllAllowed(texts[i]) {
      SpellingIsAllowed(parts[i]);
    }
    SplitJoin(texts, ',');
    JoinIsAllowed(texts);
  }

  lemma ValuesInBounds(p: Part, f: Definition, v: int)
    requires Legal(p, f) && NamedBy(p, f, v) && (f.sundayTwice ==> f.min == 0)
    ensures f.min <= v <= f.max && (f.sundayTwice ==> v != 7)
  {
    var i := ItemOf(p, f);
    var n: nat :| n <= i.end - i.start && StepAt(i, n) <= i.end && v == f.Normalize(StepAt(i, n));
    StepsGrow(i, 0, n);
  }

  /** A text of the grammar is read, and its values are exactly those it names, in order. */
  lemma WrittenFieldIsRead(raw: string, parts: seq<Part>, f: Definition)
    requires Written(raw, parts, f) && (f.sundayTwice ==> f.min == 0)
    ensures ReadField(raw, f).Ok?
    ensures var values := ReadField(raw, f).value.values;
            && values != []
            && (forall v :: v in values <==> Named(parts, f, v))
            && (forall v :: v in values ==> f.min <= v <= f.max && (f.sundayTwice ==> v != 7))
            && (forall i, j | 0 <= i < j < |values| :: values[i] < values[j])
  {
    WrittenIsReadable(raw, parts, f);
    PartsAreRead(parts, f);
    var all := ReadParts(Spellings(parts), f).value;
    ListingExact(all, f.min, f.max);
    forall v | Named(parts, f, v) ensures f.min <= v <= f.max && (f.sundayTwice ==> v != 7) {
      var k :| 0 <= k < |parts| && NamedBy(parts[k], f, v);
      ValuesInBounds(parts[k], f, v);
    }
    var item := ItemOf(parts[0], f);
    assert StepAt(item, 0) == item.start;
    assert f.Normalize(item.start) in ItemValues(item, f);
    assert NamedBy(parts[0], f, f.Normalize(item.start));
    assert f.Normalize(item.start) in Listing(all, f.min, f.max);
  }

  lemma ReadFieldWasWritten(raw: string, f: Definition) returns (parts: seq<Part>)
    requires ReadField(raw, f).Ok?
    ensures Written(raw, parts, f)
  {
    JoinSplit(raw, ',');
    parts := PartsWereWritten(Split(raw, ','), f);
  }

  /** The reader accepts exactly the grammar. */
  lemma FieldGrammar(raw: string, f: Definition)
    requires f.sundayTwice ==> f.min == 0
    ensures ReadField(raw, f).Ok? <==> exists parts :: Written(raw, parts, f)
  {
    if ReadField(raw, f).Ok? {
      var parts := ReadFieldWasWritten(raw, f);
    }
    forall parts | Written(raw, parts, f) ensures ReadField(raw, f).Ok? {
      WrittenFieldIsRead(raw, parts, f);
    }
  }

  // ---------------------------------------------------------------- a whole expression

  datatype Parsed = Parsed(expression: string, schedule: Schedule)

  ghost function ReadFields(raw: seq<string>, n: nat): Result<seq<Field>, CronError>
    requires n <= 5 && |raw| == 5
  {
    if n == 0 then Ok([])
    else
      var before :- ReadFields(raw, n - 1);
      var field :- ReadField(raw[n - 1], CRON_FIELDS[n - 1]);
      Ok(before + [field])
  }

  lemma {:induction false} ReadFieldsEach(raw: seq<string>, n: nat)
    requires n <= 5 && |raw| == 5 && ReadFields(raw, n).Ok?
    ensures |ReadFields(raw, n).value| == n
    ensures forall k | 0 <= k < n :: ReadField(raw[k], CRON_FIELDS[k]) == Ok(ReadFields(raw, n).value[k])
  {
    if n > 0 { ReadFieldsEach(raw, n - 1); }
  }

  lemma {:induction false} ReadFieldsFails(raw: seq<string>, n: nat)
    requires n <= 5 && |raw| == 5 && ReadFields(raw, n).Err?
    ensures ReadFields(raw, 5) == ReadFields(raw, n)
    decreases 5 - n
  {
    if n < 5 { ReadFieldsFails(raw, n + 1); }
  }

  function ScheduleOf(fields: seq<Field>): Schedule
    requires |fields| == 5
  {
    Schedule(fields[0].values, fields[1].values, fields[2].values, fields[3].values, fields[4].values,
             fields[2].wildcard, fields[4].wildcard)
  }

  /** The check that some listed day exists, made only where the day of the month alone decides. */
  predicate CalendarCanMatch(c: Schedule) {
    !c.anyDayOfWeek || c.anyDayOfMonth || CalendarPossible(c)
  }

  ghost function ReadExpression(source: string): Result<Parsed, CronError> {
    var raw := Words(source);
    if |raw| != 5 then Err(FiveFieldsRequired)
    else
      var fields :- ReadFields(raw, 5);
      ReadFieldsEach(raw, 5);
      var schedule := ScheduleOf(fields);
      if CalendarCanMatch(schedule) then Ok(Parsed(Join(raw, ' '), schedule)) else Err(CalendarImpossible)
  }

  method ParseCronExpression(source: string) returns (r: Result<Parsed, CronError>)
    ensures r == ReadExpression(source)
  {
    var raw := Words(source);
    if |raw| != 5 { return Err(FiveFieldsRequired); }
    var fields := [];
    var k := 0;
    while k < 5
      invariant 0 <= k <= 5 && ReadFields(raw, k) == Ok(fields) && |fields| == k
    {
      var field := ParseField(raw[k], CRON_FIELDS[k]);
      if field.Err? {
        ReadFieldsFails(raw, k + 1);
        return Err(field.error);
      }
      fields := fields + [field.value];
      k := k + 1;
    }
    var schedule := ScheduleOf(fields);
    if !CalendarCanMatch(schedule) { return Err(CalendarImpossible); }
    return Ok(Parsed(Join(raw, ' '), schedule));
  }

  lemma FieldIsSound(raw: string, f: Definition)
    requires (f.sundayTwice ==> f.min == 0) && ReadField(raw, f).Ok?
    ensures var values := ReadField(raw, f).value.values;
            values != [] && forall v :: v in values ==> f.min <= v <= f.max && (f.sundayTwice ==> v != 7)
  {
    var parts := ReadFieldWasWritten(raw, f);
    WrittenFieldIsRead(raw, parts, f);
  }

  /** Every accepted expression yields a schedule the search can satisfy. */
  lemma AcceptedIsAcceptable(source: string)
    requires ReadExpression(source).Ok?
    ensures Acceptable(ReadExpression(source).value.schedule)
  {
    var raw := Words(source);
    ReadFieldsEach(raw, 5);
    FieldIsSound(raw[0], CRON_FIELDS[0]);
    FieldIsSound(raw[1], CRON_FIELDS[1]);
    FieldIsSound(raw[2], CRON_FIELDS[2]);
    FieldIsSound(raw[3], CRON_FIELDS[3]);
    FieldIsSound(raw[4], CRON_FIELDS[4]);
  }

  /** The form in which an expression is stored reads as the same schedule, and stays as it is. */
  lemma StoredFormReadsTheSame(source: string)
    requires ReadExpression(source).Ok?
    ensures ReadExpression(ReadExpression(source).value.expression) == ReadExpression(source)
  {
    WordsAreWords(source);
    WordsJoin(Words(source));
  }

  /**
   * The next run of an expression given as text: a malformed expression is the
   * only way to have none.
   */
  method NextRunOf(source: string, from: Moment) returns (r: Result<Moment, CronError>)
    requires Valid(from)
    ensures r.Err? <==> ReadExpression(source).Err?
    ensures r.Err? ==> r.error == ReadExpression(source).error
    ensures r.Ok? ==> FirstMatch(ReadExpression(source).value.schedule, from, r.value)
    ensures r.Ok? ==> r.value.year <= from.year + SEARCH_YEARS
  {
    var parsed := ParseCronExpression(source);
    if parsed.Err? { return Err(parsed.error); }
    AcceptedIsAcceptable(source);
    var next := NextCronRun(parsed.value.schedule, from);
    return Ok(next.value);
  }
}
