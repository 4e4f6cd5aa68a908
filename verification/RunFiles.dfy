/**
 * Crash atomicity of the run store: reading, repairing and committing the
 * three files, with a process stop possible between any two file operations.
 */
module RunFiles {
  import opened Common
  import opened JsonDelta
  import opened RunJournal

  /** A file replaced by rename: absent, unparsable, or holding a whole value. */
  datatype File<+T> = Missing | Garbled | Holds(value: T)

  datatype Disk = Disk(journal: Option<string>, snapshot: File<Json>, head: File<Head>)

  datatype Write = Truncate(bytes: nat) | Append(text: string) | PutSnapshot(state: Json) | PutHead(head: Head)

  datatype CommitError = TooLarge | Corrupted

  const EMPTY := Disk(None, Missing, Missing)

  function Perform(d: Disk, w: Write): Disk {
    match w
    case Truncate(n) =>
      if d.journal.Some? && n <= |d.journal.value| then d.(journal := Some(d.journal.value[..n])) else d
    case Append(text) => d.(journal := Some((if d.journal.Some? then d.journal.value else "") + text))
    case PutSnapshot(s) => d.(snapshot := Holds(s))
    case PutHead(h) => d.(head := Holds(h))
  }

  function PerformAll(d: Disk, ws: seq<Write>): Disk
    decreases |ws|
  {
    if |ws| == 0 then d else PerformAll(Perform(d, ws[0]), ws[1..])
  }

  /** The disk left by a process that stops somewhere in a list of writes; an append may be cut anywhere. */
  ghost predicate StopsDuring(d: Disk, ws: seq<Write>, d': Disk)
    decreases |ws|
  {
    || d' == d
    || (|ws| > 0 && StopsDuring(Perform(d, ws[0]), ws[1..], d'))
    || (|ws| > 0 && ws[0].Append? && exists n :: 0 <= n <= |ws[0].text| && d' == Perform(d, Append(ws[0].text[..n])))
  }

  // ---------------------------------------------------------------- heads

  function MakeHead(env: Env, row: Row, s: Json, bytes: nat): Head {
    Head(SequenceOf(s), env.digest(s),
         if row.Event? then row.eventDigest else env.digestRow(row),
         if row.Event? then row.body.resultDigest else env.digest(s),
         bytes)
  }

  predicate ValidHead(env: Env, h: Head, s: Json) {
    h.sequence == SequenceOf(s) && h.stateDigest == env.digest(s) && h.resultDigest == env.digest(s)
  }

  // ---------------------------------------------------------------- reading

  datatype Reading = Reading(result: Result<Option<Json>, Corrupt>, repairs: seq<Write>)

  /** What a read returns, and the writes that a repairing read performs. */
  function Read(env: Env, d: Disk): Reading {
    var snapshot := if d.snapshot.Holds? && Valid(env, d.snapshot.value) then Some(d.snapshot.value) else None;
    if snapshot.Some? && d.head.Holds? && ValidHead(env, d.head.value, snapshot.value) then
      if d.journal.None? || |d.journal.value| < d.head.value.journalBytes then Reading(Err(StateCorrupt), [])
      else Reading(Ok(snapshot),
                   if |d.journal.value| > d.head.value.journalBytes then [Truncate(d.head.value.journalBytes)] else [])
    else if d.journal.None? then
      if snapshot.Some? && d.head.Missing? then
        Reading(if Journaled(snapshot.value) then Err(StateCorrupt) else Ok(snapshot), [])
      else if d.snapshot.Missing? then Reading(Ok(None), [])
      else Reading(Err(StateCorrupt), [])
    else
      match Recover(env, d.journal.value)
      case Err(x) => Reading(Err(x), [])
      case Ok(r) =>
        if snapshot.Some? && SequenceOf(snapshot.value) > SequenceOf(r.state) then Reading(Err(StateCorrupt), [])
        else Reading(Ok(Some(r.state)),
                     [Truncate(r.committedBytes), PutSnapshot(r.state),
                      PutHead(MakeHead(env, r.lastRow, r.state, r.committedBytes))])
  }

  // ---------------------------------------------------------------- committing

  function MakeRow(env: Env, prev: Option<Json>, next: Json, payload: Json, ops: seq<Operation>): Row {
    var content := if prev.None? then Checkpoint(next)
                   else Delta(SequenceOf(prev.value), env.digest(prev.value), ops);
    var body := Body(SequenceOf(next), payload, env.digest(payload), env.digest(next), content);
    Event(body, env.digestBody(body))
  }

  /** The size limits a commit applies to its own row. */
  predicate Fits(row: Row, bytes: nat) {
    row.Event? ==>
      match row.body.content
      case Checkpoint(_) => bytes <= MAX_CHECKPOINT_BYTES
      case Delta(_, _, operations) => bytes <= MAX_DELTA_BYTES && |operations| <= MAX_OPERATIONS
  }

  /** The checks a commit makes on its own row before it touches a file. */
  predicate RowAccepted(env: Env, row: Row) {
    RowOk(env, row, |env.encode(row)|)
  }

  function SizeBefore(d: Disk, prev: Option<Json>): nat {
    if prev.Some? && d.head.Holds? then d.head.value.journalBytes
    else if d.journal.Some? then |d.journal.value| else 0
  }

  function CommitWrites(env: Env, d: Disk, prev: Option<Json>, next: Json, row: Row): seq<Write> {
    var text := RowText(env, row);
    var bytes := SizeBefore(d, prev);
    (if d.journal.Some? && bytes < |d.journal.value| then [Truncate(bytes)] else []) +
    [Append(text), PutSnapshot(next), PutHead(MakeHead(env, row, next, bytes + |text|))]
  }

  /** The head and journal a commit over a previous state insists on. */
  predicate ReadyFor(env: Env, d: Disk, prev: Json) {
    && d.head.Holds? && ValidHead(env, d.head.value, prev)
    && d.journal.Some? && d.head.value.journalBytes <= |d.journal.value|
  }

  function SequenceAfter(prev: Option<Json>): nat {
    (if prev.Some? then SequenceOf(prev.value) else 0) + 1
  }

  /** Whether a commit goes through: its row must fit and be well formed, and over a previous state the files must be ready. */
  function Verdict(env: Env, d: Disk, prev: Option<Json>, next: Json, row: Row): Result<Json, CommitError> {
    if !Fits(row, |env.encode(row)|) then Err(TooLarge)
    else if !RowAccepted(env, row) then Err(Corrupted)
    else if prev.Some? && !ReadyFor(env, d, prev.value) then Err(Corrupted)
    else Ok(next)
  }

  /** The store over one run's files. */
  class RunStore {
    var journal: Option<string>
    var snapshot: File<Json>
    var head: File<Head>

    ghost function Files(): Disk
      reads this
    {
      Disk(journal, snapshot, head)
    }

    constructor ()
      ensures Files() == EMPTY
    {
      journal, snapshot, head := None, Missing, Missing;
    }

    method ReadRaw(env: Env, repair: bool) returns (r: Result<Option<Json>, Corrupt>)
      modifies this
      ensures r == Read(env, old(Files())).result
      ensures Files() == if repair then PerformAll(old(Files()), Read(env, old(Files())).repairs) else old(Files())
    {
      var valid: Option<Json> := None;
      if snapshot.Holds? && Valid(env, snapshot.value) { valid := Some(snapshot.value); }
      if valid.Some? && head.Holds? && ValidHead(env, head.value, valid.value) {
        if journal.None? || |journal.value| < head.value.journalBytes { return Err(StateCorrupt); }
        if repair && |journal.value| > head.value.journalBytes {
          journal := Some(journal.value[..head.value.journalBytes]);
        }
        return Ok(valid);
      }
      if journal.None? {
        if valid.Some? && head.Missing? {
          if Journaled(valid.value) { return Err(StateCorrupt); }
          return Ok(valid);
        }
        if snapshot.Missing? { return Ok(None); }
        return Err(StateCorrupt);
      }
      var recovered := RecoverJournalState(env, journal.value);
      if recovered.Err? { return Err(recovered.error); }
      var found := recovered.value;
      if valid.Some? && SequenceOf(valid.value) > SequenceOf(found.state) { return Err(StateCorrupt); }
      if repair {
        ghost var d := Files();
        if found.committedBytes <= |journal.value| {
          journal := Some(journal.value[..found.committedBytes]);
        }
        snapshot := Holds(found.state);
        head := Holds(MakeHead(env, found.lastRow, found.state, found.committedBytes));
        PerformThree(d, Truncate(found.committedBytes), PutSnapshot(found.state), PutHead(head.value));
      }
      return Ok(Some(found.state));
    }

    method Commit(env: Env, prev: Option<Json>, fields: map<string, Json>, payload: Json, at: string)
      returns (r: Result<Json, CommitError>, ghost ops: seq<Operation>)
      modifies this
      ensures var next := Stamp(fields, SequenceAfter(prev), at);
              var row := MakeRow(env, prev, next, payload, ops);
              && (prev.Some? ==> Diffs(prev.value, next, [], ops))
              && r == Verdict(env, old(Files()), prev, next, row)
              && Files() == if r.Ok? then PerformAll(old(Files()), CommitWrites(env, old(Files()), prev, next, row)) else old(Files())
    {
      var next := Stamp(fields, SequenceAfter(prev), at);
      var delta: seq<Operation> := [];
      ops := [];
      if prev.Some? {
        delta, ops := BuildDelta(prev.value, next, [], []);
        assert delta == ops;
      }
      var row := MakeRow(env, prev, next, payload, delta);
      var encoded := env.encode(row);
      if !Fits(row, |encoded|) { r := Err(TooLarge); return; }
      if !RowOk(env, row, |encoded|) { r := Err(Corrupted); return; }
      var bytes := if journal.Some? then |journal.value| else 0;
      ghost var d := Files();
      if prev.Some? {
        if !head.Holds? || !ValidHead(env, head.value, prev.value) { r := Err(Corrupted); return; }
        if journal.None? || |journal.value| < head.value.journalBytes { r := Err(Corrupted); return; }
        bytes := head.value.journalBytes;
        if bytes < |journal.value| { journal := Some(journal.value[..bytes]); }
      }
      journal := Some((if journal.Some? then journal.value else "") + RowText(env, row));
      snapshot := Holds(next);
      head := Holds(MakeHead(env, row, next, |journal.value|));
      CommitPerformed(env, d, prev, next, row);
      r := Ok(next);
    }
  }

  lemma PerformThree(d: Disk, a: Write, b: Write, c: Write)
    ensures PerformAll(d, [a, b, c]) == Perform(Perform(Perform(d, a), b), c)
  {
    assert [a, b, c][1..] == [b, c] && [b, c][1..] == [c] && [c][1..] == [];
    assert PerformAll(Perform(Perform(d, a), b), [c]) == Perform(Perform(Perform(d, a), b), c);
    assert PerformAll(Perform(d, a), [b, c]) == PerformAll(Perform(Perform(d, a), b), [c]);
  }

  /** The journal text a commit starts its append from. */
  ghost function Kept(d: Disk, prev: Option<Json>): string {
    if d.journal.None? then "" else if SizeBefore(d, prev) < |d.journal.value| then d.journal.value[..SizeBefore(d, prev)] else d.journal.value
  }

  /** A completed commit: the kept text plus the row, and the new snapshot and head. */
  lemma CommitPerformed(env: Env, d: Disk, prev: Option<Json>, next: Json, row: Row)
    ensures PerformAll(d, CommitWrites(env, d, prev, next, row))
         == Disk(Some(Kept(d, prev) + RowText(env, row)), Holds(next),
                 Holds(MakeHead(env, row, next, SizeBefore(d, prev) + |RowText(env, row)|)))
  {
    var bytes := SizeBefore(d, prev);
    var ws := CommitWrites(env, d, prev, next, row);
    var three := [Append(RowText(env, row)), PutSnapshot(next), PutHead(MakeHead(env, row, next, bytes + |RowText(env, row)|))];
    if d.journal.Some? && bytes < |d.journal.value| {
      assert ws == [Truncate(bytes)] + three && ws[0] == Truncate(bytes) && ws[1..] == three;
      PerformThree(Perform(d, ws[0]), three[0], three[1], three[2]);
    } else {
      assert ws == three;
      PerformThree(d, three[0], three[1], three[2]);
    }
  }

  // ---------------------------------------------------------------- intact disks

  /** Snapshot and head agree on `s`, and the journal up to the head's length replays to `s`. */
  ghost predicate Settled(env: Env, d: Disk, s: Json) {
    && d.snapshot == Holds(s) && Valid(env, s)
    && ReadyFor(env, d, s)
    && CleanLog(env, d.journal.value[..d.head.value.journalBytes], s)
  }

  /** Settled with no bytes left over behind the head's length: all three files agree. */
  ghost predicate Agreeing(env: Env, d: Disk, s: Json) {
    Settled(env, d, s) && |d.journal.value| == d.head.value.journalBytes
  }

  /** The journal is whole and replays to `s`, but snapshot or head still lag behind it. */
  ghost predicate Ahead(env: Env, d: Disk, s: Json) {
    && Valid(env, s)
    && d.journal.Some? && CleanLog(env, d.journal.value, s)
    && (d.snapshot == Holds(s) || (d.snapshot.Missing? && d.head.Missing?))
    && (d.head.Missing? || (d.head.Holds? && d.head.value.sequence != SequenceOf(s)))
  }

  ghost predicate Intact(env: Env, d: Disk, s: Json) {
    Settled(env, d, s) || Ahead(env, d, s)
  }

  lemma {:induction false} ScanEndsWithItsRow(env: Env, lines: seq<string>, p: bool, at: Scan)
    requires at.state.Some? && at.lastRow.Some? && at.lastRow.value.Event? ==>
               at.lastRow.value.body.resultDigest == env.digest(at.state.value)
    requires at.state.Some? <==> at.lastRow.Some?
    ensures ScanLines(env, lines, p, at).Ok? ==>
              var end := ScanLines(env, lines, p, at).value;
              && (end.state.Some? <==> end.lastRow.Some?)
              && (end.state.Some? && end.lastRow.value.Event? ==>
                    end.lastRow.value.body.resultDigest == env.digest(end.state.value))
    decreases |lines|
  {
    if |lines| > 0 {
      var line := lines[0];
      var span := |line| + if |lines| == 1 then 0 else 1;
      if Blank(line) {
        ScanEndsWithItsRow(env, lines[1..], p, at.(offset := at.offset + span));
      } else if env.decode(line).Some? {
        var row := env.decode(line).value;
        var next := Replay(env, row, |line|, at.state);
        if next.Ok? {
          ScanEndsWithItsRow(env, lines[1..], p, Scan(Some(next.value), Some(row), at.offset + span, at.offset + span));
        }
      }
    }
  }

  /** The head written by a repair is valid for the state it was recovered with. */
  lemma RepairedHeadIsValid(env: Env, text: string)
    requires Recover(env, text).Ok?
    ensures var r := Recover(env, text).value;
            ValidHead(env, MakeHead(env, r.lastRow, r.state, r.committedBytes), r.state)
  {
    ScanEndsWithItsRow(env, Lines(text), !EndsWithNewline(text), START);
  }

  /** Reading an intact disk returns its state; a completed repair makes the three files agree on it. */
  lemma ReadIntact(env: Env, d: Disk, s: Json)
    requires Intact(env, d, s)
    ensures Read(env, d).result == Ok(Some(s))
    ensures Agreeing(env, PerformAll(d, Read(env, d).repairs), s)
  {
    var ws := Read(env, d).repairs;
    if Settled(env, d, s) {
      var n := d.head.value.journalBytes;
      if n < |d.journal.value| {
        assert ws == [Truncate(n)] && ws[1..] == [];
        assert PerformAll(d, ws) == Perform(d, Truncate(n));
        assert d.journal.value[..n][..n] == d.journal.value[..n];
      } else {
        assert d.journal.value[..n] == d.journal.value;
      }
    } else {
      var r := Recover(env, d.journal.value).value;
      RepairedHeadIsValid(env, d.journal.value);
      var n := r.committedBytes;
      PerformThree(d, Truncate(n), PutSnapshot(s), PutHead(MakeHead(env, r.lastRow, s, n)));
      assert d.journal.value[..n] == d.journal.value;
    }
  }

  lemma StopsInThree(d: Disk, a: Write, b: Write, c: Write, d': Disk)
    requires !b.Append? && !c.Append?
    requires StopsDuring(d, [a, b, c], d')
    ensures || d' == d
            || (a.Append? && exists n :: 0 <= n <= |a.text| && d' == Perform(d, Append(a.text[..n])))
            || d' == Perform(d, a)
            || d' == Perform(Perform(d, a), b)
            || d' == Perform(Perform(Perform(d, a), b), c)
  {
    assert [a, b, c][1..] == [b, c] && [b, c][1..] == [c] && [c][1..] == [];
    var d1 := Perform(d, a);
    if StopsDuring(d1, [b, c], d') && d' != d1 {
      var d2 := Perform(d1, b);
      if StopsDuring(d2, [c], d') && d' != d2 {
        assert StopsDuring(Perform(d2, c), [], d');
      }
    }
  }

  /** A process stopping anywhere in a repair leaves the disk intact with the same state. */
  lemma RepairMayStop(env: Env, d: Disk, s: Json, d': Disk)
    requires Intact(env, d, s)
    requires StopsDuring(d, Read(env, d).repairs, d')
    ensures Intact(env, d', s)
  {
    var ws := Read(env, d).repairs;
    ReadIntact(env, d, s);
    if Settled(env, d, s) {
      var n := d.head.value.journalBytes;
      if n < |d.journal.value| {
        assert ws[1..] == [];
        assert d' == d || d' == Perform(d, Truncate(n));
        assert d.journal.value[..n][..n] == d.journal.value[..n];
      }
    } else {
      var r := Recover(env, d.journal.value).value;
      var n := r.committedBytes;
      var h := MakeHead(env, r.lastRow, s, n);
      StopsInThree(d, Truncate(n), PutSnapshot(s), PutHead(h), d');
      PerformThree(d, Truncate(n), PutSnapshot(s), PutHead(h));
      assert d.journal.value[..n] == d.journal.value;
    }
  }

  /** A delta row built from a diff replays from the old state to the new one exactly when that is allowed. */
  lemma RowReplays(env: Env, s: Json, next: Json, payload: Json, ops: seq<Operation>)
    requires Diffs(s, next, [], ops)
    requires SequenceOf(s) >= 1 && SequenceOf(next) == SequenceOf(s) + 1
    requires RowAccepted(env, MakeRow(env, Some(s), next, payload, ops))
    ensures Replay(env, MakeRow(env, Some(s), next, payload, ops),
                   |env.encode(MakeRow(env, Some(s), next, payload, ops))|, Some(s))
         == if Valid(env, next) && Replayable(s, next, []) then Ok(next) else Err(StateCorrupt)
  {
    RootDelta(s, next, ops);
  }

  /** The data of one commit over a settled disk. */
  ghost predicate Committing(env: Env, d: Disk, s: Json, next: Json, payload: Json, ops: seq<Operation>) {
    && Settled(env, d, s)
    && Diffs(s, next, [], ops)
    && SequenceOf(next) == SequenceOf(s) + 1
    && RowAccepted(env, MakeRow(env, Some(s), next, payload, ops))
  }

  /**
   * Crash atomicity of one commit.  A process stopping anywhere in it leaves a
   * disk that reads back as the previous or the next state.
   */
  lemma CommitMayStop(env: Env, d: Disk, s: Json, next: Json, payload: Json, ops: seq<Operation>, d': Disk)
    requires Lawful(env)
    requires Committing(env, d, s, next, payload, ops)
    requires Valid(env, next) && Replayable(s, next, [])
    requires StopsDuring(d, CommitWrites(env, d, Some(s), next, MakeRow(env, Some(s), next, payload, ops)), d')
    ensures Intact(env, d', s) || Intact(env, d', next)
  {
    var row := MakeRow(env, Some(s), next, payload, ops);
    var ws := CommitWrites(env, d, Some(s), next, row);
    var n, text := d.head.value.journalBytes, RowText(env, row);
    var h := MakeHead(env, row, next, n + |text|);
    var j := d.journal.value;
    if n < |j| {
      assert ws[0] == Truncate(n) && ws[1..] == [Append(text), PutSnapshot(next), PutHead(h)];
      if d' != d {
        var d1 := Perform(d, Truncate(n));
        assert j[..n][..n] == j[..n];
        assert Settled(env, d1, s);
        AppendMayStop(env, d1, s, next, payload, ops, d');
      }
    } else {
      assert ws == [Append(text), PutSnapshot(next), PutHead(h)];
      AppendMayStop(env, d, s, next, payload, ops, d');
    }
  }

  lemma AppendMayStop(env: Env, d: Disk, s: Json, next: Json, payload: Json, ops: seq<Operation>, d': Disk)
    requires Lawful(env)
    requires Committing(env, d, s, next, payload, ops) && |d.journal.value| == d.head.value.journalBytes
    requires Valid(env, next) && Replayable(s, next, [])
    requires var row := MakeRow(env, Some(s), next, payload, ops);
             StopsDuring(d, [Append(RowText(env, row)), PutSnapshot(next),
                             PutHead(MakeHead(env, row, next, d.head.value.journalBytes + |RowText(env, row)|))], d')
    ensures Intact(env, d', s) || Intact(env, d', next)
  {
    var row := MakeRow(env, Some(s), next, payload, ops);
    var n, text, j := d.head.value.journalBytes, RowText(env, row), d.journal.value;
    var h := MakeHead(env, row, next, n + |text|);
    StopsInThree(d, Append(text), PutSnapshot(next), PutHead(h), d');
    assert j[..n] == j;
    RowReplays(env, s, next, payload, ops);
    AppendKeepsClean(env, j, s, row, next);
    if m :| 0 <= m <= |text| && d' == Perform(d, Append(text[..m])) {
      assert (j + text[..m])[..n] == j;
      assert Settled(env, d', s);
    } else if d' == Perform(d, Append(text)) {
      assert (j + text)[..n] == j;
      assert Settled(env, d', s);
    } else if d' == Perform(Perform(d, Append(text)), PutSnapshot(next)) {
      assert Ahead(env, d', next);
    } else if d' != d {
      assert (j + text)[..n + |text|] == j + text;
      assert Settled(env, d', next);
    }
  }

  /** A commit that ran to its end leaves three files that agree on the next state. */
  lemma CommitCompletes(env: Env, d: Disk, s: Json, next: Json, payload: Json, ops: seq<Operation>)
    requires Lawful(env)
    requires Committing(env, d, s, next, payload, ops)
    requires Valid(env, next) && Replayable(s, next, [])
    ensures Agreeing(env, PerformAll(d, CommitWrites(env, d, Some(s), next, MakeRow(env, Some(s), next, payload, ops))), next)
  {
    var row := MakeRow(env, Some(s), next, payload, ops);
    CommitPerformed(env, d, Some(s), next, row);
    var n, text, j := d.head.value.journalBytes, RowText(env, row), d.journal.value;
    assert Kept(d, Some(s)) == j[..n];
    RowReplays(env, s, next, payload, ops);
    AppendKeepsClean(env, j[..n], s, row, next);
    assert (j[..n] + text)[..n + |text|] == j[..n] + text;
  }

  // ---------------------------------------------------------------- whole lives

  datatype Episode =
    | Repair
    | Mutate(next: Json, payload: Json, ops: seq<Operation>, finished: bool)

  /**
   * One episode in the life of a run: a repairing read that may stop anywhere,
   * or a mutation (a completed repairing read, then a commit) that may stop
   * anywhere in the commit.
   */
  ghost predicate Lives(env: Env, d: Disk, e: Episode, d': Disk) {
    match e
    case Repair => StopsDuring(d, Read(env, d).repairs, d')
    case Mutate(next, payload, ops, finished) =>
      && Read(env, d).result.Ok? && Read(env, d).result.value.Some?
      && var s := Read(env, d).result.value.value;
         var d1 := PerformAll(d, Read(env, d).repairs);
         var row := MakeRow(env, Some(s), next, payload, ops);
         var ws := CommitWrites(env, d1, Some(s), next, row);
         && Diffs(s, next, [], ops) && SequenceOf(next) == SequenceOf(s) + 1
         && RowAccepted(env, row)
         && Valid(env, next) && Replayable(s, next, [])
         && (if finished then d' == PerformAll(d1, ws) else StopsDuring(d1, ws, d'))
  }

  ghost predicate Life(env: Env, disks: seq<Disk>, es: seq<Episode>) {
    |disks| == |es| + 1 && forall i :: 0 <= i < |es| ==> Lives(env, disks[i], es[i], disks[i + 1])
  }

  lemma LivesIntact(env: Env, d: Disk, e: Episode, d': Disk, s: Json) returns (s': Json)
    requires Lawful(env)
    requires Intact(env, d, s) && Lives(env, d, e, d')
    ensures Intact(env, d', s')
    ensures s' == s || (e.Mutate? && s' == e.next)
    ensures e.Mutate? && e.finished ==> s' == e.next && Agreeing(env, d', s')
  {
    ReadIntact(env, d, s);
    match e {
      case Repair =>
        RepairMayStop(env, d, s, d');
        s' := s;
      case Mutate(next, payload, ops, finished) =>
        var d1 := PerformAll(d, Read(env, d).repairs);
        if finished {
          CommitCompletes(env, d1, s, next, payload, ops);
          s' := next;
        } else {
          CommitMayStop(env, d1, s, next, payload, ops, d');
          s' := if Intact(env, d', s) then s else next;
        }
    }
  }

  /**
   * Crash atomicity over a whole life: however many repairs and commits are cut
   * short, every disk reads back without a corruption error, and each episode
   * either leaves the state as it was or moves it to the state being committed;
   * a finished commit always moves it.
   */
  lemma {:induction false} CrashAtomicity(env: Env, disks: seq<Disk>, es: seq<Episode>, s0: Json)
    requires Lawful(env)
    requires Life(env, disks, es)
    requires Intact(env, disks[0], s0)
    ensures forall i :: 0 <= i < |disks| ==> Read(env, disks[i]).result.Ok? && Read(env, disks[i]).result.value.Some?
    ensures Read(env, disks[0]).result == Ok(Some(s0))
    ensures forall i :: 0 <= i < |es| ==>
              var before, after := Read(env, disks[i]).result, Read(env, disks[i + 1]).result;
              && (after == before || (es[i].Mutate? && after == Ok(Some(es[i].next))))
              && (es[i].Mutate? && es[i].finished ==> after == Ok(Some(es[i].next)))
    decreases |es|
  {
    ReadIntact(env, disks[0], s0);
    if |es| > 0 {
      assert Lives(env, disks[0], es[0], disks[1]);
      var s1 := LivesIntact(env, disks[0], es[0], disks[1], s0);
      ReadIntact(env, disks[1], s1);
      var rest, later := disks[1..], es[1..];
      forall i | 0 <= i < |later| ensures Lives(env, rest[i], later[i], rest[i + 1]) {
        assert Lives(env, disks[i + 1], es[i + 1], disks[i + 2]);
      }
      CrashAtomicity(env, rest, later, s1);
      forall i | 0 <= i < |es|
        ensures var before, after := Read(env, disks[i]).result, Read(env, disks[i + 1]).result;
                && (after == before || (es[i].Mutate? && after == Ok(Some(es[i].next))))
                && (es[i].Mutate? && es[i].finished ==> after == Ok(Some(es[i].next)))
      {
        if i > 0 { assert later[i - 1] == es[i] && rest[i - 1] == disks[i] && rest[i] == disks[i + 1]; }
      }
      forall i | 0 <= i < |disks| ensures Read(env, disks[i]).result.Ok? && Read(env, disks[i]).result.value.Some? {
        if i > 0 { assert rest[i - 1] == disks[i]; }
      }
    }
  }

  // ---------------------------------------------------------------- exactly when

  /** A row that does not replay makes the whole journal unreadable. */
  lemma AppendCorrupts(env: Env, text: string, s: Json, row: Row)
    requires Lawful(env)
    requires CleanLog(env, text, s)
    requires Replay(env, row, |env.encode(row)|, Some(s)).Err?
    ensures Recover(env, text + RowText(env, row)).Err?
  {
    var e := env.encode(row);
    var a, b := Lines(text), [e, ""];
    LinesOfAppend(text, e);
    var committed := ScanConcat(env, a, b, !EndsWithNewline(text), false, START);
    var end := ScanLines(env, a, !EndsWithNewline(text), START).value;
    assert ScanLines(env, b, false, Scan(end.state, end.lastRow, 0 + Total(a) + 1, committed)).Err?;
  }

  /** The disk of a commit that stopped between its snapshot and its head. */
  ghost function BeforeHead(env: Env, d: Disk, prev: Json, next: Json, row: Row): Disk {
    Disk(Some(Kept(d, Some(prev)) + RowText(env, row)), Holds(next), d.head)
  }

  lemma MayStopBeforeHead(env: Env, d: Disk, prev: Json, next: Json, row: Row)
    ensures StopsDuring(d, CommitWrites(env, d, Some(prev), next, row), BeforeHead(env, d, prev, next, row))
  {
    var d' := BeforeHead(env, d, prev, next, row);
    var bytes := SizeBefore(d, Some(prev));
    var ws := CommitWrites(env, d, Some(prev), next, row);
    var h := MakeHead(env, row, next, bytes + |RowText(env, row)|);
    var a, b, c := Append(RowText(env, row)), PutSnapshot(next), PutHead(h);
    assert [a, b, c][1..] == [b, c] && [b, c][1..] == [c];
    var d1 := d;
    if d.journal.Some? && bytes < |d.journal.value| {
      d1 := Perform(d, Truncate(bytes));
      assert ws[1..] == [a, b, c];
    } else {
      assert ws == [a, b, c];
    }
    assert Perform(Perform(d1, a), b) == d';
    assert StopsDuring(Perform(Perform(d1, a), b), [c], d');
    assert StopsDuring(Perform(d1, a), [b, c], d');
    assert StopsDuring(d1, [a, b, c], d');
  }

  /**
   * A commit does not check the state it writes.  All its stopping points read
   * back without corruption exactly when the new state passes the snapshot
   * check and every difference from the old one has a legal path.
   */
  lemma CommitIsCrashSafeExactlyWhen(env: Env, d: Disk, s: Json, next: Json, payload: Json, ops: seq<Operation>)
    requires Lawful(env)
    requires Committing(env, d, s, next, payload, ops)
    ensures (forall d' | StopsDuring(d, CommitWrites(env, d, Some(s), next, MakeRow(env, Some(s), next, payload, ops)), d')
              :: Read(env, d').result.Ok?)
       <==> Valid(env, next) && Replayable(s, next, [])
  {
    var row := MakeRow(env, Some(s), next, payload, ops);
    var ws := CommitWrites(env, d, Some(s), next, row);
    if Valid(env, next) && Replayable(s, next, []) {
      forall d' | StopsDuring(d, ws, d') ensures Read(env, d').result.Ok? {
        CommitMayStop(env, d, s, next, payload, ops, d');
        if Intact(env, d', s) { ReadIntact(env, d', s); } else { ReadIntact(env, d', next); }
      }
    } else {
      MayStopBeforeHead(env, d, s, next, row);
      RowReplays(env, s, next, payload, ops);
      assert Kept(d, Some(s)) == d.journal.value[..d.head.value.journalBytes];
      AppendCorrupts(env, Kept(d, Some(s)), s, row);
      assert Read(env, BeforeHead(env, d, s, next, row)).result.Err?;
    }
  }

  /** A row text cut before its last character leaves a journal without any state. */
  lemma CutRowRecoversNothing(env: Env, row: Row, n: nat)
    requires Lawful(env) && PrefixFree(env)
    requires n < 1 + |env.encode(row)|
    ensures Recover(env, RowText(env, row)[..n]) == Err(StateCorrupt)
  {
    var e, text := env.encode(row), RowText(env, row);
    if n == 0 {
      assert Lines(text[..0]) == [""] && [""][1..] == [];
    } else {
      var cut := e[..n - 1];
      assert text[..n] == "" + ("\n" + cut);
      LinesOfAppend("", cut);
      assert Lines("") == [""];
      assert Lines(text[..n]) == [""] + [cut] && ([""] + [cut])[1..] == [cut] && [cut][1..] == [];
      assert cut != "" ==> text[..n][n - 1] == e[n - 2] && e[n - 2] in e;
      assert env.decode(cut) == None;
      var p, at := !EndsWithNewline(text[..n]), Scan(None, None, 1, 0);
      assert ScanLines(env, [""] + [cut], p, START) == ScanLines(env, [cut], p, at);
      if Blank(cut) {
        assert ScanLines(env, [cut], p, at) == ScanLines(env, [], p, at.(offset := at.offset + |cut|));
      } else {
        assert cut != "";
        assert p;
      }
    }
  }

  /** A whole row text, with or without its closing newline, is a clean log of one checkpoint. */
  lemma WholeRowIsClean(env: Env, row: Row, s: Json, n: nat)
    requires Lawful(env)
    requires Replay(env, row, |env.encode(row)|, None) == Ok(s)
    requires 1 + |env.encode(row)| <= n <= |RowText(env, row)|
    ensures CleanLog(env, RowText(env, row)[..n], s)
  {
    var e, text := env.encode(row), RowText(env, row);
    LinesOfAppend("", e);
    assert Lines("") == [""];
    var at := Scan(None, None, 1, 0);
    assert AllDecode(env, [e]) && AllDecode(env, [e, ""]);
    if n == 1 + |e| {
      assert text[..n] == "" + ("\n" + e);
      ScanLastRow(env, row, s, at, !EndsWithNewline(text[..n]));
      FirstLinesScan(env, text[..n], row, s, [e]);
    } else {
      assert text[..n] == "" + ("\n" + e + "\n");
      ScanLastRow(env, row, s, at, !EndsWithNewline(text[..n]));
      FirstLinesScan(env, text[..n], row, s, [e, ""]);
    }
  }

  lemma FirstLinesScan(env: Env, text: string, row: Row, s: Json, tail: seq<string>)
    requires Lines(text) == [""] + tail && |tail| >= 1 && AllDecode(env, tail)
    requires ScanLines(env, tail, !EndsWithNewline(text), Scan(None, None, 1, 0))
          == Ok(Scan(Some(s), Some(row), |text|, |text|))
    ensures CleanLog(env, text, s)
  {
    var p := !EndsWithNewline(text);
    assert ([""] + tail)[1..] == tail;
    assert ScanLines(env, [""] + tail, p, START) == ScanLines(env, tail, p, Scan(None, None, 1, 0));
    AllDecodeConcat(env, [""], tail);
  }

  /**
   * The very first append is not protected by an older snapshot: the run reads
   * back exactly when the whole row text reached the disk (the closing newline
   * is not needed), and is reported corrupt for every shorter prefix.
   */
  lemma FirstAppendMayTear(env: Env, s: Json, payload: Json, n: nat)
    requires Lawful(env) && PrefixFree(env)
    requires SequenceOf(s) == 1 && RowAccepted(env, MakeRow(env, None, s, payload, []))
    requires n <= |RowText(env, MakeRow(env, None, s, payload, []))|
    ensures var row := MakeRow(env, None, s, payload, []);
            var torn := Perform(EMPTY, Append(RowText(env, row)[..n]));
            && (n >= 1 + |env.encode(row)| ==> Intact(env, torn, s) && Read(env, torn).result == Ok(Some(s)))
            && (n < 1 + |env.encode(row)| ==> Read(env, torn).result == Err(StateCorrupt))
  {
    var row := MakeRow(env, None, s, payload, []);
    var text := RowText(env, row);
    var torn := Perform(EMPTY, Append(text[..n]));
    assert torn.journal.value == text[..n];
    if n >= 1 + |env.encode(row)| {
      WholeRowIsClean(env, row, s, n);
      assert Ahead(env, torn, s);
      ReadIntact(env, torn, s);
    } else {
      CutRowRecoversNothing(env, row, n);
    }
  }

  /** A first commit that ran to its end leaves three files that agree on its state: every later life starts from there. */
  lemma FirstCommitCompletes(env: Env, s: Json, payload: Json)
    requires Lawful(env)
    requires SequenceOf(s) == 1 && Verdict(env, EMPTY, None, s, MakeRow(env, None, s, payload, [])).Ok?
    ensures var d := PerformAll(EMPTY, CommitWrites(env, EMPTY, None, s, MakeRow(env, None, s, payload, [])));
            Agreeing(env, d, s) && Intact(env, d, s) && Read(env, d) == Reading(Ok(Some(s)), [])
  {
    var row := MakeRow(env, None, s, payload, []);
    var text := RowText(env, row);
    CommitPerformed(env, EMPTY, None, s, row);
    WholeRowIsClean(env, row, s, |text|);
    assert "" + text == text && text[..|text|] == text;
  }

  /** Replaying the journal up to any commit gives the state of that commit. */
  lemma {:induction false} JournalPrefixReplays(env: Env, text: string, states: seq<Json>, rows: seq<Row>, k: nat)
    requires Lawful(env)
    requires |states| == |rows| + 1 && k <= |rows|
    requires CleanLog(env, text, states[0])
    requires forall i :: 0 <= i < |rows| ==>
               Replay(env, rows[i], |env.encode(rows[i])|, Some(states[i])) == Ok(states[i + 1])
    ensures CleanLog(env, text + Texts(env, rows[..k]), states[k])
    decreases k
  {
    if k == 0 {
      assert text + Texts(env, rows[..0]) == text;
    } else {
      JournalPrefixReplays(env, text, states, rows, k - 1);
      AppendKeepsClean(env, text + Texts(env, rows[..k - 1]), states[k - 1], rows[k - 1], states[k]);
      TextsStep(env, text, rows, k);
    }
  }

  lemma TextsStep(env: Env, text: string, rows: seq<Row>, k: nat)
    requires 1 <= k <= |rows|
    ensures text + Texts(env, rows[..k]) == text + Texts(env, rows[..k - 1]) + RowText(env, rows[k - 1])
  {
    assert rows[..k][..k - 1] == rows[..k - 1];
  }

  ghost function Texts(env: Env, rows: seq<Row>): string {
    if |rows| == 0 then "" else Texts(env, rows[..|rows| - 1]) + RowText(env, rows[|rows| - 1])
  }
}
