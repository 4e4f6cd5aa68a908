/**
 * The three files of a durable pipeline run (append-only journal, snapshot,
 * head), the commit that writes them and the recovery that reads them.
 *
 * A process may stop after any single file operation, and an append may be cut
 * at any byte; a rename is atomic.  The snapshot check, the digest and the text
 * form of a journal row are parameters, so everything holds for all of them.
 */
module RunJournal {
  import opened Common
  import opened JsonDelta

  type Digest = string

  datatype Content =
    | Checkpoint(state: Json)
    | Delta(baseSequence: nat, previousDigest: Digest, operations: seq<Operation>)

  datatype Body = Body(sequence: nat, payload: Json, payloadDigest: Digest, resultDigest: Digest, content: Content)

  datatype Row =
    | Event(body: Body, eventDigest: Digest)
    | Legacy(sequence: nat, state: Json)

  datatype Head = Head(sequence: nat, stateDigest: Digest, eventDigest: Digest, resultDigest: Digest, journalBytes: nat)

  /** The code the store calls into: snapshot check, SHA-256 digests, JSON text of a row. */
  datatype Env = Env(
    snapshotOk: Json -> bool,
    digest: Json -> Digest,
    digestBody: Body -> Digest,
    digestRow: Row -> Digest,
    encode: Row -> string,
    decode: string -> Option<Row>)

  const JOURNAL_VERSION: Number := Whole(2)
  const MAX_OPERATIONS := 10_000
  const MAX_DELTA_BYTES := 2 * 1024 * 1024
  const MAX_CHECKPOINT_BYTES := 8 * 1024 * 1024

  // ---------------------------------------------------------------- state fields

  function SequenceOf(s: Json): nat {
    if s.Obj? && "sequence" in s.fields && s.fields["sequence"].Num?
       && s.fields["sequence"].n.Whole? && s.fields["sequence"].n.i >= 1
    then s.fields["sequence"].n.i
    else 0
  }

  predicate Journaled(s: Json) {
    s.Obj? && "journalVersion" in s.fields && s.fields["journalVersion"] == Num(JOURNAL_VERSION)
  }

  /** A snapshot is accepted when the caller's check passes and it carries a positive sequence. */
  predicate Valid(env: Env, s: Json) {
    env.snapshotOk(s) && SequenceOf(s) >= 1
  }

  /** The stamp every commit puts on the state it writes. */
  function Stamp(fields: map<string, Json>, sequence: nat, at: string): (s: Json)
    requires sequence >= 1
    ensures SequenceOf(s) == sequence && Journaled(s)
  {
    Obj(fields["journalVersion" := Num(JOURNAL_VERSION)]["sequence" := Num(Whole(sequence))]["updatedAt" := Str(at)])
  }

  // ---------------------------------------------------------------- rows

  predicate RowOk(env: Env, row: Row, bytes: nat) {
    match row
    case Legacy(sequence, state) =>
      sequence >= 1 && bytes <= MAX_CHECKPOINT_BYTES && Valid(env, state) && SequenceOf(state) == sequence
    case Event(body, eventDigest) =>
      && body.sequence >= 1
      && body.payloadDigest == env.digest(body.payload)
      && eventDigest == env.digestBody(body)
      && match body.content
         case Checkpoint(state) =>
           && bytes <= MAX_CHECKPOINT_BYTES
           && Valid(env, state)
           && SequenceOf(state) == body.sequence
           && env.digest(state) == body.resultDigest
         case Delta(baseSequence, _, operations) =>
           && bytes <= MAX_DELTA_BYTES
           && baseSequence >= 1
           && body.sequence == baseSequence + 1
           && |operations| <= MAX_OPERATIONS
  }

  /** One row of the replay: the state after it, or corruption. */
  function Replay(env: Env, row: Row, bytes: nat, state: Option<Json>): Result<Json, Corrupt> {
    if !RowOk(env, row, bytes) then Err(StateCorrupt)
    else
      var whole := if row.Legacy? then Some(row.state)
                   else if row.body.content.Checkpoint? then Some(row.body.content.state)
                   else None;
      match whole
      case Some(checkpoint) =>
        var expected := if state.Some? then SequenceOf(state.value) + 1 else 1;
        if SequenceOf(checkpoint) != expected then Err(StateCorrupt) else Ok(checkpoint)
      case None =>
        var body := row.body;
        if state.None? || body.content.baseSequence != SequenceOf(state.value)
           || body.content.previousDigest != env.digest(state.value)
        then Err(StateCorrupt)
        else
          match Apply(state.value, body.content.operations)
          case Err(x) => Err(x)
          case Ok(next) =>
            if !Valid(env, next) || SequenceOf(next) != body.sequence || env.digest(next) != body.resultDigest
            then Err(StateCorrupt)
            else Ok(next)
  }

  // ---------------------------------------------------------------- lines

  predicate Blank(line: string) {
    forall i :: 0 <= i < |line| ==> line[i] in " \t\r\n"
  }

  function Lines(text: string): (lines: seq<string>)
    ensures |lines| >= 1
    decreases |text|
  {
    if text == "" then [""]
    else if text[0] == '\n' then [""] + Lines(text[1..])
    else
      var rest := Lines(text[1..]);
      [[text[0]] + rest[0]] + rest[1..]
  }

  lemma {:induction false} LinesOfLine(line: string)
    requires '\n' !in line
    ensures Lines(line) == [line]
    decreases |line|
  {
    if line != "" {
      assert line[0] in line;
      assert forall c :: c in line[1..] ==> c in line;
      LinesOfLine(line[1..]);
      assert [line[0]] + line[1..] == line;
    }
  }

  lemma {:induction false} LinesConcat(a: string, b: string)
    ensures Lines(a + "\n" + b) == Lines(a) + Lines(b)
    decreases |a|
  {
    if a == "" {
      assert a + "\n" + b == "\n" + b;
      assert ("\n" + b)[1..] == b;
    } else {
      assert a + "\n" + b == [a[0]] + (a[1..] + "\n" + b);
      assert (a + "\n" + b)[1..] == a[1..] + "\n" + b;
      LinesConcat(a[1..], b);
      if a[0] == '\n' {
        assert [""] + (Lines(a[1..]) + Lines(b)) == ([""] + Lines(a[1..])) + Lines(b);
      } else {
        var r := Lines(a[1..]);
        assert (r + Lines(b))[0] == r[0] && (r + Lines(b))[1..] == r[1..] + Lines(b);
      }
    }
  }

  // ---------------------------------------------------------------- recovery

  datatype Scan = Scan(state: Option<Json>, lastRow: Option<Row>, offset: nat, committed: nat)

  datatype Recovered = Recovered(state: Json, lastRow: Row, committedBytes: nat)

  const START := Scan(None, None, 0, 0)

  function ScanLines(env: Env, lines: seq<string>, partialAllowed: bool, at: Scan): Result<Scan, Corrupt>
    decreases |lines|
  {
    if |lines| == 0 then Ok(at)
    else
      var line := lines[0];
      var span := |line| + if |lines| == 1 then 0 else 1;
      if Blank(line) then
        ScanLines(env, lines[1..], partialAllowed, at.(offset := at.offset + span))
      else
        match env.decode(line)
        case None => if partialAllowed && |lines| == 1 then Ok(at) else Err(StateCorrupt)
        case Some(row) =>
          match Replay(env, row, |line|, at.state)
          case Err(x) => Err(x)
          case Ok(state) =>
            ScanLines(env, lines[1..], partialAllowed,
                      Scan(Some(state), Some(row), at.offset + span, at.offset + span))
  }

  predicate EndsWithNewline(text: string) {
    |text| > 0 && text[|text| - 1] == '\n'
  }

  /** Total by construction: a scan that ends with a state also ends with its last row. */
  function Recover(env: Env, text: string): Result<Recovered, Corrupt> {
    match ScanLines(env, Lines(text), !EndsWithNewline(text), START)
    case Err(x) => Err(x)
    case Ok(end) =>
      if end.state.None? || end.lastRow.None? then Err(StateCorrupt)
      else Ok(Recovered(end.state.value, end.lastRow.value, end.committed))
  }

  /** The line loop of recoverJournalState. */
  method RecoverJournalState(env: Env, raw: string) returns (r: Result<Recovered, Corrupt>)
    ensures r == Recover(env, raw)
  {
    var state: Option<Json> := None;
    var lastRow: Option<Row> := None;
    var byteOffset: nat, committedBytes: nat := 0, 0;
    var lines := Lines(raw);
    var trailingPartialAllowed := !EndsWithNewline(raw);
    var index := 0;
    while index < |lines|
      invariant 0 <= index <= |lines|
      invariant ScanLines(env, lines, trailingPartialAllowed, START)
             == ScanLines(env, lines[index..], trailingPartialAllowed, Scan(state, lastRow, byteOffset, committedBytes))
    {
      var line := lines[index];
      assert lines[index..][0] == line && lines[index..][1..] == lines[index + 1..];
      var spanBytes := |line| + if index < |lines| - 1 then 1 else 0;
      if Blank(line) {
        byteOffset := byteOffset + spanBytes;
        index := index + 1;
        continue;
      }
      var parsed := env.decode(line);
      if parsed.None? {
        if trailingPartialAllowed && index == |lines| - 1 { break; }
        return Err(StateCorrupt);
      }
      var replayed := Replay(env, parsed.value, |line|, state);
      if replayed.Err? { return Err(replayed.error); }
      state, lastRow := Some(replayed.value), parsed;
      committedBytes := byteOffset + spanBytes;
      byteOffset := byteOffset + spanBytes;
      index := index + 1;
    }
    if state.None? || lastRow.None? { return Err(StateCorrupt); }
    return Ok(Recovered(state.value, lastRow.value, committedBytes));
  }

  // ---------------------------------------------------------------- clean logs

  /** The text form of rows: one non-blank line each, and reading gives the row back. */
  ghost predicate Lawful(env: Env) {
    forall row: Row ::
      && !Blank(env.encode(row)) && '\n' !in env.encode(row)
      && env.decode(env.encode(row)) == Some(row)
  }

  /** No cut text of a row reads as a row (true of the JSON text of an object). */
  ghost predicate PrefixFree(env: Env) {
    forall row: Row, n: nat | n < |env.encode(row)| :: env.decode(env.encode(row)[..n]) == None
  }

  ghost predicate AllDecode(env: Env, lines: seq<string>) {
    forall i :: 0 <= i < |lines| ==> Blank(lines[i]) || env.decode(lines[i]).Some?
  }

  /** A journal text that holds whole rows only and replays to `s`. */
  ghost predicate CleanLog(env: Env, text: string, s: Json) {
    && AllDecode(env, Lines(text))
    && Recover(env, text).Ok?
    && Recover(env, text).value.state == s
    && Recover(env, text).value.committedBytes == |text|
  }

  function Total(lines: seq<string>): nat {
    if |lines| == 0 then 0 else |lines[0]| + (if |lines| == 1 then 0 else 1) + Total(lines[1..])
  }

  lemma {:induction false} TotalOfLines(text: string)
    ensures Total(Lines(text)) == |text|
    decreases |text|
  {
    if text == "" {
      assert Lines(text)[1..] == [];
    } else {
      TotalOfLines(text[1..]);
      var rest := Lines(text[1..]);
      if text[0] == '\n' {
        assert Lines(text)[1..] == rest;
      } else {
        assert Lines(text)[1..] == rest[1..];
      }
    }
  }

  /** Lines that all decode are replayed alike whether or not more lines follow; only the offset counts one more newline. */
  lemma {:induction false} ScanConcat(env: Env, a: seq<string>, b: seq<string>, p: bool, q: bool, at: Scan)
    returns (committed: nat)
    requires |a| >= 1 && |b| >= 1 && AllDecode(env, a)
    requires ScanLines(env, a, p, at).Ok?
    ensures ScanLines(env, a, p, at).value.offset == at.offset + Total(a)
    ensures ScanLines(env, a + b, q, at)
         == ScanLines(env, b, q, Scan(ScanLines(env, a, p, at).value.state, ScanLines(env, a, p, at).value.lastRow,
                                      at.offset + Total(a) + 1, committed))
    decreases |a|
  {
    var line := a[0];
    assert (a + b)[0] == line && (a + b)[1..] == a[1..] + b;
    var span := |line| + if |a| == 1 then 0 else 1;
    var next, longer;
    if Blank(line) {
      next := at.(offset := at.offset + span);
      longer := at.(offset := at.offset + |line| + 1);
    } else {
      var row := env.decode(line).value;
      var state := Replay(env, row, |line|, at.state).value;
      next := Scan(Some(state), Some(row), at.offset + span, at.offset + span);
      longer := Scan(Some(state), Some(row), at.offset + |line| + 1, at.offset + |line| + 1);
    }
    assert ScanLines(env, a, p, at) == ScanLines(env, a[1..], p, next);
    assert ScanLines(env, a + b, q, at) == ScanLines(env, a[1..] + b, q, longer);
    if |a| == 1 {
      assert a[1..] == [] && a[1..] + b == b;
      committed := longer.committed;
    } else {
      assert next == longer;
      assert AllDecode(env, a[1..]) by {
        forall i | 0 <= i < |a[1..]| ensures Blank(a[1..][i]) || env.decode(a[1..][i]).Some? {
          assert a[1..][i] == a[i + 1];
        }
      }
      committed := ScanConcat(env, a[1..], b, p, q, next);
    }
  }

  function RowText(env: Env, row: Row): string {
    "\n" + env.encode(row) + "\n"
  }

  lemma LinesOfAppend(text: string, e: string)
    requires '\n' !in e
    ensures Lines(text + ("\n" + e + "\n")) == Lines(text) + [e, ""]
    ensures Lines(text + ("\n" + e)) == Lines(text) + [e]
  {
    assert text + ("\n" + e + "\n") == text + "\n" + (e + "\n" + "");
    LinesConcat(text, e + "\n" + "");
    LinesConcat(e, "");
    LinesOfLine(e);
    LinesOfLine("");
    assert [e] + [""] == [e, ""];
    assert text + ("\n" + e) == text + "\n" + e;
    LinesConcat(text, e);
  }

  lemma AllDecodeConcat(env: Env, a: seq<string>, b: seq<string>)
    requires AllDecode(env, a) && AllDecode(env, b)
    ensures AllDecode(env, a + b)
  {
    forall i | 0 <= i < |a + b| ensures Blank((a + b)[i]) || env.decode((a + b)[i]).Some? {
      if i < |a| { assert (a + b)[i] == a[i]; } else { assert (a + b)[i] == b[i - |a|]; }
    }
  }

  /** Appending the text of a row that replays from `s` to `t` keeps the log clean. */
  lemma AppendKeepsClean(env: Env, text: string, s: Json, row: Row, t: Json)
    requires Lawful(env)
    requires CleanLog(env, text, s)
    requires Replay(env, row, |env.encode(row)|, Some(s)) == Ok(t)
    ensures CleanLog(env, text + RowText(env, row), t)
    ensures Recover(env, text + RowText(env, row)).value.lastRow == row
  {
    var e := env.encode(row);
    var a, b := Lines(text), [e, ""];
    LinesOfAppend(text, e);
    TotalOfLines(text);
    var committed := ScanConcat(env, a, b, !EndsWithNewline(text), false, START);
    var end := ScanLines(env, a, !EndsWithNewline(text), START).value;
    ScanLastRow(env, row, t, Scan(end.state, end.lastRow, |text| + 1, committed), false);
    AllDecodeConcat(env, a, b);
  }

  /** The closing lines of an append: the row, then the empty line after its newline. */
  lemma ScanLastRow(env: Env, row: Row, t: Json, at: Scan, p: bool)
    requires Lawful(env)
    requires Replay(env, row, |env.encode(row)|, at.state) == Ok(t)
    ensures var n := at.offset + |env.encode(row)|;
            && ScanLines(env, [env.encode(row), ""], p, at) == Ok(Scan(Some(t), Some(row), n + 1, n + 1))
            && ScanLines(env, [env.encode(row)], p, at) == Ok(Scan(Some(t), Some(row), n, n))
  {
    var e := env.encode(row);
    assert [e, ""][1..] == [""] && [""][1..] == [] && [e][1..] == [];
    var n := at.offset + |e|;
    assert ScanLines(env, [""], p, Scan(Some(t), Some(row), n + 1, n + 1)) == Ok(Scan(Some(t), Some(row), n + 1, n + 1));
  }
}
