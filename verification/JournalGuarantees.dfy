/**
 * What a recovered journal vouches for: every row fits the state before it by
 * sequence and digest, no row is missing, and exactly which commits are taken.
 */
module JournalGuarantees {
  import opened Common
  import opened JsonDelta
  import opened RunJournal
  import opened RunFiles

  /** The state the row leads to from the state before: the whole one it carries, or the patched one. */
  ghost predicate LeadsTo(before: Option<Json>, row: Row, s: Json) {
    match row
    case Legacy(_, state) => s == state
    case Event(body, _) =>
      match body.content
      case Checkpoint(state) => s == state
      case Delta(_, _, operations) => before.Some? && Apply(before.value, operations) == Ok(s)
  }

  /** The row and its state are what their digests and numbers say, and follow on the state before. */
  ghost predicate Genuine(env: Env, before: Option<Json>, row: Row, bytes: nat, s: Json) {
    && env.snapshotOk(s) && SequenceOf(s) == (if before.Some? then SequenceOf(before.value) + 1 else 1)
    && LeadsTo(before, row, s)
    && match row
       case Legacy(sequence, _) => sequence == SequenceOf(s) && bytes <= MAX_CHECKPOINT_BYTES
       case Event(body, eventDigest) =>
         && body.sequence == SequenceOf(s) && body.resultDigest == env.digest(s)
         && body.payloadDigest == env.digest(body.payload) && eventDigest == env.digestBody(body)
         && match body.content
            case Checkpoint(_) => bytes <= MAX_CHECKPOINT_BYTES
            case Delta(baseSequence, previousDigest, operations) =>
              && bytes <= MAX_DELTA_BYTES && |operations| <= MAX_OPERATIONS && SequenceOf(before.value) >= 1
              && baseSequence == SequenceOf(before.value) && previousDigest == env.digest(before.value)
  }

  /** A row is replayed to a state exactly when it is genuine. */
  lemma ReplayedExactlyWhen(env: Env, before: Option<Json>, row: Row, bytes: nat, s: Json)
    ensures Replay(env, row, bytes, before) == Ok(s) <==> Genuine(env, before, row, bytes, s)
  {
    hide Apply;
  }

  /** The lines that hold a row. */
  ghost function RowLines(env: Env, lines: seq<string>): nat {
    if lines == [] then 0 else (if !Blank(lines[0]) && env.decode(lines[0]).Some? then 1 else 0) + RowLines(env, lines[1..])
  }

  ghost function SequenceAt(at: Scan): nat {
    if at.state.Some? then SequenceOf(at.state.value) else 0
  }

  lemma {:induction false} ScanCounts(env: Env, lines: seq<string>, p: bool, at: Scan)
    requires ScanLines(env, lines, p, at).Ok?
    ensures SequenceAt(ScanLines(env, lines, p, at).value) == SequenceAt(at) + RowLines(env, lines)
    decreases |lines|
  {
    if lines != [] {
      var line := lines[0];
      var span := |line| + if |lines| == 1 then 0 else 1;
      if Blank(line) {
        ScanCounts(env, lines[1..], p, at.(offset := at.offset + span));
      } else if env.decode(line).Some? {
        var row := env.decode(line).value;
        var s := Replay(env, row, |line|, at.state).value;
        ReplayedExactlyWhen(env, at.state, row, |line|, s);
        hide Replay, Blank;
        ScanCounts(env, lines[1..], p, Scan(Some(s), Some(row), at.offset + span, at.offset + span));
      } else {
        assert lines[1..] == [];
      }
    }
  }

  /** A recovered journal has no gap: the sequence of its state is the number of its rows. */
  lemma RecoveredCountsItsRows(env: Env, text: string)
    requires Recover(env, text).Ok?
    ensures SequenceOf(Recover(env, text).value.state) == RowLines(env, Lines(text))
  {
    ScanCounts(env, Lines(text), !EndsWithNewline(text), START);
    hide ScanLines, RowLines;
  }

  /**
   * A commit is taken exactly when its row is within the size limits, a first
   * state passes the snapshot check, and over a previous state the head vouches
   * for that state and the journal still has the bytes the head speaks of.
   */
  lemma CommitTakenExactlyWhen(env: Env, d: Disk, prev: Option<Json>, fields: map<string, Json>, payload: Json, ops: seq<Operation>, at: string)
    ensures var next := Stamp(fields, SequenceAfter(prev), at);
            var row := MakeRow(env, prev, next, payload, ops);
            Verdict(env, d, prev, next, row).Ok? <==>
              if prev.None? then |env.encode(row)| <= MAX_CHECKPOINT_BYTES && env.snapshotOk(next)
              else
                && |env.encode(row)| <= MAX_DELTA_BYTES && |ops| <= MAX_OPERATIONS && SequenceOf(prev.value) >= 1
                && d.head.Holds? && d.journal.Some? && d.head.value.journalBytes <= |d.journal.value|
                && d.head.value.sequence == SequenceOf(prev.value)
                && d.head.value.stateDigest == env.digest(prev.value) && d.head.value.resultDigest == env.digest(prev.value)
  {
    hide Stamp;
  }
}
