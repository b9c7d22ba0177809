/** The migration workflow's ingest loop over continue-as-new runs: starting checkpoint,
    continuity check, per-row outcomes and hand-offs. `MigrationJob` is the state that one
    run updates and hands to the next; it also logs what the database is told. */
module MigrationRun {
  import opened Options
  import opened Connectors
  import opened Ingest

  const CHECKPOINT_VERSION: int := 1

  datatype Checkpoint = Checkpoint(
    version: int,
    sourceVersion: string,
    offset: Offset,
    nextRowIndex: int,
    processed: int,
    failed: int,
    unresolved: int)

  datatype CheckpointError =
    WrongVersion | Negative | OffsetMismatch | TooManyOutcomes | LegacyNotString | LegacyNotJson

  /** Whether a successor may start from a checkpoint. */
  function Validate(c: Checkpoint): (e: Option<CheckpointError>)
    ensures e.None? ==> 0 <= c.processed + c.failed + c.unresolved <= c.nextRowIndex == c.offset.items
  {
    if c.version != CHECKPOINT_VERSION then Some(WrongVersion)
    else if c.nextRowIndex < 0 || c.processed < 0 || c.failed < 0 || c.unresolved < 0 then Some(Negative)
    else if c.offset.items != c.nextRowIndex then Some(OffsetMismatch)
    else if c.processed + c.failed + c.unresolved > c.nextRowIndex then Some(TooManyOutcomes)
    else None
  }

  /** The position older runs left in the source reference. */
  datatype Legacy = NoLegacy | NotString | NotJson | LegacyOffset(offset: Offset)

  datatype Start = StartAt(checkpoint: Checkpoint) | Rejected(error: CheckpointError)

  const FRESH := Checkpoint(CHECKPOINT_VERSION, "", START, 0, 0, 0, 0)

  function StartingCheckpoint(given: Option<Checkpoint>, legacy: Legacy): Start {
    match given
    case Some(c) => (match Validate(c) case Some(e) => Rejected(e) case None => StartAt(c))
    case None =>
      match legacy
      case NoLegacy => StartAt(FRESH)
      case NotString => Rejected(LegacyNotString)
      case NotJson => Rejected(LegacyNotJson)
      case LegacyOffset(o) => StartAt(FRESH.(offset := o, nextRowIndex := o.items))
  }

  /** A run starts over at row zero only when its input names no position or row zero. */
  lemma NeverFallsBackToRowZero(given: Option<Checkpoint>, legacy: Legacy)
    requires StartingCheckpoint(given, legacy).StartAt?
    requires StartingCheckpoint(given, legacy).checkpoint.nextRowIndex == 0
    ensures given.Some? ==> given.value.nextRowIndex == 0 && given.value.offset.items == 0
    ensures given.None? ==> legacy.NoLegacy? || (legacy.LegacyOffset? && legacy.offset.items == 0)
  {
  }

  /** Where a run starts, and exactly which inputs it rejects. */
  lemma StartsWhereNamed(given: Option<Checkpoint>, legacy: Legacy)
    ensures
      var start := StartingCheckpoint(given, legacy);
      match given
      case Some(c) => start == (if Validate(c).Some? then Rejected(Validate(c).value) else StartAt(c))
      case None =>
        && (legacy.NoLegacy? ==> start == StartAt(FRESH))
        && (legacy.NotString? <==> start == Rejected(LegacyNotString))
        && (legacy.NotJson? <==> start == Rejected(LegacyNotJson))
        && (legacy.LegacyOffset? ==>
              && start.StartAt? && start.checkpoint.offset == legacy.offset
              && start.checkpoint.nextRowIndex == legacy.offset.items)
  {
  }

  /** A checkpoint is accepted exactly when it is one of this version, counts nothing below
      zero or beyond its next row, and stands where its offset does. */
  lemma AcceptedCheckpoints(c: Checkpoint)
    ensures Validate(c).None? <==>
      && c.version == 1 && c.processed >= 0 && c.failed >= 0 && c.unresolved >= 0
      && c.processed + c.failed + c.unresolved <= c.nextRowIndex == c.offset.items
  {
  }

  datatype ContinuityError = NoProgress | Gap(row: int, expected: int) | OffsetDrift

  /** Holds a batch to the position the job has reached. */
  method CheckRowContinuity(
    next: int, rows: seq<Row>, newOffset: Offset, done: bool
  ) returns (e: Option<ContinuityError>)
    ensures e.None? <==>
      && (rows != [] || done)
      && (forall i :: 0 <= i < |rows| ==> rows[i].index == next + i)
      && newOffset.items == next + |rows|
  {
    if |rows| == 0 && !done {
      return Some(NoProgress);
    }
    for i := 0 to |rows|
      invariant forall j :: 0 <= j < i ==> rows[j].index == next + j
    {
      if rows[i].index != next + i {
        return Some(Gap(rows[i].index, next + i));
      }
    }
    if newOffset.items != next + |rows| {
      return Some(OffsetDrift);
    }
    e := None;
  }

  datatype RowEnd = RowSucceeded | RowFailed | RowUnresolved

  /** How many rows ended this way. */
  function CountOf(ends: seq<RowEnd>, kind: RowEnd): nat {
    multiset(ends)[kind]
  }

  /** Every row ended in one of the three ways. */
  lemma {:induction false} CountsAddUp(ends: seq<RowEnd>)
    ensures CountOf(ends, RowSucceeded) + CountOf(ends, RowFailed) + CountOf(ends, RowUnresolved) == |ends|
    decreases |ends|
  {
    if ends != [] {
      var front, last := ends[..|ends| - 1], ends[|ends| - 1];
      CountsAddUp(front);
      assert ends == front + [last];
      assert forall kind :: CountOf(ends, kind) == CountOf(front, kind) + if kind == last then 1 else 0;
    }
  }

  /** Answers of the activities a run calls on one batch. */
  datatype Activities = Activities(
    preprocess: seq<Row> -> Option<seq<string>>,
    outcome: Row -> RowEnd,
    persists: Row -> bool)

  /** The rows as preprocessing leaves them. */
  function Prepared(a: Activities, rows: seq<Row>): (out: seq<Row>)
    requires !Unprocessed(a, rows)
    ensures |out| == |rows| && forall i :: 0 <= i < |rows| ==> out[i].index == rows[i].index
  {
    var data := a.preprocess(rows).value;
    seq(|rows|, i requires 0 <= i < |rows| => Row(rows[i].index, data[i]))
  }

  /** How these rows end. */
  function EndsOf(a: Activities, rows: seq<Row>): seq<RowEnd> {
    seq(|rows|, i requires 0 <= i < |rows| => a.outcome(rows[i]))
  }

  /** The rows carry the indices from `next` on. */
  predicate Follow(rows: seq<Row>, next: int) {
    forall i :: 0 <= i < |rows| ==> rows[i].index == next + i
  }

  /** The first i rows have been stored after what was there, each with its outcome. */
  ghost predicate Stored(
    rows0: seq<Row>, ends0: seq<RowEnd>, rows1: seq<Row>, ends1: seq<RowEnd>, a: Activities, rows: seq<Row>, i: nat
  ) {
    i <= |rows| && rows1 == rows0 + rows[..i] && ends1 == ends0 + EndsOf(a, rows[..i])
  }

  lemma StoredKeeps(
    rows0: seq<Row>, ends0: seq<RowEnd>, rows1: seq<Row>, ends1: seq<RowEnd>, a: Activities, rows: seq<Row>, i: nat
  )
    requires Stored(rows0, ends0, rows1, ends1, a, rows, i)
    ensures rows0 <= rows1
  {
  }

  lemma StoredAll(
    rows0: seq<Row>, ends0: seq<RowEnd>, rows1: seq<Row>, ends1: seq<RowEnd>, a: Activities, rows: seq<Row>
  )
    requires Stored(rows0, ends0, rows1, ends1, a, rows, |rows|)
    ensures rows0 <= rows1 && rows1 == rows0 + rows && ends1 == ends0 + EndsOf(a, rows)
  {
    assert rows[..|rows|] == rows;
  }

  lemma StoredNext(
    rows0: seq<Row>, ends0: seq<RowEnd>, rows1: seq<Row>, ends1: seq<RowEnd>, a: Activities, rows: seq<Row>, i: nat
  )
    requires Stored(rows0, ends0, rows1, ends1, a, rows, i) && i < |rows|
    ensures Stored(rows0, ends0, rows1 + [rows[i]], ends1 + [a.outcome(rows[i])], a, rows, i + 1)
    ensures Follow(rows, |rows0|) ==> rows[i].index == |rows1|
  {
    assert rows[..i + 1] == rows[..i] + [rows[i]];
    assert EndsOf(a, rows[..i + 1]) == EndsOf(a, rows[..i]) + [a.outcome(rows[i])];
  }

  /** Each stored outcome is the one its own row had in some turn so far. */
  ghost predicate EndedAs(rows: seq<Row>, ends: seq<RowEnd>, a: nat -> Activities, turns: nat) {
    |rows| == |ends| && forall k :: 0 <= k < |rows| ==> EndedInTurn(rows[k], ends[k], a, turns)
  }

  ghost predicate EndedInTurn(row: Row, end: RowEnd, a: nat -> Activities, turns: nat) {
    exists i: nat :: i < turns && end == a(i).outcome(row)
  }

  lemma EndedNext(rows: seq<Row>, ends: seq<RowEnd>, more: seq<Row>, a: nat -> Activities, turn: nat)
    requires EndedAs(rows, ends, a, turn)
    ensures EndedAs(rows + more, ends + EndsOf(a(turn), more), a, turn + 1)
  {
    forall k | 0 <= k < |rows + more|
      ensures EndedInTurn((rows + more)[k], (ends + EndsOf(a(turn), more))[k], a, turn + 1)
    {
      if k < |rows| {
        assert EndedInTurn(rows[k], ends[k], a, turn);
      } else {
        assert EndsOf(a(turn), more)[k - |rows|] == a(turn).outcome(more[k - |rows|]);
      }
    }
  }

  lemma EndedLater(rows: seq<Row>, ends: seq<RowEnd>, a: nat -> Activities, turn: nat)
    requires EndedAs(rows, ends, a, turn)
    ensures EndedAs(rows, ends, a, turn + 1)
  {
    forall k | 0 <= k < |rows| ensures EndedInTurn(rows[k], ends[k], a, turn + 1) {
      assert EndedInTurn(rows[k], ends[k], a, turn);
    }
  }

  /** The preprocessing of these rows fails, or loses or adds some. */
  predicate Unprocessed(a: Activities, rows: seq<Row>) {
    a.preprocess(rows).None? || |a.preprocess(rows).value| != |rows|
  }

  /** The outcome of some preprocessed row cannot be stored. */
  ghost predicate Unstored(a: Activities, rows: seq<Row>)
    requires !Unprocessed(a, rows)
  {
    exists row :: row in Prepared(a, rows) && !a.persists(row)
  }

  /** Every activity answers as it should. */
  ghost predicate Working(a: Activities) {
    (forall rows :: !Unprocessed(a, rows)) && forall row :: a.persists(row)
  }

  datatype Failure =
    | IngestError
    | Discontinuity(gap: ContinuityError)
    | BadCheckpoint(error: CheckpointError)
    | PreprocessError
    | PersistError
    | Cancelled
    | Unlicensed
    | TemplateError

  /** What a reply and the activities must be like for a batch to fail this way. */
  ghost predicate Broke(failure: Failure, next: int, reply: Reply, a: Activities) {
    match failure
    case IngestError => !reply.PendingSource? && !reply.Batch?
    case Discontinuity(_) => reply.Batch? && !Continuous(next, reply)
    case PreprocessError => reply.Batch? && Continuous(next, reply) && Unprocessed(a, reply.rows)
    case PersistError =>
      reply.Batch? && Continuous(next, reply) && !Unprocessed(a, reply.rows) && Unstored(a, reply.rows)
    case _ => false
  }

  /** Nothing about the reply or the activities is in the way. */
  ghost predicate Accepted(next: int, reply: Reply, a: Activities) {
    || reply.PendingSource?
    || (reply.Batch? && Continuous(next, reply) && !Unprocessed(a, reply.rows) && !Unstored(a, reply.rows))
  }

  datatype BatchEnd = Continue | Polling | Done | Failed(failure: Failure)

  /** The i-th logged row has index i. */
  predicate Consecutive(rows: seq<Row>) {
    forall i :: 0 <= i < |rows| ==> rows[i].index == i
  }

  class MigrationJob {
    var cp: Checkpoint
    var processed: int
    var failed: int
    var unresolved: int
    var ingested: seq<Row>     // rows of accepted batches
    var persisted: seq<Row>    // rows whose outcome was recorded
    var ends: seq<RowEnd>      // and those outcomes

    /** Between batches: outcomes, counters and checkpoint all stand at the next row. */
    ghost predicate AtBatch()
      reads this
    {
      && cp.version == CHECKPOINT_VERSION
      && cp.processed == processed >= 0 && cp.failed == failed >= 0 && cp.unresolved == unresolved >= 0
      && Counts() && processed + failed + unresolved == |persisted| == |ingested| == cp.nextRowIndex
      && Consecutive(persisted) && Consecutive(ingested)
    }

    /** Each counter is the number of recorded outcomes of its own kind. */
    ghost predicate Counts()
      reads this
    {
      && |ends| == |persisted|
      && processed == CountOf(ends, RowSucceeded)
      && failed == CountOf(ends, RowFailed)
      && unresolved == CountOf(ends, RowUnresolved)
    }

    constructor ()
      ensures AtBatch() && cp == FRESH && persisted == [] && ingested == []
    {
      cp := FRESH;
      processed, failed, unresolved, ingested, persisted, ends := 0, 0, 0, [], [], [];
    }

    /** One row through the chain: exactly one counter moves, then the outcome is stored. */
    method ProcessRow(row: Row, a: Activities) returns (ok: bool)
      modifies this`processed, this`failed, this`unresolved, this`persisted, this`ends
      ensures processed == old(processed) + if a.outcome(row) == RowSucceeded then 1 else 0
      ensures failed == old(failed) + if a.outcome(row) == RowFailed then 1 else 0
      ensures unresolved == old(unresolved) + if a.outcome(row) == RowUnresolved then 1 else 0
      ensures persisted == if ok then old(persisted) + [row] else old(persisted)
      ensures ends == if ok then old(ends) + [a.outcome(row)] else old(ends)
      ensures ok && old(Counts()) ==> Counts()
      ensures ok && old(Consecutive(persisted)) && row.index == |old(persisted)| ==> Consecutive(persisted)
      ensures ok <==> a.persists(row)
    {
      match a.outcome(row) {
        case RowUnresolved => unresolved := unresolved + 1;
        case RowFailed => failed := failed + 1;
        case RowSucceeded => processed := processed + 1;
      }
      ok := a.persists(row);
      if ok {
        persisted, ends := persisted + [row], ends + [a.outcome(row)];
      }
    }

    /** Preprocessing may change a row's data, never its index or the number of rows. */
    method Preprocess(rows: seq<Row>, a: Activities) returns (out: Option<seq<Row>>)
      ensures out.None? <==> Unprocessed(a, rows)
      ensures out.Some? ==> out.value == Prepared(a, rows)
    {
      var data := a.preprocess(rows);
      if data.None? || |data.value| != |rows| {
        return None;
      }
      out := Some(seq(|rows|, i requires 0 <= i < |rows| => Row(rows[i].index, data.value[i])));
    }

    /** One turn of the ingest loop, from any reply of any connector. */
    method AcceptReply(reply: Reply, a: Activities) returns (end: BatchEnd)
      requires AtBatch()
      modifies this
      ensures Consecutive(persisted) && old(persisted) <= persisted
      ensures !end.Failed? ==> AtBatch()
      // The rows recorded are those of the batch, each with its own outcome.
      ensures end.Continue? || end.Done? ==>
        && reply.Batch? && !Unprocessed(a, reply.rows)
        && persisted == old(persisted) + Prepared(a, reply.rows)
        && ends == old(ends) + EndsOf(a, Prepared(a, reply.rows))
      ensures end.Polling? ==> reply.PendingSource? && cp == old(cp).(offset := reply.newOffset)
      ensures end.Polling? ==> persisted == old(persisted) && ends == old(ends) && ingested == old(ingested)
      ensures
        end.Continue? || end.Done? ==>
          reply.Batch? && cp.offset == reply.newOffset && cp.offset.items == cp.nextRowIndex
      ensures end.Continue? || end.Done? ==> ingested == old(ingested) + reply.rows && |persisted| == |ingested|
      ensures end.Continue? || end.Done? ==> reply.done == end.Done?
      ensures end.Continue? ==> cp.nextRowIndex > old(cp.nextRowIndex)
      ensures end.Continue? || end.Done? ==>
        cp.sourceVersion == if old(cp.sourceVersion) == "" then reply.version else old(cp.sourceVersion)
      ensures reply.PendingSource? ==> end.Polling?
      // It fails exactly when something is in the way, and says what it was.
      ensures end.Failed? <==> !Accepted(old(cp.nextRowIndex), reply, a)
      ensures end.Failed? ==> Broke(end.failure, old(cp.nextRowIndex), reply, a)
      ensures end.Failed? ==> cp == old(cp) && ingested == old(ingested)
    {
      match reply {
        case PendingSource(newOffset) =>
          cp := cp.(offset := newOffset);
          return Polling;
        case Batch(rows, newOffset, done, version) =>
          var gap := CheckRowContinuity(cp.nextRowIndex, rows, newOffset, done);
          if gap.Some? {
            return Failed(Discontinuity(gap.value));
          }
          var ready := Preprocess(rows, a);
          if ready.None? {
            return Failed(PreprocessError);
          }
          var ok := ProcessRows(ready.value, a);
          if !ok {
            return Failed(PersistError);
          }
          CountsAddUp(ends);
          ingested := ingested + rows;
          cp := cp.(offset := newOffset, nextRowIndex := newOffset.items,
                    processed := processed, failed := failed, unresolved := unresolved,
                    sourceVersion := if cp.sourceVersion == "" then version else cp.sourceVersion);
          return if done then Done else Continue;
        case _ =>
          return Failed(IngestError);
      }
    }

    method ProcessRows(rows: seq<Row>, a: Activities) returns (ok: bool)
      requires Counts() && Consecutive(persisted) && Follow(rows, |persisted|)
      modifies this`processed, this`failed, this`unresolved, this`persisted, this`ends
      ensures Consecutive(persisted) && old(persisted) <= persisted
      ensures ok <==> forall i :: 0 <= i < |rows| ==> a.persists(rows[i])
      ensures ok ==> Counts() && persisted == old(persisted) + rows && ends == old(ends) + EndsOf(a, rows)
    {
      for i := 0 to |rows|
        invariant Counts() && Consecutive(persisted) && Stored(old(persisted), old(ends), persisted, ends, a, rows, i)
        invariant forall j :: 0 <= j < i ==> a.persists(rows[j])
      {
        StoredKeeps(old(persisted), old(ends), persisted, ends, a, rows, i);
        ok := ProcessNext(rows, i, a, old(persisted), old(ends));
        if !ok {
          return;
        }
      }
      StoredAll(old(persisted), old(ends), persisted, ends, a, rows);
      ok := true;
    }

    method ProcessNext(
      rows: seq<Row>, i: nat, a: Activities, ghost rows0: seq<Row>, ghost ends0: seq<RowEnd>
    ) returns (ok: bool)
      requires i < |rows| && Counts() && Consecutive(persisted) && Follow(rows, |rows0|)
      requires Stored(rows0, ends0, persisted, ends, a, rows, i)
      modifies this`processed, this`failed, this`unresolved, this`persisted, this`ends
      ensures ok <==> a.persists(rows[i])
      ensures Consecutive(persisted)
      ensures ok ==> Counts() && Stored(rows0, ends0, persisted, ends, a, rows, i + 1)
      ensures !ok ==> persisted == old(persisted)
    {
      StoredNext(rows0, ends0, persisted, ends, a, rows, i);
      ok := ProcessRow(rows[i], a);
    }

    /** Continue-as-new: the successor validates the checkpoint and takes its totals over. */
    method HandOff() returns (rejected: Option<CheckpointError>)
      requires AtBatch()
      modifies this
      ensures AtBatch() && cp == old(cp) && ingested == old(ingested)
      ensures persisted == old(persisted) && ends == old(ends)
      ensures rejected.None? <==> cp.offset.items == cp.nextRowIndex
      ensures rejected.None? || rejected == Some(OffsetMismatch)
    {
      var start := StartingCheckpoint(Some(cp), NoLegacy);
      if start.Rejected? {
        return Some(start.error);
      }
      cp := start.checkpoint;
      processed, failed, unresolved := cp.processed, cp.failed, cp.unresolved;
      rejected := None;
    }
  }

  /** The batch carries on exactly where the job stands. */
  predicate Continuous(next: int, reply: Reply)
    requires reply.Batch?
  {
    && (reply.rows != [] || reply.done)
    && (forall i :: 0 <= i < |reply.rows| ==> reply.rows[i].index == next + i)
    && reply.newOffset.items == next + |reply.rows|
  }

  datatype JobEnd = Finished | Running | Stopped(failure: Failure)

  /** The rows of all batches, in order. */
  function RowsOf(replies: seq<Reply>): seq<Row> {
    if replies == [] then []
    else
      var last := replies[|replies| - 1];
      RowsOf(replies[..|replies| - 1]) + if last.Batch? then last.rows else []
  }

  lemma RowsOfNext(replies: seq<Reply>, i: nat)
    requires i < |replies|
    ensures
      RowsOf(replies[..i + 1]) == RowsOf(replies[..i]) + if replies[i].Batch? then replies[i].rows else []
  {
    assert replies[..i + 1][..i] == replies[..i];
  }

  /** A fresh job against an arbitrary connector, handing off to a new run wherever the
      schedule says so. The continuity check alone makes delivery exactly-once. */
  method RunAnyConnector(
    job: MigrationJob, replies: seq<Reply>, handsOff: nat -> bool, a: nat -> Activities
  ) returns (end: JobEnd, ghost at: nat)
    requires job.AtBatch() && job.cp == FRESH && job.persisted == []
    modifies job
    // Whatever happened, the recorded rows are 0, 1, 2, .., once each and in order.
    ensures forall i :: 0 <= i < |job.persisted| ==> job.persisted[i].index == i
    ensures end.Finished? || end.Running? ==>
      job.AtBatch() && |job.persisted| == job.cp.nextRowIndex
      && job.processed + job.failed + job.unresolved == job.cp.nextRowIndex
    ensures end.Finished? ==> job.cp.offset.items == job.cp.nextRowIndex
    // The totals count each kind of outcome, and each outcome is the row's own.
    ensures end.Finished? || end.Running? ==> job.Counts() && EndedAs(job.persisted, job.ends, a, at + 1)
    // It runs until a batch says it is the last, and stops only at a reply that breaks it.
    ensures at <= |replies| && (end.Running? <==> at == |replies|)
    ensures end.Finished? ==> replies[at].Batch? && replies[at].done
    ensures end.Finished? ==> job.ingested == RowsOf(replies[..at + 1])
    ensures !end.Finished? ==> job.ingested == RowsOf(replies[..at])
    ensures end.Stopped? && !end.failure.BadCheckpoint? ==> Broke(end.failure, job.cp.nextRowIndex, replies[at], a(at))
    ensures end.Stopped? && end.failure.BadCheckpoint? ==>
      replies[at].PendingSource? && handsOff(at) && replies[at].newOffset.items != job.cp.nextRowIndex
  {
    at := 0;
    for i := 0 to |replies|
      invariant at == i && job.AtBatch() && job.ingested == RowsOf(replies[..i])
      invariant EndedAs(job.persisted, job.ends, a, i)
    {
      RowsOfNext(replies, i);
      end := AcceptNext(job, replies[i], handsOff(i), a, i);
      if !end.Running? {
        return end, i;
      }
      at := at + 1;
    }
    assert replies[..|replies|] == replies;
    EndedLater(job.persisted, job.ends, a, at);
    end := Running;
  }

  /** One reply, and the hand-off to a new run that may follow it. */
  method AcceptNext(
    job: MigrationJob, reply: Reply, handsOff: bool, a: nat -> Activities, i: nat
  ) returns (end: JobEnd)
    requires job.AtBatch() && EndedAs(job.persisted, job.ends, a, i)
    modifies job
    ensures Consecutive(job.persisted)
    ensures end.Finished? || end.Running? ==> job.AtBatch() && EndedAs(job.persisted, job.ends, a, i + 1)
    ensures end.Finished? ==> job.cp.offset.items == job.cp.nextRowIndex && reply.Batch? && reply.done
    ensures job.ingested ==
            old(job.ingested) + if reply.Batch? && !end.Stopped? then reply.rows else []
    ensures end.Stopped? && !end.failure.BadCheckpoint? ==> Broke(end.failure, job.cp.nextRowIndex, reply, a(i))
    ensures end.Stopped? && end.failure.BadCheckpoint? ==>
      reply.PendingSource? && handsOff && reply.newOffset.items != job.cp.nextRowIndex
  {
    ghost var rows, ends := job.persisted, job.ends;
    var step := job.AcceptReply(reply, a(i));
    if step.Polling? {
      EndedLater(rows, ends, a, i);
    } else if !step.Failed? {
      EndedNext(rows, ends, Prepared(a(i), reply.rows), a, i);
    }
    match step {
      case Failed(failure) => return Stopped(failure);
      case Done => return Finished;
      case _ =>
    }
    if handsOff {
      var rejected := job.HandOff();
      if rejected.Some? {
        return Stopped(BadCheckpoint(rejected.value));
      }
    }
    end := Running;
  }

  /** Between batches: the checkpoint resumes the source where the job stands. */
  ghost predicate OnTrack(job: MigrationJob, conn: Connector, version: string)
    requires ValidConnector(conn)
    reads job
  {
    && job.AtBatch() && ResumesAt(conn, job.cp.offset, job.cp.nextRowIndex)
    && IsSlice(SourceRows(conn), 0, job.ingested)
    && (job.cp.sourceVersion == "" || job.cp.sourceVersion == version)
  }

  /** One Ingest activity and what the run makes of its answer. */
  method TakeBatch(
    job: MigrationJob, conn: Connector, version: string, batchSize: int, weather: Weather, a: Activities
  ) returns (step: BatchEnd)
    requires ValidConnector(conn) && OnTrack(job, conn, version)
    modifies job
    ensures Consecutive(job.persisted)
    ensures step.Polling? ==> job.persisted == old(job.persisted) && job.ends == old(job.ends)
    ensures step.Continue? || step.Done? ==>
      && old(job.persisted) <= job.persisted
      && job.ends == old(job.ends) + EndsOf(a, job.persisted[|old(job.persisted)|..])
    ensures step.Continue? || step.Polling? ==> OnTrack(job, conn, version)
    ensures step.Continue? ==> old(job.cp.nextRowIndex) < job.cp.nextRowIndex == job.cp.offset.items
    ensures step.Polling? ==> job.cp.nextRowIndex == old(job.cp.nextRowIndex) && weather.state == JobRunning
    ensures
      step.Done? ==> job.AtBatch() && IsSlice(SourceRows(conn), 0, job.ingested) && |job.ingested| == |SourceRows(conn)|
    ensures step.Failed? ==> BrokeAt(step.failure, conn, weather, a)
  {
    ghost var k: nat, before := job.cp.nextRowIndex, job.ingested;
    var reply := Fetch(conn, job.cp.offset, batchSize, job.cp.sourceVersion, version, weather, k);
    step := job.AcceptReply(reply, a);
    if step.Failed? {
      BrokeFromSource(step.failure, conn, k, SizeOf(batchSize), reply, weather, a);
    } else if reply.Batch? {
      SliceGrows(SourceRows(conn), before, reply.rows);
    }
  }

  /** A read from an offset that names row k. */
  method Fetch(
    conn: Connector, offset: Offset, batchSize: int, expected: string, version: string, weather: Weather, ghost k: nat
  ) returns (reply: Reply)
    requires ValidConnector(conn) && ResumesAt(conn, offset, k) && (expected == "" || expected == version)
    ensures ReplyFrom(conn, k, SizeOf(batchSize), reply)
    ensures reply.Batch? ==> Continuous(k, reply) && reply.version == version
    ensures reply.PendingSource? ==> weather.state == JobRunning
    ensures !reply.Batch? && !reply.PendingSource? ==> !Calm(weather)
  {
    reply := Ingest.Ingest(conn, offset, batchSize, expected, version, weather);
    assert ReplyFrom(conn, k, SizeOf(batchSize), reply);
  }

  lemma SliceGrows(source: seq<string>, rows: seq<Row>, more: seq<Row>)
    requires IsSlice(source, 0, rows) && IsSlice(source, |rows|, more)
    ensures IsSlice(source, 0, rows + more)
  {
  }

  lemma BrokeFromSource(
    failure: Failure, conn: Connector, k: nat, size: nat, reply: Reply, weather: Weather, a: Activities
  )
    requires ValidConnector(conn) && Broke(failure, k, reply, a) && ReplyFrom(conn, k, size, reply)
    requires reply.Batch? ==> Continuous(k, reply)
    requires !reply.Batch? && !reply.PendingSource? ==> !Calm(weather)
    ensures BrokeAt(failure, conn, weather, a)
  {
    if reply.Batch? {
      assert IsSlice(SourceRows(conn), k, reply.rows);
    }
  }

  /** The only ways a batch of a real source can fail: bad weather, or an activity that fails
      on rows of that source. */
  ghost predicate BrokeAt(failure: Failure, conn: Connector, weather: Weather, a: Activities)
    requires ValidConnector(conn)
  {
    match failure
    case IngestError => !Calm(weather)
    case PreprocessError => exists k: nat, rows :: IsSlice(SourceRows(conn), k, rows) && Unprocessed(a, rows)
    case PersistError =>
      exists k: nat, rows :: IsSlice(SourceRows(conn), k, rows) && !Unprocessed(a, rows) && Unstored(a, rows)
    case _ => false
  }

  /** What happens around one turn of the loop: a pause of some length, a cancellation during
      the n-th sleep of that pause or after it, and whether the run hands off afterwards. */
  datatype Turn = Turn(
    weather: Weather,
    activities: Activities,
    sleeps: nat,
    cancelled: Option<nat>,
    handsOff: bool)

  /** What a new run finds before its first turn. */
  datatype Admission = Admitted | LicenceLapsed | TemplateMissing

  /** A paused run sleeps until it is resumed or cancelled. */
  method AwaitResume(t: Turn) returns (ok: bool)
    ensures ok <==> t.cancelled.None? || t.cancelled.value >= t.sleeps
  {
    for n := 0 to t.sleeps
      invariant t.cancelled.None? || t.cancelled.value >= n
    {
      if t.cancelled == Some(n) {
        return false;
      }
    }
    ok := true;
  }

  /** One turn of the loop: the pause, then a batch. */
  method TakeTurn(
    job: MigrationJob, conn: Connector, version: string, batchSize: int, t: Turn
  ) returns (step: BatchEnd)
    requires ValidConnector(conn) && OnTrack(job, conn, version)
    modifies job
    ensures Consecutive(job.persisted)
    ensures step.Polling? ==> job.persisted == old(job.persisted) && job.ends == old(job.ends)
    ensures step.Continue? || step.Done? ==>
      && old(job.persisted) <= job.persisted
      && job.ends == old(job.ends) + EndsOf(t.activities, job.persisted[|old(job.persisted)|..])
    ensures step.Continue? || step.Polling? ==> OnTrack(job, conn, version)
    ensures step.Continue? ==> old(job.cp.nextRowIndex) < job.cp.nextRowIndex == job.cp.offset.items
    ensures step.Polling? ==> job.cp.nextRowIndex == old(job.cp.nextRowIndex) && t.weather.state == JobRunning
    ensures
      step.Done? ==> job.AtBatch() && IsSlice(SourceRows(conn), 0, job.ingested) && |job.ingested| == |SourceRows(conn)|
    ensures step == Failed(Cancelled) <==> t.cancelled.Some?
    ensures step == Failed(Cancelled) ==> job.persisted == old(job.persisted)
    ensures step.Failed? && step.failure != Cancelled ==> BrokeAt(step.failure, conn, t.weather, t.activities)
  {
    var resumed := AwaitResume(t);
    if !resumed || t.cancelled.Some? {
      return Failed(Cancelled);
    }
    step := TakeBatch(job, conn, version, batchSize, t.weather, t.activities);
  }

  /** Licence and template are looked up at the start of every run. */
  method BeginRun(admission: Admission) returns (refused: Option<Failure>)
    ensures refused.None? <==> admission.Admitted?
    ensures refused.Some? ==>
      refused.value == if admission.LicenceLapsed? then Unlicensed else TemplateError
  {
    match admission {
      case LicenceLapsed => refused := Some(Unlicensed);
      case TemplateMissing => refused := Some(TemplateError);
      case Admitted => refused := None;
    }
  }

  /** Nothing goes wrong in this turn. */
  ghost predicate Smooth(t: Turn) {
    Calm(t.weather) && Working(t.activities) && t.cancelled.None?
  }

  function ActivitiesOf(turns: nat -> Turn): nat -> Activities {
    (i: nat) => turns(i).activities
  }

  lemma EndedMore(rows0: seq<Row>, ends0: seq<RowEnd>, rows: seq<Row>, a: nat -> Activities, turn: nat)
    requires EndedAs(rows0, ends0, a, turn) && rows0 <= rows
    ensures EndedAs(rows, ends0 + EndsOf(a(turn), rows[|rows0|..]), a, turn + 1)
  {
    EndedNext(rows0, ends0, rows[|rows0|..], a, turn);
    assert rows == rows0 + rows[|rows0|..];
  }

  /** A fresh job against a real source, with pauses, cancellations and hand-offs anywhere.
      `polls` bounds how long the query job runs. */
  method RunSource(
    job: MigrationJob, conn: Connector, version: string, batchSize: int, turns: nat -> Turn, polls: nat,
    admissions: nat -> Admission
  ) returns (end: JobEnd, ghost turn: nat, ghost run: nat)
    requires job.AtBatch() && job.cp == FRESH && job.persisted == [] && ValidConnector(conn)
    requires forall i: nat :: turns(i).weather.state == JobRunning ==> i < polls
    modifies job
    // The loop always ends, and a job that ends well has ingested exactly the source.
    ensures !end.Running?
    ensures end.Finished? ==> IsSlice(SourceRows(conn), 0, job.ingested) && |job.ingested| == |SourceRows(conn)|
    ensures end.Finished? ==> |job.persisted| == |SourceRows(conn)| == job.processed + job.failed + job.unresolved
    // Each total counts its own kind of outcome, and each outcome is the one its row had.
    ensures end.Finished? ==> job.Counts() && EndedAs(job.persisted, job.ends, ActivitiesOf(turns), turn + 1)
    ensures forall i :: 0 <= i < |job.persisted| ==> job.persisted[i].index == i
    // No turn before the last was cancelled, and no run before it refused.
    ensures forall i: nat :: i < turn ==> turns(i).cancelled.None?
    ensures forall k: nat :: k < run ==> admissions(k).Admitted?
    ensures end.Finished? ==> admissions(run).Admitted?
    // What stopped it is in the turn or the run it stopped at; pauses, batch boundaries and
    // hand-offs never are.
    ensures end.Stopped? ==> StoppedBy(end.failure, conn, turns(turn), admissions(run))
    // So when nothing goes wrong there it finishes.
    ensures Smooth(turns(turn)) && admissions(run).Admitted? ==> end.Finished?
  {
    assert ResumesAt(conn, START, 0);
    var refused := BeginRun(admissions(0));
    if refused.Some? {
      return Stopped(refused.value), 0, 0;
    }
    forall i: nat ensures FitsAt(turns, ActivitiesOf(turns), polls, i) {
    }
    ghost var before;
    end, turn, run, before :=
      RunTurns(job, conn, version, batchSize, turns, polls, admissions, ActivitiesOf(turns));
    if end.Stopped? {
      SmoothNeverStops(end.failure, conn, turns(turn), admissions(run));
    }
  }

  /** The activities of a turn, and a query job that runs only so long. */
  ghost predicate FitsAt(turns: nat -> Turn, a: nat -> Activities, polls: nat, i: nat) {
    a(i) == turns(i).activities && (turns(i).weather.state == JobRunning ==> i < polls)
  }

  /** The loop of turns, from a fresh job on. */
  method RunTurns(
    job: MigrationJob, conn: Connector, version: string, batchSize: int, turns: nat -> Turn, polls: nat,
    admissions: nat -> Admission, ghost a: nat -> Activities
  ) returns (end: JobEnd, ghost turn: nat, ghost run: nat, ghost before: nat)
    requires ValidConnector(conn) && OnTrack(job, conn, version) && job.persisted == []
    requires admissions(0).Admitted? && forall i: nat :: FitsAt(turns, a, polls, i)
    modifies job
    ensures !end.Running? && EndedAt(end, job, conn, turns, admissions, a, turn, run, before)
  {
    turn, run, before := 0, 0, 0;
    UnderwayAtStart(job, conn, version, turns, admissions, a);
    var i: nat, n: nat := 0, 0;
    while true
      invariant Underway(job, conn, version, turns, admissions, a, i, n)
      decreases RowsLeft(job, conn), if i < polls then polls - i else 0
    {
      before := n;
      assert FitsAt(turns, a, polls, i);
      end, n := NextTurn(job, conn, version, batchSize, turns, i, admissions, n, a, polls);
      if !end.Running? {
        return end, i, n, before;
      }
      i := i + 1;
    }
  }

  /** One turn, and the hand-off to a new run that may follow it. */
  method NextTurn(
    job: MigrationJob, conn: Connector, version: string, batchSize: int, turns: nat -> Turn, i: nat,
    admissions: nat -> Admission, n0: nat, ghost a: nat -> Activities, ghost polls: nat
  ) returns (end: JobEnd, n: nat)
    requires ValidConnector(conn) && FitsAt(turns, a, polls, i)
    requires Underway(job, conn, version, turns, admissions, a, i, n0)
    modifies job
    ensures if end.Running? then Underway(job, conn, version, turns, admissions, a, i + 1, n)
            else EndedAt(end, job, conn, turns, admissions, a, i, n, n0)
    ensures end.Running? ==> n == n0 + if turns(i).handsOff then 1 else 0
    ensures end.Running? ==>
      || RowsLeft(job, conn) < old(RowsLeft(job, conn))
      || (RowsLeft(job, conn) == old(RowsLeft(job, conn)) && i < polls)
  {
    ghost var rows, ends := job.persisted, job.ends;
    n := n0;
    var step := TakeTurn(job, conn, version, batchSize, turns(i));
    if step.Polling? {
      EndedLater(rows, ends, a, i);
    } else if !step.Failed? {
      EndedMore(rows, ends, job.persisted, a, i);
    }
    match step {
      case Failed(failure) => return Stopped(failure), n;
      case Done => return Finished, n;
      case _ =>
    }
    if turns(i).handsOff {
      n := n + 1;
      var refused := StartNextRun(job, conn, version, admissions(n));
      if refused.Some? {
        return Stopped(refused.value), n;
      }
    }
    UndisturbedNext(turns, admissions, i, n0, n);
    end := Running;
  }

  lemma UnderwayAtStart(
    job: MigrationJob, conn: Connector, version: string, turns: nat -> Turn, admissions: nat -> Admission,
    a: nat -> Activities
  )
    requires ValidConnector(conn) && OnTrack(job, conn, version) && job.persisted == [] && admissions(0).Admitted?
    ensures Underway(job, conn, version, turns, admissions, a, 0, 0)
  {
  }

  /** How a job may end in turn i, as run n or in the hand-off from run n0 to run n. */
  ghost predicate EndedAt(
    end: JobEnd, job: MigrationJob, conn: Connector, turns: nat -> Turn, admissions: nat -> Admission,
    a: nat -> Activities, i: nat, n: nat, n0: nat
  )
    requires ValidConnector(conn)
    reads job
  {
    && Consecutive(job.persisted) && Undisturbed(turns, admissions, i, n0) && n0 <= n <= n0 + 1
    && (end.Finished? ==>
          && job.AtBatch() && IsSlice(SourceRows(conn), 0, job.ingested) && |job.ingested| == |SourceRows(conn)|
          && EndedAs(job.persisted, job.ends, a, i + 1) && n == n0)
    && (end.Stopped? ==> StoppedBy(end.failure, conn, turns(i), admissions(n)))
  }

  ghost function RowsLeft(job: MigrationJob, conn: Connector): nat
    reads job
  {
    if job.cp.nextRowIndex <= |SourceRows(conn)| then |SourceRows(conn)| - job.cp.nextRowIndex else 0
  }

  /** Between two turns: on track, each outcome its row's own, and nothing in the way so far. */
  ghost predicate Underway(
    job: MigrationJob, conn: Connector, version: string, turns: nat -> Turn, admissions: nat -> Admission,
    a: nat -> Activities, i: nat, n: nat
  )
    requires ValidConnector(conn)
    reads job
  {
    && OnTrack(job, conn, version) && EndedAs(job.persisted, job.ends, a, i)
    && Undisturbed(turns, admissions, i, n)
  }

  /** No turn so far was cancelled, and no run refused. */
  ghost predicate Undisturbed(turns: nat -> Turn, admissions: nat -> Admission, i: nat, n: nat) {
    && (forall j: nat :: j < i ==> turns(j).cancelled.None?)
    && forall k: nat :: k <= n ==> admissions(k).Admitted?
  }

  lemma UndisturbedNext(turns: nat -> Turn, admissions: nat -> Admission, i: nat, n0: nat, n: nat)
    requires Undisturbed(turns, admissions, i, n0) && turns(i).cancelled.None?
    requires n == n0 + (if turns(i).handsOff then 1 else 0) && (n > n0 ==> admissions(n).Admitted?)
    ensures Undisturbed(turns, admissions, i + 1, n)
  {
    forall k: nat | k <= n ensures admissions(k).Admitted? {
      if k == n && n > n0 {
      } else {
        assert k <= n0;
      }
    }
  }

  /** A new run from the checkpoint; an accepted one stands where its predecessor stood. */
  method StartNextRun(
    job: MigrationJob, conn: Connector, version: string, admission: Admission
  ) returns (refused: Option<Failure>)
    requires ValidConnector(conn) && OnTrack(job, conn, version)
    modifies job
    ensures OnTrack(job, conn, version) && job.cp == old(job.cp)
    ensures job.persisted == old(job.persisted) && job.ends == old(job.ends)
    ensures refused.None? <==> admission.Admitted?
    ensures refused.Some? ==> refused.value == if admission.LicenceLapsed? then Unlicensed else TemplateError
  {
    refused := BeginRun(admission);
    if refused.None? {
      var rejected := job.HandOff();
      assert rejected.None?;
    }
  }

  lemma SmoothNeverStops(failure: Failure, conn: Connector, t: Turn, admission: Admission)
    requires ValidConnector(conn)
    ensures Smooth(t) && admission.Admitted? ==> !StoppedBy(failure, conn, t, admission)
  {
  }

  /** Why a job over a real source may stop. */
  ghost predicate StoppedBy(failure: Failure, conn: Connector, t: Turn, admission: Admission)
    requires ValidConnector(conn)
  {
    match failure
    case Cancelled => t.cancelled.Some?
    case Unlicensed => admission.LicenceLapsed?
    case TemplateError => admission.TemplateMissing?
    case _ => BrokeAt(failure, conn, t.weather, t.activities)
  }
}
