/** A job record and its writers: the API handlers, the workflow's final activity, the
    progress writer, the start recorders and the reconciler. Each writer is one guarded
    UPDATE; they may follow one another in any order. */
module JobLifecycle {
  import opened Options

  datatype JobStatus = Pending | Running | Paused | Succeeded | Failed | Cancelled

  /** Row outcomes of a job. */
  datatype Totals = Totals(processed: nat, failed: nat, unresolved: nat, total: nat)

  /** Counts of the same rows: every row is in at most one class. */
  predicate Counted(t: Totals) {
    t.processed + t.failed + t.unresolved <= t.total
  }

  datatype Outcome = Outcome(cancelled: bool, error: string)

  datatype Record = Record(
    status: JobStatus,
    totals: Option<Totals>,
    lastError: Option<string>,
    runId: Option<string>,
    startedAt: Option<int>,
    finishedAt: Option<int>,
    pausedAt: Option<int>,
    updatedAt: int)

  predicate Active(s: JobStatus) {
    s == Pending || s == Running || s == Paused
  }

  function TerminalStatus(t: Totals, o: Outcome): JobStatus {
    if o.cancelled then Cancelled
    else if o.error != "" then Failed
    else if t.failed > 0 || t.unresolved > 0 || t.total == 0 then Failed
    else Succeeded
  }

  /** Nothing went wrong: not cancelled, no error, some rows, and each of them processed. */
  predicate Clean(rows: Totals, o: Outcome) {
    !o.cancelled && o.error == "" && rows.total > 0 && rows.failed == 0 && rows.unresolved == 0
  }

  function Coalesce<T>(a: Option<T>, b: Option<T>): Option<T> {
    if a.Some? then a else b
  }

  // ----- the writers --------------------------------------------------------------------------

  datatype Write =
    | StartRecorded(runId: string)                 // start_job, after the workflow started
    | StartRefused(message: string)                // start_job, when no workflow can exist
    | ChildStarted(runId: string)                  // MarkJobRunning
    | PauseRecorded                                      // signal_and_record, pause
    | ResumeRecorded                                    // signal_and_record, resume
    | CancelRequested(rows: Totals)                // cancel_job
    | Progress(rows: Totals)                       // syncJobTotals
    | Finalized(rows: Totals, outcome: Outcome)    // the workflow's final activity
    | Reconciled(rows: Totals, outcome: Outcome)   // the reconciler's final transition
    | ReconciledRunning                            // the reconciler found the workflow running

  predicate Sane(w: Write) {
    match w
    case CancelRequested(rows) => Counted(rows)
    case Progress(rows) => Counted(rows)
    case Finalized(rows, _) => Counted(rows)
    case Reconciled(rows, _) => Counted(rows)
    case _ => true
  }

  /** The shared final UPDATE; `activeOnly` leaves terminal jobs alone. */
  function FinalizeRecord(r: Record, rows: Totals, o: Outcome, activeOnly: bool, now: int): Record {
    if activeOnly && !Active(r.status) then r
    else
      var lastError := Coalesce(if o.error == "" then None else Some(o.error), r.lastError);
      r.(status :=
           (if r.status == Cancelled then Cancelled
            else if TerminalStatus(rows, o) == Cancelled then Cancelled
            else if lastError.Some? then Failed
            else TerminalStatus(rows, o)),
         totals := Some(rows), lastError := lastError, finishedAt := Some(now), updatedAt := now)
  }

  function MarkRunning(r: Record, runId: string, now: int): Record {
    r.(status := if r.status == Pending then Running else r.status,
       runId := Some(runId), startedAt := Coalesce(r.startedAt, Some(now)), updatedAt := now)
  }

  /** The record after one writer's UPDATE. */
  function Apply(r: Record, w: Write, now: int): Record {
    match w
    case StartRecorded(runId) => MarkRunning(r, runId, now)
    case ChildStarted(runId) => MarkRunning(r, runId, now)
    case StartRefused(message) =>
      if r.status != Pending then r
      else r.(status := Failed, lastError := Some(message), finishedAt := Some(now), updatedAt := now)
    case PauseRecorded =>
      if r.status != Running then r else r.(status := Paused, pausedAt := Some(now), updatedAt := now)
    case ResumeRecorded =>
      if r.status != Paused then r else r.(status := Running, updatedAt := now)
    case CancelRequested(rows) =>
      if !Active(r.status) then r
      else r.(status := Cancelled, totals := Some(rows), finishedAt := Some(now), updatedAt := now)
    case Progress(rows) =>
      if r.status != Running then r else r.(totals := Some(rows), updatedAt := now)
    case Finalized(rows, outcome) => FinalizeRecord(r, rows, outcome, false, now)
    case Reconciled(rows, outcome) => FinalizeRecord(r, rows, outcome, true, now)
    case ReconciledRunning =>
      if r.status != Pending then r
      else r.(status := Running, startedAt := Coalesce(r.startedAt, Some(now)), updatedAt := now)
  }

  /** How asking the workflow service to cancel goes; a job may also have no workflow. */
  datatype CancelReply = CancelSent | NoWorkflow | Unreachable

  /** The stored record, updated in place by the handlers. */
  class Job {
    var record: Record

    constructor (now: int)
      ensures record == Record(Pending, None, None, None, None, None, None, now)
    {
      record := Record(Pending, None, None, None, None, None, None, now);
    }

    /** start_job: records the run, or the refusal of a start that reached no one. */
    method StartJob(started: Option<string>, reachedBridge: bool, message: string, now: int) returns (ok: bool)
      modifies this
      ensures ok == started.Some?
      ensures record == match started
                        case Some(runId) => Apply(old(record), StartRecorded(runId), now)
                        case None =>
                          if reachedBridge then old(record) else Apply(old(record), StartRefused(message), now)
    {
      if started.None? {
        if !reachedBridge && record.status == Pending {
          record := record.(status := Failed, lastError := Some(message), finishedAt := Some(now), updatedAt := now);
        }
        return false;
      }
      MarkJobRunning(started.value, now);
      ok := true;
    }

    method MarkJobRunning(runId: string, now: int)
      modifies this
      ensures record == Apply(old(record), ChildStarted(runId), now)
    {
      if record.status == Pending {
        record := record.(status := Running);
      }
      if record.startedAt.None? {
        record := record.(startedAt := Some(now));
      }
      record := record.(runId := Some(runId), updatedAt := now);
    }

    /** pause_job and resume_job: signalled first, recorded only from the expected status. */
    method SignalAndRecord(pause: bool, signalled: bool, now: int) returns (ok: bool)
      modifies this
      ensures
        record ==
          if signalled then Apply(old(record), if pause then PauseRecorded else ResumeRecorded, now) else old(record)
      ensures ok <==> signalled && old(record).status == if pause then Running else Paused
    {
      ok := signalled && record.status == if pause then Running else Paused;
      if ok {
        record := record.(status := if pause then Paused else Running, updatedAt := now);
        if pause {
          record := record.(pausedAt := Some(now));
        }
      }
    }

    /** cancel_job: a workflow that is gone is as good as cancelled; one that cannot be
        reached leaves the record alone. */
    method CancelJob(rows: Totals, cancelled: CancelReply, now: int) returns (ok: bool)
      modifies this
      ensures ok <==> cancelled != Unreachable && old(record).status in {Pending, Running, Paused}
      ensures ok ==> record.status == Cancelled && record.totals == Some(rows)
      ensures record == if cancelled == Unreachable then old(record) else Apply(old(record), CancelRequested(rows), now)
    {
      ok := cancelled != Unreachable && Active(record.status);
      if ok {
        record := record.(status := Cancelled, totals := Some(rows), finishedAt := Some(now), updatedAt := now);
      }
    }

    method SyncTotals(rows: Totals, now: int)
      modifies this
      ensures record == Apply(old(record), Progress(rows), now)
    {
      if record.status == Running {
        record := record.(totals := Some(rows), updatedAt := now);
      }
    }

    /** finalize: None stands for the reconciler meeting a job that is already terminal. */
    method Finalize(rows: Totals, o: Outcome, activeOnly: bool, now: int) returns (status: Option<JobStatus>)
      modifies this
      ensures record == FinalizeRecord(old(record), rows, o, activeOnly, now)
      ensures status.None? <==> activeOnly && old(record).status in {Succeeded, Failed, Cancelled}
      ensures status.None? ==> record == old(record)
      ensures status.Some? ==>
        && status.value == record.status && record.totals == Some(rows) && record.finishedAt == Some(now)
        && (record.status == Succeeded <==>
              old(record).status != Cancelled && old(record).lastError.None? && Clean(rows, o))
        && (record.status == Cancelled <==> old(record).status == Cancelled || o.cancelled)
        && record.status in {Succeeded, Failed, Cancelled}
        && record.lastError == if o.error == "" then old(record).lastError else Some(o.error)
    {
      if activeOnly && !Active(record.status) {
        return None;
      }
      var rowStatus := TerminalStatus(rows, o);
      var lastError := record.lastError;
      if o.error != "" {
        lastError := Some(o.error);
      }
      var next := rowStatus;
      if record.status == Cancelled || rowStatus == Cancelled {
        next := Cancelled;
      } else if lastError.Some? {
        next := Failed;
      }
      record := record.(
        status := next, totals := Some(rows), lastError := lastError, finishedAt := Some(now), updatedAt := now);
      status := Some(next);
    }
  }

  // ----- invariants over every interleaving -------------------------------------------------------

  ghost predicate RecordInv(r: Record) {
    && (r.lastError.Some? ==> r.status == Failed || r.status == Cancelled)
    && (r.status == Succeeded ==>
          r.totals.Some? && Counted(r.totals.value)
          && r.totals.value.failed == 0 && r.totals.value.unresolved == 0 && r.totals.value.total > 0)
    && (!Active(r.status) ==> r.finishedAt.Some?)
  }

  /** What one write may and may not do to what was there. */
  ghost predicate Legal(before: Record, after: Record) {
    && (!Active(before.status) ==> !Active(after.status))
    && (before.status == Cancelled ==> after.status == Cancelled)
    && (before.lastError.Some? ==> after.lastError.Some?)
    && (before.startedAt.Some? ==> after.startedAt == before.startedAt)
  }

  lemma WriteKeeps(r: Record, w: Write, now: int)
    requires RecordInv(r) && Sane(w)
    ensures RecordInv(Apply(r, w, now)) && Legal(r, Apply(r, w, now))
  {
  }

  predicate AllSane(writes: seq<Write>) {
    forall i :: 0 <= i < |writes| ==> Sane(writes[i])
  }

  /** The record after a whole history of writes, at the given instants. */
  function After(r: Record, writes: seq<Write>, clock: nat -> int): Record
    decreases |writes|
  {
    if writes == [] then r
    else Apply(After(r, writes[..|writes| - 1], clock), writes[|writes| - 1], clock(|writes| - 1))
  }

  lemma {:induction false} HistoryKeeps(r: Record, writes: seq<Write>, clock: nat -> int)
    requires RecordInv(r) && AllSane(writes)
    ensures RecordInv(After(r, writes, clock))
    decreases |writes|
  {
    if writes != [] {
      HistoryKeeps(r, writes[..|writes| - 1], clock);
      WriteKeeps(After(r, writes[..|writes| - 1], clock), writes[|writes| - 1], clock(|writes| - 1));
    }
  }

  /** Between any two points of any history: terminal stays terminal, cancelled stays
      cancelled, and a recorded error stays. */
  lemma {:induction false} HistoryIsLegal(r: Record, writes: seq<Write>, clock: nat -> int, m: nat)
    requires RecordInv(r) && AllSane(writes) && m <= |writes|
    ensures Legal(After(r, writes[..m], clock), After(r, writes, clock))
    decreases |writes|
  {
    if m == |writes| {
      assert writes[..m] == writes;
    } else {
      var front := writes[..|writes| - 1];
      assert front[..m] == writes[..m];
      HistoryIsLegal(r, front, clock, m);
      HistoryKeeps(r, front, clock);
      WriteKeeps(After(r, front, clock), writes[|writes| - 1], clock(|writes| - 1));
    }
  }

  /** A job whose execution failed outside its rows can never come to read as succeeded,
      however its rows are retried and finalized afterwards. */
  lemma ErrorIsNeverForgotten(r: Record, writes: seq<Write>, clock: nat -> int, m: nat)
    requires RecordInv(r) && AllSane(writes) && m <= |writes|
    requires After(r, writes[..m], clock).lastError.Some?
    ensures After(r, writes, clock).status in {Failed, Cancelled}
  {
    HistoryIsLegal(r, writes, clock, m);
    HistoryKeeps(r, writes, clock);
  }

  /** A write that neither cancels the job nor stores an error. */
  predicate Harmless(w: Write) {
    match w
    case StartRefused(_) => false
    case CancelRequested(_) => false
    case Finalized(_, o) => !o.cancelled && o.error == ""
    case Reconciled(_, o) => !o.cancelled && o.error == ""
    case _ => true
  }

  lemma {:induction false} HarmlessHistory(r: Record, writes: seq<Write>, clock: nat -> int)
    requires r.lastError.None? && r.status != Cancelled && forall i :: 0 <= i < |writes| ==> Harmless(writes[i])
    ensures After(r, writes, clock).lastError.None? && After(r, writes, clock).status != Cancelled
    decreases |writes|
  {
    if writes != [] {
      HarmlessHistory(r, writes[..|writes| - 1], clock);
    }
  }

  /** Whatever else was written before, if none of it cancelled the job or stored an error,
      the workflow's final write of a clean result leaves the job succeeded, and of any
      other result without a cancellation leaves it failed. */
  lemma CleanFinishSucceeds(r: Record, writes: seq<Write>, clock: nat -> int, rows: Totals, o: Outcome)
    requires r.lastError.None? && r.status != Cancelled && forall i :: 0 <= i < |writes| ==> Harmless(writes[i])
    requires !o.cancelled
    ensures After(r, writes + [Finalized(rows, o)], clock).status == if Clean(rows, o) then Succeeded else Failed
  {
    var all := writes + [Finalized(rows, o)];
    assert all[..|all| - 1] == writes;
    HarmlessHistory(r, writes, clock);
  }

  /** The same for the reconciler, when it meets the job still active. */
  lemma CleanRepairSucceeds(r: Record, writes: seq<Write>, clock: nat -> int, rows: Totals, o: Outcome)
    requires r.lastError.None? && r.status != Cancelled && forall i :: 0 <= i < |writes| ==> Harmless(writes[i])
    requires !o.cancelled && After(r, writes, clock).status in {Pending, Running, Paused}
    ensures After(r, writes + [Reconciled(rows, o)], clock).status == if Clean(rows, o) then Succeeded else Failed
  {
    var all := writes + [Reconciled(rows, o)];
    assert all[..|all| - 1] == writes;
    HarmlessHistory(r, writes, clock);
  }

  /** The workflow and the reconciler reaching the same conclusion, in either order, leave
      the same status and error. */
  lemma FinalizersAgree(r: Record, rows: Totals, o: Outcome, t1: int, t2: int)
    requires RecordInv(r) && Counted(rows)
    ensures
      var workflowFirst := Apply(Apply(r, Finalized(rows, o), t1), Reconciled(rows, o), t2);
      var reconcilerFirst := Apply(Apply(r, Reconciled(rows, o), t1), Finalized(rows, o), t2);
      workflowFirst.status == reconcilerFirst.status && workflowFirst.lastError == reconcilerFirst.lastError
      && workflowFirst.totals == reconcilerFirst.totals
  {
  }
}
