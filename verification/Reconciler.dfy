/** The reconciler: a paged pass over stale jobs whose workflow may have ended without
    recording an outcome, while every other writer keeps going. */
module Reconciler {
  import opened Options
  import opened Paging
  import opened JobLifecycle

  datatype WorkflowStatus =
    Unspecified | Executing | ContinuedAsNew | Completed | Canceled | Terminated | TimedOut | Failure

  /** What describing a workflow answers. */
  datatype View = NotFound | CallFailed | Found(status: WorkflowStatus)

  datatype JobRow = JobRow(record: Record, workflowId: string)

  type Table = map<int, JobRow>

  /** The world around one pass. `describe`, `rows` and `writeFails` answer for each job;
      `others` is what all other writers do to the table before the pass's n-th access. */
  datatype World = World(
    clock: nat -> int,
    describe: int -> View,
    rows: int -> Totals,
    writeFails: int -> bool,
    cancelled: int -> bool,
    queryFails: nat -> bool,
    others: (nat, Table) -> Table)

  /** Time does not go back, other writers add or remove no job, and they leave the quiet
      jobs alone. */
  ghost predicate Fair(w: World, quiet: set<int>) {
    && (forall i, j :: 0 <= i <= j ==> w.clock(i) <= w.clock(j))
    && (forall n, t :: w.others(n, t).Keys == t.Keys)
    && (forall n, t, id :: id in quiet && id in t ==> w.others(n, t)[id] == t[id])
  }

  const PAGE_SIZE := 200

  datatype Repair = Repair(finalize: bool, outcome: Outcome)

  const NOT_FOUND := "workflow not found: it never started or its history has expired"
  const TERMINATED := "workflow was terminated before recording its outcome"
  const TIMED_OUT := "workflow timed out before recording its outcome"
  const FAILED := "workflow failed before recording its outcome"

  function RepairFor(status: WorkflowStatus, found: bool): Repair {
    if !found then Repair(true, Outcome(false, NOT_FOUND))
    else match status
      case Executing => Repair(false, Outcome(false, ""))
      case ContinuedAsNew => Repair(false, Outcome(false, ""))
      case Completed => Repair(true, Outcome(false, ""))
      case Canceled => Repair(true, Outcome(true, ""))
      case Terminated => Repair(true, Outcome(false, TERMINATED))
      case TimedOut => Repair(true, Outcome(false, TIMED_OUT))
      case _ => Repair(true, Outcome(false, FAILED))
  }

  // ----- specification ----------------------------------------------------------------------

  predicate Stale(r: Record, now: int, staleAfter: int) {
    Active(r.status) && r.updatedAt < now - staleAfter
  }

  /** The job is not over, and nothing was written to it for longer than allowed. */
  predicate Overdue(r: Record, now: int, staleAfter: int) {
    r.status in {Pending, Running, Paused} && now - r.updatedAt > staleAfter
  }

  function StaleIds(table: Table, now: int, staleAfter: int): set<int> {
    set id | id in table && Stale(table[id].record, now, staleAfter) :: id
  }

  /** What the workflow service knows of a job; a job without a workflow id has none. */
  function ViewOf(w: World, id: int, row: JobRow): View {
    if row.workflowId == "" then NotFound else w.describe(id)
  }

  /** No workflow can still record this job's outcome. */
  predicate Gone(v: View) {
    v.NotFound? || (v.Found? && v.status != Executing && v.status != ContinuedAsNew)
  }

  /** This active job calls for a write. */
  predicate CallsForRepair(w: World, id: int, row: JobRow) {
    var view := ViewOf(w, id, row);
    Gone(view) || (view.Found? && view.status == Executing && row.record.status == Pending)
  }

  /** Describing or writing this job fails. */
  predicate Fails(w: World, id: int) {
    w.describe(id).CallFailed? || w.writeFails(id)
  }

  /** The only two reasons to give a pass up: a page could not be read, or a job failed when
      the process was being stopped. */
  ghost predicate Interrupted(w: World, table: Table, steps: nat) {
    w.queryFails(steps) || exists id :: id in table && w.cancelled(id) && Fails(w, id)
  }

  /** The pass can and should write it. */
  predicate Repairable(w: World, id: int, row: JobRow) {
    !w.writeFails(id) && CallsForRepair(w, id, row)
  }

  /** The one write a pass makes to an active job, if any. */
  function Settle(w: World, id: int, row: JobRow, now: int): JobRow {
    var view := ViewOf(w, id, row);
    if !Repairable(w, id, row) then row
    else if Gone(view) then
      var repair := RepairFor(if view.Found? then view.status else Unspecified, view.Found?);
      row.(record := Apply(row.record, Reconciled(w.rows(id), repair.outcome), now))
    else row.(record := Apply(row.record, ReconciledRunning, now))
  }

  /** A job was settled at some instant of the pass. */
  ghost predicate SettledIn(w: World, id: int, before: JobRow, after: JobRow) {
    exists n: nat {:trigger w.clock(n)} :: after == Settle(w, id, before, w.clock(n))
  }

  /** What the pass leaves of one job that nobody else wrote. */
  ghost predicate Handled(w: World, staleAfter: int, id: int, before: JobRow, after: JobRow) {
    if Overdue(before.record, w.clock(0), staleAfter) then SettledIn(w, id, before, after)
    else after == before || SettledIn(w, id, before, after)
  }

  /** A settled job whose workflow is gone is terminal. */
  lemma GoneIsTerminal(w: World, id: int, before: JobRow, after: JobRow)
    requires SettledIn(w, id, before, after) && Gone(ViewOf(w, id, before)) && !w.writeFails(id)
    ensures !Active(after.record.status)
  {
    var n: nat :| after == Settle(w, id, before, w.clock(n));
    SettleGone(w, id, before, w.clock(n));
  }

  lemma SettleGone(w: World, id: int, row: JobRow, now: int)
    requires Gone(ViewOf(w, id, row)) && !w.writeFails(id)
    ensures !Active(Settle(w, id, row, now).record.status)
  {
    var view := ViewOf(w, id, row);
    var o := RepairFor(if view.Found? then view.status else Unspecified, view.Found?).outcome;
    FinalIsTerminal(row.record, w.rows(id), o, now);
  }

  lemma FinalIsTerminal(r: Record, rows: Totals, o: Outcome, now: int)
    ensures !Active(Apply(r, Reconciled(rows, o), now).status)
  {
  }

  /** What the workflow's end makes of a job nothing went wrong with so far: a completed one
      reads as its rows say, a cancelled one as cancelled, and any other end as a failure
      that names it. */
  lemma SettledAsEnded(w: World, id: int, before: JobRow, after: JobRow)
    requires SettledIn(w, id, before, after) && Gone(ViewOf(w, id, before)) && !w.writeFails(id)
    requires before.record.status in {Pending, Running, Paused} && before.record.lastError.None?
    ensures after.record.totals == Some(w.rows(id))
    ensures
      match ViewOf(w, id, before)
      case Found(Completed) =>
        && after.record.lastError.None?
        && after.record.status ==
           if Clean(w.rows(id), Outcome(false, "")) then JobStatus.Succeeded else JobStatus.Failed
      case Found(Canceled) => after.record.status == JobStatus.Cancelled && after.record.lastError.None?
      case Found(Terminated) => FailedWith(after.record, TERMINATED)
      case Found(TimedOut) => FailedWith(after.record, TIMED_OUT)
      case Found(_) => FailedWith(after.record, FAILED)
      case _ => FailedWith(after.record, NOT_FOUND)
  {
    var n: nat :| after == Settle(w, id, before, w.clock(n));
  }

  predicate FailedWith(r: Record, message: string) {
    r.status == JobStatus.Failed && r.lastError == Some(message)
  }

  /** A job whose workflow is running or unreachable is never given an outcome. */
  lemma OwnedIsLeftAlone(w: World, id: int, before: JobRow, after: JobRow)
    requires SettledIn(w, id, before, after) && !Gone(ViewOf(w, id, before))
    ensures
      after.record.status == before.record.status || (before.record.status == Pending && after.record.status == Running)
    ensures after.record.totals == before.record.totals && after.record.lastError == before.record.lastError
  {
    var n: nat :| after == Settle(w, id, before, w.clock(n));
  }

  // ----- the pass -----------------------------------------------------------------------------

  /** Progress of a pass over the quiet jobs: all up to `upTo` are handled, the rest as before. */
  ghost predicate Sweeping(w: World, staleAfter: int, quiet: set<int>, before: Table, now: Table, upTo: int) {
    && now.Keys == before.Keys
    && (forall id :: id in quiet && id in before && id <= upTo ==> Handled(w, staleAfter, id, before[id], now[id]))
    && (forall id :: id in quiet && id in before && id > upTo ==> now[id] == before[id])
  }

  /** The UPDATE a repair makes. */
  function Repaired(row: JobRow, repair: Repair, rows: Totals, now: int): JobRow {
    row.(record :=
      Apply(row.record, if repair.finalize then Reconciled(rows, repair.outcome) else ReconciledRunning, now))
  }

  lemma RepairSettles(w: World, id: int, row: JobRow, seen: WorkflowStatus, found: bool, now: int)
    requires Active(row.record.status) && !w.writeFails(id)
    requires ViewOf(w, id, row) == if found then Found(seen) else NotFound
    requires !found ==> seen == Unspecified
    requires RepairFor(seen, found).finalize || (row.record.status == Pending && seen == Executing)
    ensures Repaired(row, RepairFor(seen, found), w.rows(id), now) == Settle(w, id, row, now) && Repairable(w, id, row)
  {
  }

  lemma NotRepaired(w: World, id: int, row: JobRow)
    requires !Repairable(w, id, row)
    ensures SettledIn(w, id, row, row)
  {
    assert row == Settle(w, id, row, w.clock(0));
  }

  ghost predicate SweptAll(w: World, staleAfter: int, quiet: set<int>, before: Table, now: Table) {
    && now.Keys == before.Keys
    && (forall id :: id in quiet && id in before ==> Handled(w, staleAfter, id, before[id], now[id]))
  }

  /** A quiet job not yet reached is as stale as it was, or more. */
  lemma StaleStays(w: World, staleAfter: int, quiet: set<int>, before: Table, now: Table, upTo: int, step: nat)
    requires Fair(w, quiet) && Sweeping(w, staleAfter, quiet, before, now, upTo)
    ensures
      forall id :: id in quiet && id in before && id > upTo && Stale(before[id].record, w.clock(0), staleAfter) ==>
        id in StaleIds(now, w.clock(step), staleAfter)
  {
    assert w.clock(0) <= w.clock(step);
  }

  lemma SweepJob(w: World, staleAfter: int, quiet: set<int>, before: Table, was: Table, now: Table, upTo: int, id: int)
    requires Sweeping(w, staleAfter, quiet, before, was, upTo) && upTo < id && now.Keys == was.Keys
    requires forall k :: k in quiet && k in was && k != id ==> now[k] == was[k]
    requires id in quiet && id in was ==> SettledIn(w, id, was[id], now[id])
    requires forall k :: k in quiet && k in before && upTo < k < id ==> !Stale(before[k].record, w.clock(0), staleAfter)
    ensures Sweeping(w, staleAfter, quiet, before, now, id)
  {
  }

  lemma SweepEnd(w: World, staleAfter: int, quiet: set<int>, before: Table, now: Table, upTo: int)
    requires Sweeping(w, staleAfter, quiet, before, now, upTo)
    requires forall k :: k in quiet && k in before && k > upTo ==> !Stale(before[k].record, w.clock(0), staleAfter)
    ensures SweptAll(w, staleAfter, quiet, before, now)
  {
  }

  /** The jobs repaired so far: of the quiet ones up to the cursor, those that called for it. */
  ghost predicate Tallied(
    w: World, staleAfter: int, quiet: set<int>, before: Table, repaired: nat, mended: set<int>, upTo: int
  ) {
    && repaired == |mended| && (forall id :: id in mended ==> id in before && id <= upTo)
    && (forall id :: id in mended && id in quiet ==> Repairable(w, id, before[id]))
    && (forall id :: id in quiet && id in before && id <= upTo && Overdue(before[id].record, w.clock(0), staleAfter) ==>
          (id in mended <==> Repairable(w, id, before[id])))
  }

  lemma TallyJob(
    w: World, staleAfter: int, quiet: set<int>, before: Table, repaired: nat, mended: set<int>, upTo: int, id: int,
    fixed: bool
  )
    requires Tallied(w, staleAfter, quiet, before, repaired, mended, upTo) && upTo < id && id in before
    requires id in quiet ==> fixed == Repairable(w, id, before[id])
    requires forall k :: k in quiet && k in before && upTo < k < id ==> !Stale(before[k].record, w.clock(0), staleAfter)
    ensures Tallied(w, staleAfter, quiet, before, repaired + (if fixed then 1 else 0),
              if fixed then mended + {id} else mended, id)
  {
  }

  /** Once nothing stale is left beyond the cursor, the count covers every quiet stale job. */
  ghost predicate TalliedAll(
    w: World, staleAfter: int, quiet: set<int>, before: Table, repaired: nat, mended: set<int>
  ) {
    && repaired == |mended| && (forall id :: id in mended ==> id in before)
    && (forall id :: id in mended && id in quiet ==> Repairable(w, id, before[id]))
    && (forall id :: id in quiet && id in before && Overdue(before[id].record, w.clock(0), staleAfter) ==>
          (id in mended <==> Repairable(w, id, before[id])))
  }

  class Jobs {
    var table: Table
    var steps: nat

    constructor (table: Table)
      ensures this.table == table && steps == 0
    {
      this.table, steps := table, 0;
    }

    /** Everyone else's writes, before this pass's next access. */
    method Yield(w: World, ghost quiet: set<int>)
      requires Fair(w, quiet)
      modifies this
      ensures table.Keys == old(table).Keys && forall id :: id in quiet && id in table ==> table[id] == old(table)[id]
      ensures steps == old(steps) + 1 && table == w.others(old(steps), old(table))
    {
      table := w.others(steps, table);
      steps := steps + 1;
    }

    method StaleJobs(w: World, staleAfter: int, after: int, ghost quiet: set<int>) returns (page: seq<int>, ok: bool)
      requires Fair(w, quiet)
      modifies this
      ensures table.Keys == old(table).Keys
      ensures forall id :: id in quiet && id in table ==> table[id] == old(table)[id]
      ensures ok <==> !w.queryFails(steps)
      ensures steps == old(steps) + 1
      ensures ok ==> IsPage(StaleIds(table, w.clock(steps), staleAfter), after, PAGE_SIZE, page)
      ensures ok ==> forall id :: id in page ==> id in table && Overdue(table[id].record, w.clock(steps), staleAfter)
    {
      Yield(w, quiet);
      ok := !w.queryFails(steps);
      var now := w.clock(steps);
      page := SelectPage(StaleIds(table, now, staleAfter), after, PAGE_SIZE);
    }

    method WriteRepair(id: int, repair: Repair, rows: Totals, now: int) returns (repaired: bool)
      requires id in table
      modifies this`table
      ensures table == old(table)[id := Repaired(old(table)[id], repair, rows, now)]
      ensures
        repaired ==
          if repair.finalize then Active(old(table)[id].record.status) else old(table)[id].record.status == Pending
    {
      var row := table[id];
      if repair.finalize {
        repaired := Active(row.record.status);
        table := table[id := row.(record := FinalizeRecord(row.record, rows, repair.outcome, true, now))];
      } else {
        repaired := row.record.status == Pending;
        if repaired {
          var startedAt := if row.record.startedAt.Some? then row.record.startedAt else Some(now);
          row := row.(record := row.record.(status := Running, startedAt := startedAt, updatedAt := now));
        }
        table := table[id := row];
      }
    }

    /** Asks for the job's workflow, if it ever had one. */
    method Describe(w: World, id: int, row: JobRow) returns (described: bool, found: bool, seen: WorkflowStatus)
      ensures !described <==> ViewOf(w, id, row).CallFailed?
      ensures described ==> ViewOf(w, id, row) == if found then Found(seen) else NotFound
      ensures !found ==> seen == Unspecified
    {
      described, found, seen := true, false, Unspecified;
      if row.workflowId != "" {
        var view := w.describe(id);
        match view {
          case CallFailed => described := false;
          case Found(status) => found, seen := true, status;
          case NotFound =>
        }
      }
    }

    /** `status` is what the page said; the row may have changed since. */
    method Reconcile(w: World, id: int, status: JobStatus, ghost quiet: set<int>) returns (repaired: bool, failed: bool)
      requires Fair(w, quiet) && id in table
      requires id in quiet ==> status == table[id].record.status && Active(status)
      modifies this
      ensures table.Keys == old(table).Keys
      ensures forall k :: k in quiet && k in table && k != id ==> table[k] == old(table)[k]
      ensures id in quiet ==> SettledIn(w, id, old(table)[id], table[id])
      ensures id in quiet ==> repaired == Repairable(w, id, old(table)[id])
      ensures id in quiet ==>
        var row := old(table)[id];
        failed == (ViewOf(w, id, row).CallFailed? || (w.writeFails(id) && CallsForRepair(w, id, row)))
      ensures failed ==> Fails(w, id) && !repaired
    {
      Yield(w, quiet);
      var row := table[id];
      var described, found, seen := Describe(w, id, row);
      if !described {
        NotRepaired(w, id, row);
        return false, true;
      }
      var repair := RepairFor(seen, found);
      if w.writeFails(id) || (!repair.finalize && (status != Pending || seen != Executing)) {
        if id in quiet {
          NotRepaired(w, id, row);
        }
        return false, w.writeFails(id) && (repair.finalize || (status == Pending && seen == Executing));
      }
      Yield(w, quiet);
      failed := false;
      repaired := WriteRepair(id, repair, w.rows(id), w.clock(steps));
      if id in quiet {
        RepairSettles(w, id, row, seen, found, w.clock(steps));
      }
    }

    /** The next job of a page. */
    method ReconcileNext(
      w: World, staleAfter: int, ghost upTo: int, id: int, status: JobStatus, repaired0: nat, ghost quiet: set<int>,
      ghost before: Table, ghost mended0: set<int>
    )
      returns (repaired: nat, failed: bool, ghost mended: set<int>)
      requires Fair(w, quiet) && id in table && upTo < id
      requires id in quiet ==> status == table[id].record.status && Active(status)
      requires Sweeping(w, staleAfter, quiet, before, table, upTo)
      requires Tallied(w, staleAfter, quiet, before, repaired0, mended0, upTo)
      requires
        forall k :: k in quiet && k in before && upTo < k < id ==> !Stale(before[k].record, w.clock(0), staleAfter)
      modifies this
      ensures Sweeping(w, staleAfter, quiet, before, table, id)
      ensures Tallied(w, staleAfter, quiet, before, repaired, mended, id)
      ensures failed ==> Fails(w, id)
    {
      ghost var was := table;
      var fixed;
      fixed, failed := Reconcile(w, id, status, quiet);
      SweepJob(w, staleAfter, quiet, before, was, table, upTo, id);
      TallyJob(w, staleAfter, quiet, before, repaired0, mended0, upTo, id, fixed);
      repaired, mended := repaired0, mended0;
      if fixed {
        repaired, mended := repaired + 1, mended + {id};
      }
    }

    /** One page; every job on it is looked at once, whatever goes wrong with some of them. */
    method ReconcilePage(
      w: World, staleAfter: int, start: int, page: seq<int>, repaired0: nat, ghost quiet: set<int>,
      ghost before: Table, ghost mended0: set<int>
    )
      returns (after: int, repaired: nat, ok: bool, ghost mended: set<int>)
      requires Fair(w, quiet) && IsPage(StaleIds(table, w.clock(steps), staleAfter), start, PAGE_SIZE, page)
      requires Sweeping(w, staleAfter, quiet, before, table, start)
      requires Tallied(w, staleAfter, quiet, before, repaired0, mended0, start)
      modifies this
      ensures Sweeping(w, staleAfter, quiet, before, table, after)
      ensures Tallied(w, staleAfter, quiet, before, repaired, mended, after)
      ensures ok ==> after == if page == [] then start else page[|page| - 1]
      ensures ok && |page| < PAGE_SIZE ==>
        && SweptAll(w, staleAfter, quiet, before, table)
        && TalliedAll(w, staleAfter, quiet, before, repaired, mended)
      ensures !ok ==> exists id :: id in page && w.cancelled(id) && Fails(w, id)
    {
      after, ok, repaired, mended := start, true, repaired0, mended0;
      ghost var stale := StaleIds(table, w.clock(steps), staleAfter);
      var statuses := map id | id in table :: table[id].record.status;
      StaleStays(w, staleAfter, quiet, before, table, start, steps);
      for i := 0 to |page|
        invariant after == if i == 0 then start else page[i - 1]
        invariant start <= after && Sweeping(w, staleAfter, quiet, before, table, after)
        invariant Tallied(w, staleAfter, quiet, before, repaired, mended, after)
      {
        assert page[i] in page;
        forall id | id in quiet && id in before && after < id < page[i]
          ensures !Stale(before[id].record, w.clock(0), staleAfter)
        {
          if id in stale {
            PagePrefix(stale, start, PAGE_SIZE, page, i, id);
          }
        }
        var failed;
        repaired, failed, mended :=
          ReconcileNext(w, staleAfter, after, page[i], statuses[page[i]], repaired, quiet, before, mended);
        after := page[i];
        if failed && w.cancelled(page[i]) {
          return after, repaired, false, mended;
        }
      }
      if |page| < PAGE_SIZE {
        assert forall id :: id in quiet && id in before && id > after ==> id !in stale;
        SweepEnd(w, staleAfter, quiet, before, table, after);
      }
    }

    /** One whole pass. Unless a query fails or the process is stopped, every job that was
        stale when it began and that nobody else wrote has been settled; other quiet jobs
        were settled or left as they were; and the pass ends. */
    method Pass(w: World, staleAfter: int, locked: bool, ghost quiet: set<int>)
      returns (repaired: nat, ok: bool, ghost mended: set<int>)
      requires Fair(w, quiet) && steps == 0 && forall id :: id in table ==> id > 0
      modifies this
      ensures !ok ==> locked && Interrupted(w, table, steps)
      ensures !locked ==> table == old(table) && repaired == 0
      // The number returned is that of the jobs repaired, whatever happened.
      ensures repaired == |mended|
      ensures forall id :: id in mended ==> id in old(table) && (id in quiet ==> Repairable(w, id, old(table)[id]))
      ensures locked ==>
        forall id :: id in quiet && id in old(table) ==>
          id in table && (table[id] == old(table)[id] || SettledIn(w, id, old(table)[id], table[id]))
      ensures locked && ok ==>
        && SweptAll(w, staleAfter, quiet, old(table), table)
        && TalliedAll(w, staleAfter, quiet, old(table), repaired, mended)
    {
      repaired, ok, mended := 0, true, {};
      if !locked {
        return;
      }
      ghost var before := table;
      var after := 0;
      while true
        invariant Sweeping(w, staleAfter, quiet, before, table, after)
        invariant Tallied(w, staleAfter, quiet, before, repaired, mended, after)
        decreases set id | id in before && id > after
      {
        var page;
        page, ok := StaleJobs(w, staleAfter, after, quiet);
        if !ok {
          return;
        }
        assert forall id :: id in page ==> id in before;
        ghost var ahead := set id | id in before && id > after;
        after, repaired, ok, mended := ReconcilePage(w, staleAfter, after, page, repaired, quiet, before, mended);
        if !ok {
          return;
        }
        if |page| < PAGE_SIZE {
          return;
        }
        assert after == page[|page| - 1] && after in page;
        assert after in ahead;
      }
    }
  }
}
