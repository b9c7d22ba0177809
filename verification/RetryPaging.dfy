/** Bulk retry of failed rows: pages of failed rows above a cursor, handed on across
    continue-as-new runs, while the very rows being retried, and others, change status. */
module RetryPaging {
  import opened Options
  import opened Paging

  const PAGE_LIMIT := 200
  const DEFAULT_LIMIT := 500
  const ROWS_PER_RUN := 2000

  datatype RowStatus = Pending | Running | Succeeded | Failed | Skipped | Unresolved

  type Rows = map<int, RowStatus>

  /** How the retry of one row goes: the status it leaves, and whether it returned an
      error, which ends the workflow. */
  datatype Retry = Retry(status: RowStatus, ok: bool)

  datatype RunEnd = Done | ContinueAsNew(after: int) | Error

  /** How each row's retry goes, and what all other writers do to the rows before this
      workflow's n-th access to them. */
  datatype World = World(retries: int -> Retry, others: (nat, Rows) -> Rows)

  /** Other writers add or remove no row, and leave the quiet ones alone. */
  ghost predicate Fair(w: World, quiet: set<int>) {
    && (forall n, rows :: w.others(n, rows).Keys == rows.Keys)
    && (forall n, rows, k :: k in quiet && k in rows ==> w.others(n, rows)[k] == rows[k])
  }

  function FailedRows(status: Rows): set<int> {
    set k | k in status && status[k] == Failed
  }

  /** Rows were attempted once each, in ascending order; of the quiet ones only those that
      were failed, and no other quiet row changed. */
  ghost predicate OnlyFailedRetried(quiet: set<int>, initial: Rows, now: Rows, attempted: seq<int>) {
    && now.Keys == initial.Keys && Increasing(attempted)
    && (forall k :: k in attempted ==> k in initial)
    && (forall k :: k in attempted && k in quiet ==> k in FailedRows(initial))
    && (forall k :: k in initial && k in quiet && k !in attempted ==> now[k] == initial[k])
  }

  /** Moreover every quiet row that was failed, up to the cursor, was attempted. */
  ghost predicate Swept(quiet: set<int>, initial: Rows, now: Rows, attempted: seq<int>, cursor: int) {
    && OnlyFailedRetried(quiet, initial, now, attempted)
    && (forall k :: k in attempted ==> k <= cursor)
    && (forall k :: k in FailedRows(initial) && k in quiet && k <= cursor ==> k in attempted)
  }

  /** Every retry so far returned without an error. */
  predicate AllRetried(w: World, attempted: seq<int>) {
    forall i :: 0 <= i < |attempted| ==> w.retries(attempted[i]).ok
  }

  /** The last retry, and only it, returned an error. */
  predicate CutShort(w: World, attempted: seq<int>) {
    && attempted != [] && !w.retries(attempted[|attempted| - 1]).ok
    && AllRetried(w, attempted[..|attempted| - 1])
  }

  lemma {:induction false} IncreasingSize(s: seq<int>, bound: set<int>)
    requires Increasing(s) && forall k :: k in s ==> k in bound
    ensures |s| <= |bound|
  {
    if s != [] {
      var last := s[|s| - 1];
      assert last in s;
      var front := s[..|s| - 1];
      forall k | k in front ensures k in bound - {last} {
        var i :| 0 <= i < |front| && front[i] == k;
        assert s[i] in s;
      }
      IncreasingSize(front, bound - {last});
    }
  }

  /** Others' writes do not disturb the sweep. */
  lemma SweepStays(w: World, quiet: set<int>, initial: Rows, now: Rows, attempted: seq<int>, cursor: int, n: nat)
    requires Fair(w, quiet) && Swept(quiet, initial, now, attempted, cursor)
    ensures Swept(quiet, initial, w.others(n, now), attempted, cursor)
  {
  }

  /** Retrying the next row of a page keeps the sweep. */
  lemma SweepNext(quiet: set<int>, initial: Rows, now: Rows, attempted: seq<int>, cursor: int, row: int, r: RowStatus)
    requires Swept(quiet, initial, now, attempted, cursor) && cursor < row && row in initial
    requires row in quiet ==> row in FailedRows(initial)
    requires forall k :: k in FailedRows(initial) && k in quiet && cursor < k <= row ==> k == row
    ensures Swept(quiet, initial, now[row := r], attempted + [row], row)
  {
    assert forall i :: 0 <= i < |attempted| ==> attempted[i] in attempted;
  }

  class JobRows {
    var status: Rows
    var attempted: seq<int>
    var steps: nat

    constructor (status: Rows)
      ensures this.status == status && attempted == [] && steps == 0
    {
      this.status, attempted, steps := status, [], 0;
    }

    /** Everyone else's writes, before this workflow's next access. */
    method Yield(w: World)
      modifies this
      ensures steps == old(steps) + 1
      ensures status == w.others(old(steps), old(status)) && attempted == old(attempted)
    {
      status := w.others(steps, status);
      steps := steps + 1;
    }

    method ListFailedRows(after: int, limit: int) returns (page: seq<int>, done: bool)
      ensures IsPage(FailedRows(status), after, if limit <= 0 then DEFAULT_LIMIT else limit, page)
      ensures done <==> |page| < if limit <= 0 then DEFAULT_LIMIT else limit
    {
      var size := if limit <= 0 then DEFAULT_LIMIT else limit;
      page := SelectPage(FailedRows(status), after, size);
      done := |page| < size;
    }

    method RetryPersistedRow(row: int, retry: Retry) returns (ok: bool)
      requires row in status
      modifies this
      ensures attempted == old(attempted) + [row] && status == old(status)[row := retry.status] && ok == retry.ok
    {
      attempted := attempted + [row];
      status := status[row := retry.status];
      ok := retry.ok;
    }

    /** The rows of one page; the cursor follows them. */
    method RetryPage(page: seq<int>, start: int, limit: nat, w: World, ghost quiet: set<int>, ghost initial: Rows)
      returns (cursor: int, ok: bool)
      requires Fair(w, quiet) && IsPage(FailedRows(status), start, limit, page)
      requires Swept(quiet, initial, status, attempted, start) && AllRetried(w, attempted)
      modifies this
      ensures Swept(quiet, initial, status, attempted, cursor)
      ensures if ok then AllRetried(w, attempted) else CutShort(w, attempted) && cursor == attempted[|attempted| - 1]
      ensures ok ==> cursor == if page == [] then start else page[|page| - 1]
      ensures ok ==> |attempted| == old(|attempted|) + |page|
      ensures ok && |page| < limit ==> forall k :: k in FailedRows(initial) && k in quiet ==> k in attempted
    {
      cursor := start;
      ghost var keys := FailedRows(status);
      assert forall k :: k > start && k in quiet ==> (k in keys <==> k in FailedRows(initial));
      for i := 0 to |page|
        invariant cursor == if i == 0 then start else page[i - 1]
        invariant start <= cursor && Swept(quiet, initial, status, attempted, cursor)
        invariant |attempted| == old(|attempted|) + i && AllRetried(w, attempted)
      {
        assert page[i] in page;
        forall k | k in FailedRows(initial) && k in quiet && cursor < k <= page[i] ensures k == page[i] {
          PagePrefix(keys, start, limit, page, i, k);
        }
        SweepStays(w, quiet, initial, status, attempted, cursor, steps);
        Yield(w);
        SweepNext(quiet, initial, status, attempted, cursor, page[i], w.retries(page[i]).status);
        cursor := page[i];
        ok := RetryPersistedRow(page[i], w.retries(page[i]));
        if !ok {
          return;
        }
      }
      ok := true;
      if |page| < limit {
        forall k | k in FailedRows(initial) && k in quiet ensures k in attempted {
          if k > start {
            assert k in page;
            var j :| 0 <= j < |page| && page[j] == k;
          }
        }
      }
    }

    /** One workflow run: pages until none is left, or enough rows were retried. */
    method RunOnce(after: Option<int>, w: World, ghost quiet: set<int>, ghost initial: Rows) returns (end: RunEnd)
      requires Fair(w, quiet) && Swept(quiet, initial, status, attempted, after.GetOr(-1)) && AllRetried(w, attempted)
      modifies this
      ensures OnlyFailedRetried(quiet, initial, status, attempted)
      ensures if end.Error? then CutShort(w, attempted) else AllRetried(w, attempted)
      ensures end.Error? ==> Swept(quiet, initial, status, attempted, attempted[|attempted| - 1])
      ensures end.Done? ==> forall k :: k in FailedRows(initial) && k in quiet ==> k in attempted
      ensures end.ContinueAsNew? ==>
        && Swept(quiet, initial, status, attempted, end.after)
        && old(|attempted|) + ROWS_PER_RUN <= |attempted| < old(|attempted|) + ROWS_PER_RUN + PAGE_LIMIT
    {
      var cursor := after.GetOr(-1);
      var processed := 0;
      while true
        invariant Swept(quiet, initial, status, attempted, cursor) && AllRetried(w, attempted)
        invariant |attempted| == old(|attempted|) + processed && processed < ROWS_PER_RUN
        decreases |initial.Keys| - |attempted|
      {
        IncreasingSize(attempted, initial.Keys);
        SweepStays(w, quiet, initial, status, attempted, cursor, steps);
        Yield(w);
        var page, done := ListFailedRows(cursor, PAGE_LIMIT);
        if page == [] {
          assert forall k :: k in FailedRows(initial) && k in quiet && k !in attempted ==>
              k in FailedRows(status) && k > cursor;
          return Done;
        }
        var ok;
        cursor, ok := RetryPage(page, cursor, PAGE_LIMIT, w, quiet, initial);
        if !ok {
          return Error;
        }
        processed := processed + |page|;
        if done {
          return Done;
        }
        if processed >= ROWS_PER_RUN {
          return ContinueAsNew(cursor);
        }
        IncreasingSize(attempted, initial.Keys);
      }
    }

    /** The whole bulk retry, however the rows turn out and whatever others write. No row is
        attempted twice; of the rows nobody else writes, exactly those that were failed at the
        start are attempted, in ascending order, and the others stay as they were; an error
        cuts the list short. Rows that fail again are not tried again, so it ends. */
    method RetryFailedRows(w: World, ghost quiet: set<int>) returns (ok: bool)
      requires Fair(w, quiet) && attempted == [] && forall k :: k in status ==> k >= 0
      modifies this
      ensures OnlyFailedRetried(quiet, old(status), status, attempted)
      // It fails exactly when a retry does, and then every failed row before that one was attempted.
      ensures if ok then AllRetried(w, attempted) else CutShort(w, attempted)
      ensures ok <==> forall k :: k in attempted ==> w.retries(k).ok
      ensures !ok ==> Swept(quiet, old(status), status, attempted, attempted[|attempted| - 1])
      ensures ok ==>
        forall k :: k in quiet ==> (k in attempted <==> k in old(status) && old(status)[k] == RowStatus.Failed)
    {
      ghost var initial := status;
      var after: Option<int> := None;
      while true
        invariant Swept(quiet, initial, status, attempted, after.GetOr(-1)) && AllRetried(w, attempted)
        decreases |initial.Keys| - |attempted|
      {
        IncreasingSize(attempted, initial.Keys);
        var end := RunOnce(after, w, quiet, initial);
        if !end.ContinueAsNew? {
          return end.Done?;
        }
        IncreasingSize(attempted, initial.Keys);
        after := Some(end.after);
      }
    }
  }
}
