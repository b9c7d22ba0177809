/** Source connectors that resume from an offset: CSV and JSON sources count delivered
    rows; the Salesforce connector names its query job, a page of that job's result and the
    rows to skip on it. */
module Connectors {
  import opened Options

  datatype Row = Row(index: int, data: string)

  datatype Offset = Offset(items: int, sfJob: string, sfLocator: string, sfSkip: int)

  const START := Offset(0, "", "", 0)

  datatype NextResult =
    | More(row: Row, offset: Offset)
    | End(offset: Offset)
    | NotReady(offset: Offset)
    | InvalidOffset(offset: Offset)
    | Failure(offset: Offset)

  // ----- CSV and JSON -----------------------------------------------------------------------

  /** A source read front to back; `pos` is the reader, `idx` the row counter. */
  class ListIter {
    const source: seq<string>
    var pos: nat
    var idx: int

    ghost predicate Valid()
      reads this
    {
      pos <= |source| && idx == pos
    }

    /** Skips the delivered rows; a source that ends early stops the skip silently. */
    constructor OpenCsv(source: seq<string>, offset: Offset)
      ensures Valid() && this.source == source
      ensures idx == if offset.items < 0 then 0 else if offset.items > |source| then |source| else offset.items
    {
      this.source := source;
      var p, i, n := 0, 0, 0;
      while i < offset.items
        invariant 0 <= i && p <= |source| && n == p
        invariant i == p && (if offset.items >= 0 then i <= offset.items else i == 0)
      {
        if p == |source| {
          break;
        }
        p, n, i := p + 1, n + 1, i + 1;
      }
      pos, idx := p, n;
    }

    constructor At(source: seq<string>, pos: nat)
      requires pos <= |source|
      ensures Valid() && this.source == source && this.pos == pos
    {
      this.source, this.pos, this.idx := source, pos, pos;
    }

    method Next() returns (r: NextResult)
      requires Valid()
      modifies this
      ensures Valid()
      ensures old(pos) < |source| ==>
        idx == old(idx) + 1 && r == More(Row(old(idx), source[old(idx)]), Offset(idx, "", "", 0))
      ensures old(pos) == |source| ==> idx == old(idx) && r == End(Offset(idx, "", "", 0))
    {
      if pos == |source| {
        return End(Offset(idx, "", "", 0));
      }
      var row := Row(idx, source[pos]);
      pos := pos + 1;
      idx := idx + 1;
      r := More(row, Offset(idx, "", "", 0));
    }
  }

  /** Skipping past the end of a JSON array is a decoding error, unlike in CSV. */
  method OpenJson(source: seq<string>, offset: Offset) returns (it: ListIter?)
    ensures it == null <==> offset.items > |source|
    ensures it != null ==> fresh(it) && it.Valid() && it.source == source
    ensures it != null ==> it.idx == if offset.items < 0 then 0 else offset.items
  {
    var p := 0;
    while p < offset.items
      invariant 0 <= p <= |source| && (if offset.items >= 0 then p <= offset.items else p == 0)
    {
      if p == |source| {
        return null;
      }
      p := p + 1;
    }
    it := new ListIter.At(source, p);
  }

  // ----- Salesforce ---------------------------------------------------------------------------

  datatype Page = Page(locator: string, rows: seq<string>)

  /** The results of a query job: a chain of pages; the header after the last page is
      empty or the word null. */
  datatype Chain = Chain(pages: seq<Page>, lastHeader: string)

  ghost predicate ValidChain(c: Chain) {
    && c.pages != [] && c.pages[0].locator == ""
    && (c.lastHeader == "" || c.lastHeader == "null")
    && (forall i :: 0 < i < |c.pages| ==> c.pages[i].locator != "" && c.pages[i].locator != "null")
    && (forall i: nat, j: nat {:trigger Apart(c, i, j)} :: i < j < |c.pages| ==> Apart(c, i, j))
  }

  predicate Apart(c: Chain, i: nat, j: nat)
    requires i < |c.pages| && j < |c.pages|
  {
    c.pages[i].locator != c.pages[j].locator
  }

  /** Rows before page p. */
  function StartOf(pages: seq<Page>, p: nat): nat
    requires p <= |pages|
  {
    if p == 0 then 0 else StartOf(pages, p - 1) + |pages[p - 1].rows|
  }

  function Flat(pages: seq<Page>): seq<string> {
    if pages == [] then [] else Flat(pages[..|pages| - 1]) + pages[|pages| - 1].rows
  }

  lemma {:induction false} FlatAt(pages: seq<Page>, p: nat)
    requires p <= |pages|
    ensures |Flat(pages)| == StartOf(pages, |pages|)
    ensures StartOf(pages, p) <= |Flat(pages)|
    ensures p < |pages| ==> StartOf(pages, p) + |pages[p].rows| <= |Flat(pages)|
    ensures p < |pages| ==> Flat(pages)[StartOf(pages, p)..StartOf(pages, p) + |pages[p].rows|] == pages[p].rows
  {
    if pages != [] {
      var front := pages[..|pages| - 1];
      StartOfFront(pages, |pages| - 1);
      FlatAt(front, if p < |pages| then p else |pages| - 1);
      if p < |pages| {
        StartOfFront(pages, p);
      }
    }
  }

  lemma {:induction false} StartOfFront(pages: seq<Page>, p: nat)
    requires p < |pages|
    ensures StartOf(pages[..|pages| - 1], p) == StartOf(pages, p)
  {
    if p > 0 {
      StartOfFront(pages, p - 1);
    }
  }

  function HeaderAfter(c: Chain, p: nat): string
    requires p < |c.pages|
  {
    if p + 1 < |c.pages| then c.pages[p + 1].locator else c.lastHeader
  }

  /** The page a results request names, searched from page i; None when there is none. */
  function FindPage(c: Chain, locator: string, i: nat): (r: Option<nat>)
    requires i <= |c.pages|
    ensures r.Some? ==> i <= r.value < |c.pages| && c.pages[r.value].locator == locator
    ensures r.None? ==> forall j :: i <= j < |c.pages| ==> c.pages[j].locator != locator
    decreases |c.pages| - i
  {
    if i == |c.pages| then None
    else if c.pages[i].locator == locator then Some(i)
    else FindPage(c, locator, i + 1)
  }

  lemma FindExact(c: Chain, p: nat)
    requires ValidChain(c) && p < |c.pages|
    ensures FindPage(c, c.pages[p].locator, 0) == Some(p)
  {
    var r := FindPage(c, c.pages[p].locator, 0).value;
    assert r < p ==> Apart(c, r, p);
    assert p < r ==> Apart(c, p, r);
  }

  /** The offset's page and skip lie on the chain, and its row count agrees with them. */
  predicate NamesPositionAt(c: Chain, o: Offset, p: nat)
    requires p < |c.pages|
  {
    && c.pages[p].locator == o.sfLocator && 0 <= o.sfSkip <= |c.pages[p].rows|
    && StartOf(c.pages, p) + o.sfSkip == o.items
  }

  /** An offset that names row k. */
  ghost predicate NamesRow(c: Chain, o: Offset, k: int) {
    o.items == k && o.sfJob != "" && exists p: nat :: p < |c.pages| && NamesPositionAt(c, o, p)
  }

  /** What the server sends at once: some rows, and where to go on, or "" at the end. */
  datatype Results = Results(rows: seq<string>, next: string)

  method FetchResults(c: Chain, locator: string, fails: nat -> bool, ghost target: nat) returns (r: Option<Results>)
    requires ValidChain(c) && target <= |c.pages|
    requires if target < |c.pages| then locator == c.pages[target].locator
             else forall p :: 0 <= p < |c.pages| ==> c.pages[p].locator != locator
    ensures r.None? <==> target == |c.pages| || fails(target)
    ensures r.Some? ==> r.value.rows == c.pages[target].rows
    ensures r.Some? ==> r.value.next == if target + 1 < |c.pages| then c.pages[target + 1].locator else ""
  {
    if target < |c.pages| {
      FindExact(c, target);
    }
    var page := FindPage(c, locator, 0);
    if page.None? || fails(page.value) {
      return None;
    }
    var header := HeaderAfter(c, page.value);
    r := Some(Results(c.pages[page.value].rows, if header == "null" then "" else header));
  }

  /** `OutOfRange` is a panic: the offset skips back before its page. */
  datatype Load = Loaded | FetchFailed | BadSkip | OutOfRange

  datatype JobState = JobComplete | JobFailed | JobRunning | StateError

  class SfIter {
    const jobId: string
    var ready: bool
    var locator: string      // names the buffered page, or the page to fetch first
    var next: string         // names the following page, empty at the end of the chain
    var skip: int            // where in the first page to begin
    var buffered: seq<string>
    var loaded: bool
    var cursor: nat
    var idx: int
    var done: bool
    ghost var held: nat      // the page in the buffer or to fetch first; past the end if there is none
    ghost var shift: int     // how far the row count is off the position; 0 for offsets of this iterator

    ghost predicate Valid(c: Chain)
      reads this
    {
      && ValidChain(c) && jobId != ""
      && (if loaded then
            && held < |c.pages| && buffered == c.pages[held].rows && cursor <= |buffered|
            && next == (if held + 1 < |c.pages| then c.pages[held + 1].locator else "")
            && (locator == c.pages[held].locator || (cursor == |buffered| && next != "" && locator == next))
            && idx == StartOf(c.pages, held) + cursor + shift
          else
            && !done
            && (if held < |c.pages| then
              locator == c.pages[held].locator && idx == StartOf(c.pages, held) + skip + shift
                else held == |c.pages| && forall p :: 0 <= p < |c.pages| ==> c.pages[p].locator != locator))
      && (done ==> loaded && next == "" && cursor == |buffered|)
    }

    /** The offset names a page the job does not have. */
    ghost predicate Lost(c: Chain)
      reads this
    {
      !loaded && held == |c.pages|
    }

    /** It cannot deliver a row, now or later. */
    ghost predicate Stuck(c: Chain)
      reads this
    {
      Lost(c) || Malformed(c)
    }

    /** The offset skips more rows than its page has, or fewer than none. */
    ghost predicate Malformed(c: Chain)
      reads this
    {
      !loaded && held < |c.pages| && !(0 <= skip <= |c.pages[held].rows|)
    }

    /** Opens a query job for a fresh offset, or takes up the job the offset names. */
    constructor Open(offset: Offset, job: string, ghost c: Chain)
      requires ValidChain(c) && job != ""
      ensures Valid(c) && jobId == job && idx == offset.items && CurrentOffset() == offset.(sfJob := job)
      ensures !Stuck(c) && shift == 0 <==> NamesRow(c, offset.(sfJob := job), offset.items)
      ensures Lost(c) <==> forall p :: 0 <= p < |c.pages| ==> c.pages[p].locator != offset.sfLocator
      ensures !loaded && skip == offset.sfSkip
      ensures held < |c.pages| ==> c.pages[held].locator == offset.sfLocator
      ensures ready == (offset.sfJob != "" && (offset.items > 0 || offset.sfLocator != "" || offset.sfSkip > 0))
    {
      jobId := job;
      ready := offset.sfJob != "" && (offset.items > 0 || offset.sfLocator != "" || offset.sfSkip > 0);
      locator, next, skip := offset.sfLocator, "", offset.sfSkip;
      buffered, loaded, cursor, idx, done := [], false, 0, offset.items, false;
      ghost var p := FindPage(c, offset.sfLocator, 0).GetOr(|c.pages|);
      held := p;
      shift := if p < |c.pages| then offset.items - StartOf(c.pages, p) - offset.sfSkip else 0;
      new;
      ghost var o := offset.(sfJob := job);
      if NamesRow(c, o, o.items) {
        ghost var q: nat :| q < |c.pages| && NamesPositionAt(c, o, q);
        FindExact(c, q);
      }
      assert p < |c.pages| && shift == 0 && !Stuck(c) ==> NamesPositionAt(c, o, p);
    }

    function CurrentOffset(): Offset
      reads this
    {
      if !loaded then Offset(idx, jobId, locator, skip)
      else if cursor >= |buffered| && next != "" then Offset(idx, jobId, next, 0)
      else Offset(idx, jobId, locator, cursor)
    }

    /** Every offset the iterator emits names exactly the next row. */
    lemma OffsetNamesNext(c: Chain)
      requires Valid(c) && !Stuck(c) && shift == 0
      ensures idx >= 0 && NamesRow(c, CurrentOffset(), idx)
    {
      var p := held;
      if loaded && cursor == |buffered| && next != "" {
        p := held + 1;
        assert StartOf(c.pages, p) == StartOf(c.pages, held) + |c.pages[held].rows|;
      }
      assert NamesPositionAt(c, CurrentOffset(), p);
    }

    /** Fetches the page the offset names. */
    method LoadFirst(c: Chain, fails: nat -> bool) returns (load: Load)
      requires Valid(c) && !loaded
      modifies this
      ensures Valid(c) && idx == old(idx) && shift == old(shift) && ready == old(ready) && !done
      ensures held == old(held) && (loaded <==> load == Loaded)
      ensures load == Loaded ==> !old(Stuck(c))
      ensures load != Loaded ==> (Malformed(c) <==> old(Malformed(c)))
      ensures load == BadSkip || load == OutOfRange ==> old(Malformed(c)) && skip == old(skip)
      ensures load == BadSkip ==> old(skip) > 0
      ensures (forall p :: !fails(p)) ==>
        load ==
          if old(Lost(c)) then FetchFailed
          else if !old(Malformed(c)) then Loaded
          else if old(skip) < 0 then OutOfRange else BadSkip
    {
      var page := FetchResults(c, locator, fails, held);
      if page.None? {
        return FetchFailed;
      }
      if skip > |page.value.rows| {
        return BadSkip;
      }
      if skip < 0 {
        return OutOfRange;
      }
      buffered, next, cursor, loaded := page.value.rows, page.value.next, skip, true;
      load := Loaded;
    }

    /** Moves on to the page after the buffered one; a failed fetch leaves it named. */
    method LoadFollowing(c: Chain, fails: nat -> bool) returns (load: Load)
      requires Valid(c) && !done && loaded && cursor == |buffered| && next != ""
      modifies this
      ensures Valid(c) && idx == old(idx) && shift == old(shift) && ready == old(ready) && !done && loaded
      ensures load == if fails(old(held) + 1) then FetchFailed else Loaded
      ensures held == if load == Loaded then old(held) + 1 else old(held)
    {
      assert held + 1 < |c.pages| && StartOf(c.pages, held + 1) == StartOf(c.pages, held) + |c.pages[held].rows|;
      locator, skip := next, 0;
      var page := FetchResults(c, locator, fails, held + 1);
      if page.None? {
        assert Valid(c);
        return FetchFailed;
      }
      buffered, next, cursor := page.value.rows, page.value.next, skip;
      held := held + 1;
      load := Loaded;
    }

    /** Loads pages until one holds an undelivered row. `fails(p)` breaks the fetch of page p. */
    method FillBuffer(c: Chain, fails: nat -> bool) returns (r: Option<NextResult>)
      requires Valid(c)
      modifies this
      ensures Valid(c) && idx == old(idx) && shift == old(shift) && ready == old(ready)
      ensures r.None? ==> loaded && cursor < |buffered| && !old(Stuck(c))
      ensures r.Some? && r.value.End? ==> idx - shift == |Flat(c.pages)| && !old(Stuck(c))
      ensures r.Some? ==>
        r.value in {End(CurrentOffset()), Failure(CurrentOffset()), InvalidOffset(CurrentOffset())}
      ensures r.Some? && r.value.InvalidOffset? ==> old(Malformed(c)) && old(skip) > 0
      ensures Stuck(c) ==> old(Stuck(c))
      ensures (forall p :: !fails(p)) ==>
        if old(Lost(c)) then r == Some(Failure(CurrentOffset()))
        else if !old(Malformed(c)) then r.None? || r.value.End?
        else r == Some(if old(skip) < 0 then Failure(CurrentOffset()) else InvalidOffset(CurrentOffset()))
    {
      while !loaded || cursor >= |buffered|
        invariant Valid(c) && idx == old(idx) && shift == old(shift) && ready == old(ready)
        invariant (Malformed(c) <==> old(Malformed(c))) && (Lost(c) <==> old(Lost(c)))
        invariant !loaded ==> skip == old(skip)
        decreases |c.pages| - held, !loaded
      {
        if done {
          AtTheEnd(c);
          return Some(End(CurrentOffset()));
        }
        if loaded && next == "" {
          done := true;
          AtTheEnd(c);
          return Some(End(CurrentOffset()));
        }
        var load;
        if loaded {
          load := LoadFollowing(c, fails);
        } else {
          load := LoadFirst(c, fails);
        }
        if load == FetchFailed || load == OutOfRange {
          return Some(Failure(CurrentOffset()));
        }
        if load == BadSkip {
          return Some(InvalidOffset(CurrentOffset()));
        }
      }
      r := None;
    }

    lemma AtTheEnd(c: Chain)
      requires Valid(c) && loaded && cursor == |buffered| && next == ""
      ensures idx - shift == |Flat(c.pages)|
    {
      FlatAt(c.pages, held);
      assert held + 1 == |c.pages|;
    }

    /** Hands out the next buffered row. */
    method Take(c: Chain) returns (row: Row)
      requires Valid(c) && loaded && cursor < |buffered|
      modifies this
      ensures Valid(c) && idx == old(idx) + 1 && shift == old(shift) && ready == old(ready) && loaded
      ensures 0 <= old(idx) - shift < |Flat(c.pages)| && row == Row(old(idx), Flat(c.pages)[old(idx) - shift])
    {
      FlatAt(c.pages, held);
      assert c.pages[held].rows[cursor] == Flat(c.pages)[StartOf(c.pages, held) + cursor];
      row := Row(idx, buffered[cursor]);
      cursor := cursor + 1;
      idx := idx + 1;
    }

    method Next(c: Chain, state: JobState, fails: nat -> bool) returns (r: NextResult)
      requires Valid(c)
      modifies this
      ensures Valid(c) && r.offset == CurrentOffset() && shift == old(shift)
      ensures r.More? ==>
        0 <= old(idx) - shift < |Flat(c.pages)| && r.row == Row(old(idx), Flat(c.pages)[old(idx) - shift])
      ensures idx == if r.More? then old(idx) + 1 else old(idx)
      ensures r.End? ==> idx - shift == |Flat(c.pages)|
      ensures r.More? || r.End? ==> ready && !old(Stuck(c))
      ensures r.NotReady? <==> !old(ready) && state == JobRunning
      ensures r.NotReady? ==> !ready
      ensures r.InvalidOffset? ==> old(Malformed(c)) && old(skip) > 0
      ensures old(ready) ==> ready
      ensures Stuck(c) ==> old(Stuck(c))
      ensures (old(ready) || state == JobComplete) && (forall p :: !fails(p)) ==>
        if old(Lost(c)) then r.Failure?
        else if !old(Malformed(c)) then r.More? || r.End?
        else if old(skip) < 0 then r.Failure? else r.InvalidOffset?
    {
      if !ready {
        match state {
          case JobComplete => ready := true;
          case JobFailed => return Failure(CurrentOffset());
          case JobRunning => return NotReady(CurrentOffset());
          case StateError => return Failure(CurrentOffset());
        }
      }
      var stopped := FillBuffer(c, fails);
      if stopped.Some? {
        return stopped.value;
      }
      var row := Take(c);
      r := More(row, CurrentOffset());
    }
  }
}
