/** The Ingest activity: open the source at an offset and read one batch. */
module Ingest {
  import opened Options
  import opened Connectors

  const DEFAULT_BATCH: nat := 500

  datatype Connector = Csv(source: seq<string>) | Json(source: seq<string>) | Salesforce(chain: Chain, newJob: string)

  ghost predicate ValidConnector(conn: Connector) {
    conn.Salesforce? ==> ValidChain(conn.chain) && conn.newJob != ""
  }

  function SourceRows(conn: Connector): seq<string> {
    match conn
    case Csv(source) => source
    case Json(source) => source
    case Salesforce(chain, _) => Flat(chain.pages)
  }

  /** The offset means "k rows were delivered": reading on from it starts at row k. */
  ghost predicate ResumesAt(conn: Connector, o: Offset, k: int) {
    && 0 <= k <= |SourceRows(conn)|
    && match conn
       case Csv(_) => o.items == k
       case Json(_) => o.items == k
       case Salesforce(chain, _) => (o == START && k == 0) || NamesRow(chain, o, k)
  }

  /** What the network does during one activity. */
  datatype Weather = Weather(openFails: bool, state: JobState, fails: nat -> bool)

  ghost predicate Calm(w: Weather) {
    !w.openFails && (w.state == JobComplete || w.state == JobRunning) && forall p :: !w.fails(p)
  }

  datatype Reply =
    | Batch(rows: seq<Row>, newOffset: Offset, done: bool, version: string)
    | PendingSource(newOffset: Offset)
    | InvalidCheckpoint
    | SourceChanged
    | IngestFailed

  /** The rows are rows k, k+1, .. of the source, under their absolute indices. */
  ghost predicate IsSlice(source: seq<string>, k: int, rows: seq<Row>) {
    && 0 <= k && k + |rows| <= |source|
    && forall i :: 0 <= i < |rows| ==> rows[i] == Row(k + i, source[k + i])
  }

  /** The same, when the indices are off by some amount from the rows' places. */
  ghost predicate IsShiftedSlice(source: seq<string>, k: int, shift: int, rows: seq<Row>) {
    && 0 <= k - shift && k - shift + |rows| <= |source|
    && forall i :: 0 <= i < |rows| ==> rows[i] == Row(k + i, source[k - shift + i])
  }

  datatype Iter = ListIt(list: ListIter) | SfIt(sf: SfIter, chain: Chain) {
    function Objects(): set<object> {
      match this
      case ListIt(list) => {list}
      case SfIt(sf, _) => {sf}
    }

    ghost predicate Valid()
      reads Objects()
    {
      match this
      case ListIt(list) => list.Valid()
      case SfIt(sf, chain) => sf.Valid(chain)
    }

    /** Opened at an offset it can never deliver a row from. */
    ghost predicate Stuck()
      reads Objects()
    {
      match this
      case ListIt(_) => false
      case SfIt(sf, chain) => sf.Stuck(chain)
    }

    /** Opened at a skip that its page does not have. */
    ghost predicate TooFar()
      reads Objects()
    {
      match this
      case ListIt(_) => false
      case SfIt(sf, chain) => sf.Malformed(chain) && sf.skip > 0
    }

    /** How far its row count is off its place in the source. */
    ghost function Shift(): int
      reads Objects()
    {
      match this
      case ListIt(_) => 0
      case SfIt(sf, _) => sf.shift
    }

    function Position(): int
      reads Objects()
    {
      match this
      case ListIt(list) => list.idx
      case SfIt(sf, _) => sf.idx
    }

    function Rows(): seq<string> {
      match this
      case ListIt(list) => list.source
      case SfIt(_, chain) => Flat(chain.pages)
    }

    predicate Ready()
      reads Objects()
    {
      match this
      case ListIt(_) => true
      case SfIt(sf, _) => sf.ready
    }

    /** An offset of this iterator for row k. */
    ghost predicate Names(o: Offset, k: int) {
      match this
      case ListIt(_) => o.items == k
      case SfIt(_, chain) => NamesRow(chain, o, k)
    }

    method Next(w: Weather) returns (r: NextResult)
      requires Valid()
      modifies Objects()
      ensures Valid() && Shift() == old(Shift())
      ensures r.More? ==>
        && 0 <= old(Position()) - Shift() < |Rows()|
        && r.row == Row(old(Position()), Rows()[old(Position()) - Shift()])
      ensures Position() == if r.More? then old(Position()) + 1 else old(Position())
      ensures r.End? ==> Position() - Shift() == |Rows()|
      ensures Stuck() ==> old(Stuck())
      ensures r.More? || r.End? ==> Ready() && !old(Stuck())
      ensures r.InvalidOffset? ==> old(Stuck())
      ensures r.NotReady? ==> !old(Ready()) && w.state == JobRunning && !Ready()
      ensures old(Ready()) ==> Ready()
      ensures !Stuck() && Shift() == 0 ==> Names(r.offset, Position())
      ensures Calm(w) && !old(Stuck()) ==> r.More? || r.End? || r.NotReady?
      ensures Calm(w) && old(TooFar()) ==> r.InvalidOffset? || r.NotReady?
    {
      match this {
        case ListIt(list) =>
          r := list.Next();
        case SfIt(sf, chain) =>
          r := sf.Next(chain, w.state, w.fails);
          if !sf.Stuck(chain) && sf.shift == 0 {
            sf.OffsetNamesNext(chain);
          }
      }
    }
  }

  /** Opens the source; None is a transient error, and a Salesforce offset without its
      query job cannot be resumed. */
  method OpenAt(conn: Connector, offset: Offset, w: Weather) returns (it: Option<Iter>, invalid: bool)
    requires ValidConnector(conn)
    ensures invalid <==> !w.openFails && conn.Salesforce? && offset.sfJob == ""
                         && (offset.items > 0 || offset.sfLocator != "" || offset.sfSkip > 0)
    ensures it.Some? ==> fresh(it.value.Objects()) && it.value.Valid() && it.value.Rows() == SourceRows(conn)
    ensures it.Some? && conn.Salesforce? ==> it.value.SfIt? && it.value.chain == conn.chain
    ensures it.Some? && !conn.Salesforce? ==> it.value.ListIt?
    ensures it.Some? && conn.Salesforce? && SkipsTooFar(conn.chain, offset) ==> it.value.TooFar()
    ensures !w.openFails && conn.Salesforce? && SkipsTooFar(conn.chain, offset) ==> it.Some? && !invalid
    ensures forall k :: ResumesAt(conn, offset, k) && it.Some? ==>
      it.value.Position() == k && !it.value.Stuck() && it.value.Shift() == 0
    ensures forall k :: ResumesAt(conn, offset, k) && it.Some? && k > 0 ==> it.value.Ready()
    ensures (exists k :: ResumesAt(conn, offset, k)) ==> !invalid && (it.None? <==> w.openFails)
  {
    it, invalid := None, false;
    if w.openFails {
      return;
    }
    if conn.Csv? {
      var list := new ListIter.OpenCsv(conn.source, offset);
      it := Some(ListIt(list));
    } else if conn.Json? {
      var list := OpenJson(conn.source, offset);
      if list != null {
        it := Some(ListIt(list));
      }
    } else if offset.sfJob != "" {
      var sf := new SfIter.Open(offset, offset.sfJob, conn.chain);
      TooFarHere(conn.chain, offset, sf);
      it := Some(SfIt(sf, conn.chain));
    } else if offset.items > 0 || offset.sfLocator != "" || offset.sfSkip > 0 {
      invalid := true;
    } else {
      assert conn.newJob != "" && ResumesAt(conn, offset, 0) ==>
          NamesPositionAt(conn.chain, offset.(sfJob := conn.newJob), 0);
      var sf := new SfIter.Open(offset, conn.newJob, conn.chain);
      it := Some(SfIt(sf, conn.chain));
    }
  }

  lemma SliceGrows(source: seq<string>, k: int, shift: int, rows: seq<Row>, row: Row)
    requires rows != [] ==> IsShiftedSlice(source, k, shift, rows)
    requires 0 <= k - shift && k - shift + |rows| < |source|
    requires row == Row(k + |rows|, source[k - shift + |rows|])
    ensures IsShiftedSlice(source, k, shift, rows + [row])
  {
  }

  /** A batch being read: `stuck` and `ready` say how the iterator was before it began. */
  ghost predicate Reading(
    it: Iter, rows: seq<Row>, newOffset: Offset, start: int, shift: int, stuck: bool, ready: bool
  )
    reads it.Objects()
  {
    && it.Valid() && it.Position() == start + |rows| && it.Shift() == shift
    && (if rows == [] then it.Stuck() == stuck && it.Ready() == ready
        else
          && it.Ready() && !it.Stuck() && !stuck && IsShiftedSlice(it.Rows(), start, shift, rows)
          && (shift == 0 ==> it.Names(newOffset, start + |rows|)))
  }

  /** The next row of a batch, or why there is none. */
  method ReadNext(
    it: Iter, rows: seq<Row>, newOffset: Offset, w: Weather, ghost start: int, ghost shift: int, ghost stuck: bool,
    ghost ready: bool
  ) returns (r: NextResult)
    requires Reading(it, rows, newOffset, start, shift, stuck, ready)
    modifies it.Objects()
    ensures it.Valid()
    ensures r.More? ==> Reading(it, rows + [r.row], r.offset, start, shift, stuck, ready)
    ensures r.End? ==>
      && start - shift + |rows| == |it.Rows()| && IsShiftedSlice(it.Rows(), start, shift, rows)
      && (shift == 0 ==> it.Names(r.offset, start + |rows|))
    ensures r.NotReady? ==>
      rows == [] && !ready && w.state == JobRunning && (!stuck && shift == 0 ==> it.Names(r.offset, start))
    ensures r.InvalidOffset? ==> stuck
    ensures Calm(w) && !stuck ==> r.More? || r.End? || r.NotReady?
    ensures Calm(w) && old(it.TooFar()) ==> r.InvalidOffset? || r.NotReady?
  {
    r := it.Next(w);
    if r.More? {
      SliceGrows(it.Rows(), start, shift, rows, r.row);
    }
  }

  lemma TooFarHere(c: Chain, o: Offset, sf: SfIter)
    requires sf.Valid(c) && !sf.loaded && sf.skip == o.sfSkip
    requires sf.Lost(c) <==> forall p :: 0 <= p < |c.pages| ==> c.pages[p].locator != o.sfLocator
    requires sf.held < |c.pages| ==> c.pages[sf.held].locator == o.sfLocator
    ensures SkipsTooFar(c, o) ==> sf.Malformed(c) && sf.skip > 0
  {
    if SkipsTooFar(c, o) {
      var p :| 0 <= p < |c.pages| && c.pages[p].locator == o.sfLocator && o.sfSkip > |c.pages[p].rows|;
      FindExact(c, p);
      FindExact(c, sf.held);
    }
  }

  /** Reads up to `size` rows from an open iterator. */
  method ReadBatch(it: Iter, offset: Offset, size: nat, version: string, w: Weather) returns (reply: Reply)
    requires it.Valid() && size > 0
    modifies it.Objects()
    ensures reply != SourceChanged
    ensures reply.Batch? ==> reply.version == version && |reply.rows| <= size
    ensures reply.Batch? ==> IsShiftedSlice(it.Rows(), old(it.Position()), old(it.Shift()), reply.rows)
    ensures reply.Batch? && old(it.Shift()) == 0 ==> it.Names(reply.newOffset, old(it.Position()) + |reply.rows|)
    ensures reply.Batch? ==>
      if reply.done then old(it.Position() - it.Shift()) + |reply.rows| == |it.Rows()| else |reply.rows| == size
    ensures reply.PendingSource? ==> !old(it.Ready()) && w.state == JobRunning
    ensures reply.PendingSource? && !old(it.Stuck()) && old(it.Shift()) == 0 ==>
      it.Names(reply.newOffset, old(it.Position()))
    ensures reply.InvalidCheckpoint? ==> old(it.Stuck())
    ensures Calm(w) && !old(it.Stuck()) ==> reply.Batch? || reply.PendingSource?
    ensures Calm(w) && old(it.TooFar()) ==> reply == InvalidCheckpoint || reply.PendingSource?
  {
    var rows: seq<Row> := [];
    var newOffset, done := offset, false;
    ghost var start, shift, stuck, ready := it.Position(), it.Shift(), it.Stuck(), it.Ready();
    while |rows| < size
      invariant old(it.TooFar()) && Calm(w) ==> rows == [] && it.TooFar()
      invariant |rows| <= size && !done && Reading(it, rows, newOffset, start, shift, stuck, ready)
    {
      var r := ReadNext(it, rows, newOffset, w, start, shift, stuck, ready);
      match r {
        case NotReady(o) =>
          if rows == [] {
            return PendingSource(o);
          }
          return IngestFailed;
        case InvalidOffset(_) => return InvalidCheckpoint;
        case Failure(_) => return IngestFailed;
        case End(o) =>
          newOffset, done := o, true;
          break;
        case More(row, o) =>
          newOffset := o;
          rows := rows + [row];
      }
    }
    reply := Batch(rows, newOffset, done, version);
  }

  method Ingest(conn: Connector, offset: Offset, batchSize: int, expected: string, version: string, w: Weather)
    returns (reply: Reply)
    requires ValidConnector(conn)
    ensures reply == SourceChanged <==> expected != "" && version != expected
    ensures forall k: nat :: ResumesAt(conn, offset, k) ==> ReplyFrom(conn, k, SizeOf(batchSize), reply)
    ensures reply.Batch? ==> reply.version == version
    ensures reply.Batch? ==> |reply.rows| <= if batchSize > 0 then batchSize else 500
    // A skip its page does not have is refused as such, once the query job is done.
    ensures Calm(w) && reply != SourceChanged && conn.Salesforce? && SkipsTooFar(conn.chain, offset) ==>
      reply == InvalidCheckpoint || reply.PendingSource?
    // Whatever the offset says, a batch is a run of the source's rows under a run of indices.
    ensures reply.Batch? ==> exists k, shift :: IsShiftedSlice(SourceRows(conn), k, shift, reply.rows)
    ensures reply.PendingSource? ==> w.state == JobRunning
    // In calm weather a resumable read yields a batch, or waits for a query job not yet done.
    ensures Calm(w) && reply != SourceChanged && (exists k: nat :: ResumesAt(conn, offset, k)) ==>
      reply.Batch? || reply.PendingSource?
  {
    if expected != "" && version != expected {
      return SourceChanged;
    }
    var source, invalid := OpenAt(conn, offset, w);
    if invalid {
      return InvalidCheckpoint;
    }
    if source.None? {
      return IngestFailed;
    }
    var it := source.value;
    ghost var start, shift := it.Position(), it.Shift();
    reply := ReadFrom(conn, it, offset, SizeOf(batchSize), version, w);
    assert reply.Batch? ==> IsShiftedSlice(SourceRows(conn), start, shift, reply.rows);
  }

  /** Reads a batch from an opened source. */
  method ReadFrom(
    conn: Connector, it: Iter, offset: Offset, size: nat, version: string, w: Weather
  ) returns (reply: Reply)
    requires size > 0 && it.Valid() && it.Rows() == SourceRows(conn) && it.SfIt? == conn.Salesforce?
    requires it.SfIt? ==> it.chain == conn.chain
    modifies it.Objects()
    ensures reply != SourceChanged
    ensures reply.Batch? ==> reply.version == version && |reply.rows| <= size
    ensures reply.Batch? ==> IsShiftedSlice(SourceRows(conn), old(it.Position()), old(it.Shift()), reply.rows)
    ensures reply.PendingSource? ==> w.state == JobRunning
    ensures Calm(w) && old(it.TooFar()) ==> reply == InvalidCheckpoint || reply.PendingSource?
    ensures
      var k := old(it.Position());
      && 0 <= k <= |SourceRows(conn)| && old(it.Shift()) == 0 && !old(it.Stuck()) && (k > 0 ==> old(it.Ready()))
      ==> ReplyFrom(conn, k, size, reply) && (Calm(w) ==> reply.Batch? || reply.PendingSource?)
  {
    reply := ReadBatch(it, offset, size, version, w);
    NamesResumes(conn, it);
  }

  /** The offsets an iterator emits are resumable ones of its source. */
  lemma NamesResumes(conn: Connector, it: Iter)
    requires it.Rows() == SourceRows(conn) && it.SfIt? == conn.Salesforce?
    requires it.SfIt? ==> it.chain == conn.chain
    ensures forall o, k :: it.Names(o, k) && 0 <= k <= |SourceRows(conn)| ==> ResumesAt(conn, o, k)
  {
  }

  /** The offset's page exists and has fewer rows than the offset skips. */
  predicate SkipsTooFar(c: Chain, o: Offset) {
    o.sfJob != "" && exists p :: 0 <= p < |c.pages| && c.pages[p].locator == o.sfLocator && o.sfSkip > |c.pages[p].rows|
  }

  function SizeOf(batchSize: int): (n: nat)
    ensures n > 0
  {
    if batchSize <= 0 then DEFAULT_BATCH else batchSize
  }

  /** What reading on from row k returns: the next rows of the source and an offset that
      resumes after them; short batches only at the end. */
  ghost predicate ReplyFrom(conn: Connector, k: nat, size: nat, reply: Reply) {
    var source := SourceRows(conn);
    && k <= |source|
    && match reply
       case Batch(rows, newOffset, done, _) =>
         && IsSlice(source, k, rows)
         && ResumesAt(conn, newOffset, k + |rows|)
         && (if done then k + |rows| == |source| else |rows| == size)
       case PendingSource(newOffset) => k == 0 && ResumesAt(conn, newOffset, 0)
       case InvalidCheckpoint => false
       case _ => true
  }
}
