/** One delivery attempt: open it in the ledger, look the effect up when the policy
    asks for it, send, and close it, retrying the close over short database faults.
    Other attempts on the same operation may act on the ledger in every pause. */
module CallEndpoint {
  import opened Options
  import opened OperationLedger

  const FINISH_TRIES: nat := 4

  datatype SendResult =
    | NotWritten(error: string)        // failed before the headers reached the connection
    | Broken(error: string)            // failed afterwards
    | Response(status: int, body: string)

  datatype LookupReply = LookupFailed(error: string) | FoundEffect(status: int, body: string) | NoEffect

  /** The request was surely not applied: it never left, or the answer is a 4xx other than
      408, 429 included. */
  predicate SurelyNotApplied(result: SendResult) {
    match result
    case NotWritten(_) => true
    case Broken(_) => false
    case Response(status, _) => 400 <= status < 500 && status != 408
  }

  /** The destination says it applied the request. */
  predicate Confirmed(result: SendResult) {
    result.Response? && 200 <= result.status < 300
  }

  /** The destination never considered the request. */
  predicate NeverTaken(result: SendResult) {
    result.NotWritten? || (result.Response? && result.status == 429)
  }

  /** The state an answer leaves the operation in. */
  ghost function StateFor(mode: DeliveryMode, result: SendResult): OpState {
    if Confirmed(result) then Succeeded
    else if NeverTaken(result) then Pending
    else if SurelyNotApplied(result) then Failed
    else if mode == Manual then Unresolved
    else Unknown
  }

  /** How an attempt classifies what came back from the destination. */
  function RecordFor(mode: DeliveryMode, result: SendResult): Record {
    match result
    case NotWritten(error) => Record(NotSent, Pending, 0, "", error)
    case Broken(error) => UnknownRecord(mode, 0, error)
    case Response(status, body) =>
      if status == 429 then Record(NotSent, Pending, status, "", body)
      else if 200 <= status < 300 then Record(Responded, Succeeded, status, body, "")
      else if 400 <= status < 500 && status != 408 then Record(Responded, Failed, status, "", body)
      else UnknownRecord(mode, status, body)
  }

  /** The record says no more and no less than the answer does. */
  lemma RecordedAsAnswered(mode: DeliveryMode, result: SendResult)
    ensures
      var rec := RecordFor(mode, result);
      && rec.state == StateFor(mode, result)
      && (rec.state == Succeeded ==> rec.receipt == result.body)
      && rec.httpStatus == (if result.Response? then result.status else 0)
      && rec.outcome == (match rec.state
                         case Pending => NotSent
                         case Unresolved => OutcomeUnknown
                         case Unknown => OutcomeUnknown
                         case _ => Responded)
  {
  }

  /** A failed lookup leaves the status alone; a found effect is as good as a receipt. */
  lemma LookupRecordedAsAnswered(reply: LookupReply)
    requires !reply.NoEffect?
    ensures
      var rec := LookupRecord(reply);
      && rec.state == StateAfterLookup(reply)
      && rec.outcome == (if reply.FoundEffect? then FoundByLookup else OutcomeUnknown)
      && rec.httpStatus == (if reply.FoundEffect? then reply.status else 0)
      && (reply.FoundEffect? ==> rec.receipt == reply.body && rec.error == "")
  {
  }

  function UnknownRecord(mode: DeliveryMode, status: int, error: string): Record {
    Record(OutcomeUnknown, if mode == Manual then Unresolved else Unknown, status, "", "outcome unknown: " + error)
  }

  function LookupErrorRecord(error: string): Record {
    Record(OutcomeUnknown, Unknown, 0, "", "lookup before re-send failed: " + error)
  }

  function FoundRecord(status: int, body: string): Record {
    Record(FoundByLookup, Succeeded, status, body, "")
  }

  /** The state a lookup that does not lead to a send leaves the operation in. */
  ghost function StateAfterLookup(reply: LookupReply): OpState {
    if reply.FoundEffect? then Succeeded else Unknown
  }

  /** How an attempt records a lookup that does not lead to a send. */
  function LookupRecord(reply: LookupReply): Record
    requires !reply.NoEffect?
  {
    match reply
    case LookupFailed(error) => LookupErrorRecord(error)
    case FoundEffect(status, body) => FoundRecord(status, body)
  }

  datatype Problem = BusyProblem | UnknownProblem | NotSentProblem | LedgerProblem | DeliveryProblem | AuthProblem

  datatype Report =
    | Success(status: int, body: string, replayed: bool)
    | FailedCall(status: int)
    | UnresolvedCall
    | Problem(kind: Problem)

  /** A ledger transaction of some other attempt on the same operation. */
  datatype Other = OtherBegin(input: BeginInput, now: int) | OtherFinish(attemptId: string, rec: Record, fault: Fault)

  /** Everything outside the attempt: the clock, the destination, the database and the
      other attempts. `pauses(0)` happens between opening and closing, `pauses(i + 1)`
      before the i-th try to close; `cancelled(i)` ends the activity in that wait. */
  datatype World = World(
    authorized: bool,
    hasLookup: bool,
    now: int,
    lookup: LookupReply,
    sent: SendResult,
    pauses: nat -> seq<Other>,
    cancelled: nat -> bool,
    faults: nat -> Fault)

  function StepOther(row: OpRow, other: Other): OpRow {
    match other
    case OtherBegin(input, now) => BeginRow(Some(row), input, now)
    case OtherFinish(id, rec, fault) => FinishedRow(row, id, rec, fault)
  }

  function RunOthers(row: OpRow, others: seq<Other>): OpRow
    decreases |others|
  {
    if others == [] then row else RunOthers(StepOther(row, others[0]), others[1..])
  }

  /** The wait before a later try ends with the activity's cancellation. */
  predicate GivesUp(w: World, i: nat) {
    i > 0 && w.cancelled(i)
  }

  /** The row and the reply after the tries to close that start with the i-th. */
  function Close(row: OpRow, attemptId: string, rec: Record, w: World, i: nat): (OpRow, FinishReply)
    requires i < FINISH_TRIES
    decreases FINISH_TRIES - i
  {
    var paused := RunOthers(row, w.pauses(i + 1));
    if GivesUp(w, i) then (paused, DatabaseError)
    else
      var reply := FinishReplyOf(Some(paused), attemptId, w.faults(i));
      var next := FinishedRow(paused, attemptId, rec, w.faults(i));
      if reply == DatabaseError && i + 1 < FINISH_TRIES then Close(next, attemptId, rec, w, i + 1) else (next, reply)
  }

  /** What the attempt does after opening; None when there is nothing to close. */
  function ClosingRecord(decision: Decision, mode: DeliveryMode, w: World): Option<Record> {
    match decision
    case Send => Some(RecordFor(mode, w.sent))
    case LookupThenSend => Some(if w.lookup.NoEffect? then RecordFor(mode, w.sent) else LookupRecord(w.lookup))
    case _ => None
  }

  predicate SendsRequest(decision: Decision, w: World) {
    decision.Send? || (decision.LookupThenSend? && w.lookup.NoEffect?)
  }

  /** The row after closing, and the reply; None when there is nothing to close. */
  function CloseOpened(begun: OpRow, decision: Decision, input: BeginInput, w: World): (OpRow, Option<FinishReply>) {
    match ClosingRecord(decision, input.intent.mode, w)
    case None => (begun, None)
    case Some(rec) =>
      var closed := Close(RunOthers(begun, w.pauses(0)), input.attemptId, rec, w, 0);
      (closed.0, Some(closed.1))
  }

  /** The ledger row an attempt leaves behind. */
  function RowAfter(prev: Option<OpRow>, input: BeginInput, w: World): OpRow {
    var decision := Decide(LockedRow(prev, input), input.intent, w.now);
    CloseOpened(BeginRow(prev, input, w.now), decision, input, w).0
  }

  /** Which reports belong to which decision, record and close. */
  predicate Reports(begun: OpRow, decision: Decision, input: BeginInput, w: World, report: Report) {
    match ClosingRecord(decision, input.intent.mode, w)
    case None => (decision.Busy? <==> report == Problem(BusyProblem)) && (decision.Refuse? ==> report == UnresolvedCall)
    case Some(rec) =>
      var closed := CloseOpened(begun, decision, input, w).1 == Some(Recorded);
      && (report == Problem(LedgerProblem) <==> !closed)
      && (closed ==> ReportedState(report) ==
                     if rec.state in {Succeeded, Failed, Unresolved} then Some(rec.state) else None)
  }

  function SafeJson(receipt: Option<string>): string {
    receipt.GetOr("null")
  }

  method FinishWithRetry(
    ledger: Ledger, op: OpRef, attemptId: string, rec: Record, w: World
  ) returns (reply: FinishReply)
    requires op in ledger.rows
    modifies ledger
    ensures reply == Close(old(ledger.rows)[op], attemptId, rec, w, 0).1
    ensures ledger.rows == old(ledger.rows)[op := Close(old(ledger.rows)[op], attemptId, rec, w, 0).0]
  {
    var i := 0;
    ghost var start := ledger.rows[op];
    reply := DatabaseError;
    while i < FINISH_TRIES
      invariant i <= FINISH_TRIES && op in ledger.rows
      invariant ledger.rows == old(ledger.rows)[op := ledger.rows[op]]
      invariant i < FINISH_TRIES ==> Close(start, attemptId, rec, w, 0) == Close(ledger.rows[op], attemptId, rec, w, i)
      invariant i == FINISH_TRIES ==> Close(start, attemptId, rec, w, 0) == (ledger.rows[op], reply)
    {
      var gaveUp;
      reply, gaveUp := TryToClose(ledger, op, attemptId, rec, w, i);
      if gaveUp || reply != DatabaseError {
        return;
      }
      i := i + 1;
    }
  }

  /** The wait before one try, and the try. */
  method TryToClose(
    ledger: Ledger, op: OpRef, attemptId: string, rec: Record, w: World, i: nat
  ) returns (reply: FinishReply, gaveUp: bool)
    requires op in ledger.rows && i < FINISH_TRIES
    modifies ledger
    ensures gaveUp == GivesUp(w, i) && op in ledger.rows && ledger.rows == old(ledger.rows)[op := ledger.rows[op]]
    ensures
      var closed := Close(old(ledger.rows)[op], attemptId, rec, w, i);
      if gaveUp || reply != DatabaseError || i + 1 == FINISH_TRIES then closed == (ledger.rows[op], reply)
      else closed == Close(ledger.rows[op], attemptId, rec, w, i + 1)
  {
    Interleave(ledger, op, w.pauses(i + 1));
    gaveUp := i > 0 && w.cancelled(i);
    if gaveUp {
      return DatabaseError, true;
    }
    reply := ledger.Finish(op, attemptId, rec, w.faults(i));
  }

  /** Lets other attempts run their transactions. */
  method Interleave(ledger: Ledger, op: OpRef, others: seq<Other>)
    requires op in ledger.rows
    modifies ledger
    ensures ledger.rows == old(ledger.rows)[op := RunOthers(old(ledger.rows)[op], others)]
  {
    ghost var start := ledger.rows[op];
    for i := 0 to |others|
      invariant op in ledger.rows
      invariant ledger.rows == old(ledger.rows)[op := ledger.rows[op]]
      invariant RunOthers(start, others) == RunOthers(ledger.rows[op], others[i..])
    {
      match others[i] {
        case OtherBegin(input, now) =>
          var _, _ := ledger.Begin(op, input, now);
        case OtherFinish(id, rec, fault) =>
          var _ := ledger.Finish(op, id, rec, fault);
      }
    }
  }

  /** Closes an opened attempt, other attempts permitting. */
  method CloseAttempt(ledger: Ledger, op: OpRef, attemptId: string, rec: Record, w: World) returns (recorded: bool)
    requires op in ledger.rows
    modifies ledger
    ensures
      var closed := Close(RunOthers(old(ledger.rows)[op], w.pauses(0)), attemptId, rec, w, 0);
      ledger.rows == old(ledger.rows)[op := closed.0] && recorded == (closed.1 == Recorded)
    ensures recorded ==> ledger.rows[op].state == rec.state
    ensures recorded && rec.state == Succeeded ==> ledger.rows[op].receipt == JsonToNull(rec.receipt)
  {
    Interleave(ledger, op, w.pauses(0));
    ghost var row := ledger.rows[op];
    var reply := FinishWithRetry(ledger, op, attemptId, rec, w);
    recorded := reply == Recorded;
    if recorded {
      CloseRecorded(row, attemptId, rec, w, 0);
    }
  }

  /** Sends the request and records what came back. */
  method SendAndClose(ledger: Ledger, op: OpRef, input: BeginInput, w: World) returns (report: Report)
    requires op in ledger.rows
    modifies ledger
    ensures
      var rec := RecordFor(input.intent.mode, w.sent);
      ledger.rows ==
        old(ledger.rows)[op := Close(RunOthers(old(ledger.rows)[op], w.pauses(0)), input.attemptId, rec, w, 0).0]
    ensures ReportedState(report).Some? ==> ledger.rows[op].state == ReportedState(report).value
    // Only a failed close, an unsent request or an unknown outcome keeps the record from being reported.
    ensures
      var rec := RecordFor(input.intent.mode, w.sent);
      var closed := Close(RunOthers(old(ledger.rows)[op], w.pauses(0)), input.attemptId, rec, w, 0).1 == Recorded;
      && (report == Problem(LedgerProblem) <==> !closed)
      && (report == Problem(NotSentProblem) <==> closed && rec.state == Pending)
      && (report == Problem(UnknownProblem) <==> closed && rec.state == Unknown)
      && (closed && rec.state in {Succeeded, Failed, Unresolved} ==> ReportedState(report) == Some(rec.state))
    ensures report != Problem(LedgerProblem) ==>
      && ledger.rows[op].state == StateFor(input.intent.mode, w.sent)
      && report == ReportFor(input.intent.mode, w.sent)
    ensures report.Success? ==> Confirmed(w.sent) && ledger.rows[op].receipt == KeptReceipt(w.sent.body)
  {
    RecordedAsAnswered(input.intent.mode, w.sent);
    var rec := RecordFor(input.intent.mode, w.sent);
    var recorded := CloseAttempt(ledger, op, input.attemptId, rec, w);
    if !recorded {
      return Problem(LedgerProblem);
    }
    match rec.state {
      case Pending => report := Problem(NotSentProblem);
      case Succeeded => report := Success(w.sent.status, w.sent.body, false);
      case Failed => report := FailedCall(w.sent.status);
      case Unresolved => report := UnresolvedCall;
      case _ => report := Problem(UnknownProblem);
    }
  }

  /** Records a lookup that failed or found the effect. */
  method CloseLookup(ledger: Ledger, op: OpRef, input: BeginInput, w: World) returns (report: Report)
    requires op in ledger.rows && !w.lookup.NoEffect?
    modifies ledger
    ensures
      var rec := LookupRecord(w.lookup);
      ledger.rows ==
        old(ledger.rows)[op := Close(RunOthers(old(ledger.rows)[op], w.pauses(0)), input.attemptId, rec, w, 0).0]
    ensures ReportedState(report).Some? ==> ledger.rows[op].state == ReportedState(report).value
    ensures
      var rec := LookupRecord(w.lookup);
      var closed := Close(RunOthers(old(ledger.rows)[op], w.pauses(0)), input.attemptId, rec, w, 0).1 == Recorded;
      && (report == Problem(LedgerProblem) <==> !closed)
      && (report.Success? <==> closed && w.lookup.FoundEffect?)
      && (report == Problem(UnknownProblem) <==> closed && !w.lookup.FoundEffect?)
    ensures report != Problem(LedgerProblem) ==> ledger.rows[op].state == StateAfterLookup(w.lookup)
    ensures report.Success? ==>
      && report.replayed && w.lookup.FoundEffect? && report.status == w.lookup.status
      && ledger.rows[op].receipt == KeptReceipt(w.lookup.body)
  {
    var recorded := CloseAttempt(ledger, op, input.attemptId, LookupRecord(w.lookup), w);
    if !recorded {
      return Problem(LedgerProblem);
    }
    report := if w.lookup.FoundEffect? then Success(w.lookup.status, w.lookup.body, true) else Problem(UnknownProblem);
  }

  /** What the workflow is told of an answer, once it is recorded. */
  ghost function ReportFor(mode: DeliveryMode, result: SendResult): Report {
    if Confirmed(result) then Success(result.status, result.body, false)
    else if NeverTaken(result) then Problem(NotSentProblem)
    else if SurelyNotApplied(result) then FailedCall(result.status)
    else if mode == Manual then UnresolvedCall
    else Problem(UnknownProblem)
  }

  /** The ledger state a report stands for. */
  function ReportedState(report: Report): Option<OpState> {
    match report
    case Success(_, _, _) => Some(Succeeded)
    case FailedCall(_) => Some(Failed)
    case UnresolvedCall => Some(Unresolved)
    case Problem(_) => None
  }

  method Call(ledger: Ledger, op: OpRef, input: BeginInput, w: World) returns (report: Report, sent: bool)
    modifies ledger
    // Refused before the ledger is opened.
    ensures (input.intent.mode == Lookup && !w.hasLookup) || !w.authorized
      ==> ledger.rows == old(ledger.rows) && report.Problem? && !sent
    ensures !(input.intent.mode == Lookup && !w.hasLookup) && w.authorized ==>
      var prev := old(ledger.Row(op));
      && ledger.rows == old(ledger.rows)[op := RowAfter(prev, input, w)]
      && sent == SendsRequest(Decide(LockedRow(prev, input), input.intent, w.now), w)
    // Every outcome the workflow acts on is already what the ledger holds.
    ensures ReportedState(report).Some? ==> op in ledger.rows && ledger.rows[op].state == ReportedState(report).value
    // A replay hands back the stored receipt, and sends nothing.
    ensures !(input.intent.mode == Lookup && !w.hasLookup) && w.authorized ==>
      var row := LockedRow(old(ledger.Row(op)), input);
      Decide(row, input.intent, w.now) == Replay ==>
        report == Success(row.receiptStatus.GetOr(0), if row.receipt.Some? then row.receipt.value else "null", true)
    // A live lease is reported as busy, and a refusal as unresolved.
    ensures !(input.intent.mode == Lookup && !w.hasLookup) && w.authorized ==>
      var decision := Decide(LockedRow(old(ledger.Row(op)), input), input.intent, w.now);
      (report == Problem(BusyProblem) <==> decision.Busy?) && (decision.Refuse? ==> report == UnresolvedCall)
    // What is not reported is busy elsewhere, or was not recorded, or is still open.
    ensures !(input.intent.mode == Lookup && !w.hasLookup) && w.authorized ==>
      var prev := old(ledger.Row(op));
      Reports(BeginRow(prev, input, w.now), Decide(LockedRow(prev, input), input.intent, w.now), input, w, report)
    // Whatever is sent, state and report follow the answer itself, unless the close fails.
    ensures sent && report != Problem(LedgerProblem) ==>
      && op in ledger.rows && ledger.rows[op].state == StateFor(input.intent.mode, w.sent)
      && report == ReportFor(input.intent.mode, w.sent)
    // So do they follow a lookup that found the effect, or failed.
    ensures !(input.intent.mode == Lookup && !w.hasLookup) && w.authorized && !sent
            && report != Problem(LedgerProblem) ==>
      var prev := old(ledger.Row(op));
      Decide(LockedRow(prev, input), input.intent, w.now).LookupThenSend? ==>
        && op in ledger.rows && ledger.rows[op].state == StateAfterLookup(w.lookup)
        && (report.Success? <==> w.lookup.FoundEffect?)
    ensures report.Success? && report.replayed ==> !sent
    ensures report.Success? && !report.replayed ==>
      sent && Confirmed(w.sent) && ledger.rows[op].receipt == KeptReceipt(w.sent.body)
  {
    if input.intent.mode == Lookup && !w.hasLookup {
      return Problem(DeliveryProblem), false;
    }
    if !w.authorized {
      return Problem(AuthProblem), false;
    }
    var decision, snapshot := ledger.Begin(op, input, w.now);
    report, sent := CarryOut(ledger, op, input, w, decision, snapshot);
  }

  /** What the decision of the opening transaction leads to. */
  method CarryOut(
    ledger: Ledger, op: OpRef, input: BeginInput, w: World, decision: Decision, snapshot: OpRow
  ) returns (report: Report, sent: bool)
    requires op in ledger.rows
    requires decision.Replay? ==> ledger.rows[op].state == Succeeded
    requires decision.Refuse? ==> ledger.rows[op].state == Unresolved
    modifies ledger
    ensures ledger.rows == old(ledger.rows)[op := CloseOpened(old(ledger.rows)[op], decision, input, w).0]
    ensures sent == SendsRequest(decision, w)
    ensures ReportedState(report).Some? ==> ledger.rows[op].state == ReportedState(report).value
    ensures decision.Replay? ==>
      report == Success(snapshot.receiptStatus.GetOr(0), SafeJson(snapshot.receipt), true)
    ensures Reports(old(ledger.rows)[op], decision, input, w, report)
    ensures (report == Problem(BusyProblem) <==> decision.Busy?) && (decision.Refuse? ==> report == UnresolvedCall)
    ensures sent && report != Problem(LedgerProblem) ==>
      && ledger.rows[op].state == StateFor(input.intent.mode, w.sent)
      && report == ReportFor(input.intent.mode, w.sent)
    ensures !sent && decision.LookupThenSend? && report != Problem(LedgerProblem) ==>
      && ledger.rows[op].state == StateAfterLookup(w.lookup)
      && (report.Success? <==> w.lookup.FoundEffect?)
    ensures report.Success? && report.replayed ==> !sent
    ensures report.Success? && !report.replayed ==>
      sent && Confirmed(w.sent) && ledger.rows[op].receipt == KeptReceipt(w.sent.body)
  {
    sent := SendsRequest(decision, w);
    if sent {
      report := SendAndClose(ledger, op, input, w);
    } else if decision.LookupThenSend? {
      report := CloseLookup(ledger, op, input, w);
    } else if decision.Busy? {
      report := Problem(BusyProblem);
    } else if decision.Replay? {
      report := Success(snapshot.receiptStatus.GetOr(0), SafeJson(snapshot.receipt), true);
    } else {
      report := UnresolvedCall;
    }
  }

  /** A close that replied "recorded" has just put its record into the row. */
  lemma {:induction false} CloseRecorded(row: OpRow, attemptId: string, rec: Record, w: World, i: nat)
    requires i < FINISH_TRIES
    requires Close(row, attemptId, rec, w, i).1 == Recorded
    ensures Close(row, attemptId, rec, w, i).0.state == rec.state
    ensures rec.state == Succeeded ==> Close(row, attemptId, rec, w, i).0.receipt == JsonToNull(rec.receipt)
    ensures Close(row, attemptId, rec, w, i).0.leaseAttempt.None?
    decreases FINISH_TRIES - i
  {
    var paused := RunOthers(row, w.pauses(i + 1));
    var reply := FinishReplyOf(Some(paused), attemptId, w.faults(i));
    if !GivesUp(w, i) && reply == DatabaseError && i + 1 < FINISH_TRIES {
      CloseRecorded(FinishedRow(paused, attemptId, rec, w.faults(i)), attemptId, rec, w, i + 1);
    }
  }
}
