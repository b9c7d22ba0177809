/** The operation ledger: one row per step of a migrated record, taken through a
    six-state machine under a lease. `Decide` is the decision one attempt makes from
    the row it locked; `BeginRow` and `FinishRow` say what a transaction leaves in the
    row; class `Ledger` updates the tables in place and is proved against them. */
module OperationLedger {
  import opened Options

  const SECOND: int := 1_000_000_000
  const HOUR: int := 3600 * SECOND

  /** How long an attempt owns an operation: two minutes and fifteen seconds. */
  const OPERATION_LEASE: int := 135 * SECOND

  datatype OpState = Pending | Sending | Succeeded | Failed | Unknown | Unresolved

  datatype DeliveryMode = Idempotent | Lookup | Manual

  datatype OpRef = OpRef(jobId: int, rowIndex: int, stepIndex: int)

  /** The stored operation. Instants are nanoseconds on the database clock. */
  datatype OpRow = OpRow(
    state: OpState,
    payload: string,
    operationKey: string,
    attempts: nat,
    leaseAttempt: Option<string>,
    leaseUntil: Option<int>,
    firstSentAt: Option<int>,
    receiptStatus: Option<int>,
    receipt: Option<string>,
    lastError: Option<string>)

  datatype Intent = Intent(
    payload: string,
    mode: DeliveryMode,
    retentionHours: int,
    resend: bool,
    confirmNotApplied: bool)

  datatype BeginInput = BeginInput(attemptId: string, operationKey: string, intent: Intent)

  datatype Decision = Send | LookupThenSend | Replay | Busy | Refuse(reason: string)

  /** What an attempt writes when it closes. */
  datatype Record = Record(outcome: AttemptOutcome, state: OpState, httpStatus: int, receipt: string, error: string)

  datatype AttemptOutcome = Open | Responded | NotSent | OutcomeUnknown | FoundByLookup | Replayed | Refused

  datatype AttemptRow = AttemptRow(
    op: OpRef, number: nat, outcome: AttemptOutcome, httpStatus: Option<int>, error: Option<string>
  )

  // ----- decisions --------------------------------------------------------------

  predicate Exists(row: OpRow) {
    row.attempts > 0 || row.state != Pending
  }

  /** A lease that has run out leaves the outcome of its attempt unknown. */
  function EffectiveState(row: OpRow, now: int): OpState {
    if row.state == Sending && (row.leaseUntil.None? || row.leaseUntil.value <= now) then Unknown else row.state
  }

  function Decide(row: OpRow, intent: Intent, now: int): Decision {
    if !Exists(row) then Send
    else
      match EffectiveState(row, now)
      case Pending => Send
      case Failed => Send
      case Sending => Busy
      case Succeeded =>
        if intent.resend then Send
        else if row.payload == intent.payload then Replay
        else Refuse("payload changed after the operation succeeded")
      case Unresolved =>
        if intent.confirmNotApplied then Send
        else Refuse("operation is unresolved")
      case Unknown =>
        if intent.confirmNotApplied then Send
        else if row.payload != intent.payload then Refuse("outcome unknown and the payload has changed")
        else DecideUnknown(row, intent, now)
  }

  /** The delivery policy for an unknown outcome of the same payload. */
  function DecideUnknown(row: OpRow, intent: Intent, now: int): Decision {
    match intent.mode
    case Idempotent =>
      if row.firstSentAt.Some? && now - row.firstSentAt.value > intent.retentionHours * HOUR
      then Refuse("outcome unknown beyond the idempotency retention") else Send
    case Lookup => LookupThenSend
    case Manual => Refuse("outcome unknown without deduplication or lookup")
  }

  /** Nobody knows how the last attempt ended: it said so, or its lease has run out. */
  predicate OutcomeIsUnknown(row: OpRow, now: int) {
    row.state == Unknown || (row.state == Sending && !LeaseIsLive(row, now))
  }

  predicate LeaseIsLive(row: OpRow, now: int) {
    row.leaseUntil.Some? && now < row.leaseUntil.value
  }

  /** When each decision is made, in terms of the stored row and what the caller asks for. */
  lemma DecisionTable(row: OpRow, intent: Intent, now: int)
    ensures Decide(row, intent, now) == Busy <==> row.state == Sending && LeaseIsLive(row, now)
    ensures Decide(row, intent, now) == Replay <==>
      row.state == Succeeded && !intent.resend && row.payload == intent.payload
    ensures Decide(row, intent, now) == LookupThenSend <==>
      && OutcomeIsUnknown(row, now) && !intent.confirmNotApplied && row.payload == intent.payload
      && intent.mode == Lookup
    ensures Decide(row, intent, now) == Send <==>
      || row.state == Pending || row.state == Failed
      || (row.state == Succeeded && intent.resend)
      || ((row.state == Unresolved || OutcomeIsUnknown(row, now)) && intent.confirmNotApplied)
      || (OutcomeIsUnknown(row, now) && row.payload == intent.payload && intent.mode == Idempotent
          && (row.firstSentAt.Some? ==> now <= row.firstSentAt.value + intent.retentionHours * HOUR))
  {
  }

  // ----- transactions as functions on the row -------------------------------------

  function FreshRow(input: BeginInput): OpRow {
    OpRow(Pending, input.intent.payload, input.operationKey, 0, None, None, None, None, None, None)
  }

  function LockedRow(prev: Option<OpRow>, input: BeginInput): OpRow {
    prev.GetOr(FreshRow(input))
  }

  function BeginRow(prev: Option<OpRow>, input: BeginInput, now: int): OpRow {
    var row := LockedRow(prev, input);
    match Decide(row, input.intent, now)
    case Busy => row
    case Replay => row
    case Refuse(reason) =>
      row.(state := Unresolved, leaseAttempt := None, leaseUntil := None, lastError := Some(reason))
    case _ =>
      row.(state := Sending, attempts := row.attempts + 1,
           operationKey := input.operationKey, payload := input.intent.payload,
           leaseAttempt := Some(input.attemptId), leaseUntil := Some(now + OPERATION_LEASE),
           firstSentAt := if row.firstSentAt.Some? then row.firstSentAt else Some(now))
  }

  predicate Holds(row: OpRow, attemptId: string) {
    row.leaseAttempt == Some(attemptId)
  }

  function ZeroToNull(n: int): Option<int> {
    if n == 0 then None else Some(n)
  }

  function EmptyToNull(s: string): Option<string> {
    if s == "" then None else Some(s)
  }

  /** Empty, null and empty-object bodies are stored as NULL. */
  function JsonToNull(s: string): Option<string> {
    if s == "" || s == "null" || s == "{}" then None else Some(s)
  }

  /** What is kept of a receipt: any body but an empty one, null or an empty object. */
  ghost function KeptReceipt(body: string): Option<string> {
    match body
    case "" => None
    case "null" => None
    case "{}" => None
    case _ => Some(body)
  }

  /** The row after the closing UPDATE, which only touches a row the attempt still holds. */
  function FinishRow(row: OpRow, attemptId: string, rec: Record): OpRow {
    if !Holds(row, attemptId) then row
    else
      row.(state := rec.state, leaseAttempt := None, leaseUntil := None,
           receiptStatus := if rec.httpStatus != 0 then Some(rec.httpStatus) else row.receiptStatus,
           receipt := if rec.state == Succeeded then JsonToNull(rec.receipt) else row.receipt,
           lastError := EmptyToNull(rec.error))
  }

  /** A row is being sent exactly while some attempt is named as its lease holder. */
  predicate LeaseConsistent(row: OpRow) {
    && (row.state == Sending <==> row.leaseAttempt.Some?)
    && (row.state == Sending <==> row.leaseUntil.Some?)
  }

  lemma BeginKeepsLeaseConsistent(prev: Option<OpRow>, input: BeginInput, now: int)
    requires prev.Some? ==> LeaseConsistent(prev.value)
    ensures LeaseConsistent(BeginRow(prev, input, now))
    // A live lease is never taken over: the row is returned untouched.
    ensures prev.Some? && prev.value.state == Sending && now < prev.value.leaseUntil.GetOr(now)
      ==> BeginRow(prev, input, now) == prev.value
  {
  }

  lemma FinishKeepsLeaseConsistent(row: OpRow, attemptId: string, rec: Record)
    requires LeaseConsistent(row) && rec.state != Sending
    ensures LeaseConsistent(FinishRow(row, attemptId, rec))
    // Finishing twice is finishing once, so an ambiguous commit may be retried.
    ensures FinishRow(FinishRow(row, attemptId, rec), attemptId, rec) == FinishRow(row, attemptId, rec)
  {
  }

  // ----- the tables -----------------------------------------------------------------

  /** What the database connection does to one closing transaction. */
  datatype Fault = Healthy | FailsBeforeCommit | FailsAfterCommit

  datatype FinishReply = Recorded | LeaseLost | DatabaseError

  function FinishReplyOf(row: Option<OpRow>, attemptId: string, fault: Fault): FinishReply {
    if fault == FailsBeforeCommit then DatabaseError
    else if row.None? || !Holds(row.value, attemptId) then LeaseLost
    else if fault == FailsAfterCommit then DatabaseError
    else Recorded
  }

  function FinishedRow(row: OpRow, attemptId: string, rec: Record, fault: Fault): OpRow {
    if fault == FailsBeforeCommit then row else FinishRow(row, attemptId, rec)
  }

  /** What an opening transaction logs about its attempt. */
  ghost function LoggedFor(op: OpRef, row: OpRow, decision: Decision): AttemptRow {
    match decision
    case Replay => AttemptRow(op, row.attempts, Replayed, row.receiptStatus, None)
    case Refuse(reason) => AttemptRow(op, row.attempts, Refused, None, Some(reason))
    case _ => AttemptRow(op, row.attempts + 1, Open, None, None)
  }

  class Ledger {
    var rows: map<OpRef, OpRow>
    var attempts: map<(int, string), AttemptRow>

    function Row(op: OpRef): Option<OpRow>
      reads this
    {
      if op in rows then Some(rows[op]) else None
    }

    /** INSERT .. ON CONFLICT DO NOTHING into operation_attempts. */
    method LogAttempt(op: OpRef, attemptId: string, row: AttemptRow)
      modifies this`attempts
      ensures attempts == if (op.jobId, attemptId) in old(attempts) then old(attempts)
                          else old(attempts)[(op.jobId, attemptId) := row]
    {
      if (op.jobId, attemptId) !in attempts {
        attempts := attempts[(op.jobId, attemptId) := row];
      }
    }

    method Begin(op: OpRef, input: BeginInput, now: int) returns (decision: Decision, snapshot: OpRow)
      modifies this
      ensures snapshot == LockedRow(old(Row(op)), input)
      // An operation not seen before starts out pending, never sent, with nothing recorded.
      ensures op !in old(rows) ==>
        && snapshot.state == Pending && snapshot.attempts == 0 && snapshot.firstSentAt.None?
        && snapshot.receipt.None? && snapshot.receiptStatus.None? && snapshot.lastError.None?
        && snapshot.payload == input.intent.payload && snapshot.operationKey == input.operationKey
      ensures decision == Decide(snapshot, input.intent, now)
      ensures rows == old(rows)[op := BeginRow(old(Row(op)), input, now)]
      ensures
        var key := (op.jobId, input.attemptId);
        attempts ==
          if decision == Busy || key in old(attempts) then old(attempts)
          else old(attempts)[key := LoggedFor(op, snapshot, decision)]
    {
      if op !in rows {
        rows := rows[op := FreshRow(input)];
      }
      snapshot := rows[op];
      decision := Decide(snapshot, input.intent, now);
      match decision {
        case Busy =>
        case Replay =>
          LogAttempt(op, input.attemptId, AttemptRow(op, snapshot.attempts, Replayed, snapshot.receiptStatus, None));
        case Refuse(reason) =>
          rows := rows[
            op := snapshot.(state := Unresolved, leaseAttempt := None, leaseUntil := None, lastError := Some(reason))];
          LogAttempt(op, input.attemptId, AttemptRow(op, snapshot.attempts, Refused, None, Some(reason)));
        case _ =>
          var firstSent := snapshot.firstSentAt;
          if firstSent.None? {
            firstSent := Some(now);
          }
          rows := rows[op := snapshot.(
            state := Sending, attempts := snapshot.attempts + 1,
            operationKey := input.operationKey, payload := input.intent.payload,
            leaseAttempt := Some(input.attemptId), leaseUntil := Some(now + OPERATION_LEASE),
            firstSentAt := firstSent)];
          LogAttempt(op, input.attemptId, AttemptRow(op, snapshot.attempts + 1, Open, None, None));
      }
    }

    /** One closing transaction. A lost lease rolls back and leaves both tables alone. */
    method Finish(op: OpRef, attemptId: string, rec: Record, fault: Fault) returns (reply: FinishReply)
      modifies this
      ensures reply == FinishReplyOf(old(Row(op)), attemptId, fault)
      ensures op !in old(rows) ==> rows == old(rows)
      ensures op in old(rows) ==> rows == old(rows)[op := FinishedRow(old(rows)[op], attemptId, rec, fault)]
      ensures reply == LeaseLost ==> rows == old(rows) && attempts == old(attempts)
      ensures
        var key := (op.jobId, attemptId);
        attempts ==
          if reply == LeaseLost || fault == FailsBeforeCommit || key !in old(attempts) then old(attempts)
          else old(attempts)[key := old(attempts)[key].(
            outcome := rec.outcome,
            httpStatus := if rec.httpStatus == 0 then None else Some(rec.httpStatus),
            error := if rec.error == "" then None else Some(rec.error))]
    {
      if fault == FailsBeforeCommit {
        assert op in rows ==> rows == rows[op := rows[op]];
        return DatabaseError;
      }
      if op !in rows || rows[op].leaseAttempt != Some(attemptId) {
        assert op in rows ==> rows == rows[op := rows[op]];
        return LeaseLost;
      }
      var row := rows[op];
      var status := ZeroToNull(rec.httpStatus);
      rows := rows[op := row.(
        state := rec.state, leaseAttempt := None, leaseUntil := None,
        receiptStatus := if status.Some? then status else row.receiptStatus,
        receipt := if rec.state == Succeeded then JsonToNull(rec.receipt) else row.receipt,
        lastError := EmptyToNull(rec.error))];
      var key := (op.jobId, attemptId);
      if key in attempts {
        attempts := attempts[
          key := attempts[key].(outcome := rec.outcome, httpStatus := status, error := EmptyToNull(rec.error))];
      }
      reply := if fault == FailsAfterCommit then DatabaseError else Recorded;
    }
  }
}
