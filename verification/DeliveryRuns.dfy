/** Runs of many attempts on one operation, in any interleaving. Attempts may stop at
    any point (no further step of theirs occurs), leases may run out, and a close may
    commit any number of times. Counters record what the destination applied, what
    operators explicitly granted, and how often an unknown outcome was re-sent under the
    idempotent policy; the main results bound the first by the others. */
module DeliveryRuns {
  import opened Options
  import opened OperationLedger
  import opened CallEndpoint

  datatype Phase = LookingUp | Ready | Recording(rec: Record) | Closed

  datatype Attempt = Attempt(intent: Intent, until: int, phase: Phase)

  datatype System = System(
    row: Option<OpRow>,
    attempts: map<string, Attempt>,
    effects: nat,
    grants: nat,
    resends: nat,
    clock: int)

  datatype Step =
    | BeginStep(id: string, key: string, intent: Intent, now: int)
    | LookupStep(id: string, reply: LookupReply, now: int)
    | SendStep(id: string, result: SendResult, applied: bool, now: int)
    | FinishStep(id: string)

  const INITIAL := System(None, map[], 0, 0, 0, 0)

  /** An explicit decision to apply the operation once more. */
  predicate IsGrant(row: OpRow, intent: Intent, now: int) {
    && Exists(row)
    && match EffectiveState(row, now)
       case Succeeded => intent.resend
       case Unresolved => intent.confirmNotApplied
       case Unknown => intent.confirmNotApplied
       case _ => false
  }

  /** The delivery policy re-sends an operation whose outcome is unknown, unasked. */
  predicate IsResend(row: OpRow, intent: Intent, now: int) {
    Exists(row) && EffectiveState(row, now) == Unknown && !intent.confirmNotApplied && Decide(row, intent, now) == Send
  }

  function PhaseAfterBegin(decision: Decision): Phase {
    match decision
    case Send => Ready
    case LookupThenSend => LookingUp
    case _ => Closed
  }

  function PhaseAfterLookup(reply: LookupReply): Phase {
    match reply
    case LookupFailed(error) => Recording(LookupErrorRecord(error))
    case FoundEffect(status, body) => Recording(FoundRecord(status, body))
    case NoEffect => Ready
  }

  /** The record of a request that was refused or never seen. */
  predicate IsRefusal(rec: Record) {
    rec.state == Pending || rec.state == Failed
  }

  predicate Enabled(s: System, step: Step) {
    match step
    case BeginStep(id, key, intent, now) => id !in s.attempts
    case LookupStep(id, reply, now) => id in s.attempts && s.attempts[id].phase == LookingUp
    case SendStep(id, result, applied, now) =>
      && id in s.attempts && s.attempts[id].phase == Ready
      && (applied ==> !SurelyNotApplied(result))
    case FinishStep(id) => id in s.attempts && s.attempts[id].phase.Recording? && s.row.Some?
  }

  function SetPhase(s: System, id: string, phase: Phase): map<string, Attempt>
    requires id in s.attempts
  {
    s.attempts[id := s.attempts[id].(phase := phase)]
  }

  function Apply(s: System, step: Step): System
    requires Enabled(s, step)
  {
    match step
    case BeginStep(id, key, intent, now) =>
      var input := BeginInput(id, key, intent);
      var row := LockedRow(s.row, input);
      System(
        Some(BeginRow(s.row, input, now)),
        s.attempts[id := Attempt(intent, now + OPERATION_LEASE, PhaseAfterBegin(Decide(row, intent, now)))],
        s.effects,
        if IsGrant(row, intent, now) then s.grants + 1 else s.grants,
        if IsResend(row, intent, now) then s.resends + 1 else s.resends,
        now)
    case LookupStep(id, reply, now) =>
      s.(attempts := SetPhase(s, id, PhaseAfterLookup(reply)), clock := now)
    case SendStep(id, result, applied, now) =>
      s.(attempts := SetPhase(s, id, Recording(RecordFor(s.attempts[id].intent.mode, result))),
         effects := if applied then s.effects + 1 else s.effects,
         clock := now)
    case FinishStep(id) =>
      s.(row := Some(FinishRow(s.row.value, id, s.attempts[id].phase.rec)))
  }

  predicate ValidRun(s: System, steps: seq<Step>)
    decreases |steps|
  {
    steps == [] || (Enabled(s, steps[0]) && ValidRun(Apply(s, steps[0]), steps[1..]))
  }

  function Run(s: System, steps: seq<Step>): System
    requires ValidRun(s, steps)
    decreases |steps|
  {
    if steps == [] then s else Run(Apply(s, steps[0]), steps[1..])
  }

  lemma {:induction false} RunAppends(s: System, a: seq<Step>, b: seq<Step>)
    requires ValidRun(s, a) && ValidRun(Run(s, a), b)
    ensures ValidRun(s, a + b) && Run(s, a + b) == Run(Run(s, a), b)
    decreases |a|
  {
    if a == [] {
      assert a + b == b;
    } else {
      assert (a + b)[0] == a[0] && (a + b)[1..] == a[1..] + b;
      RunAppends(Apply(s, a[0]), a[1..], b);
    }
  }

  /** Extends a run by one enabled step. */
  lemma RunOneMore(s: System, steps: seq<Step>, step: Step)
    requires ValidRun(s, steps) && Enabled(Run(s, steps), step)
    ensures ValidRun(s, steps + [step]) && Run(s, steps + [step]) == Apply(Run(s, steps), step)
  {
    assert [step][1..] == [];
    RunAppends(s, steps, [step]);
  }

  predicate AllInMode(steps: seq<Step>, mode: DeliveryMode) {
    forall i :: 0 <= i < |steps| && steps[i].BeginStep? ==> steps[i].intent.mode == mode
  }

  // ----- leases ----------------------------------------------------------------------

  predicate Holder(s: System, id: string) {
    s.row.Some? && Holds(s.row.value, id)
  }

  ghost predicate LeaseInv(s: System) {
    && (s.row.None? ==> s.attempts == map[])
    && (s.row.Some? ==> LeaseConsistent(s.row.value))
    && (forall id :: Holder(s, id) ==> id in s.attempts && s.row.value.leaseUntil == Some(s.attempts[id].until))
    && (forall id :: id in s.attempts && s.attempts[id].phase.Recording? ==> s.attempts[id].phase.rec.state != Sending)
  }

  lemma LeaseStep(s: System, step: Step)
    requires LeaseInv(s) && Enabled(s, step)
    ensures LeaseInv(Apply(s, step))
  {
    var t := Apply(s, step);
    if step.BeginStep? {
      BeginKeepsLeaseConsistent(s.row, BeginInput(step.id, step.key, step.intent), step.now);
    }
  }

  /** In every reachable state, with any clock, the operation is `sending` exactly while
      a lease holder is named, and that holder is a begun attempt. */
  lemma {:induction false} LeaseAlwaysConsistent(s: System, steps: seq<Step>)
    requires LeaseInv(s) && ValidRun(s, steps)
    ensures LeaseInv(Run(s, steps))
    decreases |steps|
  {
    if steps != [] {
      LeaseStep(s, steps[0]);
      LeaseAlwaysConsistent(Apply(s, steps[0]), steps[1..]);
    }
  }

  /** Closing an attempt that lost its lease changes nothing. */
  lemma StaleFinishChangesNothing(s: System, id: string)
    requires Enabled(s, FinishStep(id)) && !Holder(s, id)
    ensures Apply(s, FinishStep(id)) == s
  {
  }

  // ----- delivery without lookups -----------------------------------------------------------

  /** Attempts that can still turn into an effect, or hand the operation back for sending. */
  ghost function Spenders(s: System): set<string> {
    set id | id in s.attempts && (s.attempts[id].phase == Ready ||
      (s.attempts[id].phase.Recording? && IsRefusal(s.attempts[id].phase.rec) && Holder(s, id)))
  }

  /** The ledger would send the operation without asking anything. */
  predicate Sendable(s: System) {
    s.row.None? || s.row.value.state == Pending || s.row.value.state == Failed
  }

  function RowCredit(s: System): nat {
    if Sendable(s) then 1 else 0
  }

  /** What the destination may have been asked for: once, and once more for each explicit
      grant and each unasked re-send. */
  function Allowance(s: System): nat {
    1 + s.grants + s.resends
  }

  /** Effects so far, effects still to come and what the row hands out stay within it. */
  ghost predicate WithinAllowance(s: System) {
    && (forall id :: id in s.attempts ==> s.attempts[id].phase != LookingUp)
    && s.effects + |Spenders(s)| + RowCredit(s) <= Allowance(s)
  }

  ghost predicate DirectInv(s: System) {
    LeaseInv(s) && WithinAllowance(s)
  }

  lemma SubsetSize<T>(a: set<T>, b: set<T>)
    requires a <= b
    ensures |a| <= |b|
  {
    assert b == a + (b - a);
  }

  lemma DirectBegin(s: System, step: Step)
    requires DirectInv(s) && Enabled(s, step) && step.BeginStep? && step.intent.mode != Lookup
    ensures WithinAllowance(Apply(s, step))
  {
    var t := Apply(s, step);
    if t.attempts[step.id].phase == Ready {
      SubsetSize(Spenders(t), Spenders(s) + {step.id});
    } else {
      SubsetSize(Spenders(t), Spenders(s));
    }
  }

  lemma DirectSend(s: System, step: Step)
    requires DirectInv(s) && Enabled(s, step) && step.SendStep?
    ensures WithinAllowance(Apply(s, step))
  {
    var t := Apply(s, step);
    assert step.id in Spenders(s);
    if step.applied {
      SubsetSize(Spenders(t), Spenders(s) - {step.id});
    } else {
      SubsetSize(Spenders(t), Spenders(s));
    }
  }

  lemma DirectFinish(s: System, step: Step)
    requires DirectInv(s) && Enabled(s, step) && step.FinishStep?
    ensures WithinAllowance(Apply(s, step))
  {
    var t := Apply(s, step);
    if Holder(s, step.id) && IsRefusal(s.attempts[step.id].phase.rec) {
      assert step.id in Spenders(s);
      SubsetSize(Spenders(t), Spenders(s) - {step.id});
    } else {
      SubsetSize(Spenders(t), Spenders(s));
    }
  }

  lemma DirectStep(s: System, step: Step)
    requires DirectInv(s) && Enabled(s, step)
    requires step.BeginStep? ==> step.intent.mode != Lookup
    ensures DirectInv(Apply(s, step))
  {
    LeaseStep(s, step);
    match step {
      case BeginStep(_, _, _, _) => DirectBegin(s, step);
      case LookupStep(_, _, _) =>
      case SendStep(_, _, _, _) => DirectSend(s, step);
      case FinishStep(_) => DirectFinish(s, step);
    }
  }

  predicate NoLookups(steps: seq<Step>) {
    forall i :: 0 <= i < |steps| && steps[i].BeginStep? ==> steps[i].intent.mode != Lookup
  }

  lemma {:induction false} DirectRun(s: System, steps: seq<Step>)
    requires DirectInv(s) && ValidRun(s, steps) && NoLookups(steps)
    ensures DirectInv(Run(s, steps))
    decreases |steps|
  {
    if steps != [] {
      DirectStep(s, steps[0]);
      DirectRun(Apply(s, steps[0]), steps[1..]);
    }
  }

  /** Manual and idempotent attempts in any mixture, with nothing assumed about clocks:
      effects, attempts that may still cause one and a sendable row are all accounted for. */
  lemma DirectDeliveryBound(steps: seq<Step>)
    requires ValidRun(INITIAL, steps) && NoLookups(steps)
    ensures
      var s := Run(INITIAL, steps);
      s.effects + |Spenders(s)| + RowCredit(s) <= 1 + s.grants + s.resends
  {
    assert Spenders(INITIAL) == {};
    DirectRun(INITIAL, steps);
  }

  /** Only idempotent attempts re-send unasked. */
  lemma {:induction false} ResendsAreIdempotent(s: System, steps: seq<Step>)
    requires ValidRun(s, steps)
    requires forall i :: 0 <= i < |steps| && steps[i].BeginStep? ==> steps[i].intent.mode != Idempotent
    ensures Run(s, steps).resends == s.resends
    decreases |steps|
  {
    if steps != [] {
      assert steps[0].BeginStep? ==> steps[0].intent.mode != Idempotent;
      ResendsAreIdempotent(Apply(s, steps[0]), steps[1..]);
    }
  }

  /** An attempt without a resend and without a confirmation. */
  predicate NoDecisions(steps: seq<Step>) {
    forall i :: 0 <= i < |steps| && steps[i].BeginStep? ==>
      !steps[i].intent.resend && !steps[i].intent.confirmNotApplied
  }

  /** Grants are the operator's: without a decision of theirs none is counted. */
  lemma {:induction false} GrantsAreDecisions(s: System, steps: seq<Step>)
    requires ValidRun(s, steps) && NoDecisions(steps)
    ensures Run(s, steps).grants == s.grants
    decreases |steps|
  {
    if steps != [] {
      assert steps[0].BeginStep? ==> !steps[0].intent.resend && !steps[0].intent.confirmNotApplied;
      GrantsAreDecisions(Apply(s, steps[0]), steps[1..]);
    }
  }

  /** So a manual operation nobody decided about is applied at most once. */
  lemma UndecidedAtMostOnce(steps: seq<Step>)
    requires ValidRun(INITIAL, steps) && AllInMode(steps, Manual) && NoDecisions(steps)
    ensures Run(INITIAL, steps).effects <= 1
  {
    ManualDeliveryBound(steps);
    GrantsAreDecisions(INITIAL, steps);
  }

  /** Manual delivery: the destination applies the operation at most once per explicit
      grant, plus once. Nothing is assumed about clocks. */
  lemma ManualDeliveryBound(steps: seq<Step>)
    requires ValidRun(INITIAL, steps) && AllInMode(steps, Manual)
    ensures Run(INITIAL, steps).effects <= 1 + Run(INITIAL, steps).grants
  {
    DirectDeliveryBound(steps);
    ResendsAreIdempotent(INITIAL, steps);
  }

  // ----- clocks, leases and mutual exclusion -----------------------------------------------

  /** The database clock never runs backwards. */
  predicate Monotone(s: System, step: Step) {
    step.FinishStep? || s.clock <= step.now
  }

  predicate InLease(s: System, step: Step)
    requires Enabled(s, step)
  {
    step.SendStep? ==> step.now < s.attempts[step.id].until
  }

  /** A lookup finds the effect exactly when the destination has applied one. */
  predicate Truthful(s: System, step: Step) {
    step.LookupStep? && !step.reply.LookupFailed? ==> (step.reply.FoundEffect? <==> s.effects > 0)
  }

  /** A 2xx answer means the request was applied. */
  predicate HonestSuccess(s: System, step: Step)
    requires Enabled(s, step)
  {
    step.SendStep? && Confirmed(step.result) ==> step.applied
  }

  ghost predicate EveryStep(s: System, steps: seq<Step>, good: (System, Step) --> bool)
    requires forall t, step :: Enabled(t, step) ==> good.requires(t, step)
    requires ValidRun(s, steps)
    decreases |steps|
  {
    steps == [] || (good(s, steps[0]) && EveryStep(Apply(s, steps[0]), steps[1..], good))
  }

  /** May still put a request on the wire. */
  predicate Sender(s: System, id: string) {
    id in s.attempts && (s.attempts[id].phase == Ready || s.attempts[id].phase == LookingUp)
  }

  ghost predicate ExclusionInv(s: System) {
    && LeaseInv(s)
    && (forall id :: Sender(s, id) ==> Holder(s, id) || s.attempts[id].until <= s.clock)
  }

  lemma ExclusionStep(s: System, step: Step)
    requires ExclusionInv(s) && Enabled(s, step) && Monotone(s, step)
    ensures ExclusionInv(Apply(s, step))
  {
    LeaseStep(s, step);
  }

  lemma {:induction false} ExclusionRun(s: System, steps: seq<Step>)
    requires ExclusionInv(s) && ValidRun(s, steps) && EveryStep(s, steps, Monotone)
    ensures ExclusionInv(Run(s, steps))
    decreases |steps|
  {
    if steps != [] {
      ExclusionStep(s, steps[0]);
      ExclusionRun(Apply(s, steps[0]), steps[1..]);
    }
  }

  /** In any delivery mode, two different attempts never both have a request ahead of
      them and an unexpired lease. */
  lemma AtMostOneLiveSender(steps: seq<Step>, a: string, b: string)
    requires ValidRun(INITIAL, steps) && EveryStep(INITIAL, steps, Monotone)
    requires Sender(Run(INITIAL, steps), a) && Run(INITIAL, steps).clock < Run(INITIAL, steps).attempts[a].until
    requires Sender(Run(INITIAL, steps), b) && Run(INITIAL, steps).clock < Run(INITIAL, steps).attempts[b].until
    ensures a == b
  {
    ExclusionRun(INITIAL, steps);
  }

  // ----- lookup delivery ---------------------------------------------------------------------

  predicate LookupAssumptions(s: System, step: Step)
    requires Enabled(s, step)
  {
    Monotone(s, step) && InLease(s, step) && Truthful(s, step)
  }

  /** One effect the current lease holder may still cause, or give back. */
  function HolderCredit(s: System): nat {
    if s.row.None? || s.row.value.leaseAttempt.None? then 0
    else
      var id := s.row.value.leaseAttempt.value;
      if id in s.attempts && (s.attempts[id].phase == Ready ||
        (s.attempts[id].phase.Recording? && IsRefusal(s.attempts[id].phase.rec))) then 1 else 0
  }

  ghost predicate MixedInv(s: System) {
    ExclusionInv(s) && s.effects + HolderCredit(s) + RowCredit(s) <= Allowance(s)
  }

  lemma MixedStep(s: System, step: Step)
    requires MixedInv(s) && Enabled(s, step) && LookupAssumptions(s, step)
    ensures MixedInv(Apply(s, step))
  {
    ExclusionStep(s, step);
    if step.SendStep? {
      assert Sender(s, step.id);
      assert Holder(s, step.id);
    }
  }

  lemma {:induction false} MixedRun(s: System, steps: seq<Step>)
    requires MixedInv(s) && ValidRun(s, steps) && EveryStep(s, steps, LookupAssumptions)
    ensures MixedInv(Run(s, steps))
    decreases |steps|
  {
    if steps != [] {
      MixedStep(s, steps[0]);
      MixedRun(Apply(s, steps[0]), steps[1..]);
    }
  }

  /** All modes in any mixture, when lookups answer truthfully and no attempt sends after
      its lease has ended: the same bound. */
  lemma MixedDeliveryBound(steps: seq<Step>)
    requires ValidRun(INITIAL, steps) && EveryStep(INITIAL, steps, LookupAssumptions)
    ensures
      var s := Run(INITIAL, steps);
      s.effects + HolderCredit(s) + RowCredit(s) <= 1 + s.grants + s.resends
  {
    MixedRun(INITIAL, steps);
  }

  /** Lookup delivery: at most once per explicit grant, plus once, under these assumptions. */
  lemma LookupDeliveryBound(steps: seq<Step>)
    requires ValidRun(INITIAL, steps) && AllInMode(steps, Lookup)
    requires EveryStep(INITIAL, steps, LookupAssumptions)
    ensures Run(INITIAL, steps).effects <= 1 + Run(INITIAL, steps).grants
  {
    MixedDeliveryBound(steps);
    ResendsAreIdempotent(INITIAL, steps);
  }

  // ----- a recorded success has an effect behind it ----------------------------------------------

  predicate SuccessAssumptions(s: System, step: Step)
    requires Enabled(s, step)
  {
    Truthful(s, step) && HonestSuccess(s, step)
  }

  ghost predicate SuccessInv(s: System) {
    && (s.row.Some? && s.row.value.state == Succeeded ==> s.effects > 0)
    && (forall id :: id in s.attempts && s.attempts[id].phase.Recording? && s.attempts[id].phase.rec.state == Succeeded
          ==> s.effects > 0)
  }

  lemma SuccessStep(s: System, step: Step)
    requires SuccessInv(s) && Enabled(s, step) && SuccessAssumptions(s, step)
    ensures SuccessInv(Apply(s, step))
  {
  }

  lemma {:induction false} SuccessRun(s: System, steps: seq<Step>)
    requires SuccessInv(s) && ValidRun(s, steps) && EveryStep(s, steps, SuccessAssumptions)
    ensures SuccessInv(Run(s, steps))
    decreases |steps|
  {
    if steps != [] {
      SuccessStep(s, steps[0]);
      SuccessRun(Apply(s, steps[0]), steps[1..]);
    }
  }

  /** Exactly once: a manually delivered operation recorded as succeeded without any
      grant was applied exactly one time. */
  lemma SucceededMeansAppliedOnce(steps: seq<Step>)
    requires ValidRun(INITIAL, steps) && AllInMode(steps, Manual)
    requires EveryStep(INITIAL, steps, SuccessAssumptions)
    requires Run(INITIAL, steps).row.Some? && Run(INITIAL, steps).row.value.state == Succeeded
    requires Run(INITIAL, steps).grants == 0
    ensures Run(INITIAL, steps).effects == 1
  {
    ManualDeliveryBound(steps);
    SuccessRun(INITIAL, steps);
  }

  // ----- receipts ----------------------------------------------------------------------------------

  /** Later attempts with the payload that succeeded, none of them asking for a resend. */
  predicate Repeats(steps: seq<Step>, payload: string) {
    forall i :: 0 <= i < |steps| && steps[i].BeginStep? ==>
      steps[i].intent.payload == payload && !steps[i].intent.resend
  }

  /** The attempt has begun and will do nothing more. */
  predicate Ended(s: System, id: string) {
    id in s.attempts && s.attempts[id].phase == Closed
  }

  /** Once succeeded, the row and its receipt never change again, and every attempt that
      begins afterwards is answered from the ledger: it never gets to send. */
  lemma {:induction false} ReceiptIsStable(s: System, steps: seq<Step>)
    requires LeaseInv(s) && s.row.Some? && s.row.value.state == Succeeded
    requires ValidRun(s, steps) && Repeats(steps, s.row.value.payload)
    ensures Run(s, steps).row == s.row
    ensures forall id :: id in Run(s, steps).attempts && id !in s.attempts ==> Ended(Run(s, steps), id)
    ensures (forall id :: !Sender(s, id)) ==> Run(s, steps).effects == s.effects
    decreases |steps|
  {
    if steps != [] {
      var t := Apply(s, steps[0]);
      LeaseStep(s, steps[0]);
      assert t.row == s.row;
      ReceiptIsStable(t, steps[1..]);
      if forall id :: !Sender(s, id) {
        if steps[0].SendStep? {
          assert Sender(s, steps[0].id);
        }
        assert forall id :: Sender(t, id) ==> Sender(s, id);
        assert t.effects == s.effects;
      }
      if steps[0].BeginStep? {
        EndedStays(t, steps[1..], steps[0].id);
      }
    }
  }

  lemma {:induction false} EndedStays(s: System, steps: seq<Step>, id: string)
    requires ValidRun(s, steps) && Ended(s, id)
    ensures Ended(Run(s, steps), id)
    decreases |steps|
  {
    if steps != [] {
      EndedStays(Apply(s, steps[0]), steps[1..], id);
    }
  }
}
