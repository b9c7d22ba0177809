/** When a row that the ledger would simply send hides an effect, and which attempts can
    bring that about. */
module HiddenEffects {
  import opened Options
  import opened OperationLedger
  import opened CallEndpoint
  import opened DeliveryRuns

  /** No attempt looks anything up, or lookups and leases are as they need. */
  ghost predicate LookupsSound(steps: seq<Step>)
    requires ValidRun(INITIAL, steps)
  {
    NoLookups(steps) || EveryStep(INITIAL, steps, LookupAssumptions)
  }

  /** In any mixture of modes, what a sendable row may hide is at most what was granted or
      re-sent; without either, an operation the ledger would simply send was not applied. */
  lemma SendableHidesAtMostGrants(steps: seq<Step>)
    requires ValidRun(INITIAL, steps) && LookupsSound(steps) && Sendable(Run(INITIAL, steps))
    ensures Run(INITIAL, steps).effects <= Run(INITIAL, steps).grants + Run(INITIAL, steps).resends
  {
    if NoLookups(steps) {
      DirectDeliveryBound(steps);
    } else {
      MixedDeliveryBound(steps);
    }
  }

  lemma ManualSendableMeansNotApplied(steps: seq<Step>)
    requires ValidRun(INITIAL, steps) && AllInMode(steps, Manual)
    requires Run(INITIAL, steps).grants == 0 && Sendable(Run(INITIAL, steps))
    ensures Run(INITIAL, steps).effects == 0
  {
    SendableHidesAtMostGrants(steps);
    ResendsAreIdempotent(INITIAL, steps);
  }

  lemma LookupSendableMeansNotApplied(steps: seq<Step>)
    requires ValidRun(INITIAL, steps) && AllInMode(steps, Lookup)
    requires EveryStep(INITIAL, steps, LookupAssumptions)
    requires Run(INITIAL, steps).grants == 0 && Sendable(Run(INITIAL, steps))
    ensures Run(INITIAL, steps).effects == 0
  {
    SendableHidesAtMostGrants(steps);
    ResendsAreIdempotent(INITIAL, steps);
  }

  /** A changed payload, without any flag, is sent exactly when the row is pending or failed;
      in every other state it waits for the lease or is refused. */
  lemma ChangedPayloadSentIff(row: OpRow, intent: Intent, now: int)
    requires Exists(row) && row.payload != intent.payload && !intent.resend && !intent.confirmNotApplied
    ensures Decide(row, intent, now) == Send <==> row.state == Pending || row.state == Failed
    ensures Decide(row, intent, now) != Send ==> Decide(row, intent, now).Busy? || Decide(row, intent, now).Refuse?
  {
  }

  /** What a caller sees before an attempt on a row that is neither pending nor failed: a
      resend of a success, a confirmation that nothing was applied, or an unknown outcome
      under the idempotent policy, of the same payload and within the retention. */
  predicate SendGuard(row: OpRow, intent: Intent, now: int) {
    match EffectiveState(row, now)
    case Succeeded => intent.resend
    case Unresolved => intent.confirmNotApplied
    case Unknown =>
      intent.confirmNotApplied || (
        intent.mode == Idempotent && row.payload == intent.payload
        && (row.firstSentAt.Some? ==> now - row.firstSentAt.value <= intent.retentionHours * HOUR))
    case _ => false
  }

  /** The guard is the ledger's decision to send, told before the attempt. */
  lemma GuardIsDecision(row: OpRow, intent: Intent, now: int)
    requires Exists(row) && row.state != Pending && row.state != Failed
    ensures SendGuard(row, intent, now) <==> Decide(row, intent, now) == Send
  {
  }

  /** One attempt from its beginning: its own steps and nobody else's. */
  predicate LifeOf(id: string, key: string, intent: Intent, now: int, life: seq<Step>) {
    life != [] && life[0] == BeginStep(id, key, intent, now) && OwnSteps(id, life[1..])
  }

  predicate OwnSteps(id: string, steps: seq<Step>) {
    forall i :: 0 <= i < |steps| ==> steps[i].id == id && !steps[i].BeginStep?
  }

  /** The attempt cannot send any more, and what it may still record is no refusal. */
  predicate CannotRefuse(s: System, id: string) {
    && id in s.attempts && s.attempts[id].phase != Ready
    && (s.attempts[id].phase.Recording? ==> !IsRefusal(s.attempts[id].phase.rec))
    && !Sendable(s) && s.effects > 0
  }

  lemma {:induction false} NothingToHide(s: System, id: string, steps: seq<Step>)
    requires CannotRefuse(s, id) && OwnSteps(id, steps) && ValidRun(s, steps) && EveryStep(s, steps, Truthful)
    ensures !Sendable(Run(s, steps))
    decreases |steps|
  {
    if steps != [] {
      assert steps[0].id == id;
      assert CannotRefuse(Apply(s, steps[0]), id);
      NothingToHide(Apply(s, steps[0]), id, steps[1..]);
    }
  }

  /** An attempt that is answered 429 and closes. */
  function RefusedLife(id: string, key: string, intent: Intent, now: int): (life: seq<Step>)
    ensures LifeOf(id, key, intent, now, life)
  {
    [BeginStep(id, key, intent, now), SendStep(id, Response(429, ""), false, now), FinishStep(id)]
  }

  /** When the guard lets an attempt send, its refusal leaves the row pending and the effect
      where it was. */
  lemma RefusedSendHidesEffect(s: System, id: string, key: string, intent: Intent, now: int)
    requires s.row.Some? && !Sendable(s) && id !in s.attempts && SendGuard(s.row.value, intent, now)
    ensures
      var life := RefusedLife(id, key, intent, now);
      && ValidRun(s, life) && EveryStep(s, life, Truthful) && Run(s, life).effects == s.effects
      && Run(s, life).row.Some? && Run(s, life).row.value.state == Pending && Run(s, life).row.value.attempts > 0
      && Run(s, life).grants == Apply(s, life[0]).grants && Run(s, life).resends == Apply(s, life[0]).resends
  {
    var begin, send, finish :=
      BeginStep(id, key, intent, now), SendStep(id, Response(429, ""), false, now), FinishStep(id);
    var life := RefusedLife(id, key, intent, now);
    assert life[1..] == [send, finish] && [send, finish][1..] == [finish] && [finish][1..] == [];
    var begun := Apply(s, begin);
    var sent := Apply(begun, send);
    assert Enabled(s, begin) && Enabled(begun, send) && Enabled(sent, finish);
    TruthfulOneMore(sent, finish, []);
    TruthfulOneMore(begun, send, [finish]);
    TruthfulOneMore(s, begin, [send, finish]);
    assert [finish] == [finish] + [] && [send, finish] == [send] + [finish] && life == [begin] + [send, finish];
  }

  lemma TruthfulOneMore(s: System, step: Step, rest: seq<Step>)
    requires Enabled(s, step) && Truthful(s, step)
    requires ValidRun(Apply(s, step), rest) && EveryStep(Apply(s, step), rest, Truthful)
    ensures ValidRun(s, [step] + rest) && EveryStep(s, [step] + rest, Truthful)
    ensures Run(s, [step] + rest) == Run(Apply(s, step), rest)
  {
    assert ([step] + rest)[1..] == rest;
  }

  /** Exactly: where an effect exists and the row is not sendable, one attempt can leave it
      sendable, whatever the destination answers, if and only if the guard holds. */
  lemma HidesEffectIff(s: System, id: string, key: string, intent: Intent, now: int)
    requires LeaseInv(s) && s.row.Some? && !Sendable(s) && s.effects > 0 && id !in s.attempts
    ensures SendGuard(s.row.value, intent, now) <==>
      exists life ::
        && LifeOf(id, key, intent, now, life)
        && ValidRun(s, life) && EveryStep(s, life, Truthful) && Sendable(Run(s, life))
  {
    if SendGuard(s.row.value, intent, now) {
      RefusedSendHidesEffect(s, id, key, intent, now);
      assert Sendable(Run(s, RefusedLife(id, key, intent, now)));
    } else {
      forall life | LifeOf(id, key, intent, now, life) && ValidRun(s, life) && EveryStep(s, life, Truthful)
        ensures !Sendable(Run(s, life))
      {
        assert CannotRefuse(Apply(s, life[0]), id);
        NothingToHide(Apply(s, life[0]), id, life[1..]);
      }
    }
  }

  /** A re-send that hides an effect: an applied send whose answer was lost, re-sent under the
      idempotent policy and answered 429, leaves the operation pending, and a changed payload
      is then sent. */
  lemma IdempotentSendableMayBeApplied() returns (steps: seq<Step>)
    ensures ValidRun(INITIAL, steps) && AllInMode(steps, Idempotent)
    ensures Run(INITIAL, steps).grants == 0 && Run(INITIAL, steps).resends == 1 && Run(INITIAL, steps).effects == 1
    ensures Run(INITIAL, steps).row.Some? && Run(INITIAL, steps).row.value.state == Pending
    ensures Decide(Run(INITIAL, steps).row.value, Intent("changed", Idempotent, 24, false, false), 1000 * HOUR) == Send
  {
    var intent := Intent("payload", Idempotent, 24, false, false);
    steps := AppliedOnce("a", intent, Broken("connection reset"));
    RefusedAfterwards(steps, "b", intent);
    steps := steps + RefusedLife("b", "key", intent, 0);
  }

  /** A grant that hides one, in manual mode: a resend of a recorded success, answered 429. */
  lemma ManualSendableMayBeApplied() returns (steps: seq<Step>)
    ensures ValidRun(INITIAL, steps) && AllInMode(steps, Manual)
    ensures Run(INITIAL, steps).grants == 1 && Run(INITIAL, steps).resends == 0 && Run(INITIAL, steps).effects == 1
    ensures Run(INITIAL, steps).row.Some? && Run(INITIAL, steps).row.value.state == Pending
    ensures
      forall now :: Decide(Run(INITIAL, steps).row.value, Intent("changed", Manual, 24, false, false), now) == Send
  {
    steps := AppliedOnce("a", Intent("payload", Manual, 24, false, false), Response(200, "created"));
    var again := Intent("payload", Manual, 24, true, false);
    RefusedAfterwards(steps, "b", again);
    steps := steps + RefusedLife("b", "key", again, 0);
  }

  /** One attempt that is applied and closes. */
  lemma AppliedOnce(id: string, intent: Intent, answer: SendResult) returns (steps: seq<Step>)
    requires !SurelyNotApplied(answer)
    ensures steps == [BeginStep(id, "key", intent, 0), SendStep(id, answer, true, 0), FinishStep(id)]
    ensures ValidRun(INITIAL, steps)
    ensures
      var rec := RecordFor(intent.mode, answer);
      var begun := BeginRow(None, BeginInput(id, "key", intent), 0);
      Run(INITIAL, steps) == System(Some(FinishRow(begun, id, rec)),
        map[id := Attempt(intent, OPERATION_LEASE, Recording(rec))], 1, 0, 0, 0)
  {
    var begin, send, finish := BeginStep(id, "key", intent, 0), SendStep(id, answer, true, 0), FinishStep(id);
    steps := [];
    RunOneMore(INITIAL, steps, begin);
    steps := steps + [begin];
    RunOneMore(INITIAL, steps, send);
    steps := steps + [send];
    RunOneMore(INITIAL, steps, finish);
    steps := steps + [finish];
  }

  /** A run followed by a refused attempt that the guard lets send. */
  lemma RefusedAfterwards(steps: seq<Step>, id: string, intent: Intent)
    requires ValidRun(INITIAL, steps)
    requires
      var s := Run(INITIAL, steps);
      s.row.Some? && !Sendable(s) && id !in s.attempts && SendGuard(s.row.value, intent, 0)
    ensures
      var s, all := Run(INITIAL, steps), steps + RefusedLife(id, "key", intent, 0);
      && ValidRun(INITIAL, all) && Run(INITIAL, all).effects == s.effects
      && Run(INITIAL, all).row.Some? && Run(INITIAL, all).row.value.state == Pending
      && Run(INITIAL, all).row.value.attempts > 0
      && Run(INITIAL, all).grants == s.grants + (if IsGrant(s.row.value, intent, 0) then 1 else 0)
      && Run(INITIAL, all).resends == s.resends + (if IsResend(s.row.value, intent, 0) then 1 else 0)
  {
    var s := Run(INITIAL, steps);
    RefusedSendHidesEffect(s, id, "key", intent, 0);
    RunAppends(INITIAL, steps, RefusedLife(id, "key", intent, 0));
  }

  /** Lookups need every attempt to respect its lease, whatever its mode: a manual attempt
      that sends late and a lookup that truthfully found nothing before apply it twice. */
  lemma LateSendDefeatsLookup(a: string, b: string) returns (steps: seq<Step>)
    requires a != b
    ensures Calm(INITIAL, steps)
    ensures Run(INITIAL, steps).grants == 0 && Run(INITIAL, steps).resends == 0 && Run(INITIAL, steps).effects == 2
  {
    var beginA := BeginStep(a, "key", Intent("payload", Manual, 24, false, false), 0);
    var beginB := BeginStep(b, "key", Intent("payload", DeliveryMode.Lookup, 24, false, false), OPERATION_LEASE);
    var find := LookupStep(b, NoEffect, OPERATION_LEASE);
    var begun := Apply(INITIAL, beginA);
    var looking := Apply(begun, beginB);
    assert looking.attempts[b].phase == LookingUp && looking.attempts[a].phase == Ready && looking.effects == 0;
    var ready := Apply(looking, find);
    var rest := BothSend(ready, a, b, OPERATION_LEASE);
    CalmOneMore(looking, find, rest);
    CalmOneMore(begun, beginB, [find] + rest);
    CalmOneMore(INITIAL, beginA, [beginB] + ([find] + rest));
    steps := [beginA] + ([beginB] + ([find] + rest));
  }

  lemma BothSend(s: System, a: string, b: string, now: int) returns (steps: seq<Step>)
    requires a != b && a in s.attempts && b in s.attempts && s.clock <= now
    requires s.attempts[a].phase == Ready && s.attempts[b].phase == Ready
    ensures Calm(s, steps) && Run(s, steps).effects == s.effects + 2
    ensures Run(s, steps).grants == s.grants && Run(s, steps).resends == s.resends
  {
    var first, second := SendStep(a, Response(200, ""), true, now), SendStep(b, Response(200, ""), true, now);
    CalmOneMore(Apply(s, first), second, []);
    CalmOneMore(s, first, [second]);
    assert [second] + [] == [second];
    steps := [first] + [second];
  }

  ghost predicate Calm(s: System, steps: seq<Step>) {
    ValidRun(s, steps) && EveryStep(s, steps, Monotone) && EveryStep(s, steps, Truthful)
  }

  lemma CalmOneMore(s: System, step: Step, rest: seq<Step>)
    requires Enabled(s, step) && Monotone(s, step) && Truthful(s, step) && Calm(Apply(s, step), rest)
    ensures Calm(s, [step] + rest) && Run(s, [step] + rest) == Run(Apply(s, step), rest)
  {
    assert ([step] + rest)[1..] == rest;
  }
}
