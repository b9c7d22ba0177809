/** An attempt of CallEndpoint is a run of the step system, whatever the other attempts do
    while it waits. */
module CallRuns {
  import opened Options
  import opened OperationLedger
  import opened CallEndpoint
  import opened DeliveryRuns

  /** The ledger transactions among some steps, as the other attempts of a call. */
  function Transactions(s: System, steps: seq<Step>): seq<Other>
    requires ValidRun(s, steps)
    decreases |steps|
  {
    if steps == [] then []
    else
      (match steps[0]
       case BeginStep(id, key, intent, now) => [OtherBegin(BeginInput(id, key, intent), now)]
       case FinishStep(id) => [OtherFinish(id, s.attempts[id].phase.rec, Healthy)]
       case _ => []) + Transactions(Apply(s, steps[0]), steps[1..])
  }

  predicate Foreign(id: string, steps: seq<Step>) {
    forall i :: 0 <= i < |steps| ==> steps[i].id != id
  }

  /** Other attempts change the row by their transactions, and not this attempt. */
  lemma {:induction false} ForeignSteps(s: System, id: string, steps: seq<Step>)
    requires ValidRun(s, steps) && Foreign(id, steps) && s.row.Some? && id in s.attempts
    ensures Run(s, steps).row == Some(RunOthers(s.row.value, Transactions(s, steps)))
    ensures id in Run(s, steps).attempts && Run(s, steps).attempts[id] == s.attempts[id]
    decreases |steps|
  {
    if steps != [] {
      var t := Apply(s, steps[0]);
      assert steps[0].id != id;
      ForeignSteps(t, id, steps[1..]);
      ForeignTransaction(s, steps[0], Transactions(t, steps[1..]));
    }
  }

  lemma ForeignTransaction(s: System, step: Step, rest: seq<Other>)
    requires s.row.Some? && Enabled(s, step)
    ensures
      var t := Apply(s, step);
      var own := match step
                 case BeginStep(id, key, intent, now) => [OtherBegin(BeginInput(id, key, intent), now)]
                 case FinishStep(id) => [OtherFinish(id, s.attempts[id].phase.rec, Healthy)]
                 case _ => [];
      t.row.Some? && RunOthers(s.row.value, own + rest) == RunOthers(t.row.value, rest)
  {
    if step.BeginStep? {
      var other := OtherBegin(BeginInput(step.id, step.key, step.intent), step.now);
      assert ([other] + rest)[1..] == rest;
    } else if step.FinishStep? {
      var other := OtherFinish(step.id, s.attempts[step.id].phase.rec, Healthy);
      assert ([other] + rest)[1..] == rest;
    } else {
      assert [] + rest == rest;
    }
  }

  /** In one pause the others take enabled steps, and the world shows their transactions. */
  ghost predicate PausedBy(s: System, id: string, moves: seq<Step>, others: seq<Other>) {
    ValidRun(s, moves) && Foreign(id, moves) && others == Transactions(s, moves)
  }

  /** The same for every pause between the tries to close, as far as they go. */
  ghost predicate ClosesAmid(s: System, id: string, w: World, moves: nat -> seq<Step>, i: nat)
    requires i < FINISH_TRIES
    decreases FINISH_TRIES - i
  {
    && PausedBy(s, id, moves(i + 1), w.pauses(i + 1))
    && var t := Run(s, moves(i + 1));
    GivesUp(w, i) || (
      Enabled(t, FinishStep(id))
      && (FinishReplyOf(t.row, id, w.faults(i)) == DatabaseError && i + 1 < FINISH_TRIES ==>
            ClosesAmid(if w.faults(i) == FailsBeforeCommit then t else Apply(t, FinishStep(id)), id, w, moves, i + 1)))
  }

  /** The tries to close, with everything the others do in between, are a run. */
  lemma {:induction false} CloseIsARun(
    s: System, id: string, w: World, moves: nat -> seq<Step>, i: nat
  ) returns (steps: seq<Step>)
    requires i < FINISH_TRIES && s.row.Some? && id in s.attempts && s.attempts[id].phase.Recording?
    requires ClosesAmid(s, id, w, moves, i)
    ensures ValidRun(s, steps)
    ensures Run(s, steps).row == Some(Close(s.row.value, id, s.attempts[id].phase.rec, w, i).0)
    ensures forall k :: 0 <= k < |steps| && steps[k].id == id ==> steps[k].FinishStep?
    decreases FINISH_TRIES - i
  {
    var others := moves(i + 1);
    ForeignSteps(s, id, others);
    var t := Run(s, others);
    steps := others;
    if !GivesUp(w, i) {
      if w.faults(i) != FailsBeforeCommit {
        RunOneMore(s, steps, FinishStep(id));
        steps := steps + [FinishStep(id)];
      }
      var now := Run(s, steps);
      if FinishReplyOf(t.row, id, w.faults(i)) == DatabaseError && i + 1 < FINISH_TRIES {
        var rest := CloseIsARun(now, id, w, moves, i + 1);
        RunAppends(s, steps, rest);
        steps := steps + rest;
      }
    }
  }

  /** A lease once lost or given back is never held again. */
  lemma {:induction false} LostStaysLost(s: System, id: string, steps: seq<Step>)
    requires ValidRun(s, steps) && id in s.attempts && !Holder(s, id)
    ensures id in Run(s, steps).attempts && !Holder(Run(s, steps), id)
    decreases |steps|
  {
    if steps != [] {
      LostStaysLost(Apply(s, steps[0]), id, steps[1..]);
    }
  }

  /** However often an attempt tries to close, and whatever others do in between, only the
      first transaction that commits can write. */
  lemma CloseWritesAtMostOnce(s: System, id: string, between: seq<Step>)
    requires Enabled(s, FinishStep(id)) && ValidRun(Apply(s, FinishStep(id)), between)
    ensures
      var t := Run(Apply(s, FinishStep(id)), between);
      Enabled(t, FinishStep(id)) ==> Apply(t, FinishStep(id)) == t
  {
    var closed := Apply(s, FinishStep(id));
    LostStaysLost(closed, id, between);
  }

  /** What an attempt does before it closes. */
  function Opening(s: System, input: BeginInput, w: World, applied: bool): seq<Step> {
    var decision := Decide(LockedRow(s.row, input), input.intent, w.now);
    [BeginStep(input.attemptId, input.operationKey, input.intent, w.now)]
    + (if decision.LookupThenSend? then [LookupStep(input.attemptId, w.lookup, w.now)] else [])
    + (if SendsRequest(decision, w) then [SendStep(input.attemptId, w.sent, applied, w.now)] else [])
  }

  lemma OpeningIsARun(s: System, input: BeginInput, w: World, applied: bool)
    requires input.attemptId !in s.attempts && (applied ==> !SurelyNotApplied(w.sent))
    ensures ValidRun(s, Opening(s, input, w, applied))
    ensures
      var decision := Decide(LockedRow(s.row, input), input.intent, w.now);
      var closing := ClosingRecord(decision, input.intent.mode, w);
      var t := Run(s, Opening(s, input, w, applied));
      && t.row == Some(BeginRow(s.row, input, w.now)) && input.attemptId in t.attempts
      && (closing.Some? ==> t.attempts[input.attemptId].phase == Recording(closing.value))
      && t.effects == s.effects + if applied && SendsRequest(decision, w) then 1 else 0
  {
    var id := input.attemptId;
    var decision := Decide(LockedRow(s.row, input), input.intent, w.now);
    var begin := BeginStep(id, input.operationKey, input.intent, w.now);
    var steps := [begin];
    RunOneMore(s, [], begin);
    assert [] + [begin] == steps;
    if decision.LookupThenSend? {
      RunOneMore(s, steps, LookupStep(id, w.lookup, w.now));
      steps := steps + [LookupStep(id, w.lookup, w.now)];
    }
    if SendsRequest(decision, w) {
      RunOneMore(s, steps, SendStep(id, w.sent, applied, w.now));
      steps := steps + [SendStep(id, w.sent, applied, w.now)];
    }
    assert steps == Opening(s, input, w, applied);
  }

  /** One call of CallEndpoint, with other attempts acting in every pause, is a run of this
      system whenever what the others do are enabled steps of theirs: the attempt opens,
      looks up and sends as its decision says, and after that it only closes. */
  lemma CallIsARun(
    s: System, input: BeginInput, w: World, moves: nat -> seq<Step>, applied: bool
  ) returns (steps: seq<Step>)
    requires input.attemptId !in s.attempts && (applied ==> !SurelyNotApplied(w.sent))
    requires
      var start := Opening(s, input, w, applied);
      ValidRun(s, start) ==>
        && PausedBy(Run(s, start), input.attemptId, moves(0), w.pauses(0))
        && ClosesAmid(Run(Run(s, start), moves(0)), input.attemptId, w, moves, 0)
    ensures ValidRun(s, steps) && Run(s, steps).row == Some(RowAfter(s.row, input, w))
    ensures Opening(s, input, w, applied) <= steps
    ensures
      forall k :: |Opening(s, input, w, applied)| <= k < |steps| && steps[k].id == input.attemptId ==>
        steps[k].FinishStep?
  {
    steps := Opening(s, input, w, applied);
    OpeningIsARun(s, input, w, applied);
    var begun := Run(s, steps);
    var closing := ClosingRecord(Decide(LockedRow(s.row, input), input.intent, w.now), input.intent.mode, w);
    if closing.Some? {
      ForeignSteps(begun, input.attemptId, moves(0));
      var rest := CloseIsARun(Run(begun, moves(0)), input.attemptId, w, moves, 0);
      RunAppends(begun, moves(0), rest);
      RunAppends(s, steps, moves(0) + rest);
      assert forall k :: |steps| <= k < |steps + (moves(0) + rest)| ==>
        (steps + (moves(0) + rest))[k] in moves(0) + rest;
      forall step | step in moves(0) + rest && step.id == input.attemptId ensures step.FinishStep? {
        assert step in moves(0) || step in rest;
      }
      steps := steps + (moves(0) + rest);
    }
  }
}
