/** Running the stages of a batch: the wave scheduler for manifests with dependencies and
    the ordered loop for those without. `BatchRun` is the state both loops update; the log
    records child launches and finalized stages in the order they happen. */
module StageScheduler {
  import opened StageGraph

  datatype RunStatus = Pending | Succeeded | Failed | Skipped

  /** How one stage's job goes when it is run. */
  datatype ChildStart = Started | AlreadyStarted | StartError
  datatype ChildEnd = Crashed | Counts(failed: nat, unresolved: nat, cancelled: bool)
  datatype Reply = Reply(jobCreated: bool, start: ChildStart, marked: bool, end: ChildEnd)

  datatype Event =
    | Launched(id: string)
    | Finalized(id: string, status: RunStatus)

  /** The answers of the outside world: per stage, and whether the n-th log write fails. */
  datatype World = World(reply: string -> Reply, writeFails: nat -> bool)

  /** A child that was started but whose job could not be marked as running. */
  predicate Unmarked(r: Reply) {
    r.start == Started && !r.marked
  }

  /** The only two reasons to give a batch up: the next write failed, or the child just
      launched could not be marked. */
  predicate Interrupted(w: World, log: seq<Event>) {
    w.writeFails(|log|) || (log != [] && log[|log| - 1].Launched? && Unmarked(w.reply(log[|log| - 1].id)))
  }

  /** Everything in the log went through: children start for jobs that were created, and a
      stage whose job was created is only settled as run after its child was started. */
  predicate Recorded(w: World, log: seq<Event>) {
    forall n :: 0 <= n < |log| ==>
      match log[n]
      case Launched(id) => w.reply(id).jobCreated && !Unmarked(w.reply(id))
      case Finalized(id, final) => !w.writeFails(n) && (final == Skipped || StartedIfCreated(w, log[..n], id))
  }

  predicate StartedIfCreated(w: World, log: seq<Event>, id: string) {
    w.reply(id).jobCreated ==> Launched(id) in log
  }

  /** One more event that went through. */
  lemma RecordedNext(w: World, log: seq<Event>, e: Event)
    requires Recorded(w, log)
    requires match e
             case Launched(id) => w.reply(id).jobCreated && !Unmarked(w.reply(id))
             case Finalized(id, final) => !w.writeFails(|log|) && (final == Skipped || StartedIfCreated(w, log, id))
    ensures Recorded(w, log + [e])
  {
    var longer := log + [e];
    forall n | 0 <= n < |log| ensures longer[n] == log[n] && longer[..n] == log[..n] {
    }
    assert longer[..|log|] == log;
  }

  /** The children of these stages were started. */
  predicate AllStarted(wave: seq<Stage>, log: seq<Event>) {
    forall i :: 0 <= i < |wave| ==> Launched(wave[i].id) in log
  }

  lemma StillStarted(wave: seq<Stage>, log: seq<Event>, longer: seq<Event>)
    requires AllStarted(wave, log) && log <= longer
    ensures AllStarted(wave, longer)
  {
    forall i | 0 <= i < |wave| ensures Launched(wave[i].id) in longer {
      assert Launched(wave[i].id) in longer[..|log|];
    }
  }

  /** No write fails, and no mark. */
  ghost predicate Persists(w: World) {
    (forall n :: !w.writeFails(n)) && forall id :: !Unmarked(w.reply(id))
  }

  predicate Clean(r: Reply) {
    r.jobCreated && r.start != StartError && r.end == Counts(0, 0, false)
  }

  predicate Continues(s: Stage) {
    s.onFailure == "continue"
  }

  /** A stage failed if its job or child never started, the child crashed, or it left a row
      failed or unresolved, or was cancelled. */
  method JudgeStage(r: Reply) returns (final: RunStatus)
    ensures final == Succeeded <==> r.jobCreated && r.start != StartError && r.end == Counts(0, 0, false)
    ensures final == if Clean(r) then Succeeded else Failed
  {
    if !r.jobCreated || r.start == StartError {
      return Failed;
    }
    match r.end {
      case Crashed => final := Failed;
      case Counts(failed, unresolved, cancelled) =>
        final := if failed > 0 || unresolved > 0 || cancelled then Failed else Succeeded;
    }
  }

  /** The stages that were run ended as their replies say. */
  predicate EndedByReplies(stages: seq<Stage>, w: World, status: StatusMap) {
    forall i :: 0 <= i < |stages| ==> EndedByReply(w.reply(stages[i].id), StatusOf(status, stages[i].id))
  }

  predicate EndedByReply(r: Reply, status: RunStatus) {
    && (status == Succeeded ==>
          && r.jobCreated && r.start != StartError && r.end.Counts?
          && r.end.failed == 0 && r.end.unresolved == 0 && !r.end.cancelled)
    && (status == Failed ==>
          || !r.jobCreated || r.start == StartError || r.end.Crashed?
          || r.end.failed > 0 || r.end.unresolved > 0 || r.end.cancelled)
  }

  function Outcome(w: World, id: string): RunStatus {
    if Clean(w.reply(id)) then Succeeded else Failed
  }

  type StatusMap = map<string, RunStatus>

  function StatusOf(status: StatusMap, id: string): RunStatus {
    if id in status then status[id] else Pending
  }

  predicate DepsSucceeded(s: Stage, status: StatusMap) {
    forall d :: d in s.dependsOn ==> StatusOf(status, d) == Succeeded
  }

  predicate DepsLost(s: Stage, status: StatusMap) {
    exists d :: d in s.dependsOn && (StatusOf(status, d) == Failed || StatusOf(status, d) == Skipped)
  }

  /** A stage failed whose policy stops the batch. */
  ghost predicate StopFailure(stages: seq<Stage>, status: StatusMap) {
    exists s {:trigger StopsBatch(status, s)} :: s in stages && StopsBatch(status, s)
  }

  predicate StopsBatch(status: StatusMap, s: Stage) {
    s.onFailure != "continue" && StatusOf(status, s.id) == Failed
  }

  /** The error text persisted with a skipped stage. */
  datatype SkipReason = AfterStop | LostDependency | NeverSatisfied

  // ----- the specification -----------------------------------------------------------------

  /** A dependency is lost, or is among the stages about to be skipped. */
  predicate DepsDoomed(s: Stage, status: StatusMap, doomed: set<string>) {
    exists d :: d in s.dependsOn && (StatusOf(status, d) == Failed || StatusOf(status, d) == Skipped || d in doomed)
  }

  /** What the status of one stage may be, given the others. */
  ghost predicate Settled(stages: seq<Stage>, w: World, status: StatusMap, doomed: set<string>, s: Stage) {
    match StatusOf(status, s.id)
    case Pending => true
    case Skipped => DepsDoomed(s, status, doomed) || StopFailure(stages, status)
    case ran => ran == Outcome(w, s.id) && DepsSucceeded(s, status)
  }

  ghost predicate ConsistentUpTo(stages: seq<Stage>, w: World, status: StatusMap, doomed: set<string>) {
    && status.Keys == Ids(stages)
    && forall s {:trigger Settled(stages, w, status, doomed, s)} ::
         s in stages ==> Settled(stages, w, status, doomed, s)
  }

  /** The status maps the scheduler stands at between two decisions. */
  ghost predicate Consistent(stages: seq<Stage>, w: World, status: StatusMap) {
    ConsistentUpTo(stages, w, status, {})
  }

  predicate Finished(status: StatusMap) {
    forall id :: id in status ==> status[id] != Pending
  }

  /** Final statuses never change. */
  ghost predicate Extends(before: StatusMap, after: StatusMap) {
    before.Keys == after.Keys && forall id :: id in before && before[id] != Pending ==> after[id] == before[id]
  }

  /** Giving a pending stage a justified final status keeps the map consistent. */
  lemma SettleOne(stages: seq<Stage>, w: World, status: StatusMap, doomed: set<string>, s: Stage, final: RunStatus)
    requires UniqueIds(stages) && s in stages && ConsistentUpTo(stages, w, status, doomed)
    requires StatusOf(status, s.id) == Pending && final != Pending
    requires Settled(stages, w, status[s.id := final], doomed, s)
    ensures ConsistentUpTo(stages, w, status[s.id := final], doomed)
    ensures
      StopFailure(stages, status[s.id := final]) <==> StopFailure(stages, status) || (final == Failed && !Continues(s))
  {
    var after := status[s.id := final];
    assert forall d :: d in status && status[d] != Pending ==> StatusOf(after, d) == StatusOf(status, d);
    StopFailureAfter(stages, status, s, final);
    forall t | t in stages ensures Settled(stages, w, after, doomed, t) {
      assert Settled(stages, w, status, doomed, t);
      if t.id == s.id {
        assert t == s;
      }
    }
  }

  lemma StopFailureAfter(stages: seq<Stage>, status: StatusMap, s: Stage, final: RunStatus)
    requires UniqueIds(stages) && s in stages && StatusOf(status, s.id) == Pending
    ensures
      StopFailure(stages, status[s.id := final]) <==> StopFailure(stages, status) || (final == Failed && !Continues(s))
  {
    var after := status[s.id := final];
    forall t | t in stages
      ensures StopsBatch(after, t) <==> StopsBatch(status, t) || (t == s && final == Failed && !Continues(s))
    {
      if t.id == s.id {
        assert t == s;
      }
    }
    if final == Failed && !Continues(s) {
      assert StopsBatch(after, s);
    }
    if StopFailure(stages, status) {
      var t :| t in stages && StopsBatch(status, t);
      assert StopsBatch(after, t);
    }
  }

  // ----- helpers of the manifest package ------------------------------------------------------

  method DepsBlocking(s: Stage, status: StatusMap) returns (blocked: bool)
    ensures blocked == DepsLost(s, status)
  {
    for i := 0 to |s.dependsOn|
      invariant
        forall j :: 0 <= j < i ==>
          StatusOf(status, s.dependsOn[j]) != Failed && StatusOf(status, s.dependsOn[j]) != Skipped
    {
      var st := StatusOf(status, s.dependsOn[i]);
      if st == Failed || st == Skipped {
        return true;
      }
    }
    blocked := false;
  }

  predicate IsReady(s: Stage, status: StatusMap) {
    StatusOf(status, s.id) == Pending && DepsSucceeded(s, status)
  }

  method ReadyStages(stages: seq<Stage>, status: StatusMap) returns (ready: seq<Stage>)
    requires UniqueIds(stages)
    ensures UniqueIds(ready)
    ensures forall s :: s in ready <==> s in stages && IsReady(s, status)
  {
    ready := [];
    for i := 0 to |stages|
      invariant UniqueIds(ready)
      invariant forall s :: s in ready <==> s in stages[..i] && IsReady(s, status)
    {
      var s := stages[i];
      assert stages[..i + 1] == stages[..i] + [s];
      if StatusOf(status, s.id) == Pending {
        var ok := true;
        for j := 0 to |s.dependsOn|
          invariant ok ==> forall k :: 0 <= k < j ==> StatusOf(status, s.dependsOn[k]) == Succeeded
        {
          if StatusOf(status, s.dependsOn[j]) != Succeeded {
            ok := false;
            break;
          }
        }
        if ok {
          assert forall r :: r in ready ==> r.id != s.id;
          ready := ready + [s];
        }
      }
    }
    assert stages[..|stages|] == stages;
  }

  // ----- the log ---------------------------------------------------------------------------------

  function FinalIds(log: seq<Event>): seq<string> {
    if log == [] then []
    else
      var e := log[|log| - 1];
      FinalIds(log[..|log| - 1]) + if e.Finalized? then [e.id] else []
  }

  function CountOk(log: seq<Event>): nat {
    if log == [] then 0
    else CountOk(log[..|log| - 1]) + if log[|log| - 1].Finalized? && log[|log| - 1].status == Succeeded then 1 else 0
  }

  /** A child starts only after all its dependencies succeeded, and never after the failure
      of a stage whose policy stops the batch. */
  ghost predicate LaunchOk(stages: seq<Stage>, before: seq<Event>, e: Event) {
    e.Launched? ==>
      && (forall s, d :: s in stages && s.id == e.id && d in s.dependsOn ==> Finalized(d, Succeeded) in before)
      && (forall s :: s in stages && Finalized(s.id, Failed) in before ==> Continues(s))
  }

  ghost predicate SafeLog(stages: seq<Stage>, log: seq<Event>) {
    forall p {:trigger LaunchOk(stages, log[..p], log[p])} :: 0 <= p < |log| ==> LaunchOk(stages, log[..p], log[p])
  }

  /** The log holds exactly one final entry for each stage that has a final status. */
  ghost predicate LogMatches(status: StatusMap, log: seq<Event>) {
    && Distinct(FinalIds(log))
    && (forall id {:trigger LogAt(status, log, id)} :: LogAt(status, log, id))
  }

  ghost predicate LogAt(status: StatusMap, log: seq<Event>, id: string) {
    && (id in FinalIds(log) <==> StatusOf(status, id) != Pending)
    && (forall st :: Finalized(id, st) in log <==> StatusOf(status, id) == st && st != Pending)
  }

  lemma SafeAppend(stages: seq<Stage>, log: seq<Event>, e: Event)
    requires SafeLog(stages, log) && LaunchOk(stages, log, e)
    ensures SafeLog(stages, log + [e])
  {
    forall p | 0 <= p < |log + [e]| ensures LaunchOk(stages, (log + [e])[..p], (log + [e])[p]) {
      if p < |log| {
        assert (log + [e])[..p] == log[..p];
        assert LaunchOk(stages, log[..p], log[p]);
      } else {
        assert (log + [e])[..p] == log;
      }
    }
  }

  lemma FinalAppend(status: StatusMap, log: seq<Event>, id: string, final: RunStatus)
    requires LogMatches(status, log) && id in status && status[id] == Pending && final != Pending
    ensures LogMatches(status[id := final], log + [Finalized(id, final)])
    ensures FinalIds(log + [Finalized(id, final)]) == FinalIds(log) + [id]
    ensures CountOk(log + [Finalized(id, final)]) == CountOk(log) + if final == Succeeded then 1 else 0
  {
    var e := Finalized(id, final);
    assert (log + [e])[..|log|] == log;
    assert FinalIds(log + [e]) == FinalIds(log) + [id];
    assert LogAt(status, log, id);
    assert Distinct(FinalIds(log) + [id]);
    var after, longer := status[id := final], log + [e];
    forall k ensures LogAt(after, longer, k) {
      assert LogAt(status, log, k);
    }
  }

  lemma LaunchAppend(status: StatusMap, log: seq<Event>, id: string)
    requires LogMatches(status, log)
    ensures LogMatches(status, log + [Launched(id)])
    ensures FinalIds(log + [Launched(id)]) == FinalIds(log)
    ensures CountOk(log + [Launched(id)]) == CountOk(log)
  {
    assert (log + [Launched(id)])[..|log|] == log;
    forall k ensures LogAt(status, log + [Launched(id)], k) {
      assert LogAt(status, log, k);
    }
  }

  // ----- the run -----------------------------------------------------------------------------------

  ghost predicate RunInv(stages: seq<Stage>, w: World, doomed: set<string>,
                         status: StatusMap, stopEarly: bool, stagesOk: nat, stagesFailed: nat, log: seq<Event>)
  {
    && ConsistentUpTo(stages, w, status, doomed)
    && (stopEarly <==> StopFailure(stages, status))
    && SafeLog(stages, log)
    && LogMatches(status, log)
    && |FinalIds(log)| == stagesOk + stagesFailed
    && CountOk(log) == stagesOk
  }

  /** Recording a justified final status keeps the run's invariant. */
  lemma FinalKeeps(stages: seq<Stage>, w: World, doomed: set<string>, status: StatusMap, stopEarly: bool,
                   stagesOk: nat, stagesFailed: nat, log: seq<Event>, s: Stage, final: RunStatus)
    requires
      UniqueIds(stages) && s in stages && RunInv(stages, w, doomed, status, stopEarly, stagesOk, stagesFailed, log)
    requires StatusOf(status, s.id) == Pending
    requires (final == Skipped && (DepsDoomed(s, status, doomed) || stopEarly))
      || (final == Outcome(w, s.id) && DepsSucceeded(s, status))
    ensures RunInv(stages, w, doomed, status[s.id := final], stopEarly || (final == Failed && !Continues(s)),
              if final == Succeeded then stagesOk + 1 else stagesOk,
              if final == Succeeded then stagesFailed else stagesFailed + 1,
              log + [Finalized(s.id, final)])
  {
    var after := status[s.id := final];
    SafeAppend(stages, log, Finalized(s.id, final));
    FinalAppend(status, log, s.id, final);
    StopFailureAfter(stages, status, s, final);
    assert Settled(stages, w, after, doomed, s) by {
      assert forall d :: d in status && status[d] != Pending ==> StatusOf(after, d) == StatusOf(status, d);
    }
    SettleOne(stages, w, status, doomed, s, final);
  }

  /** Launching a ready stage keeps it too. */
  lemma LaunchKeeps(stages: seq<Stage>, w: World, status: StatusMap, stopEarly: bool,
                    stagesOk: nat, stagesFailed: nat, log: seq<Event>, s: Stage)
    requires UniqueIds(stages) && s in stages && RunInv(stages, w, {}, status, stopEarly, stagesOk, stagesFailed, log)
    requires DepsSucceeded(s, status) && !stopEarly
    ensures RunInv(stages, w, {}, status, stopEarly, stagesOk, stagesFailed, log + [Launched(s.id)])
  {
    assert LaunchOk(stages, log, Launched(s.id)) by {
      forall t, d | t in stages && t.id == s.id && d in t.dependsOn ensures Finalized(d, Succeeded) in log {
        assert t == s && LogAt(status, log, d);
      }
      forall t | t in stages && Finalized(t.id, Failed) in log ensures Continues(t) {
        assert LogAt(status, log, t.id) && (StopsBatch(status, t) ==> StopFailure(stages, status));
      }
    }
    SafeAppend(stages, log, Launched(s.id));
    LaunchAppend(status, log, s.id);
  }

  /** What stands behind each reason. */
  ghost predicate ReasonHolds(
    stages: seq<Stage>, status: StatusMap, doomed: set<string>, s: Stage, reason: SkipReason
  ) {
    match reason
    case AfterStop => StopFailure(stages, status)
    case LostDependency => DepsLost(s, status)
    case NeverSatisfied => DepsDoomed(s, status, doomed)
  }

  /** Exactly the skipped stages have a reason, and something stands behind it. */
  ghost predicate ReasonsInv(
    stages: seq<Stage>, status: StatusMap, doomed: set<string>, reasons: map<string, SkipReason>
  ) {
    forall s {:trigger ReasonAt(stages, status, doomed, reasons, s)} ::
      s in stages ==> ReasonAt(stages, status, doomed, reasons, s)
  }

  ghost predicate ReasonAt(
    stages: seq<Stage>, status: StatusMap, doomed: set<string>, reasons: map<string, SkipReason>, s: Stage
  ) {
    && (s.id in reasons <==> StatusOf(status, s.id) == Skipped)
    && (s.id in reasons ==> ReasonHolds(stages, status, doomed, s, reasons[s.id]))
  }

  /** Settling a stage keeps the reasons of the others. */
  lemma ReasonsKeep(stages: seq<Stage>, status: StatusMap, doomed: set<string>, reasons: map<string, SkipReason>,
                    s: Stage, final: RunStatus, reason: SkipReason)
    requires UniqueIds(stages) && s in stages && ReasonsInv(stages, status, doomed, reasons)
    requires StatusOf(status, s.id) == Pending && final != Pending
    requires final == Skipped ==> ReasonHolds(stages, status, doomed, s, reason)
    ensures
      var now := if final == Skipped then reasons[s.id := reason] else reasons;
      ReasonsInv(stages, status[s.id := final], doomed, now)
  {
    var after := status[s.id := final];
    var now := if final == Skipped then reasons[s.id := reason] else reasons;
    StopFailureAfter(stages, status, s, final);
    assert forall d :: StatusOf(status, d) != Pending ==> StatusOf(after, d) == StatusOf(status, d);
    forall t | t in stages ensures ReasonAt(stages, after, doomed, now, t) {
      assert ReasonAt(stages, status, doomed, reasons, t);
      if t.id == s.id {
        assert t == s;
      }
    }
  }

  /** Everything that holds between two events of a run. */
  ghost predicate StateInv(
    stages: seq<Stage>, w: World, doomed: set<string>, status: StatusMap, stopEarly: bool, stagesOk: nat,
    stagesFailed: nat, log: seq<Event>, reasons: map<string, SkipReason>
  ) {
    && RunInv(stages, w, doomed, status, stopEarly, stagesOk, stagesFailed, log)
    && ReasonsInv(stages, status, doomed, reasons) && Recorded(w, log)
  }

  /** Skipping a stage for a reason that holds keeps it. */
  lemma SkipKeeps(
    stages: seq<Stage>, w: World, doomed: set<string>, status: StatusMap, stopEarly: bool, stagesOk: nat,
    stagesFailed: nat, log: seq<Event>, reasons: map<string, SkipReason>, s: Stage, reason: SkipReason
  )
    requires UniqueIds(stages) && s in stages && StatusOf(status, s.id) == Pending && !w.writeFails(|log|)
    requires StateInv(stages, w, doomed, status, stopEarly, stagesOk, stagesFailed, log, reasons)
    requires match reason
             case AfterStop => stopEarly
             case LostDependency => DepsLost(s, status)
             case NeverSatisfied => DepsDoomed(s, status, doomed)
    ensures StateInv(stages, w, doomed, status[s.id := Skipped], stopEarly, stagesOk, stagesFailed + 1,
              log + [Finalized(s.id, Skipped)], reasons[s.id := reason])
  {
    FinalKeeps(stages, w, doomed, status, stopEarly, stagesOk, stagesFailed, log, s, Skipped);
    ReasonsKeep(stages, status, doomed, reasons, s, Skipped, reason);
    RecordedNext(w, log, Finalized(s.id, Skipped));
  }

  /** So does settling a stage that was run. */
  lemma EndKeeps(
    stages: seq<Stage>, w: World, status: StatusMap, stopEarly: bool, stagesOk: nat, stagesFailed: nat,
    log: seq<Event>, reasons: map<string, SkipReason>, s: Stage
  )
    requires UniqueIds(stages) && s in stages && StatusOf(status, s.id) == Pending && !w.writeFails(|log|)
    requires StateInv(stages, w, {}, status, stopEarly, stagesOk, stagesFailed, log, reasons)
    requires DepsSucceeded(s, status) && StartedIfCreated(w, log, s.id)
    ensures
      var final := Outcome(w, s.id);
      StateInv(stages, w, {}, status[s.id := final], stopEarly || (final == Failed && !Continues(s)),
        stagesOk + (if final == Succeeded then 1 else 0), stagesFailed + (if final == Succeeded then 0 else 1),
        log + [Finalized(s.id, final)], reasons)
  {
    FinalKeeps(stages, w, {}, status, stopEarly, stagesOk, stagesFailed, log, s, Outcome(w, s.id));
    ReasonsKeep(stages, status, {}, reasons, s, Outcome(w, s.id), AfterStop);
    RecordedNext(w, log, Finalized(s.id, Outcome(w, s.id)));
  }

  lemma RepliesDecide(stages: seq<Stage>, w: World, status: StatusMap)
    requires ConsistentUpTo(stages, w, status, {})
    ensures EndedByReplies(stages, w, status)
  {
    forall i | 0 <= i < |stages| ensures EndedByReply(w.reply(stages[i].id), StatusOf(status, stages[i].id)) {
      assert Settled(stages, w, status, {}, stages[i]);
    }
  }

  class BatchRun {
    var status: StatusMap
    var stopEarly: bool
    var stagesOk: nat
    var stagesFailed: nat
    var log: seq<Event>
    var reasons: map<string, SkipReason>

    ghost predicate Inv(stages: seq<Stage>, w: World, doomed: set<string>)
      reads this
    {
      StateInv(stages, w, doomed, status, stopEarly, stagesOk, stagesFailed, log, reasons)
    }

    constructor ()
      ensures status == map[] && !stopEarly && stagesOk == stagesFailed == 0 && log == [] && reasons == map[]
    {
      status, stopEarly, stagesOk, stagesFailed, log, reasons := map[], false, 0, 0, [], map[];
    }

    /** Persists a final status; a failed write ends the batch workflow. */
    method WriteFinal(id: string, final: RunStatus, w: World) returns (ok: bool)
      modifies this`log
      ensures ok <==> !w.writeFails(|old(log)|)
      ensures log == if ok then old(log) + [Finalized(id, final)] else old(log)
    {
      if w.writeFails(|log|) {
        return false;
      }
      log := log + [Finalized(id, final)];
      ok := true;
    }

    method SkipStage(
      stages: seq<Stage>, w: World, ghost doomed: set<string>, s: Stage, reason: SkipReason
    ) returns (ok: bool)
      requires UniqueIds(stages) && s in stages && Inv(stages, w, doomed)
      requires StatusOf(status, s.id) == Pending
      requires match reason
               case AfterStop => stopEarly
               case LostDependency => DepsLost(s, status)
               case NeverSatisfied => DepsDoomed(s, status, doomed)
      modifies this
      ensures SafeLog(stages, log) && (!ok ==> Interrupted(w, log))
      ensures ok ==> Inv(stages, w, doomed) && stopEarly == old(stopEarly)
      ensures ok ==> status == old(status)[s.id := Skipped] && reasons == old(reasons)[s.id := reason]
      ensures ok ==> log == old(log) + [Finalized(s.id, Skipped)]
    {
      if !w.writeFails(|log|) {
        SkipKeeps(stages, w, doomed, status, stopEarly, stagesOk, stagesFailed, log, reasons, s, reason);
      }
      assert SafeLog(stages, log);
      ok := WriteFinal(s.id, Skipped, w);
      if ok {
        stagesFailed := stagesFailed + 1;
        status := status[s.id := Skipped];
        reasons := reasons[s.id := reason];
      }
    }

    /** Counts and persists how a stage that was run ended. */
    method EndStage(stages: seq<Stage>, w: World, s: Stage) returns (ok: bool)
      requires UniqueIds(stages) && s in stages && Inv(stages, w, {})
      requires StatusOf(status, s.id) == Pending && DepsSucceeded(s, status) && StartedIfCreated(w, log, s.id)
      modifies this
      ensures SafeLog(stages, log) && (!ok ==> Interrupted(w, log))
      ensures ok ==> Inv(stages, w, {})
      ensures ok ==> status == old(status)[s.id := Outcome(w, s.id)] && reasons == old(reasons)
      ensures ok ==> log == old(log) + [Finalized(s.id, Outcome(w, s.id))]
      ensures ok ==> (stopEarly <==> old(stopEarly) || BadStop(w, s))
    {
      var final := JudgeStage(w.reply(s.id));
      if !w.writeFails(|log|) {
        EndKeeps(stages, w, status, stopEarly, stagesOk, stagesFailed, log, reasons, s);
      }
      assert SafeLog(stages, log);
      ok := CountAndWrite(s, final, w);
    }

    method CountAndWrite(s: Stage, final: RunStatus, w: World) returns (ok: bool)
      requires final == Succeeded || final == Failed
      modifies this`status, this`stopEarly, this`stagesOk, this`stagesFailed, this`log
      ensures ok <==> !w.writeFails(|old(log)|)
      ensures log == if ok then old(log) + [Finalized(s.id, final)] else old(log)
      ensures status == old(status)[s.id := final]
      ensures stopEarly == (old(stopEarly) || (final == Failed && !Continues(s)))
      ensures stagesOk == old(stagesOk) + (if final == Succeeded then 1 else 0)
      ensures stagesFailed == old(stagesFailed) + (if final == Succeeded then 0 else 1)
    {
      CountEnd(s, final);
      ok := WriteFinal(s.id, final, w);
    }

    /** Counts a stage that was run, and stops the batch if its policy says so. */
    method CountEnd(s: Stage, final: RunStatus)
      requires final == Succeeded || final == Failed
      modifies this`status, this`stopEarly, this`stagesOk, this`stagesFailed
      ensures status == old(status)[s.id := final]
      ensures stopEarly == (old(stopEarly) || (final == Failed && !Continues(s)))
      ensures stagesOk == old(stagesOk) + (if final == Succeeded then 1 else 0)
      ensures stagesFailed == old(stagesFailed) + (if final == Succeeded then 0 else 1)
    {
      if final == Succeeded {
        stagesOk := stagesOk + 1;
      } else {
        stagesFailed := stagesFailed + 1;
        if !Continues(s) {
          stopEarly := true;
        }
      }
      status := status[s.id := final];
    }

    /** One stage's turn in a skip pass. */
    method SkipIfLost(stages: seq<Stage>, w: World, i: nat) returns (skipped: bool, ok: bool)
      requires UniqueIds(stages) && i < |stages| && Inv(stages, w, {})
      modifies this
      ensures SafeLog(stages, log) && (!ok ==> Interrupted(w, log))
      ensures ok ==> Inv(stages, w, {}) && stopEarly == old(stopEarly)
      ensures skipped <==>
        StatusOf(old(status), stages[i].id) == Pending && (old(stopEarly) || DepsLost(stages[i], old(status)))
      ensures ok && skipped ==>
        && stages[i].id in old(status) && status == old(status)[stages[i].id := Skipped]
        && reasons == old(reasons)[stages[i].id := if stopEarly then AfterStop else LostDependency]
      ensures !skipped ==> ok && status == old(status) && reasons == old(reasons)
    {
      var s := stages[i];
      skipped, ok := false, true;
      if StatusOf(status, s.id) == Pending {
        skipped := stopEarly;
        if !skipped {
          skipped := DepsBlocking(s, status);
        }
        if skipped {
          InIds(stages, i);
          ok := SkipStage(stages, w, {}, s, if stopEarly then AfterStop else LostDependency);
        }
      }
    }

    /** Skips pending stages that lost a dependency, or all of them once the batch stops. */
    method SkipPass(stages: seq<Stage>, w: World) returns (progress: bool, ok: bool)
      requires UniqueIds(stages) && Inv(stages, w, {})
      modifies this
      ensures SafeLog(stages, log) && (!ok ==> Interrupted(w, log))
      ensures ok ==> Inv(stages, w, {}) && Extends(old(status), status) && stopEarly == old(stopEarly)
      ensures ok ==> status == PassPrefix(stages, old(status), stopEarly, |stages|)
      ensures
        ok ==> PassReasons(old(status), status, if stopEarly then AfterStop else LostDependency, old(reasons), reasons)
      ensures ok && progress ==> PendingIds(status) < PendingIds(old(status))
      ensures ok && !progress ==> status == old(status)
    {
      progress := false;
      for i := 0 to |stages|
        invariant Inv(stages, w, {}) && Extends(old(status), status) && stopEarly == old(stopEarly)
        invariant status == PassPrefix(stages, old(status), stopEarly, i)
        invariant
          PassReasons(old(status), status, if stopEarly then AfterStop else LostDependency, old(reasons), reasons)
        invariant progress ==> PendingIds(status) < PendingIds(old(status))
        invariant !progress ==> status == old(status)
      {
        ghost var before, told := status, reasons;
        var skipped;
        skipped, ok := SkipIfLost(stages, w, i);
        if !ok {
          return;
        }
        if skipped {
          progress := true;
          OneSettled(old(status), before, status, stages[i].id);
          PassReasonsNext(old(status), before, status, if stopEarly then AfterStop else LostDependency,
            old(reasons), told, reasons, stages[i].id);
        }
      }
      ok := true;
    }

    /** Nothing is ready: whatever is still pending is skipped as never satisfied. */
    method SkipRest(stages: seq<Stage>, w: World) returns (ok: bool)
      requires UniqueIds(stages) && Closed(GraphOf(stages)) && Inv(stages, w, {})
      requires forall s :: s in stages ==> !IsReady(s, status)
      modifies this
      ensures SafeLog(stages, log) && (!ok ==> Interrupted(w, log))
      ensures
        ok ==> Inv(stages, w, {}) && Extends(old(status), status) && Finished(status) && stopEarly == old(stopEarly)
      ensures ok ==> forall id :: id in old(status) && old(status)[id] == Pending ==> status[id] == Skipped
      ensures ok ==> PassReasons(old(status), status, NeverSatisfied, old(reasons), reasons)
    {
      ghost var doomed := PendingIds(status);
      DoomMore(stages, w, status, doomed);
      ReasonsDoomMore(stages, status, doomed, reasons);
      for i := 0 to |stages|
        invariant Inv(stages, w, doomed) && Extends(old(status), status)
        invariant DoomInv(stages, i, doomed, status) && stopEarly == old(stopEarly)
        invariant PassReasons(old(status), status, NeverSatisfied, old(reasons), reasons)
      {
        var s := stages[i];
        ghost var before, told := status, reasons;
        if StatusOf(status, s.id) == Pending {
          InIds(stages, i);
          WaitsForDoomed(stages, old(status), status, s);
          ok := SkipStage(stages, w, doomed, s, NeverSatisfied);
          if !ok {
            return;
          }
          OneSettled(old(status), before, status, s.id);
          PassReasonsNext(old(status), before, status, NeverSatisfied, old(reasons), told, reasons, s.id);
        }
        DoomNext(stages, i, doomed, before, status);
      }
      DoomFulfilled(stages, w, status, doomed);
      ReasonsFulfilled(stages, status, doomed, reasons);
      ok := true;
    }

    /** Starts the child of a ready stage; a failed start settles the stage at once. */
    method LaunchOne(stages: seq<Stage>, w: World, s: Stage) returns (launched: bool, ok: bool)
      requires UniqueIds(stages) && Inv(stages, w, {}) && s in stages && IsReady(s, status)
      modifies this
      ensures SafeLog(stages, log) && (!ok ==> Interrupted(w, log))
      ensures ok ==> Inv(stages, w, {})
      ensures ok ==>
        (launched <==> !old(stopEarly) && w.reply(s.id).jobCreated && w.reply(s.id).start != StartError)
      ensures ok && launched ==> status == old(status) && !stopEarly && log == old(log) + [Launched(s.id)]
      ensures ok ==> old(log) <= log
      ensures ok ==> reasons == if !launched && old(stopEarly) then old(reasons)[s.id := AfterStop] else old(reasons)
      ensures ok && !launched ==> status == old(status)[s.id := if old(stopEarly) then Skipped else Outcome(w, s.id)]
      ensures ok && !launched ==> (stopEarly <==> old(stopEarly) || BadStop(w, s))
    {
      launched := false;
      if stopEarly {
        ok := SkipStage(stages, w, {}, s, AfterStop);
        return;
      }
      var reply := w.reply(s.id);
      if !reply.jobCreated {
        ok := EndStage(stages, w, s);
        return;
      }
      LaunchKeeps(stages, w, status, stopEarly, stagesOk, stagesFailed, log, s);
      ghost var earlier := log;
      log := log + [Launched(s.id)];
      if !Unmarked(reply) {
        RecordedNext(w, earlier, Launched(s.id));
      }
      if reply.start == StartError {
        ok := EndStage(stages, w, s);
        return;
      }
      if Unmarked(reply) {
        return false, false;
      }
      launched, ok := true, true;
    }

    /** The i-th stage of a wave. */
    method LaunchNext(
      stages: seq<Stage>, w: World, ready: seq<Stage>, i: nat, launched: seq<Stage>, ghost start: StatusMap
    )
      returns (wave: seq<Stage>, ok: bool)
      requires UniqueIds(stages) && i < |ready| && Inv(stages, w, {}) && WaveInv(stages, ready, i, launched, status)
      requires Extends(start, status) && OnlyThese(start, status, ready) && AllStarted(launched, log)
      modifies this
      ensures SafeLog(stages, log) && (!ok ==> Interrupted(w, log))
      ensures ok ==> Inv(stages, w, {}) && WaveInv(stages, ready, i + 1, wave, status) && AllStarted(wave, log)
      ensures ok ==> Extends(start, status) && OnlyThese(start, status, ready)
      ensures ok && NoneNeverSatisfied(old(reasons)) ==> NoneNeverSatisfied(reasons)
    {
      var s := ready[i];
      WaveHead(stages, ready, i, launched, status);
      var started;
      wave := launched;
      started, ok := LaunchOne(stages, w, s);
      if ok {
        StillStarted(launched, old(log), log);
      }
      if ok && started {
        WaveGrows(stages, ready, i, launched, status);
        wave := launched + [s];
      } else if ok {
        OneSettled(start, old(status), status, s.id);
        WaveSettles(stages, ready, i, launched, old(status), status);
        OnlyTheseNext(start, old(status), status, ready, i);
      }
    }

    /** Starts the children of one wave. */
    method LaunchWave(stages: seq<Stage>, w: World, ready: seq<Stage>) returns (wave: seq<Stage>, ok: bool)
      requires UniqueIds(stages) && UniqueIds(ready) && Inv(stages, w, {})
      requires forall s :: s in ready ==> s in stages && IsReady(s, status)
      modifies this
      ensures SafeLog(stages, log) && (!ok ==> Interrupted(w, log))
      ensures ok ==> Inv(stages, w, {}) && Extends(old(status), status) && UniqueIds(wave)
      ensures ok ==> forall s :: s in wave ==> s in stages && IsReady(s, status)
      ensures ok ==> forall s :: s in ready ==> s in wave || StatusOf(status, s.id) != Pending
      ensures ok ==> (forall s :: s in wave ==> s in ready) && OnlyThese(old(status), status, ready)
      ensures ok ==> AllStarted(wave, log)
      ensures ok && NoneNeverSatisfied(old(reasons)) ==> NoneNeverSatisfied(reasons)
    {
      wave := [];
      for i := 0 to |ready|
        invariant Inv(stages, w, {}) && Extends(old(status), status)
        invariant OnlyThese(old(status), status, ready)
        invariant NoneNeverSatisfied(old(reasons)) ==> NoneNeverSatisfied(reasons)
        invariant WaveInv(stages, ready, i, wave, status) && AllStarted(wave, log)
      {
        wave, ok := LaunchNext(stages, w, ready, i, wave, old(status));
        if !ok {
          return;
        }
      }
      assert ready[..|ready|] == ready;
      ok := true;
    }

    /** Waits for the children of a wave, in launch order. */
    method AwaitWave(stages: seq<Stage>, w: World, wave: seq<Stage>) returns (ok: bool)
      requires UniqueIds(stages) && UniqueIds(wave) && Inv(stages, w, {})
      requires (forall s :: s in wave ==> s in stages && IsReady(s, status)) && AllStarted(wave, log)
      modifies this
      ensures SafeLog(stages, log) && (!ok ==> Interrupted(w, log))
      ensures ok ==> Inv(stages, w, {}) && Extends(old(status), status)
      ensures ok ==> forall s :: s in wave ==> StatusOf(status, s.id) != Pending
      ensures ok ==> reasons == old(reasons) && OnlyThese(old(status), status, wave)
    {
      for i := 0 to |wave|
        invariant Inv(stages, w, {}) && Extends(old(status), status)
        invariant reasons == old(reasons) && OnlyThese(old(status), status, wave)
        invariant WaveInv(stages, wave, i, [], status) && AllStarted(wave, log)
      {
        ghost var before, earlier := status, log;
        WaveHead(stages, wave, i, [], status);
        ok := EndStage(stages, w, wave[i]);
        if !ok {
          return;
        }
        StillStarted(wave, earlier, log);
        OneSettled(old(status), before, status, wave[i].id);
        WaveSettles(stages, wave, i, [], before, status);
      }
      ok := true;
    }

    /** Every stage starts out pending. */
    method Reset(stages: seq<Stage>, ghost w: World)
      requires UniqueIds(stages)
      modifies this
      ensures Inv(stages, w, {}) && log == [] && !stopEarly && reasons == map[]
      ensures forall i :: 0 <= i < |stages| ==> StatusOf(status, stages[i].id) == Pending
    {
      stopEarly, stagesOk, stagesFailed, log, reasons := false, 0, 0, [], map[];
      status := map id | id in Ids(stages) :: Pending;
      NothingRun(stages, w, status);
      assert ReasonsInv(stages, status, {}, reasons);
    }

    method RunWave(stages: seq<Stage>, w: World, ready: seq<Stage>) returns (ok: bool)
      requires UniqueIds(stages) && UniqueIds(ready) && Inv(stages, w, {}) && ready != []
      requires forall s :: s in ready ==> s in stages && IsReady(s, status)
      modifies this
      ensures SafeLog(stages, log) && (!ok ==> Interrupted(w, log))
      ensures ok ==> Inv(stages, w, {}) && PendingIds(status) < PendingIds(old(status))
      ensures ok ==> OnlyThese(old(status), status, ready) && StatusOf(status, ready[0].id) != Pending
      ensures ok && NoneNeverSatisfied(old(reasons)) ==> NoneNeverSatisfied(reasons)
    {
      ghost var before := status;
      var wave;
      wave, ok := LaunchWave(stages, w, ready);
      if ok {
        ghost var launched := status;
        ok := AwaitWave(stages, w, wave);
        if ok {
          assert ready[0] in ready && ready[0].id in before;
          WaveShrinks(before, launched, status, ready[0], wave);
        }
      }
    }

    method AnyPending(stages: seq<Stage>) returns (pendingLeft: bool)
      requires status.Keys == Ids(stages)
      ensures pendingLeft <==> !Finished(status)
    {
      for i := 0 to |stages|
        invariant forall j :: 0 <= j < i ==> StatusOf(status, stages[j].id) != Pending
      {
        if StatusOf(status, stages[i].id) == Pending {
          InIds(stages, i);
          return true;
        }
      }
      pendingLeft := false;
    }

    /** The skips of one turn: a pass and, when nothing is ready then, the rest. */
    method SkipTurn(stages: seq<Stage>, w: World) returns (progress: bool, ready: seq<Stage>, ok: bool)
      requires UniqueIds(stages) && Closed(GraphOf(stages)) && Inv(stages, w, {})
      modifies this
      ensures SafeLog(stages, log) && (!ok ==> Interrupted(w, log))
      ensures ok ==> Inv(stages, w, {}) && Extends(old(status), status)
      ensures ok ==> UniqueIds(ready) && stopEarly == old(stopEarly)
      ensures ok ==>
        forall s :: s in ready <==> s in stages && IsReady(s, PassPrefix(stages, old(status), stopEarly, |stages|))
      ensures ok && ready == [] ==> Finished(status) && TurnReasons(stages, old(status), stopEarly, reasons)
      ensures ok && ready != [] ==> status == PassPrefix(stages, old(status), stopEarly, |stages|)
      ensures ok && progress ==> PendingIds(status) < PendingIds(old(status))
      ensures ok && ListedInOrder(stages) && NoneNeverSatisfied(old(reasons)) ==> NoneNeverSatisfied(reasons)
    {
      ready := [];
      progress, ok := SkipPass(stages, w);
      if !ok {
        return;
      }
      NoneAfterPass(old(status), status, stopEarly, old(reasons), reasons);
      ready := ReadyStages(stages, status);
      if ready == [] {
        ghost var passed, told := status, reasons;
        assert forall s :: s in stages ==> !IsReady(s, status);
        ok := SkipRest(stages, w);
        if ok {
          TurnTellsReasons(stages, old(status), passed, status, stopEarly, old(reasons), told, reasons);
        }
        if ok && ListedInOrder(stages) {
          InOrderKeepsReasons(stages, old(status), passed, status, old(stopEarly), told, reasons);
        }
      }
    }

    /** Stages in waves: every wave runs the stages whose dependencies have succeeded. */
    method RunDag(stages: seq<Stage>, w: World) returns (ok: bool)
      requires UniqueIds(stages) && Closed(GraphOf(stages))
      modifies this
      ensures SafeLog(stages, log) && (!ok ==> Interrupted(w, log))
      ensures Persists(w) ==> ok
      ensures ok ==> Inv(stages, w, {}) && Finished(status) && EndedByReplies(stages, w, status)
      // A listing that follows the dependencies never sees the third reason.
      ensures ok && ListedInOrder(stages) ==> NoneNeverSatisfied(reasons)
    {
      Reset(stages, w);
      while true
        invariant Inv(stages, w, {})
        invariant ListedInOrder(stages) ==> NoneNeverSatisfied(reasons)
        decreases PendingIds(status)
      {
        var over;
        over, ok := RunTurn(stages, w);
        if !ok {
          return;
        }
        if over {
          break;
        }
      }
      RepliesDecide(stages, w, status);
      ok := true;
    }

    /** One turn of the wave loop; nothing is pending when it is the last. */
    method RunTurn(stages: seq<Stage>, w: World) returns (over: bool, ok: bool)
      requires UniqueIds(stages) && Closed(GraphOf(stages)) && Inv(stages, w, {})
      modifies this
      ensures SafeLog(stages, log) && (!ok ==> Interrupted(w, log))
      ensures ok ==> Inv(stages, w, {})
      ensures ok ==> if over then Finished(status) else PendingIds(status) < PendingIds(old(status))
      ensures ok && ListedInOrder(stages) && NoneNeverSatisfied(old(reasons)) ==> NoneNeverSatisfied(reasons)
    {
      var progress, ready;
      progress, ready, ok := SkipTurn(stages, w);
      over := ready == [] && !progress;
      if ok && ready != [] {
        assert PendingIds(status) <= PendingIds(old(status));
        ok := RunWave(stages, w, ready);
        if ok {
          var pendingLeft := AnyPending(stages);
          over := !pendingLeft;
        }
      }
    }

    /** Stages in listing order; after a stopping failure the rest is skipped. */
    method RunSequential(stages: seq<Stage>, w: World) returns (ok: bool)
      requires UniqueIds(stages) && forall s :: s in stages ==> s.dependsOn == []
      modifies this
      ensures SafeLog(stages, log) && (!ok ==> Interrupted(w, log))
      ensures Persists(w) ==> ok
      ensures ok ==> Inv(stages, w, {}) && Finished(status) && EndedByReplies(stages, w, status)
      ensures ok ==> forall i :: 0 <= i < |stages| ==> StatusOf(status, stages[i].id) == SequentialStatus(stages, w, i)
    {
      Reset(stages, w);
      for i := 0 to |stages|
        invariant Inv(stages, w, {})
        invariant SequentialInv(stages, w, i, status, stopEarly)
      {
        var s := stages[i];
        ghost var before, stopped := status, stopEarly;
        InIds(stages, i);
        assert IsReady(s, status);
        var launched;
        launched, ok := LaunchOne(stages, w, s);
        if !ok {
          return;
        }
        if launched {
          ok := EndStage(stages, w, s);
          if !ok {
            return;
          }
        }
        SequentialNext(stages, w, i, before, stopped, status, stopEarly);
      }
      RepliesDecide(stages, w, status);
      ok := true;
    }
  }

  /** While a wave is handled: the first i stages are launched or settled, the rest ready. */
  ghost predicate WaveInv(stages: seq<Stage>, ready: seq<Stage>, i: nat, wave: seq<Stage>, status: StatusMap) {
    && i <= |ready| && UniqueIds(ready) && UniqueIds(wave)
    && (forall s :: s in ready ==> s in stages)
    && (forall s :: s in wave ==> s in ready[..i] && IsReady(s, status))
    && (forall s :: s in ready[..i] ==> s in wave || StatusOf(status, s.id) != Pending)
    && (forall s :: s in ready[i..] ==> IsReady(s, status))
  }

  lemma WaveHead(stages: seq<Stage>, ready: seq<Stage>, i: nat, wave: seq<Stage>, status: StatusMap)
    requires WaveInv(stages, ready, i, wave, status) && i < |ready|
    ensures ready[i] in stages && IsReady(ready[i], status)
  {
    assert ready[i] in ready && ready[i] in ready[i..];
  }

  /** Different positions of the ready list hold different stages. */
  lemma WaveIds(ready: seq<Stage>, i: nat)
    requires UniqueIds(ready) && i < |ready|
    ensures ready[..i + 1] == ready[..i] + [ready[i]] && ready[i..] == [ready[i]] + ready[i + 1..]
    ensures forall s :: s in ready[..i] ==> s.id != ready[i].id
    ensures forall s :: s in ready[i + 1..] ==> s.id != ready[i].id
  {
  }

  lemma WaveGrows(stages: seq<Stage>, ready: seq<Stage>, i: nat, wave: seq<Stage>, status: StatusMap)
    requires WaveInv(stages, ready, i, wave, status) && i < |ready| && IsReady(ready[i], status)
    ensures WaveInv(stages, ready, i + 1, wave + [ready[i]], status)
  {
    WaveIds(ready, i);
    assert forall s :: s in wave ==> s.id != ready[i].id;
  }

  lemma WaveSettles(
    stages: seq<Stage>, ready: seq<Stage>, i: nat, wave: seq<Stage>, before: StatusMap, after: StatusMap
  )
    requires
      WaveInv(stages, ready, i, wave, before) && i < |ready| && ready[i].id in before && before[ready[i].id] == Pending
    requires StatusOf(after, ready[i].id) != Pending && after == before[ready[i].id := StatusOf(after, ready[i].id)]
    ensures WaveInv(stages, ready, i + 1, wave, after)
  {
    WaveIds(ready, i);
    StillReady(before, after, ready[i].id);
    forall s | s in ready[..i + 1] ensures s in wave || StatusOf(after, s.id) != Pending {
      if s.id != ready[i].id {
        assert StatusOf(after, s.id) == StatusOf(before, s.id);
      }
    }
  }

  /** One more stage is final, and nothing that was final changed. */
  lemma OneSettled(start: StatusMap, before: StatusMap, after: StatusMap, id: string)
    requires Extends(start, before) && id in before && before[id] == Pending
    requires StatusOf(after, id) != Pending && after == before[id := StatusOf(after, id)]
    ensures Extends(start, after)
    ensures PendingIds(after) < PendingIds(start)
  {
    assert id in PendingIds(start) && id !in PendingIds(after);
  }

  ghost function PendingIds(status: StatusMap): set<string> {
    set id | id in status && status[id] == Pending
  }

  lemma InIds(stages: seq<Stage>, i: nat)
    requires i < |stages|
    ensures stages[i] in stages && stages[i].id in Ids(stages)
  {
  }

  /** Settling one stage leaves every other ready stage ready. */
  lemma StillReady(before: StatusMap, after: StatusMap, id: string)
    requires id in before && before[id] == Pending
    requires StatusOf(after, id) != Pending && after == before[id := StatusOf(after, id)]
    ensures forall s: Stage :: s.id != id && IsReady(s, before) ==> IsReady(s, after)
  {
    assert forall d :: d != id ==> StatusOf(after, d) == StatusOf(before, d);
  }

  /** The status map after the first i stages of a skip pass. */
  function PassPrefix(stages: seq<Stage>, start: StatusMap, stopEarly: bool, i: nat): StatusMap
    requires i <= |stages|
  {
    if i == 0 then start
    else
      var before, s := PassPrefix(stages, start, stopEarly, i - 1), stages[i - 1];
      if StatusOf(before, s.id) == Pending && (stopEarly || DepsLost(s, before)) then before[s.id := Skipped]
      else before
  }

  /** What becomes of a stage at its own turn. */
  function StatusAtTurn(stages: seq<Stage>, start: StatusMap, stopEarly: bool, k: nat): RunStatus
    requires k < |stages|
  {
    var s := stages[k];
    if StatusOf(start, s.id) == Pending && (stopEarly || DepsLost(s, PassPrefix(stages, start, stopEarly, k)))
    then Skipped
    else StatusOf(start, s.id)
  }

  lemma PassKeys(stages: seq<Stage>, start: StatusMap, stopEarly: bool, n: nat)
    requires 0 < n <= |stages| && PassPrefix(stages, start, stopEarly, n - 1).Keys == start.Keys == Ids(stages)
    ensures PassPrefix(stages, start, stopEarly, n).Keys == start.Keys
  {
    InIds(stages, n - 1);
  }

  /** A stage's status changes in a pass only at its own turn. */
  lemma {:induction false} PassTurns(stages: seq<Stage>, start: StatusMap, stopEarly: bool, n: nat, k: nat)
    requires UniqueIds(stages) && n <= |stages| && k < |stages| && start.Keys == Ids(stages)
    ensures PassPrefix(stages, start, stopEarly, n).Keys == start.Keys
    ensures k >= n ==> StatusOf(PassPrefix(stages, start, stopEarly, n), stages[k].id) == StatusOf(start, stages[k].id)
    ensures k < n ==>
      StatusOf(PassPrefix(stages, start, stopEarly, n), stages[k].id) == StatusAtTurn(stages, start, stopEarly, k)
    decreases n
  {
    if n > 0 {
      PassTurns(stages, start, stopEarly, n - 1, k);
      PassKeys(stages, start, stopEarly, n);
      if k == n - 1 {
        TurnOfOwn(stages, start, stopEarly, k);
      } else {
        IdsDiffer(stages, k, n - 1);
        TurnOfOther(stages, start, stopEarly, n, k);
      }
    }
  }

  lemma TurnOfOwn(stages: seq<Stage>, start: StatusMap, stopEarly: bool, k: nat)
    requires k < |stages|
    requires StatusOf(PassPrefix(stages, start, stopEarly, k), stages[k].id) == StatusOf(start, stages[k].id)
    ensures
      StatusOf(PassPrefix(stages, start, stopEarly, k + 1), stages[k].id) == StatusAtTurn(stages, start, stopEarly, k)
  {
  }

  lemma IdsDiffer(stages: seq<Stage>, i: nat, j: nat)
    requires UniqueIds(stages) && i < |stages| && j < |stages| && i != j
    ensures stages[i].id != stages[j].id
  {
  }

  lemma TurnOfOther(stages: seq<Stage>, start: StatusMap, stopEarly: bool, n: nat, k: nat)
    requires 0 < n <= |stages| && k < |stages| && stages[k].id != stages[n - 1].id
    ensures StatusOf(PassPrefix(stages, start, stopEarly, n), stages[k].id) ==
            StatusOf(PassPrefix(stages, start, stopEarly, n - 1), stages[k].id)
  {
  }

  /** Every stage comes after all its dependencies in the listing. */
  predicate ListedInOrder(stages: seq<Stage>) {
    forall i :: 0 <= i < |stages| ==> DepsListedBefore(stages, i)
  }

  predicate DepsListedBefore(stages: seq<Stage>, i: nat)
    requires i < |stages|
  {
    forall d :: d in stages[i].dependsOn ==> exists j :: 0 <= j < i && stages[j].id == d
  }

  /** When the listing follows the dependencies, a pass that leaves nothing ready leaves
      nothing pending either. */
  lemma {:induction false} InOrderLeavesNothing(stages: seq<Stage>, start: StatusMap, stopEarly: bool, i: nat)
    requires UniqueIds(stages) && start.Keys == Ids(stages) && ListedInOrder(stages) && i < |stages|
    requires forall s :: s in stages ==> !IsReady(s, PassPrefix(stages, start, stopEarly, |stages|))
    ensures StatusOf(PassPrefix(stages, start, stopEarly, |stages|), stages[i].id) != Pending
    decreases i
  {
    var s, turn, after :=
      stages[i], PassPrefix(stages, start, stopEarly, i), PassPrefix(stages, start, stopEarly, |stages|);
    PassTurns(stages, start, stopEarly, |stages|, i);
    if StatusOf(after, s.id) == Pending {
      forall d | d in s.dependsOn ensures StatusOf(after, d) == Succeeded {
        assert DepsListedBefore(stages, i);
        var j :| 0 <= j < i && stages[j].id == d;
        InOrderLeavesNothing(stages, start, stopEarly, j);
        PassTurns(stages, start, stopEarly, |stages|, j);
        PassTurns(stages, start, stopEarly, i, j);
        assert StatusOf(turn, d) == StatusOf(after, d);
      }
      assert s in stages && IsReady(s, after);
    }
  }

  /** The reasons given in a turn that ends with nothing ready: those the pass skipped were
      told why, those it left pending are told they were never satisfied. */
  ghost predicate TurnReasons(stages: seq<Stage>, start: StatusMap, stopEarly: bool, reasons: map<string, SkipReason>) {
    forall s :: s in stages && StatusOf(start, s.id) == Pending ==>
      s.id in reasons && reasons[s.id] ==
      if StatusOf(PassPrefix(stages, start, stopEarly, |stages|), s.id) == Pending then NeverSatisfied
      else if stopEarly then AfterStop else LostDependency
  }

  lemma TurnTellsReasons(stages: seq<Stage>, start: StatusMap, passed: StatusMap, now: StatusMap, stopEarly: bool,
                         told: map<string, SkipReason>, mid: map<string, SkipReason>, reasons: map<string, SkipReason>)
    requires UniqueIds(stages) && start.Keys == Ids(stages)
    requires passed == PassPrefix(stages, start, stopEarly, |stages|)
    requires PassReasons(start, passed, if stopEarly then AfterStop else LostDependency, told, mid)
    requires PassReasons(passed, now, NeverSatisfied, mid, reasons)
    requires forall id :: id in passed && passed[id] == Pending ==> StatusOf(now, id) == Skipped
    ensures TurnReasons(stages, start, stopEarly, reasons)
  {
    forall s | s in stages && StatusOf(start, s.id) == Pending
      ensures s.id in reasons && reasons[s.id] ==
              if StatusOf(passed, s.id) == Pending then NeverSatisfied
              else if stopEarly then AfterStop else LostDependency
    {
      var i :| 0 <= i < |stages| && stages[i] == s;
      InIds(stages, i);
      PassTurns(stages, start, stopEarly, |stages|, i);
      assert PassReasonAt(start, passed, if stopEarly then AfterStop else LostDependency, told, mid, s.id);
      assert PassReasonAt(passed, now, NeverSatisfied, mid, reasons, s.id);
    }
  }

  predicate NoneNeverSatisfied(reasons: map<string, SkipReason>) {
    forall id :: id in reasons ==> reasons[id] != NeverSatisfied
  }

  lemma NoneAfterPass(
    start: StatusMap, now: StatusMap, stopEarly: bool, told: map<string, SkipReason>, reasons: map<string, SkipReason>
  )
    requires PassReasons(start, now, if stopEarly then AfterStop else LostDependency, told, reasons)
    ensures NoneNeverSatisfied(told) ==> NoneNeverSatisfied(reasons)
  {
    forall id | id in reasons && NoneNeverSatisfied(told) ensures reasons[id] != NeverSatisfied {
      assert PassReasonAt(start, now, if stopEarly then AfterStop else LostDependency, told, reasons, id);
    }
  }

  lemma InOrderKeepsReasons(stages: seq<Stage>, start: StatusMap, passed: StatusMap, now: StatusMap, stopEarly: bool,
                            told: map<string, SkipReason>, reasons: map<string, SkipReason>)
    requires UniqueIds(stages) && start.Keys == passed.Keys == Ids(stages) && ListedInOrder(stages)
    requires passed == PassPrefix(stages, start, stopEarly, |stages|)
    requires forall s :: s in stages ==> !IsReady(s, passed)
    requires PassReasons(passed, now, NeverSatisfied, told, reasons)
    ensures NoneNeverSatisfied(told) ==> NoneNeverSatisfied(reasons)
  {
    forall id | id in reasons && NoneNeverSatisfied(told) ensures reasons[id] != NeverSatisfied {
      assert PassReasonAt(passed, now, NeverSatisfied, told, reasons, id);
      if id in passed {
        var i :| 0 <= i < |stages| && stages[i].id == id;
        InOrderLeavesNothing(stages, start, stopEarly, i);
      }
    }
  }

  /** Only the given stages have a new status. */
  ghost predicate OnlyThese(before: StatusMap, after: StatusMap, these: seq<Stage>) {
    forall id :: (forall s :: s in these ==> s.id != id) ==> StatusOf(after, id) == StatusOf(before, id)
  }

  lemma OnlyTheseNext(start: StatusMap, before: StatusMap, after: StatusMap, these: seq<Stage>, i: nat)
    requires i < |these| && OnlyThese(start, before, these) && these[i].id in before
    requires StatusOf(after, these[i].id) != Pending && after == before[these[i].id := StatusOf(after, these[i].id)]
    ensures OnlyThese(start, after, these)
  {
    assert these[i] in these;
  }

  /** What was skipped in between was given the reason, and nothing else was. */
  ghost predicate PassReasons(start: StatusMap, now: StatusMap, reason: SkipReason,
                              told: map<string, SkipReason>, reasons: map<string, SkipReason>) {
    forall id {:trigger PassReasonAt(start, now, reason, told, reasons, id)} ::
      PassReasonAt(start, now, reason, told, reasons, id)
  }

  predicate PassReasonAt(start: StatusMap, now: StatusMap, reason: SkipReason,
                         told: map<string, SkipReason>, reasons: map<string, SkipReason>, id: string) {
    if id in start && start[id] == Pending && StatusOf(now, id) == Skipped then id in reasons && reasons[id] == reason
    else (id in reasons <==> id in told) && (id in told ==> reasons[id] == told[id])
  }

  lemma PassReasonsNext(
    start: StatusMap, before: StatusMap, after: StatusMap, reason: SkipReason,
    told: map<string, SkipReason>, mid: map<string, SkipReason>, reasons: map<string, SkipReason>, id: string
  )
    requires PassReasons(start, before, reason, told, mid) && Extends(start, before)
    requires id in before && before[id] == Pending && after == before[id := Skipped] && reasons == mid[id := reason]
    ensures PassReasons(start, after, reason, told, reasons)
  {
    forall k ensures PassReasonAt(start, after, reason, told, reasons, k) {
      assert PassReasonAt(start, before, reason, told, mid, k);
    }
  }

  lemma ReasonsDoomMore(stages: seq<Stage>, status: StatusMap, doomed: set<string>, reasons: map<string, SkipReason>)
    requires ReasonsInv(stages, status, {}, reasons)
    ensures ReasonsInv(stages, status, doomed, reasons)
  {
    forall s | s in stages ensures ReasonAt(stages, status, doomed, reasons, s) {
      assert ReasonAt(stages, status, {}, reasons, s);
    }
  }

  lemma ReasonsFulfilled(stages: seq<Stage>, status: StatusMap, doomed: set<string>, reasons: map<string, SkipReason>)
    requires ReasonsInv(stages, status, doomed, reasons) && DoomInv(stages, |stages|, doomed, status)
    requires status.Keys == Ids(stages)
    ensures ReasonsInv(stages, status, {}, reasons)
  {
    forall s | s in stages ensures ReasonAt(stages, status, {}, reasons, s) {
      assert ReasonAt(stages, status, doomed, reasons, s);
      assert forall d :: d in doomed ==> d in Ids(stages) && StatusOf(status, d) == Skipped;
    }
  }

  lemma DoomMore(stages: seq<Stage>, w: World, status: StatusMap, doomed: set<string>)
    requires ConsistentUpTo(stages, w, status, {})
    ensures ConsistentUpTo(stages, w, status, doomed)
  {
    forall s | s in stages ensures Settled(stages, w, status, doomed, s) {
      assert Settled(stages, w, status, {}, s);
    }
  }

  /** While the rest is skipped: doomed stages are skipped or about to be. */
  ghost predicate DoomInv(stages: seq<Stage>, i: nat, doomed: set<string>, status: StatusMap) {
    && i <= |stages|
    && (forall j :: 0 <= j < i ==> StatusOf(status, stages[j].id) != Pending)
    && (forall d :: d in doomed ==> d in status && (status[d] == Pending || status[d] == Skipped))
  }

  lemma DoomNext(stages: seq<Stage>, i: nat, doomed: set<string>, before: StatusMap, after: StatusMap)
    requires DoomInv(stages, i, doomed, before) && i < |stages|
    requires (after == before && StatusOf(before, stages[i].id) != Pending) || after == before[stages[i].id := Skipped]
    ensures DoomInv(stages, i + 1, doomed, after)
  {
  }

  lemma DoomFulfilled(stages: seq<Stage>, w: World, status: StatusMap, doomed: set<string>)
    requires ConsistentUpTo(stages, w, status, doomed) && DoomInv(stages, |stages|, doomed, status)
    ensures ConsistentUpTo(stages, w, status, {}) && Finished(status)
  {
    forall s | s in stages ensures Settled(stages, w, status, {}, s) {
      assert Settled(stages, w, status, doomed, s);
      assert forall d :: d in doomed ==> d in Ids(stages) && StatusOf(status, d) == Skipped;
    }
  }

  /** A pending stage that is not ready waits for a lost stage or for a doomed one. */
  lemma WaitsForDoomed(stages: seq<Stage>, start: StatusMap, now: StatusMap, s: Stage)
    requires UniqueIds(stages) && Closed(GraphOf(stages)) && s in stages
    requires start.Keys == Ids(stages) && Extends(start, now)
    requires StatusOf(now, s.id) == Pending && !IsReady(s, start)
    ensures DepsDoomed(s, now, PendingIds(start))
  {
    var d :| d in s.dependsOn && StatusOf(start, d) != Succeeded;
    DependencyListed(stages, s, d);
    assert d in start;
  }

  lemma DependencyListed(stages: seq<Stage>, s: Stage, d: string)
    requires UniqueIds(stages) && Closed(GraphOf(stages)) && s in stages && d in s.dependsOn
    ensures d in Ids(stages)
  {
    var i :| 0 <= i < |stages| && stages[i] == s;
    assert GraphOf(stages)[stages[i].id] == s.dependsOn;
  }

  lemma NothingRun(stages: seq<Stage>, w: World, status: StatusMap)
    requires UniqueIds(stages) && status == map id | id in Ids(stages) :: Pending
    ensures RunInv(stages, w, {}, status, false, 0, 0, [])
  {
    forall s {:trigger StopsBatch(status, s)} ensures !StopsBatch(status, s) {
    }
    forall id ensures LogAt(status, [], id) {
    }
  }

  /** A wave settles at least its first ready stage. */
  lemma WaveShrinks(before: StatusMap, launched: StatusMap, after: StatusMap, first: Stage, wave: seq<Stage>)
    requires Extends(before, launched) && Extends(launched, after)
    requires IsReady(first, before) && first.id in before
    requires first in wave || StatusOf(launched, first.id) != Pending
    requires forall s :: s in wave ==> StatusOf(after, s.id) != Pending
    ensures PendingIds(after) < PendingIds(before)
  {
    assert first.id in PendingIds(before) && first.id !in PendingIds(after);
  }

  // ----- sequential mode ---------------------------------------------------------------------

  predicate BadStop(w: World, s: Stage) {
    !Clean(w.reply(s.id)) && !Continues(s)
  }

  predicate StoppedBefore(stages: seq<Stage>, w: World, i: nat)
    requires i <= |stages|
  {
    exists k {:trigger stages[k]} :: 0 <= k < i && BadStop(w, stages[k])
  }

  /** In listing order: run, unless an earlier stage failed under a stopping policy. */
  function SequentialStatus(stages: seq<Stage>, w: World, i: nat): RunStatus
    requires i < |stages|
  {
    if StoppedBefore(stages, w, i) then Skipped else Outcome(w, stages[i].id)
  }

  ghost predicate SequentialInv(stages: seq<Stage>, w: World, i: nat, status: StatusMap, stopEarly: bool) {
    && i <= |stages|
    && (stopEarly <==> StoppedBefore(stages, w, i))
    && (forall j :: 0 <= j < i ==> StatusOf(status, stages[j].id) == SequentialStatus(stages, w, j))
    && (forall j :: i <= j < |stages| ==> StatusOf(status, stages[j].id) == Pending)
  }

  lemma SequentialNext(
    stages: seq<Stage>, w: World, i: nat, before: StatusMap, stopped: bool, after: StatusMap, stopEarly: bool
  )
    requires UniqueIds(stages) && i < |stages| && SequentialInv(stages, w, i, before, stopped)
    requires after == before[stages[i].id := if stopped then Skipped else Outcome(w, stages[i].id)]
    requires stopEarly <==> stopped || BadStop(w, stages[i])
    ensures SequentialInv(stages, w, i + 1, after, stopEarly)
  {
    forall j | 0 <= j < |stages| && j != i ensures StatusOf(after, stages[j].id) == StatusOf(before, stages[j].id) {
    }
  }
}
