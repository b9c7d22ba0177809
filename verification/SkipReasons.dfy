/** When a skipped stage is told the wrong reason. A pass looks at the stages in listing
    order, so a stage listed before the dependency it is about to lose is left pending,
    and is then reported as never satisfied although its dependency was skipped. */
module SkipReasons {
  import opened StageGraph
  import opened StageScheduler

  /** Whatever reason a stage was given, in the end it lost a dependency or the batch was
      stopped; so "never satisfied" always hides a lost dependency. */
  lemma NeverSatisfiedHidesLoss(stages: seq<Stage>, status: StatusMap, reasons: map<string, SkipReason>, s: Stage)
    requires ReasonsInv(stages, status, {}, reasons) && s in stages && s.id in reasons
    ensures StatusOf(status, s.id) == Skipped
    ensures reasons[s.id] != AfterStop ==> DepsLost(s, status)
    ensures reasons[s.id] == AfterStop ==> StopFailure(stages, status)
  {
    assert ReasonAt(stages, status, {}, reasons, s);
  }

  /** The dependency was not yet lost at stage i's turn, but is lost by the end: the same
      pass skips it later in the listing, or it stays pending and is skipped with the rest. */
  predicate LostTooLate(stages: seq<Stage>, start: StatusMap, i: nat, d: string) {
    var after := PassPrefix(stages, start, false, |stages|);
    || StatusOf(after, d) == Pending
    || (&& StatusOf(start, d) == Pending && StatusOf(after, d) == Skipped
        && exists j :: i < j < |stages| && stages[j].id == d)
  }

  /** In a pass after which nothing is ready, a stage is left to be told "never satisfied"
      exactly when each of its unsatisfied dependencies is lost too late. */
  lemma MisreportedIff(stages: seq<Stage>, start: StatusMap, i: nat)
    requires UniqueIds(stages) && Closed(GraphOf(stages)) && start.Keys == Ids(stages)
    requires i < |stages| && StatusOf(start, stages[i].id) == Pending
    requires forall s :: s in stages ==> !IsReady(s, PassPrefix(stages, start, false, |stages|))
    ensures
      var after := PassPrefix(stages, start, false, |stages|);
      StatusOf(after, stages[i].id) == Pending <==>
        forall d :: d in stages[i].dependsOn ==> StatusOf(after, d) == Succeeded || LostTooLate(stages, start, i, d)
    ensures
      var after := PassPrefix(stages, start, false, |stages|);
      StatusOf(after, stages[i].id) == Pending ==>
        exists d :: d in stages[i].dependsOn && LostTooLate(stages, start, i, d)
  {
    var after := PassPrefix(stages, start, false, |stages|);
    if StatusOf(after, stages[i].id) == Pending {
      assert stages[i] in stages && !IsReady(stages[i], after);
      forall d | d in stages[i].dependsOn
        ensures StatusOf(after, d) == Succeeded || LostTooLate(stages, start, i, d)
      {
        LateIfPending(stages, start, i, d);
      }
    } else {
      var d := LostAtTurn(stages, start, i);
      LostIsNotLate(stages, start, i, d);
    }
  }

  lemma LateIfPending(stages: seq<Stage>, start: StatusMap, i: nat, d: string)
    requires UniqueIds(stages) && Closed(GraphOf(stages)) && start.Keys == Ids(stages)
    requires i < |stages| && d in stages[i].dependsOn
    requires StatusOf(PassPrefix(stages, start, false, |stages|), stages[i].id) == Pending
    ensures StatusOf(PassPrefix(stages, start, false, |stages|), d) == Succeeded || LostTooLate(stages, start, i, d)
  {
    PassTurns(stages, start, false, |stages|, i);
    assert !Lost(PassPrefix(stages, start, false, i), d);
    var k := IndexOf(stages, i, d);
    if k != i {
      DependencyAtTurn(stages, start, i, k);
    }
  }

  /** A stage the pass skips without a stop had lost a dependency by its turn. */
  lemma LostAtTurn(stages: seq<Stage>, start: StatusMap, i: nat) returns (d: string)
    requires UniqueIds(stages) && start.Keys == Ids(stages) && i < |stages|
    requires StatusOf(start, stages[i].id) == Pending
    requires StatusOf(PassPrefix(stages, start, false, |stages|), stages[i].id) != Pending
    ensures d in stages[i].dependsOn && Lost(PassPrefix(stages, start, false, i), d)
  {
    PassTurns(stages, start, false, |stages|, i);
    d :| d in stages[i].dependsOn && Lost(PassPrefix(stages, start, false, i), d);
  }

  predicate Lost(status: StatusMap, d: string) {
    StatusOf(status, d) == Failed || StatusOf(status, d) == Skipped
  }

  lemma LostIsNotLate(stages: seq<Stage>, start: StatusMap, i: nat, d: string)
    requires UniqueIds(stages) && Closed(GraphOf(stages)) && start.Keys == Ids(stages)
    requires i < |stages| && d in stages[i].dependsOn && StatusOf(start, stages[i].id) == Pending
    requires Lost(PassPrefix(stages, start, false, i), d)
    ensures StatusOf(PassPrefix(stages, start, false, |stages|), d) != Succeeded && !LostTooLate(stages, start, i, d)
  {
    var k := IndexOf(stages, i, d);
    PassTurns(stages, start, false, i, i);
    if k != i {
      DependencyAtTurn(stages, start, i, k);
    }
  }

  lemma IndexOf(stages: seq<Stage>, i: nat, d: string) returns (k: nat)
    requires UniqueIds(stages) && Closed(GraphOf(stages)) && i < |stages| && d in stages[i].dependsOn
    ensures k < |stages| && stages[k].id == d
  {
    assert d in GraphOf(stages)[stages[i].id];
    k := ListedAs(stages, d);
  }

  lemma DependencyAtTurn(stages: seq<Stage>, start: StatusMap, i: nat, k: nat)
    requires UniqueIds(stages) && start.Keys == Ids(stages) && i < |stages| && k < |stages| && k != i
    ensures
      var after := PassPrefix(stages, start, false, |stages|);
      Lost(PassPrefix(stages, start, false, i), stages[k].id) <==>
        !(StatusOf(after, stages[k].id) == Succeeded || LostTooLate(stages, start, i, stages[k].id))
  {
    PassTurns(stages, start, false, |stages|, k);
    PassTurns(stages, start, false, i, k);
    if k > i {
      assert stages[k].id == stages[k].id;
    }
  }

  // ----- an input --------------------------------------------------------------------------------

  const A := Stage("a", [], "continue")
  const B := Stage("b", ["a"], "continue")
  const C := Stage("c", ["b"], "continue")

  lemma ListedBackwards()
    ensures UniqueIds([C, B, A]) && Closed(GraphOf([C, B, A]))
  {
    var stages := [C, B, A];
    assert "a"[0] != "b"[0] && "b"[0] != "c"[0] && "a"[0] != "c"[0];
    var g := GraphOf(stages);
    assert g[stages[0].id] == ["b"] && g[stages[1].id] == ["a"] && g[stages[2].id] == [];
    assert "a" == stages[2].id && "b" == stages[1].id;
    forall k | k in g ensures forall d :: d in g[k] ==> d in g {
      var j := ListedAs(stages, k);
    }
  }

  lemma FirstPass(start: StatusMap)
    requires StatusOf(start, "a") == StatusOf(start, "b") == StatusOf(start, "c") == Pending
    ensures PassPrefix([C, B, A], start, false, 3) == start
  {
    var stages := [C, B, A];
    assert PassPrefix(stages, start, false, 1) == start;
    assert PassPrefix(stages, start, false, 2) == start;
  }

  lemma SecondPass(start: StatusMap)
    requires StatusOf(start, "a") == Failed && StatusOf(start, "b") == StatusOf(start, "c") == Pending
    ensures PassPrefix([C, B, A], start, false, 3) == start["b" := Skipped]
  {
    var stages := [C, B, A];
    assert "a" in B.dependsOn && StatusOf(start, C.id) == Pending && "a"[0] != "b"[0];
    assert PassPrefix(stages, start, false, 1) == start;
    assert PassPrefix(stages, start, false, 2) == start["b" := Skipped];
  }

  lemma NothingReady(status: StatusMap)
    requires StatusOf(status, "a") == Failed && StatusOf(status, "b") == Skipped && StatusOf(status, "c") == Pending
    ensures forall s :: s in [C, B, A] ==> !IsReady(s, status)
  {
    assert "b" in C.dependsOn;
  }

  const BACKWARDS := [C, B, A]

  lemma NoStop(status: StatusMap)
    ensures !StopFailure(BACKWARDS, status)
  {
    forall s | s in BACKWARDS ensures !StopsBatch(status, s) {
    }
  }

  lemma FailedAfterWave(w: World, status: StatusMap)
    requires Consistent(BACKWARDS, w, status) && !Clean(w.reply("a")) && StatusOf(status, "a") != Pending
    ensures StatusOf(status, "a") == Failed
  {
    assert BACKWARDS[2] == A && Settled(BACKWARDS, w, status, {}, A);
    NoStop(status);
  }

  predicate AtStart(status: StatusMap) {
    StatusOf(status, "a") == StatusOf(status, "b") == StatusOf(status, "c") == Pending
  }

  predicate AfterFailure(status: StatusMap) {
    StatusOf(status, "a") == Failed && StatusOf(status, "b") == StatusOf(status, "c") == Pending
  }

  /** The first turn skips nothing and finds exactly a ready. */
  method FirstTurn(run: BatchRun, w: World) returns (ready: seq<Stage>, ok: bool)
    requires UniqueIds(BACKWARDS) && Closed(GraphOf(BACKWARDS)) && run.Inv(BACKWARDS, w, {}) && AtStart(run.status)
    modifies run
    ensures !ok ==> Interrupted(w, run.log)
    ensures ok ==> run.Inv(BACKWARDS, w, {}) && AtStart(run.status) && ready != [] && UniqueIds(ready)
    ensures ok ==> forall s :: s in ready ==> s == A
  {
    NoStop(run.status);
    FirstPass(run.status);
    assert BACKWARDS[2] == A && A in BACKWARDS && IsReady(A, run.status);
    var progress;
    progress, ready, ok := run.SkipTurn(BACKWARDS, w);
    if ok {
      assert A in ready;
      OnlyFirstReady(run.status);
    }
  }

  lemma OnlyFirstReady(status: StatusMap)
    requires AtStart(status)
    ensures forall s :: s in BACKWARDS && IsReady(s, status) ==> s == A
  {
    assert "b" in C.dependsOn && "a" in B.dependsOn;
  }

  /** The wave runs a, which fails. */
  method FailingWave(run: BatchRun, w: World, ready: seq<Stage>) returns (ok: bool)
    requires UniqueIds(BACKWARDS) && run.Inv(BACKWARDS, w, {}) && AtStart(run.status) && !Clean(w.reply("a"))
    requires ready != [] && UniqueIds(ready) && forall s :: s in ready ==> s == A
    modifies run
    ensures !ok ==> Interrupted(w, run.log)
    ensures ok ==> run.Inv(BACKWARDS, w, {}) && AfterFailure(run.status)
  {
    assert ready[0] in ready && BACKWARDS[2] == A;
    ok := run.RunWave(BACKWARDS, w, ready);
    if ok {
      assert "a"[0] != "b"[0] && "a"[0] != "c"[0];
      FailedAfterWave(w, run.status);
    }
  }

  lemma HeadIsIn(ready: seq<Stage>)
    ensures ready != [] ==> ready[0] in ready
  {
  }

  /** The second turn settles b and c, and tells c the wrong reason. */
  method LastTurn(run: BatchRun, w: World) returns (ok: bool)
    requires UniqueIds(BACKWARDS) && Closed(GraphOf(BACKWARDS)) && run.Inv(BACKWARDS, w, {}) && AfterFailure(run.status)
    modifies run
    ensures !ok ==> Interrupted(w, run.log)
    ensures ok ==> run.Inv(BACKWARDS, w, {}) && Finished(run.status)
    ensures ok ==> "b" in run.reasons && run.reasons["b"] == LostDependency
    ensures ok ==> "c" in run.reasons && run.reasons["c"] == NeverSatisfied && DepsLost(C, run.status)
  {
    NoStop(run.status);
    SecondPass(run.status);
    NothingReady(run.status["b" := Skipped]);
    assert BACKWARDS[0] == C && BACKWARDS[1] == B;
    var progress, ready;
    progress, ready, ok := run.SkipTurn(BACKWARDS, w);
    HeadIsIn(ready);
    if ok {
      NeverSatisfiedHidesLoss(BACKWARDS, run.status, run.reasons, C);
    }
  }

  /** From the start until a has failed. */
  method RunUntilFailure(run: BatchRun, w: World) returns (ok: bool)
    requires UniqueIds(BACKWARDS) && Closed(GraphOf(BACKWARDS)) && !Clean(w.reply("a"))
    modifies run
    ensures !ok ==> Interrupted(w, run.log)
    ensures ok ==> run.Inv(BACKWARDS, w, {}) && AfterFailure(run.status)
  {
    run.Reset(BACKWARDS, w);
    assert BACKWARDS[0] == C && BACKWARDS[1] == B && BACKWARDS[2] == A;
    var ready;
    ready, ok := FirstTurn(run, w);
    if ok {
      ok := FailingWave(run, w, ready);
    }
  }

  /** Listing c, b, a where c depends on b and b on a, and a leaves a failed row: b is told
      that it lost a dependency, c that it was never satisfied, although it lost its own too. */
  method RunBackwards(run: BatchRun, w: World) returns (ok: bool)
    requires w.reply("a").end.Counts? && w.reply("a").end.failed > 0
    modifies run
    ensures Persists(w) ==> ok
    ensures ok ==> "b" in run.reasons && run.reasons["b"] == LostDependency
    ensures ok ==> "c" in run.reasons && run.reasons["c"] == NeverSatisfied && DepsLost(C, run.status)
  {
    ListedBackwards();
    ok := RunUntilFailure(run, w);
    if ok {
      ok := LastTurn(run, w);
    }
  }
}
