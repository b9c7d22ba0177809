/** What a finished batch means: the wave scheduler computes a short recursive
    specification, whatever the listing order and the waves; chains behave like the
    sequential loop; every stage is finalized once and the totals add up. */
module BatchTheorems {
  import opened StageGraph
  import opened StageScheduler

  datatype BatchStatus = BatchSucceeded | BatchPartial | BatchFailed

  predicate UsesDependsOn(stages: seq<Stage>) {
    exists i :: 0 <= i < |stages| && stages[i].dependsOn != []
  }

  /** The scheduling half of the batch workflow: pick the mode, run, and summarise. */
  method RunBatch(run: BatchRun, stages: seq<Stage>, w: World) returns (final: BatchStatus, ok: bool)
    requires UniqueIds(stages) && Closed(GraphOf(stages))
    modifies run
    ensures SafeLog(stages, run.log) && (!ok ==> Interrupted(w, run.log)) && (Persists(w) ==> ok)
    ensures ok ==> run.Inv(stages, w, {}) && Finished(run.status) && EndedByReplies(stages, w, run.status)
    ensures ok ==> run.stagesOk + run.stagesFailed == |stages|
    ensures ok ==> (final == BatchSucceeded <==> forall id :: id in run.status ==> run.status[id] == Succeeded)
    ensures ok ==> (final == BatchFailed ==> forall id :: id in run.status ==> run.status[id] != Succeeded)
    ensures ok ==> (final == BatchPartial <==>
                      (exists id :: id in run.status && run.status[id] == Succeeded)
                      && (exists id :: id in run.status && run.status[id] != Succeeded))
  {
    if UsesDependsOn(stages) {
      ok := run.RunDag(stages, w);
    } else {
      ok := run.RunSequential(stages, w);
    }
    final := BatchSucceeded;
    if ok {
      EachFinalizedOnce(stages, w, run.status, run.stopEarly, run.stagesOk, run.stagesFailed, run.log);
      CountsMeanStatuses(run.status, run.log);
      if run.stagesFailed > 0 {
        final := if run.stagesOk > 0 then BatchPartial else BatchFailed;
      }
    }
  }

  // ----- conservation ------------------------------------------------------------------------

  /** A finished batch finalized every stage exactly once, and counted it exactly once. */
  lemma EachFinalizedOnce(stages: seq<Stage>, w: World, status: StatusMap, stopEarly: bool,
                          stagesOk: nat, stagesFailed: nat, log: seq<Event>)
    requires UniqueIds(stages) && RunInv(stages, w, {}, status, stopEarly, stagesOk, stagesFailed, log)
    requires Finished(status)
    ensures Distinct(FinalIds(log)) && (forall id :: id in FinalIds(log) <==> id in Ids(stages))
    ensures stagesOk + stagesFailed == |stages|
  {
    var ids := FinalIds(log);
    forall id ensures id in ids <==> id in Ids(stages) {
      assert LogAt(status, log, id);
    }
    assert Ids(stages) == set i | 0 <= i < |ids| :: ids[i];
    DistinctKeys(ids, Ids(stages));
    IdsSize(stages);
  }

  lemma {:induction false} CountBounds(log: seq<Event>)
    ensures CountOk(log) <= |FinalIds(log)|
    ensures CountOk(log) > 0 <==> exists id :: Finalized(id, Succeeded) in log
    ensures CountOk(log) < |FinalIds(log)| <==> exists id, st :: st != Succeeded && Finalized(id, st) in log
  {
    if log != [] {
      var front, e := log[..|log| - 1], log[|log| - 1];
      CountBounds(front);
      assert log == front + [e];
      if CountOk(front) > 0 {
        var id :| Finalized(id, Succeeded) in front;
        assert Finalized(id, Succeeded) in log;
      }
      if e.Finalized? {
        assert Finalized(e.id, e.status) in log;
      }
      if CountOk(front) < |FinalIds(front)| {
        var id, st :| st != Succeeded && Finalized(id, st) in front;
        assert Finalized(id, st) in log;
      }
    }
  }

  lemma CountsMeanStatuses(status: StatusMap, log: seq<Event>)
    requires LogMatches(status, log) && Finished(status)
    ensures CountOk(log) > 0 <==> exists id :: id in status && status[id] == Succeeded
    ensures CountOk(log) < |FinalIds(log)| <==> exists id :: id in status && status[id] != Succeeded
    ensures CountOk(log) <= |FinalIds(log)|
  {
    CountBounds(log);
    forall id ensures LogAt(status, log, id) {
    }
    if id :| id in status && status[id] != Succeeded {
      assert LogAt(status, log, id) && Finalized(id, status[id]) in log;
    }
    if id :| id in status && status[id] == Succeeded {
      assert LogAt(status, log, id) && Finalized(id, Succeeded) in log;
    }
    if id, st :| st != Succeeded && Finalized(id, st) in log {
      assert LogAt(status, log, id);
    }
    if id :| Finalized(id, Succeeded) in log {
      assert LogAt(status, log, id);
    }
  }

  // ----- refinement of the recursive specification ---------------------------------------------

  /** Along any topological order: run a stage if all its dependencies succeeded, else skip it. */
  function SpecStatus(g: Graph, w: World, order: seq<string>): StatusMap
    requires forall i :: 0 <= i < |order| ==> order[i] in g
  {
    if order == [] then map[]
    else
      var front, last := order[..|order| - 1], order[|order| - 1];
      var earlier := SpecStatus(g, w, front);
      var runs := forall d :: d in g[last] ==> StatusOf(earlier, d) == Succeeded;
      earlier[last := if runs then Outcome(w, last) else Skipped]
  }

  predicate AllContinue(stages: seq<Stage>) {
    forall s :: s in stages ==> Continues(s)
  }

  /** When every stage continues past failures, a stage runs iff all its dependencies
      succeeded, and then its status is its own outcome; otherwise it is skipped. */
  lemma RunsIffDependenciesSucceeded(stages: seq<Stage>, w: World, status: StatusMap, s: Stage)
    requires AllContinue(stages) && Consistent(stages, w, status) && Finished(status) && s in stages
    ensures StatusOf(status, s.id) == if DepsSucceeded(s, status) then Outcome(w, s.id) else Skipped
  {
    assert Settled(stages, w, status, {}, s);
    var i :| 0 <= i < |stages| && stages[i] == s;
    assert s.id in status;
    forall t | t in stages ensures !StopsBatch(status, t) {
    }
  }

  /** The specification's equation for one stage. */
  predicate Meets(g: Graph, w: World, status: StatusMap, k: string) {
    && k in g
    && StatusOf(status, k) ==
      if forall d :: d in g[k] ==> StatusOf(status, d) == Succeeded then Outcome(w, k) else Skipped
  }

  lemma SchedulerMeets(stages: seq<Stage>, w: World, status: StatusMap, k: string)
    requires UniqueIds(stages) && AllContinue(stages) && Consistent(stages, w, status) && Finished(status)
    requires k in GraphOf(stages)
    ensures Meets(GraphOf(stages), w, status, k)
  {
    var i :| 0 <= i < |stages| && stages[i].id == k;
    RunsIffDependenciesSucceeded(stages, w, status, stages[i]);
  }

  predicate AgreesOn(g: Graph, w: World, status: StatusMap, order: seq<string>)
    requires forall i :: 0 <= i < |order| ==> order[i] in g
  {
    forall k :: k in order ==> StatusOf(SpecStatus(g, w, order), k) == StatusOf(status, k)
  }

  lemma SpecNext(g: Graph, w: World, status: StatusMap, front: seq<string>, last: string)
    requires (forall i :: 0 <= i < |front| ==> front[i] in g) && last in g && last !in front
    requires AgreesOn(g, w, status, front) && Meets(g, w, status, last)
    requires forall d :: d in g[last] ==> d in front
    ensures AgreesOn(g, w, status, front + [last])
  {
    var order := front + [last];
    assert order[..|order| - 1] == front && order[|order| - 1] == last;
    var earlier := SpecStatus(g, w, front);
    assert forall d :: d in g[last] ==> StatusOf(earlier, d) == StatusOf(status, d);
    var spec := SpecStatus(g, w, order);
    assert StatusOf(spec, last) == StatusOf(status, last);
    forall k | k in order && k != last ensures StatusOf(spec, k) == StatusOf(status, k) {
      assert k in front;
    }
  }

  /** The equations have one solution along a topological order. */
  lemma {:induction false} SpecUnique(g: Graph, w: World, status: StatusMap, order: seq<string>)
    requires Topological(g, order)
    requires forall k {:trigger Meets(g, w, status, k)} :: k in order ==> Meets(g, w, status, k)
    ensures AgreesOn(g, w, status, order)
  {
    if order != [] {
      var front, last := order[..|order| - 1], order[|order| - 1];
      TopologicalPrefix(g, order, |order| - 1);
      SpecUnique(g, w, status, front);
      assert DepsBefore(g, order, |order| - 1);
      assert Meets(g, w, status, last);
      assert order == front + [last];
      SpecNext(g, w, status, front, last);
    }
  }

  lemma {:induction false} SpecKeys(g: Graph, w: World, order: seq<string>)
    requires forall i :: 0 <= i < |order| ==> order[i] in g
    ensures forall k :: k in SpecStatus(g, w, order) <==> k in order
  {
    if order != [] {
      SpecKeys(g, w, order[..|order| - 1]);
      assert order == order[..|order| - 1] + [order[|order| - 1]];
    }
  }

  lemma TopologicalPrefix(g: Graph, order: seq<string>, n: nat)
    requires Topological(g, order) && n <= |order|
    ensures Topological(g, order[..n])
  {
    forall i: nat | i < n ensures DepsBefore(g, order[..n], i) {
      assert DepsBefore(g, order, i);
      assert order[..n][..i] == order[..i];
    }
  }

  /** The wave scheduler refines the recursive specification. */
  lemma SchedulerRefinesSpec(stages: seq<Stage>, w: World, status: StatusMap, order: seq<string>)
    requires UniqueIds(stages) && AllContinue(stages) && Consistent(stages, w, status) && Finished(status)
    requires Topological(GraphOf(stages), order) && forall k :: k in GraphOf(stages) ==> k in order
    ensures status == SpecStatus(GraphOf(stages), w, order)
  {
    var g := GraphOf(stages);
    forall k | k in order ensures Meets(g, w, status, k) {
      SchedulerMeets(stages, w, status, k);
    }
    SpecUnique(g, w, status, order);
    SpecKeys(g, w, order);
    SameStatuses(g, w, status, order);
  }

  lemma SameStatuses(g: Graph, w: World, status: StatusMap, order: seq<string>)
    requires forall i :: 0 <= i < |order| ==> order[i] in g
    requires AgreesOn(g, w, status, order)
    requires forall k :: k in status <==> k in order
    requires forall k :: k in SpecStatus(g, w, order) <==> k in order
    ensures status == SpecStatus(g, w, order)
  {
    var spec := SpecStatus(g, w, order);
    assert status.Keys == spec.Keys;
    forall k | k in status ensures status[k] == spec[k] {
      assert StatusOf(spec, k) == StatusOf(status, k);
    }
  }

  /** Every closed acyclic graph has an order to read the specification along. */
  lemma {:induction false} OrderExists(g: Graph, done: seq<string>) returns (order: seq<string>)
    requires Closed(g) && Acyclic(g) && Topological(g, done)
    ensures Topological(g, order) && forall k :: k in g ==> k in order
    decreases |g.Keys| - |done|
  {
    DistinctSize(done, g.Keys);
    if forall k :: k in g ==> k in done {
      return done;
    }
    var rest := set k | k in g && k !in done;
    if forall k :: k in rest ==> StuckAt(g, rest, k) {
      var k :| k in g && k !in done;
      assert k in rest;
      StuckHasCycle(g, rest);
      assert false;
    } else {
      var k :| k in rest && !StuckAt(g, rest, k);
      assert forall d :: d in g[k] ==> d in g;
      TopologicalNext(g, done, k);
      DistinctSize(done + [k], g.Keys);
      order := OrderExists(g, done + [k]);
    }
  }

  /** The final statuses depend on the dependencies and the outcomes only: two listings of
      the same stages, run in different waves, end with the same status map. */
  lemma IndependentOfListing(first: seq<Stage>, second: seq<Stage>, w: World, one: StatusMap, other: StatusMap)
    requires UniqueIds(first) && AllContinue(first) && Consistent(first, w, one) && Finished(one)
    requires UniqueIds(second) && AllContinue(second) && Consistent(second, w, other) && Finished(other)
    requires forall s :: s in first <==> s in second
    requires Closed(GraphOf(first)) && Acyclic(GraphOf(first))
    ensures one == other
  {
    SameGraph(first, second);
    var order := OrderExists(GraphOf(first), []);
    SchedulerRefinesSpec(first, w, one, order);
    SchedulerRefinesSpec(second, w, other, order);
  }

  lemma SameGraph(first: seq<Stage>, second: seq<Stage>)
    requires UniqueIds(first) && UniqueIds(second) && forall s :: s in first <==> s in second
    ensures GraphOf(first) == GraphOf(second)
  {
    var g, h := GraphOf(first), GraphOf(second);
    forall k ensures (k in g <==> k in h) && (k in g ==> g[k] == h[k]) {
      if k in g {
        var i :| 0 <= i < |first| && first[i].id == k;
        assert first[i] in second;
      }
      if k in h {
        var i :| 0 <= i < |second| && second[i].id == k;
        assert second[i] in first;
      }
    }
  }

  // ----- chains and the sequential mode -----------------------------------------------------------

  function ChainStage(stages: seq<Stage>, i: nat): Stage
    requires i < |stages|
  {
    Stage(stages[i].id, if i == 0 then [] else [stages[i - 1].id], stages[i].onFailure)
  }

  /** The same stages, each depending on the one before it. */
  function Chain(stages: seq<Stage>): (chain: seq<Stage>)
    ensures |chain| == |stages| && forall i :: 0 <= i < |chain| ==> chain[i] == ChainStage(stages, i)
  {
    seq(|stages|, i requires 0 <= i < |stages| => ChainStage(stages, i))
  }

  predicate AllStop(stages: seq<Stage>) {
    forall i :: 0 <= i < |stages| ==> !Continues(stages[i])
  }

  /** What consistency says about one link of a chain. */
  lemma ChainSettled(stages: seq<Stage>, w: World, status: StatusMap, i: nat)
    requires i < |stages| && Consistent(Chain(stages), w, status)
    ensures stages[i].id in status
    ensures match status[stages[i].id]
            case Pending => true
            case Skipped =>
              || StopFailure(Chain(stages), status)
              || (i > 0 && StatusOf(status, stages[i - 1].id) !in {Pending, Succeeded})
            case ran => ran == Outcome(w, stages[i].id) && (i > 0 ==> StatusOf(status, stages[i - 1].id) == Succeeded)
  {
    var chain := Chain(stages);
    var s := chain[i];
    assert s in chain && s.id in Ids(chain);
    assert Settled(chain, w, status, {}, s);
    assert i > 0 ==> stages[i - 1].id in s.dependsOn;
  }

  /** In a chain, a stage that ran has only succeeded stages before it. */
  lemma {:induction false} ChainSucceeds(stages: seq<Stage>, w: World, status: StatusMap, k: nat, i: nat)
    requires i < k < |stages| && Consistent(Chain(stages), w, status)
    requires StatusOf(status, stages[k].id) == Failed || StatusOf(status, stages[k].id) == Succeeded
    ensures StatusOf(status, stages[i].id) == Succeeded
    decreases k
  {
    ChainSettled(stages, w, status, k);
    if i < k - 1 {
      ChainSucceeds(stages, w, status, k - 1, i);
    }
  }

  /** A stage that succeeded or failed with everything before it rules out later failures. */
  lemma StopFailurePosition(stages: seq<Stage>, w: World, status: StatusMap, i: nat)
    requires AllStop(stages) && i < |stages| && Consistent(Chain(stages), w, status)
    requires StatusOf(status, stages[i].id) == Skipped && StopFailure(Chain(stages), status)
    ensures exists k {:trigger stages[k]} :: 0 <= k < i && StatusOf(status, stages[k].id) == Failed
  {
    var chain := Chain(stages);
    var m :| m in chain && StopsBatch(status, m);
    var k :| 0 <= k < |chain| && chain[k] == m;
    assert chain[k].id == stages[k].id;
    if i < k {
      ChainSucceeds(stages, w, status, k, i);
    }
  }

  lemma ChainNext(stages: seq<Stage>, w: World, status: StatusMap, i: nat)
    requires AllStop(stages) && i < |stages| && Consistent(Chain(stages), w, status) && Finished(status)
    requires
      forall j {:trigger SequentialStatus(stages, w, j)} :: 0 <= j < i ==>
        StatusOf(status, stages[j].id) == SequentialStatus(stages, w, j)
    ensures StatusOf(status, stages[i].id) == SequentialStatus(stages, w, i)
  {
    ChainSettled(stages, w, status, i);
    if status[stages[i].id] == Skipped {
      if StopFailure(Chain(stages), status) {
        StopFailurePosition(stages, w, status, i);
        var k :| 0 <= k < i && StatusOf(status, stages[k].id) == Failed;
        assert SequentialStatus(stages, w, k) == Failed;
        assert BadStop(w, stages[k]);
      } else {
        assert i > 0 && StatusOf(status, stages[i - 1].id) == SequentialStatus(stages, w, i - 1);
        assert StatusOf(status, stages[i - 1].id) == Failed ==> BadStop(w, stages[i - 1]);
      }
    } else if i > 0 {
      assert StatusOf(status, stages[i - 1].id) == SequentialStatus(stages, w, i - 1);
    }
  }

  /** Stage by stage, a chain in waves behaves as the sequential loop does. */
  lemma {:induction false} ChainPrefix(stages: seq<Stage>, w: World, status: StatusMap, i: nat)
    requires AllStop(stages) && i < |stages| && Consistent(Chain(stages), w, status) && Finished(status)
    ensures
      forall j {:trigger SequentialStatus(stages, w, j)} :: 0 <= j <= i ==>
        StatusOf(status, stages[j].id) == SequentialStatus(stages, w, j)
    decreases i
  {
    if i > 0 {
      ChainPrefix(stages, w, status, i - 1);
    }
    ChainNext(stages, w, status, i);
  }

  /** With every stage on `stop`, running a chain in waves gives each stage exactly the
      result of the sequential loop over the same list. */
  lemma ChainMatchesSequential(stages: seq<Stage>, w: World, waves: StatusMap, loop: StatusMap)
    requires UniqueIds(stages) && AllStop(stages)
    requires Consistent(Chain(stages), w, waves) && Finished(waves)
    requires loop.Keys == Ids(stages)
    requires forall i :: 0 <= i < |stages| ==> StatusOf(loop, stages[i].id) == SequentialStatus(stages, w, i)
    ensures waves == loop
  {
    ChainIds(stages);
    forall id | id in waves ensures waves[id] == loop[id] {
      var i :| 0 <= i < |stages| && stages[i].id == id;
      ChainPrefix(stages, w, waves, i);
      assert StatusOf(loop, stages[i].id) == SequentialStatus(stages, w, i);
    }
  }

  lemma ChainIds(stages: seq<Stage>)
    ensures Ids(Chain(stages)) == Ids(stages)
  {
    var chain := Chain(stages);
    assert forall i :: 0 <= i < |stages| ==> chain[i].id == stages[i].id;
  }
}
