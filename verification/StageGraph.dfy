/** Dependency graphs of batch manifests: cycles, topological orders, and Kahn's
    validation, which accepts exactly the closed acyclic graphs. */
module StageGraph {

  datatype Stage = Stage(id: string, dependsOn: seq<string>, onFailure: string)

  type Graph = map<string, seq<string>>

  predicate UniqueIds(stages: seq<Stage>) {
    forall i, j :: 0 <= i < j < |stages| ==> stages[i].id != stages[j].id
  }

  function Ids(stages: seq<Stage>): set<string> {
    set i | 0 <= i < |stages| :: stages[i].id
  }

  /** The dependencies of each stage, by id. */
  function GraphOf(stages: seq<Stage>): (g: Graph)
    requires UniqueIds(stages)
    ensures g.Keys == Ids(stages)
    ensures forall i :: 0 <= i < |stages| ==> g[stages[i].id] == stages[i].dependsOn
  {
    map i | 0 <= i < |stages| :: stages[i].id := stages[i].dependsOn
  }

  predicate Closed(g: Graph) {
    forall k :: k in g ==> forall d :: d in g[k] ==> d in g
  }

  predicate Link(g: Graph, p: seq<string>, i: nat)
    requires i + 1 < |p|
  {
    p[i] in g && p[i + 1] in g[p[i]]
  }

  /** A chain of stages, each depending on the next. */
  ghost predicate Walk(g: Graph, p: seq<string>) {
    forall i: nat :: i + 1 < |p| ==> Link(g, p, i)
  }

  ghost predicate IsCycle(g: Graph, p: seq<string>) {
    |p| >= 2 && Walk(g, p) && p[0] == p[|p| - 1]
  }

  ghost predicate Acyclic(g: Graph) {
    forall p :: !IsCycle(g, p)
  }

  predicate Distinct(s: seq<string>) {
    forall i, j :: 0 <= i < j < |s| ==> s[i] != s[j]
  }

  /** Every stage comes after all of its dependencies. */
  ghost predicate Topological(g: Graph, order: seq<string>) {
    && Distinct(order)
    && (forall i :: 0 <= i < |order| ==> order[i] in g)
    && (forall i: nat {:trigger DepsBefore(g, order, i)} :: i < |order| ==> DepsBefore(g, order, i))
  }

  predicate DepsBefore(g: Graph, order: seq<string>, i: nat)
    requires i < |order| && order[i] in g
  {
    forall d :: d in g[order[i]] ==> d in order[..i]
  }

  lemma TopologicalNext(g: Graph, order: seq<string>, n: string)
    requires Topological(g, order) && n in g && n !in order
    requires forall d :: d in g[n] ==> d in order
    ensures Topological(g, order + [n])
  {
    forall i: nat | i < |order + [n]| ensures DepsBefore(g, order + [n], i) {
      assert (order + [n])[..i] == order[..i];
      if i < |order| {
        assert DepsBefore(g, order, i);
      } else {
        assert order[..i] == order;
      }
    }
  }

  // ----- an order rules cycles out --------------------------------------------------------

  ghost function Position(order: seq<string>, k: string): (i: nat)
    requires k in order
    ensures i < |order| && order[i] == k
  {
    var i: nat :| i < |order| && order[i] == k;
    i
  }

  lemma {:induction false} WalkDescends(g: Graph, order: seq<string>, p: seq<string>, i: nat)
    requires Topological(g, order) && Walk(g, p) && (forall k :: k in g ==> k in order)
    requires 0 < i < |p| && p[0] in g && p[i] in g
    ensures Position(order, p[i]) < Position(order, p[0])
  {
    assert Link(g, p, i - 1);
    var from := Position(order, p[i - 1]);
    assert DepsBefore(g, order, from);
    var j :| 0 <= j < from && order[j] == p[i];
    assert Position(order, p[i]) == j;
    if i > 1 {
      WalkDescends(g, order, p, i - 1);
    }
  }

  lemma OrderRulesOutCycles(g: Graph, order: seq<string>)
    requires Topological(g, order) && forall k :: k in g ==> k in order
    ensures Acyclic(g)
  {
    forall p ensures !IsCycle(g, p) {
      if IsCycle(g, p) {
        assert Link(g, p, 0);
        WalkDescends(g, order, p, |p| - 1);
      }
    }
  }

  // ----- stages that never become ready contain a cycle ---------------------------------------

  /** Every member of r depends on a member of r. */
  ghost predicate Stuck(g: Graph, r: set<string>) {
    forall k {:trigger StuckAt(g, r, k)} :: k in r ==> StuckAt(g, r, k)
  }

  ghost predicate StuckAt(g: Graph, r: set<string>, k: string) {
    k in g && exists d :: d in g[k] && d in r
  }

  lemma {:induction false} LongWalk(g: Graph, r: set<string>, start: string, n: nat) returns (p: seq<string>)
    requires Stuck(g, r) && start in r
    ensures |p| == n + 1 && Walk(g, p) && p[0] == start
    ensures forall i :: 0 <= i < |p| ==> p[i] in r
    decreases n
  {
    p := [start];
    if n > 0 {
      assert StuckAt(g, r, start);
      var d :| d in g[start] && d in r;
      var rest := LongWalk(g, r, d, n - 1);
      p := [start] + rest;
      forall i: nat | i + 1 < |p| ensures Link(g, p, i) {
        if i > 0 {
          assert Link(g, rest, i - 1);
        }
      }
    }
  }

  lemma {:induction false} Pigeonhole(s: seq<string>, r: set<string>) returns (i: nat, j: nat)
    requires |s| > |r| && forall k :: 0 <= k < |s| ==> s[k] in r
    ensures i < j < |s| && s[i] == s[j]
    decreases |s|
  {
    var last := s[|s| - 1];
    if k :| 0 <= k < |s| - 1 && s[k] == last {
      return k, |s| - 1;
    }
    var front := s[..|s| - 1];
    i, j := Pigeonhole(front, r - {last});
  }

  lemma StuckHasCycle(g: Graph, r: set<string>)
    requires Stuck(g, r) && r != {}
    ensures !Acyclic(g)
  {
    var start :| start in r;
    var p := LongWalk(g, r, start, |r|);
    var i, j := Pigeonhole(p, r);
    var cycle := p[i..j + 1];
    assert Walk(g, cycle) by {
      forall k: nat | k + 1 < |cycle| ensures Link(g, cycle, k) {
        assert Link(g, p, i + k);
      }
    }
    assert IsCycle(g, cycle);
  }

  // ----- Kahn's algorithm ----------------------------------------------------------------------

  /** Dependencies not yet among the done stages, with multiplicity. */
  function Remaining(deps: seq<string>, done: seq<string>): nat {
    if deps == [] then 0
    else Remaining(deps[..|deps| - 1], done) + if deps[|deps| - 1] in done then 0 else 1
  }

  lemma {:induction false} RemainingNone(deps: seq<string>)
    ensures Remaining(deps, []) == |deps|
  {
    if deps != [] {
      RemainingNone(deps[..|deps| - 1]);
    }
  }

  lemma {:induction false} RemainingZero(deps: seq<string>, done: seq<string>)
    ensures Remaining(deps, done) == 0 <==> forall d :: d in deps ==> d in done
  {
    if deps != [] {
      var front, last := deps[..|deps| - 1], deps[|deps| - 1];
      RemainingZero(front, done);
      assert deps == front + [last];
    }
  }

  /** Finishing a new stage n settles exactly its occurrences among the dependencies. */
  lemma {:induction false} RemainingDrops(deps: seq<string>, done: seq<string>, n: string)
    requires n !in done
    ensures Remaining(deps, done + [n]) == Remaining(deps, done) - multiset(deps)[n]
  {
    if deps != [] {
      var front, last := deps[..|deps| - 1], deps[|deps| - 1];
      RemainingDrops(front, done, n);
      assert deps == front + [last];
    } else {
      assert multiset(deps) == multiset{};
    }
  }

  datatype Verdict = Accepted | UnknownDependency(stage: string, dependency: string) | CycleAmong(stages: seq<string>)

  function Children(children: Graph, d: string): seq<string> {
    if d in children then children[d] else []
  }

  function Occurrences(g: Graph, k: string, d: string): nat {
    if k in g then multiset(g[k])[d] else 0
  }

  /** Each stage is listed under each of its dependencies, as often as it names it. */
  ghost predicate Listed(g: Graph, children: Graph) {
    forall d, k :: multiset(Children(children, d))[k] == Occurrences(g, k, d)
  }

  method CountStage(s: Stage, ghost g: Graph, indeg0: map<string, int>, children0: Graph)
    returns (indeg: map<string, int>, children: Graph)
    requires s.id !in g && s.id !in indeg0 && Listed(g, children0)
    ensures indeg == indeg0[s.id := |s.dependsOn|]
    ensures Listed(g[s.id := s.dependsOn], children)
  {
    indeg, children := indeg0[s.id := 0], children0;
    for j := 0 to |s.dependsOn|
      invariant indeg == indeg0[s.id := j]
      invariant Listed(g[s.id := s.dependsOn[..j]], children)
    {
      var d := s.dependsOn[j];
      indeg := indeg[s.id := indeg[s.id] + 1];
      ghost var before := children;
      children := children[d := Children(children, d) + [s.id]];
      AddChild(s, g, before, children, j);
    }
    assert s.dependsOn[..|s.dependsOn|] == s.dependsOn;
  }

  lemma AddChild(s: Stage, g: Graph, before: Graph, after: Graph, j: nat)
    requires s.id !in g && j < |s.dependsOn|
    requires Listed(g[s.id := s.dependsOn[..j]], before)
    requires after == before[s.dependsOn[j] := Children(before, s.dependsOn[j]) + [s.id]]
    ensures Listed(g[s.id := s.dependsOn[..j + 1]], after)
  {
    var g0, g1 := g[s.id := s.dependsOn[..j]], g[s.id := s.dependsOn[..j + 1]];
    forall d, k ensures multiset(Children(after, d))[k] == Occurrences(g1, k, d) {
      assert multiset(Children(before, d))[k] == Occurrences(g0, k, d);
      OneMoreOccurrence(s, g, j, d, k);
      if d == s.dependsOn[j] {
        assert Children(after, d) == Children(before, d) + [s.id];
      } else {
        assert Children(after, d) == Children(before, d);
      }
    }
  }

  lemma OneMoreOccurrence(s: Stage, g: Graph, j: nat, d: string, k: string)
    requires s.id !in g && j < |s.dependsOn|
    ensures Occurrences(g[s.id := s.dependsOn[..j + 1]], k, d) ==
            Occurrences(g[s.id := s.dependsOn[..j]], k, d) + if k == s.id && d == s.dependsOn[j] then 1 else 0
  {
    assert s.dependsOn[..j + 1] == s.dependsOn[..j] + [s.dependsOn[j]];
  }

  lemma IdsNext(stages: seq<Stage>, i: nat)
    requires i < |stages|
    ensures Ids(stages[..i + 1]) == Ids(stages[..i]) + {stages[i].id}
  {
    var front, all := stages[..i], stages[..i + 1];
    forall k ensures k in Ids(all) <==> k in Ids(front) + {stages[i].id} {
      if k in Ids(all) {
        var j :| 0 <= j < |all| && all[j].id == k;
        assert j < i ==> front[j].id == k;
      }
      if k in Ids(front) {
        var j :| 0 <= j < i && front[j].id == k;
        assert all[j].id == k;
      }
      assert all[i].id == stages[i].id;
    }
  }

  lemma ListedAs(stages: seq<Stage>, k: string) returns (j: nat)
    requires UniqueIds(stages) && k in GraphOf(stages)
    ensures j < |stages| && stages[j].id == k && GraphOf(stages)[k] == stages[j].dependsOn
  {
    j :| j < |stages| && stages[j].id == k;
  }

  lemma GraphValue(stages: seq<Stage>, i: nat, k: string)
    requires UniqueIds(stages) && i < |stages| && k in GraphOf(stages[..i + 1])
    ensures k != stages[i].id ==> k in GraphOf(stages[..i]) && GraphOf(stages[..i + 1])[k] == GraphOf(stages[..i])[k]
    ensures k == stages[i].id ==> GraphOf(stages[..i + 1])[k] == stages[i].dependsOn
  {
    var j := ListedAs(stages[..i + 1], k);
    if k != stages[i].id {
      assert stages[..i][j] == stages[j];
    }
  }

  lemma GraphOfNext(stages: seq<Stage>, i: nat)
    requires UniqueIds(stages) && i < |stages|
    ensures stages[i].id !in GraphOf(stages[..i])
    ensures GraphOf(stages[..i + 1]) == GraphOf(stages[..i])[stages[i].id := stages[i].dependsOn]
  {
    var front, all := stages[..i], stages[..i + 1];
    IdsNext(stages, i);
    assert stages[i].id !in GraphOf(front) by {
      if stages[i].id in GraphOf(front) {
        var j := ListedAs(front, stages[i].id);
      }
    }
    forall k | k in GraphOf(all) ensures GraphOf(all)[k] == GraphOf(front)[stages[i].id := stages[i].dependsOn][k] {
      GraphValue(stages, i, k);
    }
  }

  method CountDependencies(stages: seq<Stage>) returns (indeg: map<string, int>, children: Graph)
    requires UniqueIds(stages)
    ensures indeg.Keys == GraphOf(stages).Keys
    ensures forall k :: k in indeg ==> indeg[k] == Remaining(GraphOf(stages)[k], [])
    ensures Listed(GraphOf(stages), children)
  {
    indeg, children := map[], map[];
    ghost var g: Graph := map[];
    for i := 0 to |stages|
      invariant g == GraphOf(stages[..i])
      invariant indeg.Keys == g.Keys
      invariant forall k :: k in indeg ==> indeg[k] == Remaining(g[k], [])
      invariant Listed(g, children)
    {
      var s := stages[i];
      GraphOfNext(stages, i);
      RemainingNone(s.dependsOn);
      indeg, children := CountStage(s, g, indeg, children);
      g := g[s.id := s.dependsOn];
    }
    assert stages[..|stages|] == stages;
  }

  /** The state of the queue loop: `done` were taken from the queue, in this order. */
  ghost predicate KahnInv(g: Graph, indeg: map<string, int>, done: seq<string>, queue: seq<string>) {
    && indeg.Keys == g.Keys
    && Topological(g, done)
    && Distinct(done + queue)
    && (forall k :: k in g ==> indeg[k] == Remaining(g[k], done))
    && (forall k :: k in done + queue <==> k in g && indeg[k] == 0)
  }

  /** Counts one finished stage off its children; those left without dependencies queue up. */
  method SettleChildren(kids: seq<string>, indeg0: map<string, int>, queue0: seq<string>)
    returns (indeg: map<string, int>, queue: seq<string>)
    requires forall k :: k in kids ==> k in indeg0 && multiset(kids)[k] <= indeg0[k]
    ensures indeg.Keys == indeg0.Keys
    ensures forall k :: k in indeg ==> indeg[k] == indeg0[k] - multiset(kids)[k]
    ensures queue0 <= queue && Distinct(queue[|queue0|..])
    ensures forall k :: k in queue[|queue0|..] <==> k in kids && indeg[k] == 0
  {
    indeg, queue := indeg0, queue0;
    ghost var ready: seq<string> := [];
    for i := 0 to |kids|
      invariant indeg.Keys == indeg0.Keys && queue == queue0 + ready && Distinct(ready)
      invariant forall k :: k in indeg ==> indeg[k] == indeg0[k] - multiset(kids[..i])[k]
      invariant forall k :: k in ready <==> k in kids[..i] && indeg[k] == 0
    {
      var c := kids[i];
      assert kids[..i + 1] == kids[..i] + [c];
      assert kids == kids[..i] + [c] + kids[i + 1..];
      assert multiset(kids) == multiset(kids[..i]) + multiset{c} + multiset(kids[i + 1..]);
      indeg := indeg[c := indeg[c] - 1];
      if indeg[c] == 0 {
        queue := queue + [c];
        ready := ready + [c];
      }
    }
    assert kids[..|kids|] == kids;
  }

  lemma {:induction false} DistinctSize(s: seq<string>, keys: set<string>)
    requires Distinct(s) && forall i :: 0 <= i < |s| ==> s[i] in keys
    ensures |s| <= |keys|
    ensures |s| == |keys| ==> forall k :: k in keys ==> k in s
    decreases |s|
  {
    if s != [] {
      var front, last := s[..|s| - 1], s[|s| - 1];
      assert s == front + [last];
      DistinctSize(front, keys - {last});
    }
  }

  /** The head of the queue is done only now. */
  lemma KahnHead(g: Graph, indeg: map<string, int>, done: seq<string>, queue: seq<string>)
    requires queue != [] && KahnInv(g, indeg, done, queue)
    ensures queue[0] in g && indeg[queue[0]] == 0 && queue[0] !in done
  {
    assert (done + queue)[|done|] == queue[0];
    assert queue[0] in done + queue;
    assert forall i :: 0 <= i < |done| ==> (done + queue)[i] == done[i];
  }

  lemma KahnCounts(
    g: Graph, children: Graph, indeg0: map<string, int>, done: seq<string>, n: string, indeg: map<string, int>
  )
    requires indeg0.Keys == indeg.Keys == g.Keys && Listed(g, children) && n !in done
    requires forall k :: k in g ==> indeg0[k] == Remaining(g[k], done)
    requires forall k :: k in indeg ==> indeg[k] == indeg0[k] - multiset(Children(children, n))[k]
    ensures forall k :: k in g ==> indeg[k] == Remaining(g[k], done + [n])
  {
    forall k | k in g ensures indeg[k] == Remaining(g[k], done + [n]) {
      RemainingDrops(g[k], done, n);
      assert multiset(Children(children, n))[k] == Occurrences(g, k, n);
    }
  }

  /** What one turn of the queue loop does to the in-degrees and the queue. */
  ghost predicate Turn(g: Graph, children: Graph, indeg0: map<string, int>, queue0: seq<string>,
                       indeg: map<string, int>, queue: seq<string>)
    requires queue0 != []
  {
    var kids := Children(children, queue0[0]);
    && indeg0.Keys == indeg.Keys == g.Keys
    && (forall k :: k in indeg ==> indeg[k] == indeg0[k] - multiset(kids)[k])
    && queue0[1..] <= queue && Distinct(queue[|queue0| - 1..])
    && (forall k :: k in queue[|queue0| - 1..] <==> k in kids && k in g && indeg[k] == 0)
  }

  /** One turn of the queue loop keeps the invariant. */
  lemma KahnTurn(g: Graph, children: Graph, indeg0: map<string, int>, done: seq<string>, queue0: seq<string>,
                 indeg: map<string, int>, queue: seq<string>)
    requires queue0 != [] && KahnInv(g, indeg0, done, queue0) && Listed(g, children)
    requires Turn(g, children, indeg0, queue0, indeg, queue)
    ensures KahnInv(g, indeg, done + [queue0[0]], queue)
  {
    var n := queue0[0];
    KahnHead(g, indeg0, done, queue0);
    KahnCounts(g, children, indeg0, done, n, indeg);
    RemainingZero(g[n], done);
    TopologicalNext(g, done, n);
    KahnQueue(g, children, indeg0, done, queue0, indeg, queue);
  }

  lemma KahnQueue(g: Graph, children: Graph, indeg0: map<string, int>, done: seq<string>, queue0: seq<string>,
                  indeg: map<string, int>, queue: seq<string>)
    requires queue0 != [] && KahnInv(g, indeg0, done, queue0) && Listed(g, children)
    requires Turn(g, children, indeg0, queue0, indeg, queue)
    ensures Distinct(done + [queue0[0]] + queue)
    ensures forall k :: k in done + [queue0[0]] + queue <==> k in g && indeg[k] == 0
  {
    KahnHead(g, indeg0, done, queue0);
    var ready := queue[|queue0| - 1..];
    var queued := done + queue0;
    KahnQueued(g, children, indeg0, done, queued, queue0[0], indeg, ready);
    DistinctConcat(queued, ready);
    assert done + [queue0[0]] + queue == queued + ready;
  }

  lemma DistinctConcat(a: seq<string>, b: seq<string>)
    requires Distinct(a) && Distinct(b) && forall k :: k in b ==> k !in a
    ensures Distinct(a + b)
  {
    forall i, j | 0 <= i < j < |a + b| ensures (a + b)[i] != (a + b)[j] {
      if i < |a| && j >= |a| {
        assert (a + b)[j] in b;
      }
    }
  }

  /** Which stages the loop has queued by the end of a turn. */
  lemma KahnQueued(
    g: Graph, children: Graph, indeg0: map<string, int>, done: seq<string>, queued: seq<string>, n: string,
    indeg: map<string, int>, ready: seq<string>
  )
    requires indeg0.Keys == indeg.Keys == g.Keys && Listed(g, children) && n !in done
    requires forall j :: j in g ==> indeg0[j] == Remaining(g[j], done)
    requires forall j :: j in queued <==> j in g && indeg0[j] == 0
    requires forall j :: j in indeg ==> indeg[j] == indeg0[j] - multiset(Children(children, n))[j]
    requires forall j :: j in ready <==> j in Children(children, n) && j in g && indeg[j] == 0
    ensures forall k :: k in queued + ready <==> k in g && indeg[k] == 0
    ensures forall k :: k in ready ==> k !in queued
  {
    forall k ensures (k in queued || k in ready <==> k in g && indeg[k] == 0) && (k in ready ==> k !in queued) {
      var kids := Children(children, n);
      if k in g {
        RemainingDrops(g[k], done, n);
        assert multiset(kids)[k] == Occurrences(g, k, n);
        assert k in kids <==> multiset(kids)[k] > 0;
      }
    }
  }

  /** The dependsOn check of a manifest: Kahn's algorithm over the stage list. */
  method ValidateDag(stages: seq<Stage>) returns (verdict: Verdict)
    requires UniqueIds(stages)
    ensures verdict.Accepted? <==> Closed(GraphOf(stages)) && Acyclic(GraphOf(stages))
    ensures verdict.UnknownDependency? ==>
      var g := GraphOf(stages);
      verdict.stage in g && verdict.dependency in g[verdict.stage] && verdict.dependency !in g
    ensures verdict.CycleAmong? ==>
      verdict.stages != [] && Stuck(GraphOf(stages), set k | k in verdict.stages)
  {
    verdict := FindUnknown(stages);
    if verdict.UnknownDependency? {
      return;
    }
    var indeg, children := CountDependencies(stages);
    var seen;
    ghost var done;
    seen, indeg, done := DrainQueue(stages, indeg, children);
    IdsSize(stages);
    if seen != |stages| {
      var residual := Residual(stages, indeg);
      KahnResidual(GraphOf(stages), indeg, done, residual);
      return CycleAmong(residual);
    }
    OrderRulesOutCycles(GraphOf(stages), done);
  }

  lemma KahnStart(g: Graph, indeg: map<string, int>, queue: seq<string>)
    requires indeg.Keys == g.Keys && forall k :: k in g ==> indeg[k] == Remaining(g[k], [])
    requires Distinct(queue) && forall k :: k in queue <==> k in indeg && indeg[k] == 0
    ensures KahnInv(g, indeg, [], queue)
  {
    assert [] + queue == queue;
  }

  lemma KahnSize(g: Graph, indeg: map<string, int>, done: seq<string>, queue: seq<string>)
    requires KahnInv(g, indeg, done, queue)
    ensures |done| <= |g.Keys|
    ensures |done| == |g.Keys| ==> forall k :: k in g ==> k in done
  {
    DistinctSize(done, g.Keys);
  }

  /** One turn: the head of the queue is taken out and counted off its children. */
  method TakeHead(
    ghost g: Graph, children: Graph, indeg0: map<string, int>, ghost done: seq<string>, queue0: seq<string>
  )
    returns (indeg: map<string, int>, queue: seq<string>)
    requires queue0 != [] && KahnInv(g, indeg0, done, queue0) && Listed(g, children)
    ensures KahnInv(g, indeg, done + [queue0[0]], queue)
  {
    ChildrenCounts(g, children, indeg0, done, queue0);
    indeg, queue := SettleChildren(Children(children, queue0[0]), indeg0, queue0[1..]);
    KahnTurn(g, children, indeg0, done, queue0, indeg, queue);
  }

  /** The queue loop: takes out every stage all of whose dependencies were taken out. */
  method DrainQueue(stages: seq<Stage>, indeg0: map<string, int>, children: Graph)
    returns (seen: nat, indeg: map<string, int>, ghost done: seq<string>)
    requires UniqueIds(stages) && indeg0.Keys == GraphOf(stages).Keys && Listed(GraphOf(stages), children)
    requires forall k :: k in indeg0 ==> indeg0[k] == Remaining(GraphOf(stages)[k], [])
    ensures KahnInv(GraphOf(stages), indeg, done, []) && seen == |done| <= |GraphOf(stages).Keys|
    ensures seen == |GraphOf(stages).Keys| ==> forall k :: k in GraphOf(stages) ==> k in done
  {
    ghost var g := GraphOf(stages);
    indeg := indeg0;
    var queue := InitialQueue(stages, indeg);
    KahnStart(g, indeg, queue);
    done, seen := [], 0;
    while queue != []
      invariant KahnInv(g, indeg, done, queue) && seen == |done|
      decreases |g.Keys| - |done|
    {
      var n := queue[0];
      indeg, queue := TakeHead(g, children, indeg, done, queue);
      seen := seen + 1;
      done := done + [n];
      KahnSize(g, indeg, done, queue);
    }
    KahnSize(g, indeg, done, queue);
  }

  method FindUnknown(stages: seq<Stage>) returns (verdict: Verdict)
    requires UniqueIds(stages)
    ensures verdict.Accepted? <==> Closed(GraphOf(stages))
    ensures !verdict.CycleAmong?
    ensures verdict.UnknownDependency? ==>
      var g := GraphOf(stages);
      verdict.stage in g && verdict.dependency in g[verdict.stage] && verdict.dependency !in g
  {
    ghost var g := GraphOf(stages);
    var ids := Ids(stages);
    for i := 0 to |stages|
      invariant forall m, d :: 0 <= m < i && d in stages[m].dependsOn ==> d in g
    {
      var s := stages[i];
      for j := 0 to |s.dependsOn|
        invariant forall m :: 0 <= m < j ==> s.dependsOn[m] in g
      {
        if s.dependsOn[j] !in ids {
          return UnknownDependency(s.id, s.dependsOn[j]);
        }
      }
    }
    verdict := Accepted;
  }

  method InitialQueue(stages: seq<Stage>, indeg: map<string, int>) returns (queue: seq<string>)
    requires UniqueIds(stages) && indeg.Keys == Ids(stages)
    ensures Distinct(queue)
    ensures forall k :: k in queue <==> k in indeg && indeg[k] == 0
  {
    queue := [];
    for i := 0 to |stages|
      invariant Distinct(queue)
      invariant forall k :: k in queue <==> k in Ids(stages[..i]) && indeg[k] == 0
    {
      assert Ids(stages[..i + 1]) == Ids(stages[..i]) + {stages[i].id};
      assert stages[i].id !in Ids(stages[..i]);
      if indeg[stages[i].id] == 0 {
        queue := queue + [stages[i].id];
      }
    }
    assert stages[..|stages|] == stages;
  }

  method Residual(stages: seq<Stage>, indeg: map<string, int>) returns (cyclic: seq<string>)
    requires indeg.Keys == Ids(stages)
    ensures forall k :: k in cyclic <==> k in indeg && indeg[k] > 0
  {
    cyclic := [];
    for i := 0 to |stages|
      invariant forall k :: k in cyclic <==> k in Ids(stages[..i]) && indeg[k] > 0
    {
      assert Ids(stages[..i + 1]) == Ids(stages[..i]) + {stages[i].id};
      if indeg[stages[i].id] > 0 {
        cyclic := cyclic + [stages[i].id];
      }
    }
    assert stages[..|stages|] == stages;
  }

  lemma {:induction false} IdsSize(stages: seq<Stage>)
    requires UniqueIds(stages)
    ensures |Ids(stages)| == |stages|
  {
    if stages != [] {
      var front, last := stages[..|stages| - 1], stages[|stages| - 1];
      IdsSize(front);
      assert Ids(stages) == Ids(front) + {last.id};
      assert last.id !in Ids(front);
    }
  }

  /** A stage is listed under n no more often than it has dependencies left. */
  lemma ChildrenCounts(g: Graph, children: Graph, indeg: map<string, int>, done: seq<string>, queue: seq<string>)
    requires queue != [] && KahnInv(g, indeg, done, queue) && Listed(g, children)
    ensures forall k :: k in Children(children, queue[0]) ==>
              k in indeg && multiset(Children(children, queue[0]))[k] <= indeg[k]
  {
    var n := queue[0];
    KahnHead(g, indeg, done, queue);
    forall k | k in Children(children, n) ensures k in indeg && multiset(Children(children, n))[k] <= indeg[k] {
      assert multiset(Children(children, n))[k] == Occurrences(g, k, n);
      RemainingDrops(g[k], done, n);
    }
  }

  lemma ResidualNonempty(keys: set<string>, done: seq<string>)
    requires Distinct(done) && |done| != |keys| && forall i :: 0 <= i < |done| ==> done[i] in keys
    ensures exists k :: k in keys && k !in done
  {
    if forall k :: k in keys ==> k in done {
      assert keys == set i | 0 <= i < |done| :: done[i];
      DistinctKeys(done, keys);
    }
  }

  /** Stages the emptied queue never reached depend on one another. */
  lemma KahnResidual(g: Graph, indeg: map<string, int>, done: seq<string>, residual: seq<string>)
    requires Closed(g) && KahnInv(g, indeg, done, []) && |done| != |g.Keys|
    requires forall k :: k in residual <==> k in indeg && indeg[k] > 0
    ensures residual != [] && Stuck(g, set k | k in residual) && !Acyclic(g)
  {
    assert done + [] == done;
    ResidualNonempty(g.Keys, done);
    var missed :| missed in g && missed !in done;
    assert indeg[missed] == Remaining(g[missed], done);
    assert missed in residual;
    var r := set k | k in residual;
    forall k ensures k in r ==> StuckAt(g, r, k) {
      if k in r {
        RemainingZero(g[k], done);
        var d :| d in g[k] && d !in done;
        assert indeg[d] == Remaining(g[d], done);
        assert d in r;
      }
    }
    assert missed in r;
    StuckHasCycle(g, r);
  }

  lemma {:induction false} DistinctKeys(s: seq<string>, keys: set<string>)
    requires Distinct(s) && keys == set i | 0 <= i < |s| :: s[i]
    ensures |s| == |keys|
  {
    if s != [] {
      var front, last := s[..|s| - 1], s[|s| - 1];
      assert keys - {last} == set i | 0 <= i < |front| :: front[i];
      DistinctKeys(front, keys - {last});
    } else {
      assert keys == {};
    }
  }
}
