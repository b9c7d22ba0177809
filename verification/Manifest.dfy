/** Manifest validation: version and policy words, safe unique stage ids and paths, trimmed
    dependency lists without blanks, self references or repeats, and no dependency cycle. */
module Manifest {
  import opened StageGraph

  datatype RawStage = RawStage(id: string, file: string, templateKey: string, onFailure: string, dependsOn: seq<string>)

  datatype Manifest = Manifest(version: int, onFailure: string, stages: seq<RawStage>)

  // ----- text ---------------------------------------------------------------------------------

  /** Unicode white space. */
  predicate Space(c: char) {
    var u := c as int;
    || 9 <= u <= 13 || u in {0x20, 0x85, 0xA0, 0x1680, 0x2028, 0x2029, 0x202F, 0x205F, 0x3000}
    || 0x2000 <= u <= 0x200A
  }

  function TrimLeft(s: string): (t: string)
    ensures t == "" || !Space(t[0])
    ensures (s == "" || !Space(s[0])) ==> t == s
  {
    if s != "" && Space(s[0]) then TrimLeft(s[1..]) else s
  }

  function TrimRight(s: string): (t: string)
    ensures t == "" || !Space(t[|t| - 1])
    ensures t <= s && ((s == "" || !Space(s[|s| - 1])) ==> t == s)
  {
    if s != "" && Space(s[|s| - 1]) then TrimRight(s[..|s| - 1]) else s
  }

  /** White space off both ends; trimming again changes nothing. */
  function TrimSpace(s: string): (t: string)
    ensures t == "" || (!Space(t[0]) && !Space(t[|t| - 1]))
    ensures s == "" || (!Space(s[0]) && !Space(s[|s| - 1])) ==> t == s
  {
    TrimRight(TrimLeft(s))
  }

  /** Lower case, for all capitals of letters in policy words; the dotted I is one. */
  function LowerLetter(c: char): char {
    if 'A' <= c <= 'Z' then (c as int + 32) as char else if c as int == 0x130 then 'i' else c
  }

  function Lower(s: string): string {
    seq(|s|, i requires 0 <= i < |s| => LowerLetter(s[i]))
  }

  /** A failure policy as it is understood. */
  function Policy(s: string): string {
    Lower(TrimSpace(s))
  }

  predicate PolicyOk(s: string) {
    Policy(s) in {"", "stop", "continue"}
  }

  // ----- what these functions mean ------------------------------------------------------------

  predicate AllSpace(s: string) {
    forall i :: 0 <= i < |s| ==> Space(s[i])
  }

  lemma AllSpaceJoin(s: string, t: string)
    requires AllSpace(s) && AllSpace(t)
    ensures AllSpace(s + t)
  {
  }

  lemma {:induction false} TrimLeftMeans(s: string) returns (cut: string)
    ensures s == cut + TrimLeft(s) && AllSpace(cut)
  {
    if s != "" && Space(s[0]) {
      var more := TrimLeftMeans(s[1..]);
      AllSpaceJoin([s[0]], more);
      assert s == [s[0]] + s[1..];
      return [s[0]] + more;
    }
    cut := "";
  }

  lemma {:induction false} TrimRightMeans(s: string) returns (cut: string)
    ensures s == TrimRight(s) + cut && AllSpace(cut)
  {
    if s != "" && Space(s[|s| - 1]) {
      var more := TrimRightMeans(s[..|s| - 1]);
      AllSpaceJoin(more, [s[|s| - 1]]);
      assert s == s[..|s| - 1] + [s[|s| - 1]];
      return more + [s[|s| - 1]];
    }
    cut := "";
  }

  /** Trimming takes white space off both ends and leaves everything between. */
  lemma TrimMeans(s: string) returns (before: string, after: string)
    ensures s == before + TrimSpace(s) + after && AllSpace(before) && AllSpace(after)
  {
    before := TrimLeftMeans(s);
    after := TrimRightMeans(TrimLeft(s));
  }

  /** The letter in either case. */
  predicate SameLetter(c: char, lower: char) {
    c == lower || ('a' <= lower <= 'z' && c as int == lower as int - 'a' as int + 'A' as int)
  }

  lemma LetterInAnyCase(c: char, lower: char)
    requires SameLetter(c, lower) && 'a' <= lower <= 'z'
    ensures LowerLetter(c) == lower && !Space(c)
  {
  }

  lemma WordInAnyCase(spelled: string, word: string)
    requires |spelled| == |word| && forall i :: 0 <= i < |word| ==> SameLetter(spelled[i], word[i])
    requires forall i :: 0 <= i < |word| ==> 'a' <= word[i] <= 'z'
    ensures Lower(spelled) == word && forall i :: 0 <= i < |word| ==> !Space(spelled[i])
  {
    forall i | 0 <= i < |word| ensures LowerLetter(spelled[i]) == word[i] && !Space(spelled[i]) {
      LetterInAnyCase(spelled[i], word[i]);
    }
  }

  lemma PolicyLetters(word: string)
    requires word in {"stop", "continue"}
    ensures word != "" && forall i :: 0 <= i < |word| ==> 'a' <= word[i] <= 'z'
  {
  }

  /** A policy word is understood in any capitals, with white space around it. */
  lemma PolicyInAnyCase(before: string, spelled: string, after: string, word: string)
    requires AllSpace(before) && AllSpace(after) && word in {"stop", "continue"} && |spelled| == |word|
    requires forall i :: 0 <= i < |word| ==> SameLetter(spelled[i], word[i])
    ensures Policy(before + spelled + after) == word
  {
    PolicyLetters(word);
    WordInAnyCase(spelled, word);
    TrimOff(before, spelled, after);
  }

  lemma {:induction false} TrimLeftOff(before: string, rest: string)
    requires AllSpace(before) && rest != "" && !Space(rest[0])
    ensures TrimLeft(before + rest) == rest
  {
    var s := before + rest;
    if before == "" {
      assert s == rest;
    } else {
      assert s[0] == before[0] && s[1..] == before[1..] + rest;
      TrimLeftOff(before[1..], rest);
    }
  }

  lemma {:induction false} TrimRightOff(text: string, after: string)
    requires AllSpace(after) && text != "" && !Space(text[|text| - 1])
    ensures TrimRight(text + after) == text
  {
    var s := text + after;
    if after == "" {
      assert s == text;
    } else {
      var n := |after| - 1;
      assert s[|s| - 1] == after[n] && s[..|s| - 1] == text + after[..n];
      TrimRightOff(text, after[..n]);
    }
  }

  lemma TrimOff(before: string, text: string, after: string)
    requires AllSpace(before) && AllSpace(after) && text != "" && !Space(text[0]) && !Space(text[|text| - 1])
    ensures TrimSpace(before + text + after) == text
  {
    TrimLeftOff(before, text + after);
    assert before + text + after == before + (text + after);
    TrimRightOff(text, after);
  }

  predicate IsSeparator(c: char) {
    c == '/' || c == '\\'
  }

  /** What stands between two separators, or a separator and an end. */
  predicate IsPart(p: string, i: nat, j: nat) {
    && i <= j <= |p| && (i == 0 || IsSeparator(p[i - 1])) && (j == |p| || IsSeparator(p[j]))
    && forall k :: i <= k < j ==> !IsSeparator(p[k])
  }

  /** A path made of names only: no part is empty, the directory itself or its parent. */
  predicate StaysBelow(p: string) {
    && ':' !in p
    && forall i: nat, j: nat :: i <= j <= |p| && IsPart(p, i, j) ==> p[i..j] !in {"", ".", ".."}
  }

  /** A relative path that stays below its directory, written with either slash. */
  predicate RelPath(p: string) {
    TrimSpace(p) != "" && StaysBelow(TrimSpace(p))
  }

  method ValidateRelPath(p: string) returns (ok: bool)
    ensures ok <==> RelPath(p)
  {
    var path := TrimSpace(p);
    if path == "" || ':' in path {
      return false;
    }
    var start := 0;
    for i := 0 to |path| + 1
      invariant start <= i && start <= |path| + 1 && (start == 0 || (start <= |path| + 1 && EndsPart(path, start - 1)))
      invariant forall k :: start <= k < i && k < |path| ==> !IsSeparator(path[k])
      invariant i == |path| + 1 ==> start == i
      invariant forall a: nat, b: nat :: a <= b <= |path| && b < start && IsPart(path, a, b) ==>
        path[a..b] !in {"", ".", ".."}
    {
      if i == |path| || path[i] == '/' || path[i] == '\\' {
        assert IsPart(path, start, i);
        if path[start..i] in {"", ".", ".."} {
          return false;
        }
        forall a: nat, b: nat | a <= b <= |path| && b <= i && IsPart(path, a, b)
          ensures path[a..b] !in {"", ".", ".."}
        {
          if b >= start {
            PartsMeet(path, start, i, a, b);
          }
        }
        start := i + 1;
      }
    }
    ok := true;
  }

  predicate EndsPart(p: string, i: int) {
    i == |p| || (0 <= i < |p| && IsSeparator(p[i]))
  }

  /** Parts that overlap are the same. */
  lemma PartsMeet(p: string, i: nat, j: nat, a: nat, b: nat)
    requires IsPart(p, i, j) && IsPart(p, a, b) && i <= b <= j
    ensures a == i && b == j
  {
  }

  predicate Alphanumeric(c: char) {
    'A' <= c <= 'Z' || 'a' <= c <= 'z' || '0' <= c <= '9'
  }

  /** A letter or digit followed by at most 127 letters, digits, dots, underscores or dashes. */
  predicate SafeId(id: string) {
    && 1 <= |id| <= 128
    && Alphanumeric(id[0])
    && forall i :: 0 < i < |id| ==> Alphanumeric(id[i]) || id[i] == '.' || id[i] == '_' || id[i] == '-'
  }

  datatype Problem =
    | BadVersion
    | NoStages
    | BadPolicy
    | UnsafeId(index: nat)
    | DuplicateId(id: string)
    | BadFile(index: nat)
    | NoTemplate(index: nat)
    | BadStagePolicy(index: nat)
    | BlankDependency(index: nat)
    | SelfDependency(id: string)
    | BadGraph(verdict: Verdict)

  datatype Checked = Valid(manifest: Manifest) | Invalid(problem: Problem)

  // ----- what is accepted -------------------------------------------------------------------------

  ghost predicate SameSet(a: seq<string>, b: seq<string>) {
    forall d :: d in a <==> d in b
  }

  function TrimAll(names: seq<string>): seq<string> {
    seq(|names|, i requires 0 <= i < |names| => TrimSpace(names[i]))
  }

  /** The stages as the dependency graph sees them. */
  function Node(s: RawStage): Stage {
    Stage(s.id, TrimAll(s.dependsOn), s.onFailure)
  }

  function Nodes(stages: seq<RawStage>): seq<Stage> {
    seq(|stages|, i requires 0 <= i < |stages| => Node(stages[i]))
  }

  /** A name of 1 to 128 ASCII letters, digits, dots, underscores and dashes that starts with
      a letter or digit; the bounds are the characters' codes. */
  predicate SafeComponent(id: string) {
    && 0 < |id| < 129
    && forall i :: 0 <= i < |id| ==>
         var u := id[i] as int;
         || 48 <= u <= 57 || 65 <= u <= 90 || 97 <= u <= 122
         || (i > 0 && u in {45, 46, 95})
  }

  /** What one stage has to get right. */
  predicate StageOk(s: RawStage) {
    && SafeComponent(s.id)
    && RelPath(s.file)
    && TrimSpace(s.templateKey) != ""
    && PolicyOk(s.onFailure)
    && "" !in TrimAll(s.dependsOn)
  }

  ghost predicate GraphFine(stages: seq<Stage>)
    requires UniqueIds(stages)
  {
    Closed(GraphOf(stages)) && Acyclic(GraphOf(stages))
  }

  ghost predicate StagesWellFormed(stages: seq<RawStage>) {
    && UniqueIds(Nodes(stages)) && GraphFine(Nodes(stages))
    && forall i :: 0 <= i < |stages| ==> StageOk(stages[i])
  }

  /** What a manifest's author has to get right. */
  ghost predicate WellFormed(m: Manifest) {
    m.version == 1 && PolicyOk(m.onFailure) && m.stages != [] && StagesWellFormed(m.stages)
  }

  ghost predicate AllNormalize(raw: seq<RawStage>, normal: seq<RawStage>) {
    |raw| == |normal| && forall i :: 0 <= i < |raw| ==> Normalizes(raw[i], normal[i])
  }

  /** The policy a stage keeps: its word, normalized, unless it is blank. */
  function KeptPolicy(s: string): string {
    if Policy(s) == "" then s else Policy(s)
  }

  /** The stage kept: the same dependencies, trimmed and each named once. */
  ghost predicate Normalizes(raw: RawStage, s: RawStage) {
    && s.id == raw.id
    && s.file == raw.file
    && s.templateKey == raw.templateKey
    && s.onFailure == KeptPolicy(raw.onFailure)
    && SameSet(s.dependsOn, TrimAll(raw.dependsOn)) && Distinct(s.dependsOn) && TrimAll(s.dependsOn) == s.dependsOn
  }

  // ----- the checks ---------------------------------------------------------------------------------

  /** One stage's dependency list. */
  method NormalizeDeps(s: RawStage, index: nat) returns (problem: Problem, norm: seq<string>, ok: bool)
    ensures ok <==> "" !in TrimAll(s.dependsOn) && s.id !in TrimAll(s.dependsOn)
    ensures !ok ==>
      || (problem == BlankDependency(index) && "" in TrimAll(s.dependsOn))
      || (problem == SelfDependency(s.id) && s.id in TrimAll(s.dependsOn))
    ensures ok ==> SameSet(norm, TrimAll(s.dependsOn)) && Distinct(norm) && TrimAll(norm) == norm
  {
    norm, problem := [], NoStages;
    ghost var deps := TrimAll(s.dependsOn);
    for j := 0 to |s.dependsOn|
      invariant Distinct(norm) && SameSet(norm, deps[..j]) && TrimAll(norm) == norm
      invariant "" !in deps[..j] && s.id !in deps[..j]
    {
      var d := TrimSpace(s.dependsOn[j]);
      assert deps[..j + 1] == deps[..j] + [d];
      assert deps[j] == d && deps[j] in deps;
      if d == "" {
        return BlankDependency(index), norm, false;
      }
      if d == s.id {
        return SelfDependency(s.id), norm, false;
      }
      if d !in norm {
        norm := norm + [d];
      }
    }
    assert deps[..|s.dependsOn|] == deps;
    ok := true;
  }

  predicate StageFine(s: RawStage) {
    StageOk(s) && s.id !in TrimAll(s.dependsOn)
  }

  /** The problem found with a stage is one it has, and the first in the order of the checks. */
  ghost predicate Blames(problem: Problem, s: RawStage, index: nat) {
    match problem
    case UnsafeId(i) => i == index && !SafeComponent(s.id)
    case BadFile(i) => i == index && SafeComponent(s.id) && !RelPath(s.file)
    case NoTemplate(i) => i == index && RelPath(s.file) && TrimSpace(s.templateKey) == ""
    case BadStagePolicy(i) =>
      i == index && TrimSpace(s.templateKey) != "" && Policy(s.onFailure) !in {"", "stop", "continue"}
    case BlankDependency(i) => i == index && PolicyOk(s.onFailure) && "" in TrimAll(s.dependsOn)
    case SelfDependency(id) => id == s.id && PolicyOk(s.onFailure) && id in TrimAll(s.dependsOn)
    case _ => false
  }

  /** And so for a list of stages: it is the first one's with a problem. */
  ghost predicate BlamesStage(problem: Problem, stages: seq<RawStage>, i: nat)
    requires i < |stages|
  {
    || (problem == DuplicateId(stages[i].id) && exists j :: 0 <= j < i && stages[j].id == stages[i].id)
    || Blames(problem, stages[i], i)
  }

  ghost predicate BlamesFirst(problem: Problem, stages: seq<RawStage>) {
    exists i: nat :: i < |stages| && BlamesStage(problem, stages, i) && forall j :: 0 <= j < i ==> FineAt(stages, j)
  }

  method CheckStage(s: RawStage, index: nat) returns (problem: Problem, normal: RawStage, ok: bool)
    ensures ok <==> StageFine(s)
    ensures ok ==> Normalizes(s, normal)
    ensures !ok ==> Blames(problem, s, index)
  {
    normal, ok, problem := s, false, NoStages;
    var named := ValidateRelPath(s.file);
    if !SafeId(s.id) {
      problem := UnsafeId(index);
    } else if !named {
      problem := BadFile(index);
    } else if TrimSpace(s.templateKey) == "" {
      problem := NoTemplate(index);
    } else if !PolicyOk(s.onFailure) {
      problem := BadStagePolicy(index);
    } else {
      var deps;
      problem, deps, ok := NormalizeDeps(s, index);
      normal := s.(onFailure := KeptPolicy(s.onFailure), dependsOn := deps);
    }
  }

  /** The property holds of every index below i. */
  predicate HoldsUpTo(fine: nat -> bool, i: nat) {
    i == 0 || (HoldsUpTo(fine, i - 1) && fine(i - 1))
  }

  lemma {:induction false} HoldsAt(fine: nat -> bool, i: nat, j: nat)
    requires j < i && HoldsUpTo(fine, i)
    ensures fine(j)
  {
    if j < i - 1 {
      HoldsAt(fine, i - 1, j);
    }
  }

  lemma {:induction false} HoldForAll(fine: nat -> bool, i: nat)
    requires forall j: nat :: j < i ==> fine(j)
    ensures HoldsUpTo(fine, i)
  {
    if i > 0 {
      HoldForAll(fine, i - 1);
    }
  }

  predicate StagesFine(stages: seq<RawStage>) {
    HoldsUpTo(Fine(stages), |stages|)
  }

  function Fine(stages: seq<RawStage>): nat -> bool {
    (i: nat) => i < |stages| && FineAt(stages, i)
  }

  predicate FineAt(stages: seq<RawStage>, i: nat)
    requires i < |stages|
  {
    IdIsNew(stages, i) && StageFine(stages[i])
  }

  predicate IdIsNew(stages: seq<RawStage>, i: nat)
    requires i < |stages|
  {
    forall j :: 0 <= j < i ==> stages[j].id != stages[i].id
  }

  lemma NewIdsAreUnique(stages: seq<RawStage>)
    ensures (forall i :: 0 <= i < |stages| ==> IdIsNew(stages, i)) <==> UniqueIds(Nodes(stages))
  {
    var nodes := Nodes(stages);
    assert forall i :: 0 <= i < |stages| ==> nodes[i].id == stages[i].id;
    if UniqueIds(nodes) {
      forall i, j | 0 <= j < i < |stages| ensures stages[j].id != stages[i].id {
        assert nodes[j].id != nodes[i].id;
      }
    } else if forall i :: 0 <= i < |stages| ==> IdIsNew(stages, i) {
      forall i, j | 0 <= i < j < |stages| ensures nodes[i].id != nodes[j].id {
        assert IdIsNew(stages, j);
      }
    }
  }

  ghost predicate SeenIds(stages: seq<RawStage>, i: nat, seen: set<string>) {
    i <= |stages| && forall id :: id in seen <==> exists j :: 0 <= j < i && stages[j].id == id
  }

  lemma SeenNext(stages: seq<RawStage>, i: nat, seen: set<string>)
    requires i < |stages| && SeenIds(stages, i, seen)
    ensures SeenIds(stages, i + 1, seen + {stages[i].id})
  {
  }

  /** The i-th stage, when those before it passed and have the seen ids. */
  method CheckNext(
    stages: seq<RawStage>, i: nat, seen: set<string>
  ) returns (problem: Problem, normal: RawStage, ok: bool)
    requires i < |stages| && SeenIds(stages, i, seen)
    ensures ok <==> FineAt(stages, i)
    ensures ok ==> Normalizes(stages[i], normal) && normal.id == stages[i].id
    ensures !ok ==> BlamesStage(problem, stages, i)
  {
    var s := stages[i];
    assert IdIsNew(stages, i) <==> s.id !in seen;
    if s.id in seen {
      return if SafeId(s.id) then DuplicateId(s.id) else UnsafeId(i), s, false;
    }
    problem, normal, ok := CheckStage(s, i);
  }

  method CheckStages(stages: seq<RawStage>) returns (problem: Problem, normal: seq<RawStage>, ok: bool)
    ensures ok <==> StagesFine(stages)
    ensures ok ==> AllNormalize(stages, normal)
    ensures !ok ==> BlamesFirst(problem, stages)
  {
    var seen: set<string> := {};
    problem, normal, ok := NoStages, [], false;
    ghost var fine := Fine(stages);
    for i := 0 to |stages|
      invariant AllNormalize(stages[..i], normal) && SeenIds(stages, i, seen) && HoldsUpTo(fine, i)
    {
      var trouble, norm, passed := CheckNext(stages, i, seen);
      assert fine(i) == passed;
      if !passed {
        problem := trouble;
        if HoldsUpTo(fine, |stages|) {
          HoldsAt(fine, |stages|, i);
        }
        forall j: nat | j < i ensures FineAt(stages, j) {
          HoldsAt(fine, i, j);
          assert fine(j) == FineAt(stages, j);
        }
        return;
      }
      SeenNext(stages, i, seen);
      NormalizeNext(stages, i, normal, norm);
      seen := seen + {stages[i].id};
      normal := normal + [norm];
    }
    assert stages[..|stages|] == stages;
    ok := true;
  }

  lemma NormalizeNext(stages: seq<RawStage>, i: nat, normal: seq<RawStage>, norm: RawStage)
    requires i < |stages| && AllNormalize(stages[..i], normal) && Normalizes(stages[i], norm)
    ensures AllNormalize(stages[..i + 1], normal + [norm])
  {
    assert stages[..i + 1] == stages[..i] + [stages[i]];
  }

  predicate UsesDependsOn(stages: seq<Stage>) {
    exists i :: 0 <= i < |stages| && stages[i].dependsOn != []
  }

  lemma SelfLoop(stages: seq<Stage>, i: nat)
    requires UniqueIds(stages) && i < |stages| && stages[i].id in stages[i].dependsOn
    ensures !Acyclic(GraphOf(stages))
  {
    var loop := [stages[i].id, stages[i].id];
    assert Link(GraphOf(stages), loop, 0);
    assert IsCycle(GraphOf(stages), loop);
  }

  lemma NoDependencies(stages: seq<Stage>)
    requires UniqueIds(stages) && !UsesDependsOn(stages)
    ensures Closed(GraphOf(stages)) && Acyclic(GraphOf(stages))
  {
    var g := GraphOf(stages);
    forall k | k in g ensures g[k] == [] {
      var i :| 0 <= i < |stages| && stages[i].id == k;
    }
    forall p ensures !IsCycle(g, p) {
      if |p| >= 2 {
        assert !Link(g, p, 0);
      }
    }
  }

  /** The dependency graph is looked at only when some stage names a dependency. */
  method CheckGraph(stages: seq<Stage>) returns (verdict: Verdict)
    requires UniqueIds(stages)
    ensures verdict.Accepted? <==> GraphFine(stages)
    ensures !verdict.Accepted? ==> BlamesGraph(verdict, stages)
  {
    if UsesDependsOn(stages) {
      verdict := ValidateDag(stages);
    } else {
      NoDependencies(stages);
      verdict := Accepted;
    }
  }

  method CheckStagesAndGraph(stages: seq<RawStage>) returns (problem: Problem, normal: seq<RawStage>, ok: bool)
    ensures ok <==> StagesWellFormed(stages)
    ensures ok ==> AllNormalize(stages, normal) && StagesWellFormed(normal)
    ensures !ok ==>
      if problem.BadGraph? then BlamesKept(problem.verdict, stages, normal) else BlamesFirst(problem, stages)
  {
    problem, normal, ok := CheckStages(stages);
    if StagesWellFormed(stages) {
      WellFormedAreFine(stages);
    }
    if !ok {
      return;
    }
    FineStages(stages);
    NormalStages(stages, normal);
    FineStages(normal);
    NormalGraph(stages, normal);
    var verdict := CheckGraph(Nodes(normal));
    if !verdict.Accepted? {
      return BadGraph(verdict), normal, false;
    }
  }

  /** The verdict names a dependency that is not there, or stages that wait for one another. */
  ghost predicate BlamesGraph(verdict: Verdict, stages: seq<Stage>)
    requires UniqueIds(stages)
  {
    match verdict
    case Accepted => false
    case UnknownDependency(stage, d) => stage in GraphOf(stages) && d in GraphOf(stages)[stage] && d !in GraphOf(stages)
    case CycleAmong(stuck) => stuck != [] && Stuck(GraphOf(stages), set k | k in stuck)
  }

  /** The stages pass one by one, and the graph of what was kept of them is at fault. */
  ghost predicate BlamesKept(verdict: Verdict, stages: seq<RawStage>, normal: seq<RawStage>) {
    && StagesFine(stages) && AllNormalize(stages, normal)
    && UniqueIds(Nodes(normal)) && BlamesGraph(verdict, Nodes(normal))
  }

  /** Accepts exactly the well-formed manifests, and what it keeps is well-formed too: the
      same stages with policies in their normal form and each dependency named once. */
  method Validate(m: Manifest) returns (checked: Checked)
    ensures checked.Valid? <==> WellFormed(m)
    ensures checked.Valid? ==> WellFormed(checked.manifest) && checked.manifest.onFailure in {"stop", "continue"}
    ensures checked.Valid? ==> AllNormalize(m.stages, checked.manifest.stages)
    ensures checked.Valid? ==>
      checked.manifest.onFailure == if Policy(m.onFailure) == "continue" then "continue" else "stop"
    ensures checked.Invalid? ==>
      match checked.problem
      case BadVersion => m.version != 1
      case NoStages => m.version == 1 && m.stages == []
      case BadPolicy => m.stages != [] && Policy(m.onFailure) !in {"", "stop", "continue"}
      case BadGraph(verdict) => exists normal :: BlamesKept(verdict, m.stages, normal)
      case problem => BlamesFirst(problem, m.stages)
  {
    if m.version != 1 {
      return Invalid(BadVersion);
    }
    if m.stages == [] {
      return Invalid(NoStages);
    }
    var onFailure := Policy(m.onFailure);
    if onFailure == "" {
      onFailure := "stop";
    }
    if onFailure != "stop" && onFailure != "continue" {
      return Invalid(BadPolicy);
    }
    PolicyWords();
    var problem, normal, ok := CheckStagesAndGraph(m.stages);
    checked := if ok then Valid(Manifest(1, onFailure, normal)) else Invalid(problem);
  }

  lemma PolicyWord(word: string)
    requires word != "" && forall i :: 0 <= i < |word| ==> 'a' <= word[i] <= 'z'
    ensures Policy(word) == word
  {
    assert 'a' <= word[0] <= 'z' && 'a' <= word[|word| - 1] <= 'z';
    assert TrimSpace(word) == word;
  }

  /** Understanding a policy word again changes nothing. */
  lemma PolicyWords()
    ensures Policy("") == "" && Policy("stop") == "stop" && Policy("continue") == "continue"
  {
    PolicyWord("stop");
    PolicyWord("continue");
    assert Lower("") == "";
  }

  /** A dependency on oneself is a cycle, so well-formed stages pass one by one. */
  lemma WellFormedAreFine(stages: seq<RawStage>)
    requires StagesWellFormed(stages)
    ensures StagesFine(stages)
  {
    NewIdsAreUnique(stages);
    forall i | 0 <= i < |stages| ensures FineAt(stages, i) {
      assert IdIsNew(stages, i) && StageOk(stages[i]);
      if stages[i].id in TrimAll(stages[i].dependsOn) {
        SelfLoop(Nodes(stages), i);
      }
    }
    HoldForAll(Fine(stages), |stages|);
  }

  lemma FineStages(stages: seq<RawStage>)
    requires StagesFine(stages)
    ensures UniqueIds(Nodes(stages)) && forall i :: 0 <= i < |stages| ==> StageOk(stages[i])
  {
    forall i: nat | i < |stages| ensures IdIsNew(stages, i) && StageOk(stages[i]) {
      HoldsAt(Fine(stages), |stages|, i);
      assert FineAt(stages, i);
    }
    NewIdsAreUnique(stages);
  }

  lemma NormalStages(raw: seq<RawStage>, normal: seq<RawStage>)
    requires StagesFine(raw) && AllNormalize(raw, normal)
    ensures StagesFine(normal)
  {
    PolicyWords();
    forall i: nat | i < |raw| ensures FineAt(normal, i) {
      HoldsAt(Fine(raw), |raw|, i);
      assert FineAt(raw, i) && Normalizes(raw[i], normal[i]);
      assert forall j :: 0 <= j < i ==> Normalizes(raw[j], normal[j]);
    }
    HoldForAll(Fine(normal), |normal|);
  }

  lemma NormalAt(raw: seq<RawStage>, normal: seq<RawStage>, k: string)
    requires AllNormalize(raw, normal) && UniqueIds(Nodes(raw)) && UniqueIds(Nodes(normal))
    ensures k in GraphOf(Nodes(raw)) <==> k in GraphOf(Nodes(normal))
    ensures k in GraphOf(Nodes(raw)) ==> SameSet(GraphOf(Nodes(raw))[k], GraphOf(Nodes(normal))[k])
  {
    if k in GraphOf(Nodes(raw)) {
      var i := ListedAs(Nodes(raw), k);
      assert Normalizes(raw[i], normal[i]);
      assert GraphOf(Nodes(normal))[Nodes(normal)[i].id] == Nodes(normal)[i].dependsOn == normal[i].dependsOn;
    }
    if k in GraphOf(Nodes(normal)) {
      var i := ListedAs(Nodes(normal), k);
      assert Normalizes(raw[i], normal[i]) && Nodes(raw)[i].id == k;
    }
  }

  /** Dropping repeats keeps the graph closed and acyclic, or not, as it was. */
  lemma NormalGraph(raw: seq<RawStage>, normal: seq<RawStage>)
    requires AllNormalize(raw, normal) && UniqueIds(Nodes(raw)) && UniqueIds(Nodes(normal))
    ensures GraphFine(Nodes(raw)) <==> GraphFine(Nodes(normal))
  {
    var g, h := GraphOf(Nodes(raw)), GraphOf(Nodes(normal));
    forall k | k in g ensures k in h && SameSet(g[k], h[k]) {
      NormalAt(raw, normal, k);
    }
    forall k | k in h ensures k in g {
      NormalAt(raw, normal, k);
    }
    assert g.Keys == h.Keys;
    SameShape(g, h);
  }

  /** The override of a stage, or the batch's default. */
  function EffectiveOnFailure(m: Manifest, s: RawStage): string {
    if s.onFailure != "" then s.onFailure else if m.onFailure != "" then m.onFailure else "stop"
  }

  /** In an accepted manifest a stage continues exactly when its own word says so, or it has
      none and the default does; a blank override counts as a word, and stops. */
  lemma ContinuesWhen(m: Manifest, kept: Manifest, i: nat)
    requires WellFormed(m) && i < |m.stages| == |kept.stages| && Normalizes(m.stages[i], kept.stages[i])
    requires kept.onFailure == (if Policy(m.onFailure) == "" then "stop" else Policy(m.onFailure))
    ensures
      var s := m.stages[i];
      EffectiveOnFailure(kept, kept.stages[i]) == "continue" <==>
        Policy(s.onFailure) == "continue" || (s.onFailure == "" && Policy(m.onFailure) == "continue")
  {
    PolicyWords();
  }

  lemma SameShape(g: Graph, h: Graph)
    requires g.Keys == h.Keys && forall k :: k in g ==> SameSet(g[k], h[k])
    ensures Closed(g) <==> Closed(h)
    ensures Acyclic(g) <==> Acyclic(h)
  {
    forall p ensures IsCycle(g, p) <==> IsCycle(h, p) {
      forall i: nat | i + 1 < |p| ensures Link(g, p, i) <==> Link(h, p, i) {
      }
    }
  }
}
