/** The template check and the runtime step chain: what the check accepts, and what a row
    can run into when its chain is executed or resumed. */
module StepChain {
  import opened Options
  import opened Rendering
  import opened RenderMeaning
  import opened Destinations

  datatype Step = Step(
    name: string,
    payload: Option<seq<Field>>,
    destination: Endpoint,
    lookup: Option<Endpoint>,
    rest: Json,
    onFailure: string)
  {
    predicate ContinuesOnFailure() {
      onFailure == "continue"
    }
  }

  // ----- the template check -------------------------------------------------------------------

  /** The destination as the check serializes it; `rest` is everything never rendered. */
  function DestinationJson(step: Step): Json {
    Obj([Field("request", AsJson(step.destination)), Field("rest", step.rest)]
        + if step.lookup.Some? then [Field("lookup", AsJson(step.lookup.value))] else [])
  }

  predicate StepMentions(step: Step, r: string) {
    (step.payload.Some? && Mentions(Obj(step.payload.value), r)) || Mentions(DestinationJson(step), r)
  }

  ghost predicate RefersBack(steps: seq<Step>, i: nat)
    requires i < |steps|
  {
    forall r :: StepMentions(steps[i], r) ==> exists j :: 0 <= j < i && steps[j].name == r
  }

  predicate NewName(steps: seq<Step>, i: nat)
    requires i < |steps|
  {
    forall j :: 0 <= j < i ==> steps[j].name != steps[i].name
  }

  /** Names are unique and every reference is to a strictly earlier step. */
  ghost predicate WellReferenced(steps: seq<Step>) {
    forall i :: 0 <= i < |steps| ==> NewName(steps, i) && RefersBack(steps, i)
  }

  datatype Problem = Valid | DuplicateName(name: string) | NotEarlier(step: string, ref: string)

  /** validate_step_references accepts exactly the well-referenced templates, and names a
      real culprit otherwise. */
  method ValidateStepReferences(steps: seq<Step>) returns (p: Problem)
    ensures p == Valid <==> WellReferenced(steps)
    ensures p.DuplicateName? ==> exists i, j :: 0 <= j < i < |steps| && steps[i].name == steps[j].name == p.name
    ensures
      p.NotEarlier? ==>
        exists i :: 0 <= i < |steps| && steps[i].name == p.step && StepMentions(steps[i], p.ref) &&
          forall j :: 0 <= j < i ==> steps[j].name != p.ref
  {
    var seen: seq<string> := [];
    for i := 0 to |steps|
      invariant |seen| == i && forall j :: 0 <= j < i ==> seen[j] == steps[j].name
      invariant forall j :: 0 <= j < i ==> NewName(steps, j) && RefersBack(steps, j)
    {
      var step := steps[i];
      if step.name in seen {
        assert !NewName(steps, i);
        return DuplicateName(step.name);
      }
      var refs := [];
      if step.payload.Some? {
        refs := CollectResponseRefs(Obj(step.payload.value), refs);
      }
      refs := CollectResponseRefs(DestinationJson(step), refs);
      for k := 0 to |refs|
        invariant forall m :: 0 <= m < k ==> refs[m] in seen
      {
        if refs[k] !in seen {
          assert refs[k] in refs && StepMentions(step, refs[k]);
          assert forall j :: 0 <= j < i ==> seen[j] != refs[k];
          assert !RefersBack(steps, i);
          return NotEarlier(step.name, refs[k]);
        }
      }
      assert forall r :: StepMentions(step, r) ==> r in refs && r in seen;
      seen := seen + [step.name];
    }
    p := Valid;
  }

  // ----- the chain ---------------------------------------------------------------------------

  /** How the call of a step ends, and whether recording it worked. */
  datatype CallReply = Accepted(body: string) | Rejected(body: string) | Unknown

  /** What a call is given to send: payload, request and the lookup its delivery asks for. */
  datatype Outgoing = Outgoing(payload: Json, hasBody: bool, request: Rendered, lookup: Option<Rendered>)

  datatype World = World(
    call: (nat, Outgoing) -> CallReply,
    script: (nat, Json) -> Option<Json>,
    stepRecorded: nat -> bool,
    rowRecorded: bool
  )

  /** What the chain did with one step. */
  datatype Visit =
    | Resumed(body: string)
    | RenderFailed(error: Error)
    | CallFailed(sent: Outgoing)
    | CallUnresolved(sent: Outgoing)
    | CallSucceeded(sent: Outgoing, body: string)

  predicate FailedVisit(v: Visit) {
    v.RenderFailed? || v.CallFailed?
  }

  datatype RowStatus = RowSucceeded | RowFailed | RowUnresolved

  predicate Answered(v: Visit) {
    v.Resumed? || v.CallSucceeded?
  }

  /** The responses in the context once the visited steps are done. */
  function Known(steps: seq<Step>, trace: seq<Visit>, lib: Libraries): map<string, Json>
    requires |trace| <= |steps|
    decreases |trace|
  {
    if trace == [] then map[]
    else
      var n := |trace| - 1;
      var before := Known(steps, trace[..n], lib);
      if Answered(trace[n]) then before[steps[n].name := ParsedBody(trace[n].body, lib)] else before
  }

  /** The chain goes on past this visit. */
  predicate GoesOn(step: Step, v: Visit) {
    Answered(v) || (FailedVisit(v) && step.ContinuesOnFailure())
  }

  predicate ContainsPy(v: Json) {
    match v
    case Obj(fields) => Get(fields, "$py").Some? || exists i :: 0 <= i < |fields| && ContainsPy(fields[i].value)
    case Arr(items) => exists i :: 0 <= i < |items| && ContainsPy(items[i])
    case _ => false
  }

  predicate PayloadRenders(step: Step, k: nat, s: Scope, w: World) {
    step.payload.Some? ==>
      var partial := RenderFields(step.payload.value, s.row, s.responses, s.lib);
      partial.Ok? && (ContainsPy(Obj(partial.value)) ==> w.script(k, Obj(partial.value)).Some?)
  }

  /** Payload, request and lookup can all be rendered. */
  predicate StepRenders(step: Step, k: nat, s: Scope, w: World) {
    && PayloadRenders(step, k, s, w)
    && Renders(step.destination, s)
    && (step.lookup.Some? ==> Renders(step.lookup.value, s))
  }

  /** Somewhere in the value, an object has a `$py` entry. */
  ghost predicate HasScript(v: Json) {
    exists inner ::
      && Within(inner, v) && inner.Obj?
      && exists i :: 0 <= i < |inner.fields| && inner.fields[i].key == "$py"
  }

  /** The value itself, or one of its parts. */
  ghost predicate Within(inner: Json, v: Json)
    decreases v
  {
    || inner == v
    || (v.Obj? && exists i :: 0 <= i < |v.fields| && Within(inner, v.fields[i].value))
    || (v.Arr? && exists i :: 0 <= i < |v.items| && Within(inner, v.items[i]))
  }

  lemma {:induction false} ContainsPyMeans(v: Json)
    ensures ContainsPy(v) <==> HasScript(v)
    decreases v
  {
    match v
    case Obj(fields) =>
      GetIsFirst(fields, "$py");
      assert Within(v, v);
      forall i | 0 <= i < |fields| ensures ContainsPy(fields[i].value) <==> HasScript(fields[i].value) {
        ContainsPyMeans(fields[i].value);
      }
      forall i, inner | 0 <= i < |fields| && Within(inner, fields[i].value) ensures Within(inner, v) {
      }
    case Arr(items) =>
      forall i | 0 <= i < |items| ensures ContainsPy(items[i]) <==> HasScript(items[i]) {
        ContainsPyMeans(items[i]);
      }
      forall i, inner | 0 <= i < |items| && Within(inner, items[i]) ensures Within(inner, v) {
      }
    case _ =>
  }

  /** The payload a step sends: its mapping rendered place by place, then, where expressions
      for the script are left, what the script makes of it. */
  ghost predicate PayloadIs(step: Step, k: nat, s: Scope, w: World, out: Json) {
    match step.payload
    case None => out == Obj([])
    case Some(fields) =>
      exists partial :: FieldsRenderAs(fields, s.row, s.responses, s.lib, partial) &&
        if HasScript(Obj(partial)) then w.script(k, Obj(partial)) == Some(out) else out == Obj(partial)
  }

  /** What is sent is what was rendered. */
  ghost predicate Sends(step: Step, k: nat, s: Scope, w: World, sent: Outgoing) {
    && PayloadIs(step, k, s, w, sent.payload) && sent.hasBody == step.payload.Some?
    && RendersTo(step.destination, s, sent.request)
    && (sent.lookup.Some? <==> step.lookup.Some?)
    && (step.lookup.Some? ==> RendersTo(step.lookup.value, s, sent.lookup.value))
  }

  /** Executing a step renders it, or fails before calling; then it ends as its call does. */
  ghost predicate ExecutedFits(step: Step, k: nat, v: Visit, s: Scope, w: World) {
    && (v.RenderFailed? <==> !StepRenders(step, k, s, w))
    && match v
       case Resumed(_) => false
       case RenderFailed(e) => e.NotExecuted? ==> StepMentions(step, e.step) && e.step !in s.responses
       case CallFailed(sent) => Sends(step, k, s, w, sent) && w.call(k, sent).Rejected?
       case CallUnresolved(sent) => Sends(step, k, s, w, sent) && w.call(k, sent).Unknown?
       case CallSucceeded(sent, body) => Sends(step, k, s, w, sent) && w.call(k, sent) == Accepted(body)
  }

  /** One visit is what the step, its persisted response and the world make of it. */
  ghost predicate VisitFits(
    steps: seq<Step>, row: map<string, Json>, trace: seq<Visit>, k: nat, resume: Option<map<string, string>>,
    w: World, lib: Libraries
  )
    requires k < |trace| <= |steps|
  {
    var known := Known(steps, trace[..k], lib);
    var name := steps[k].name;
    if resume.Some? && name in resume.value then trace[k] == Resumed(resume.value[name])
    else ExecutedFits(steps[k], k, trace[k], Scope(row, known, lib), w)
  }

  ghost predicate Fits(
    steps: seq<Step>, row: map<string, Json>, trace: seq<Visit>, resume: Option<map<string, string>>, w: World,
    lib: Libraries
  )
    requires |trace| <= |steps|
  {
    && (forall k :: 0 <= k < |trace| ==> VisitFits(steps, row, trace, k, resume, w, lib))
    && (trace != [] ==> AllGoOn(steps, trace[..|trace| - 1]))
  }

  predicate AllGoOn(steps: seq<Step>, trace: seq<Visit>)
    requires |trace| <= |steps|
  {
    forall k :: 0 <= k < |trace| ==> GoesOn(steps[k], trace[k])
  }

  /** The chain was carried as far as it goes. */
  predicate Complete(steps: seq<Step>, trace: seq<Visit>)
    requires |trace| <= |steps|
  {
    |trace| == |steps| || (trace != [] && !GoesOn(steps[|trace| - 1], trace[|trace| - 1]))
  }

  predicate AnyFailed(trace: seq<Visit>) {
    exists k :: 0 <= k < |trace| && FailedVisit(trace[k])
  }

  function StatusOf(trace: seq<Visit>): RowStatus {
    if exists k :: 0 <= k < |trace| && trace[k].CallUnresolved? then RowUnresolved
    else if AnyFailed(trace) then RowFailed
    else RowSucceeded
  }

  method RenderStepPayload(step: Step, k: nat, s: Scope, w: World) returns (r: Result<Json>)
    ensures r.Ok? <==> PayloadRenders(step, k, s, w)
    ensures r.Ok? ==> PayloadIs(step, k, s, w, r.value)
    ensures r.Err? ==> forall out :: !PayloadIs(step, k, s, w, out)
    ensures r.Excused(m => StepMentions(step, m), s.responses)
  {
    if step.payload.None? {
      return Ok(Obj([]));
    }
    var partial := RenderFields(step.payload.value, s.row, s.responses, s.lib);
    forall out ensures partial == Ok(out) <==> FieldsRenderAs(step.payload.value, s.row, s.responses, s.lib, out) {
      FieldsMean(step.payload.value, s.row, s.responses, s.lib, out);
    }
    if partial.Ok? {
      ContainsPyMeans(Obj(partial.value));
    }
    if partial.Err? {
      FieldsFromMentions(step.payload.value, s.row, s.responses, s.responses, s.lib);
      return Err(partial.error);
    }
    if !ContainsPy(Obj(partial.value)) {
      return Ok(Obj(partial.value));
    }
    var out := w.script(k, Obj(partial.value));
    r := if out.Some? then Ok(out.value) else Err(ScriptFailed);
  }

  /** What the runtime renders is part of what the check serialized. */
  lemma RequestIsChecked(step: Step, m: string)
    ensures Mentions(AsJson(step.destination), m) ==> StepMentions(step, m)
    ensures step.lookup.Some? && Mentions(AsJson(step.lookup.value), m) ==> StepMentions(step, m)
  {
    var fields := DestinationJson(step).fields;
    assert fields[0].value == AsJson(step.destination);
    assert step.lookup.Some? ==> fields[2].value == AsJson(step.lookup.value);
  }

  predicate ProperStep(step: Step) {
    Proper(step.destination) && (step.lookup.Some? ==> Proper(step.lookup.value))
  }

  /** Renders and fires one step; `ok` says its outcome was recorded. */
  method ExecuteStep(
    step: Step, k: nat, multiStep: bool, ctx: Context, w: World, lib: Libraries
  ) returns (visit: Visit, ok: bool)
    requires ProperStep(step)
    modifies ctx
    ensures ok == (!multiStep || w.stepRecorded(k))
    ensures
      ok ==>
        ctx.responses ==
          if visit.CallSucceeded? then old(ctx.responses)[step.name := ParsedBody(visit.body, lib)]
          else old(ctx.responses)
    ensures ExecutedFits(step, k, visit, Scope(ctx.row, old(ctx.responses), lib), w)
  {
    ok := !multiStep || w.stepRecorded(k);
    var scope := Scope(ctx.row, ctx.responses, lib);
    var payload := RenderStepPayload(step, k, scope, w);
    if payload.Err? {
      return RenderFailed(payload.error), ok;
    }
    var request := RenderDestination(step.destination, scope);
    if request.Err? {
      RequestIsChecked(step, if request.error.NotExecuted? then request.error.step else "");
      return RenderFailed(request.error), ok;
    }
    var sent := Outgoing(payload.value, step.payload.Some?, request.value, None);
    if step.lookup.Some? {
      var lookup := RenderDestination(step.lookup.value, scope);
      if lookup.Err? {
        RequestIsChecked(step, if lookup.error.NotExecuted? then lookup.error.step else "");
        return RenderFailed(lookup.error), ok;
      }
      sent := sent.(lookup := Some(lookup.value));
    }
    var reply := w.call(k, sent);
    if reply.Unknown? {
      return CallUnresolved(sent), ok;
    }
    if reply.Rejected? {
      return CallFailed(sent), ok;
    }
    if ok {
      ctx.AddResponse(step.name, reply.body, lib);
    }
    visit := CallSucceeded(sent, reply.body);
  }

  /** What visiting the step after a trace may come to. */
  ghost predicate VisitsNext(
    steps: seq<Step>, row: map<string, Json>, trace: seq<Visit>, v: Visit, resume: Option<map<string, string>>,
    w: World, lib: Libraries
  )
    requires |trace| < |steps|
  {
    var step := steps[|trace|];
    if resume.Some? && step.name in resume.value then v == Resumed(resume.value[step.name])
    else ExecutedFits(step, |trace|, v, Scope(row, Known(steps, trace, lib), lib), w)
  }

  lemma KnownNext(steps: seq<Step>, trace: seq<Visit>, v: Visit, lib: Libraries)
    requires |trace| < |steps|
    ensures
      Known(steps, trace + [v], lib) ==
        if Answered(v) then Known(steps, trace, lib)[steps[|trace|].name := ParsedBody(v.body, lib)]
        else Known(steps, trace, lib)
  {
    assert (trace + [v])[..|trace|] == trace;
  }

  /** Extending a trace by the next step's visit. */
  lemma VisitNext(
    steps: seq<Step>, row: map<string, Json>, trace: seq<Visit>, v: Visit, resume: Option<map<string, string>>,
    w: World, lib: Libraries
  )
    requires |trace| < |steps| && Fits(steps, row, trace, resume, w, lib) && AllGoOn(steps, trace)
    requires VisitsNext(steps, row, trace, v, resume, w, lib)
    ensures Fits(steps, row, trace + [v], resume, w, lib)
    ensures if GoesOn(steps[|trace|], v) then AllGoOn(steps, trace + [v]) else Complete(steps, trace + [v])
  {
    var longer := trace + [v];
    assert longer[..|longer| - 1] == trace && longer[|trace|] == v;
    forall k | 0 <= k < |longer| ensures VisitFits(steps, row, longer, k, resume, w, lib) {
      if k < |trace| {
        assert longer[..k] == trace[..k] && longer[k] == trace[k];
        assert VisitFits(steps, row, trace, k, resume, w, lib);
      } else {
        LastFits(steps, row, trace, v, resume, w, lib);
      }
    }
    assert forall k :: 0 <= k < |trace| ==> longer[k] == trace[k] && GoesOn(steps[k], trace[k]);
  }

  lemma LastFits(
    steps: seq<Step>, row: map<string, Json>, trace: seq<Visit>, v: Visit, resume: Option<map<string, string>>,
    w: World, lib: Libraries
  )
    requires |trace| < |steps| && VisitsNext(steps, row, trace, v, resume, w, lib)
    ensures VisitFits(steps, row, trace + [v], |trace|, resume, w, lib)
  {
    assert (trace + [v])[..|trace|] == trace && (trace + [v])[|trace|] == v;
  }

  lemma AnyFailedNext(trace: seq<Visit>, v: Visit)
    ensures AnyFailed(trace + [v]) <==> AnyFailed(trace) || FailedVisit(v)
  {
    var longer := trace + [v];
    assert longer[|trace|] == v && forall k :: 0 <= k < |trace| ==> longer[k] == trace[k];
    if AnyFailed(trace) {
      var k :| 0 <= k < |trace| && FailedVisit(trace[k]);
      assert FailedVisit(longer[k]);
    }
  }

  /** The outcome of a visit is stored, or needs no storing of its own: chains of one step are
      stored with the row, and resumed steps already are. */
  predicate Stored(steps: seq<Step>, v: Visit, k: nat, w: World) {
    v.Resumed? || |steps| <= 1 || w.stepRecorded(k)
  }

  /** One step of the chain: taken from the persisted responses, or executed. */
  method VisitStep(
    steps: seq<Step>, ghost trace: seq<Visit>, i: nat, resume: Option<map<string, string>>, ctx: Context, w: World,
    lib: Libraries
  )
    returns (visit: Visit, ok: bool)
    requires i == |trace| < |steps| && ProperStep(steps[i]) && ctx.responses == Known(steps, trace, lib)
    modifies ctx
    ensures VisitsNext(steps, ctx.row, trace, visit, resume, w, lib)
    ensures ok == Stored(steps, visit, i, w)
    ensures ok ==> ctx.responses == Known(steps, trace + [visit], lib)
  {
    var step := steps[i];
    if resume.Some? && step.name in resume.value {
      visit, ok := Resumed(resume.value[step.name]), true;
      ctx.AddResponse(step.name, visit.body, lib);
    } else {
      visit, ok := ExecuteStep(step, i, |steps| > 1, ctx, w, lib);
    }
    KnownNext(steps, trace, visit, lib);
  }

  /** The chain so far fits and goes on. */
  ghost predicate Going(
    steps: seq<Step>, row: map<string, Json>, trace: seq<Visit>, resume: Option<map<string, string>>, w: World,
    lib: Libraries
  )
    requires |trace| <= |steps|
  {
    Fits(steps, row, trace, resume, w, lib) && AllGoOn(steps, trace)
  }

  lemma StatusNext(trace: seq<Visit>, v: Visit)
    requires forall k :: 0 <= k < |trace| ==> !trace[k].CallUnresolved?
    ensures
      StatusOf(trace + [v]) ==
        if v.CallUnresolved? then RowUnresolved else if FailedVisit(v) then RowFailed else StatusOf(trace)
  {
    AnyFailedNext(trace, v);
    assert (trace + [v])[|trace|] == v;
  }

  /** Every outcome so far is stored. */
  predicate AllStored(steps: seq<Step>, trace: seq<Visit>, w: World) {
    forall k :: 0 <= k < |trace| ==> Stored(steps, trace[k], k, w)
  }

  /** Between two steps of a chain. */
  ghost predicate Underway(
    steps: seq<Step>, row: map<string, Json>, trace: seq<Visit>, resume: Option<map<string, string>>, w: World,
    lib: Libraries, responses: map<string, Json>, anyFailed: bool
  ) {
    && |trace| <= |steps| && Going(steps, row, trace, resume, w, lib)
    && responses == Known(steps, trace, lib)
    && StatusOf(trace) == (if anyFailed then RowFailed else RowSucceeded) && AllStored(steps, trace, w)
  }

  /** Where a chain ends, and as what. */
  ghost predicate Ended(
    steps: seq<Step>, row: map<string, Json>, trace: seq<Visit>, resume: Option<map<string, string>>, w: World,
    lib: Libraries, end: RowStatus
  ) {
    && |trace| <= |steps| && Fits(steps, row, trace, resume, w, lib) && Complete(steps, trace)
    && StatusOf(trace) == end && AllStored(steps, trace, w)
  }

  /** Visits the next step and extends the trace by what came of it. */
  method TakeStep(
    steps: seq<Step>, trace: seq<Visit>, resume: Option<map<string, string>>, ctx: Context, w: World, lib: Libraries,
    ghost anyFailed: bool
  )
    returns (longer: seq<Visit>, visit: Visit, ok: bool)
    requires |trace| < |steps| && ProperStep(steps[|trace|])
    requires Underway(steps, ctx.row, trace, resume, w, lib, ctx.responses, anyFailed)
    modifies ctx
    ensures longer == trace + [visit] && ok == Stored(steps, visit, |trace|, w)
    ensures Fits(steps, ctx.row, longer, resume, w, lib)
    ensures ok && GoesOn(steps[|trace|], visit) ==>
      Underway(steps, ctx.row, longer, resume, w, lib, ctx.responses, anyFailed || FailedVisit(visit))
    ensures ok && !GoesOn(steps[|trace|], visit) ==>
      Ended(steps, ctx.row, longer, resume, w, lib, if visit.CallUnresolved? then RowUnresolved else RowFailed)
  {
    visit, ok := VisitStep(steps, trace, |trace|, resume, ctx, w, lib);
    longer := trace + [visit];
    VisitNext(steps, ctx.row, trace, visit, resume, w, lib);
    assert forall k :: 0 <= k < |trace| ==> GoesOn(steps[k], trace[k]);
    StatusNext(trace, visit);
    assert forall k :: 0 <= k < |trace| ==> longer[k] == trace[k];
  }

  /** One row's chain, first run or resumed retry. A step whose response was persisted is
      never called again; the chain ends at the first failure that stops it, or at the end;
      an unrecorded outcome ends the row with an error. */
  method ProcessOneRow(
    steps: seq<Step>, row: map<string, Json>, resume: Option<map<string, string>>, w: World, lib: Libraries
  )
    returns (trace: seq<Visit>, status: Option<RowStatus>)
    requires forall k :: 0 <= k < |steps| ==> ProperStep(steps[k])
    ensures |trace| <= |steps| && Fits(steps, row, trace, resume, w, lib)
    ensures status.Some? ==> Complete(steps, trace) && status.value == StatusOf(trace) && w.rowRecorded
    // It ends without a status exactly when the last step's outcome, or the row's, is not stored.
    ensures status.Some? ==> AllStored(steps, trace, w)
    ensures status.None? ==>
      (trace != [] && !Stored(steps, trace[|trace| - 1], |trace| - 1, w)) || (Complete(steps, trace) && !w.rowRecorded)
  {
    var ctx := new Context(row);
    var end;
    trace, end := RunChain(steps, resume, ctx, w, lib);
    if end.None? || !w.rowRecorded {
      return trace, None;
    }
    status := end;
  }

  /** The steps one after the other, as far as the chain goes; None when an outcome could not
      be stored. */
  method RunChain(
    steps: seq<Step>, resume: Option<map<string, string>>, ctx: Context, w: World, lib: Libraries
  )
    returns (trace: seq<Visit>, end: Option<RowStatus>)
    requires ctx.responses == map[] && forall k :: 0 <= k < |steps| ==> ProperStep(steps[k])
    modifies ctx
    ensures |trace| <= |steps| && Fits(steps, ctx.row, trace, resume, w, lib)
    ensures end.Some? ==> Ended(steps, ctx.row, trace, resume, w, lib, end.value)
    ensures end.None? ==> trace != [] && !Stored(steps, trace[|trace| - 1], |trace| - 1, w)
  {
    var anyFailed := false;
    trace := [];
    while |trace| < |steps|
      invariant Underway(steps, ctx.row, trace, resume, w, lib, ctx.responses, anyFailed)
      decreases |steps| - |trace|
    {
      var step := steps[|trace|];
      var last, ok;
      trace, last, ok := TakeStep(steps, trace, resume, ctx, w, lib, anyFailed);
      if !ok {
        return trace, None;
      }
      if last.CallUnresolved? {
        return trace, Some(RowUnresolved);
      }
      if FailedVisit(last) {
        anyFailed := true;
        if !step.ContinuesOnFailure() {
          return trace, Some(RowFailed);
        }
      }
    }
    end := Some(if anyFailed then RowFailed else RowSucceeded);
  }

  // ----- soundness of the check ----------------------------------------------------------------

  /** The context holds exactly the steps that were answered. */
  lemma {:induction false} KnownExactly(steps: seq<Step>, trace: seq<Visit>, lib: Libraries, r: string)
    requires |trace| <= |steps|
    ensures r in Known(steps, trace, lib) <==> exists j :: 0 <= j < |trace| && steps[j].name == r && Answered(trace[j])
    decreases |trace|
  {
    if trace != [] {
      var front := trace[..|trace| - 1];
      KnownExactly(steps, front, lib, r);
      assert forall j :: 0 <= j < |front| ==> front[j] == trace[j];
      if r in Known(steps, front, lib) {
        var j :| 0 <= j < |front| && steps[j].name == r && Answered(front[j]);
        assert Answered(trace[j]);
      }
    }
  }

  /** At any step reached, the earlier steps missing from the context are exactly those that
      failed in this very run, and each of them has policy `continue`. */
  lemma MissingExactly(
    steps: seq<Step>, row: map<string, Json>, trace: seq<Visit>, resume: Option<map<string, string>>, w: World,
    lib: Libraries, k: nat, j: nat
  )
    requires WellReferenced(steps) && j < k < |trace| <= |steps| && Fits(steps, row, trace, resume, w, lib)
    ensures steps[j].name !in Known(steps, trace[..k], lib) <==> FailedVisit(trace[j])
    ensures FailedVisit(trace[j]) ==> steps[j].ContinuesOnFailure() && (resume.Some? ==> steps[j].name !in resume.value)
  {
    KnownExactly(steps, trace[..k], lib, steps[j].name);
    assert VisitFits(steps, row, trace, j, resume, w, lib) && trace[..|trace| - 1][j] == trace[j];
    assert GoesOn(steps[j], trace[j]);
    assert trace[..k][j] == trace[j];
    forall m | 0 <= m < k && steps[m].name == steps[j].name ensures m == j {
      assert NewName(steps, m) && NewName(steps, j);
    }
  }

  /** In a template the check accepts, whatever the outcomes and wherever a retry resumes:
      rendering a step that is reached can miss only the response of an earlier `continue`
      step that failed in this run, never that of a `stop` step. */
  lemma AcceptedNeverMissesStop(
    steps: seq<Step>, row: map<string, Json>, trace: seq<Visit>, resume: Option<map<string, string>>, w: World,
    lib: Libraries, k: nat
  )
    requires WellReferenced(steps) && k < |trace| <= |steps| && Fits(steps, row, trace, resume, w, lib)
    requires trace[k].RenderFailed? && trace[k].error.NotExecuted?
    ensures
      exists j :: 0 <= j < k &&
        steps[j].name == trace[k].error.step && steps[j].ContinuesOnFailure() && FailedVisit(trace[j])
  {
    var r := trace[k].error.step;
    assert VisitFits(steps, row, trace, k, resume, w, lib) && RefersBack(steps, k);
    var j :| 0 <= j < k && steps[j].name == r;
    MissingExactly(steps, row, trace, resume, w, lib, k, j);
  }

  /** When both runs have the same responses for what a step mentions, its payload, its
      request and its lookup render alike, so a retry meets the stored operation with the
      same payload and sends, if it does, the same request. */
  lemma RetryRendersAlike(
    step: Step, row: map<string, Json>, first: map<string, Json>, retry: map<string, Json>, lib: Libraries
  )
    requires forall r :: StepMentions(step, r) ==> (r in first <==> r in retry) && (r in first ==> first[r] == retry[r])
    ensures step.payload.Some? ==>
      RenderFields(step.payload.value, row, first, lib) == RenderFields(step.payload.value, row, retry, lib)
    ensures SameRequest(step.destination, Scope(row, first, lib), Scope(row, retry, lib))
    ensures step.lookup.Some? ==> SameRequest(step.lookup.value, Scope(row, first, lib), Scope(row, retry, lib))
  {
    if step.payload.Some? {
      PayloadRendersAlike(step, row, first, retry, lib);
    }
    forall r ensures Mentions(AsJson(step.destination), r) ==> StepMentions(step, r) {
      RequestIsChecked(step, r);
    }
    RequestFromMentions(step.destination, Scope(row, first, lib), Scope(row, retry, lib));
    if step.lookup.Some? {
      forall r ensures Mentions(AsJson(step.lookup.value), r) ==> StepMentions(step, r) {
        RequestIsChecked(step, r);
      }
      RequestFromMentions(step.lookup.value, Scope(row, first, lib), Scope(row, retry, lib));
    }
  }

  /** So a retry sends exactly what the first run sent, as far as the script answers alike. */
  lemma RetrySendsAlike(
    step: Step, k: nat, row: map<string, Json>, first: map<string, Json>, retry: map<string, Json>, w: World,
    lib: Libraries, sent: Outgoing
  )
    requires forall r :: StepMentions(step, r) ==> (r in first <==> r in retry) && (r in first ==> first[r] == retry[r])
    ensures Sends(step, k, Scope(row, first, lib), w, sent) <==> Sends(step, k, Scope(row, retry, lib), w, sent)
  {
    RetryRendersAlike(step, row, first, retry, lib);
    if step.payload.Some? {
      var fields := step.payload.value;
      forall out
        ensures FieldsRenderAs(fields, row, first, lib, out) <==> FieldsRenderAs(fields, row, retry, lib, out)
      {
        FieldsMean(fields, row, first, lib, out);
        FieldsMean(fields, row, retry, lib, out);
      }
    }
  }

  /** Both scopes give a request or neither does, and the same one. */
  ghost predicate SameRequest(d: Endpoint, s: Scope, t: Scope) {
    (Renders(d, s) <==> Renders(d, t)) && forall r :: RendersTo(d, s, r) <==> RendersTo(d, t, r)
  }

  lemma PayloadRendersAlike(
    step: Step, row: map<string, Json>, first: map<string, Json>, retry: map<string, Json>, lib: Libraries
  )
    requires step.payload.Some?
    requires forall r :: StepMentions(step, r) ==> (r in first <==> r in retry) && (r in first ==> first[r] == retry[r])
    ensures RenderFields(step.payload.value, row, first, lib) == RenderFields(step.payload.value, row, retry, lib)
  {
    var fields := step.payload.value;
    forall i | 0 <= i < |fields| ensures Agree(fields[i].value, first, retry) {
      forall r | Mentions(fields[i].value, r)
        ensures (r in first <==> r in retry) && (r in first ==> first[r] == retry[r])
      {
        assert StepMentions(step, r);
      }
    }
    FieldsFromMentions(fields, row, first, retry, lib);
  }

  const IDLE := Endpoint("", [], [], [])

  lemma IdleMentionsNothing(step: Step)
    requires step.destination == IDLE && step.lookup.None? && step.rest == Null
    ensures forall r :: !Mentions(DestinationJson(step), r)
  {
    forall r ensures !Mentions(DestinationJson(step), r) {
      var fields := DestinationJson(step).fields;
      assert |fields| == 2 && fields[0].value == AsJson(IDLE) && fields[1].value == Null;
      var inner := AsJson(IDLE).fields;
      assert forall i :: 0 <= i < |inner| ==> inner[i].value == Obj([]);
      assert !Mentions(Obj([]), r);
      GetAt(inner, "$fromResponse");
      GetAt(fields, "$fromResponse");
    }
  }

  lemma MentionsOnly(f: Field, step: string)
    requires f.key != "$fromResponse" && f.value == Obj([Field("$fromResponse", Str(step))])
    ensures forall r :: Mentions(Obj([f]), r) <==> r == step
  {
    var inner := f.value.fields;
    assert inner[0].value == Str(step) && GetString(inner, "$fromResponse") == Some(step);
    GetAt([f], "$fromResponse");
    assert [f][0] == f && GetString([f], "$fromResponse") == None;
    forall r ensures Mentions(Obj([f]), r) <==> r == step {
      assert Mentions(f.value, r) <==> r == step by {
        assert !Mentions(Str(step), r);
      }
      assert Mentions(Obj([f]), r) <==> Mentions(f.value, r) by {
        assert Mentions([f][0].value, r) <==> Mentions(f.value, r);
      }
    }
  }

  const REFERENCE := Field("id", Obj([Field("$fromResponse", Str("a"))]))
  const FIRST := Step("a", None, IDLE, None, Null, "continue")
  const SECOND := Step("b", Some([REFERENCE]), IDLE, None, Null, "stop")

  lemma ExampleAccepted()
    ensures WellReferenced([FIRST, SECOND])
  {
    var steps := [FIRST, SECOND];
    IdleMentionsNothing(FIRST);
    IdleMentionsNothing(SECOND);
    MentionsOnly(REFERENCE, "a");
    assert RefersBack(steps, 0);
    assert RefersBack(steps, 1) by {
      assert steps[0].name == "a";
    }
    assert NewName(steps, 1) by {
      assert "a"[0] != "b"[0];
    }
  }

  /** What a step without payload, parameters or lookup sends. */
  const NOTHING := Outgoing(Obj([]), false, Rendered("", None, map[]), None)

  lemma IdleRenders(s: Scope)
    ensures Renders(IDLE, s) && RendersTo(IDLE, s, NOTHING.request)
  {
  }

  lemma ReferenceFails(s: Scope)
    requires s.responses == map[]
    ensures RenderFields([REFERENCE], s.row, s.responses, s.lib).Err?
  {
    var inner := REFERENCE.value.fields;
    GetAt(inner, "$from");
    assert GetString(inner, "$from") == None && GetString(inner, "$fromResponse") == Some("a");
    assert RenderValue(REFERENCE.value, s.row, s.responses, s.lib).Err?;
    assert [REFERENCE][0] == REFERENCE;
  }

  /** The policy matters: a step whose `continue` reference failed can be reached, and then
      cannot render. */
  lemma ContinueCanMiss(lib: Libraries, w: World)
    requires w.call(0, NOTHING).Rejected?
    ensures
      var steps, trace := [FIRST, SECOND], [CallFailed(NOTHING), RenderFailed(NotExecuted("a"))];
      WellReferenced(steps) && Fits(steps, map[], trace, None, w, lib) && Complete(steps, trace)
  {
    ExampleAccepted();
    var steps, trace := [FIRST, SECOND], [CallFailed(NOTHING), RenderFailed(NotExecuted("a"))];
    assert trace[..0] == [] && trace[..1] == [CallFailed(NOTHING)];
    var s := Scope(map[], map[], lib);
    IdleRenders(s);
    assert ExecutedFits(FIRST, 0, trace[0], s, w);
    ReferenceFails(s);
    MentionsOnly(REFERENCE, "a");
    assert ExecutedFits(SECOND, 1, trace[1], s, w) by {
      assert StepMentions(SECOND, "a");
    }
    assert Known(steps, [], lib) == map[] && Known(steps, [CallFailed(NOTHING)], lib) == map[] by {
      assert [CallFailed(NOTHING)][..0] == [];
    }
    assert VisitFits(steps, map[], trace, 0, None, w, lib);
    assert VisitFits(steps, map[], trace, 1, None, w, lib);
  }
}
