/** JSON values, the references to earlier responses they hold, and rendering them against
    one row and the responses received so far. */
module Rendering {
  import opened Options

  datatype Json =
    Null | Bool(value: bool) | Number(text: string) | Str(text: string) | Arr(items: seq<Json>) |
    Obj(fields: seq<Field>)

  datatype Field = Field(key: string, value: Json)

  datatype Error =
    | NotExecuted(step: string)
    | InvalidPath(path: string)
    | NoMatch(step: string, path: string)
    | NullMatch(step: string, path: string)
    | NoValue(param: string)
    | Unfilled(names: seq<string>)
    | InvalidUrl
    | ScriptFailed

  datatype Result<+T> = Ok(value: T) | Err(error: Error) {
    /** Not the error of a response that never arrived, unless nobody has it and the
        predicate allows for it. */
    ghost predicate Excused(mentions: string -> bool, responses: map<string, Json>) {
      Err? && error.NotExecuted? ==> mentions(error.step) && error.step !in responses
    }
  }

  /** What evaluating a JSONPath gives; the language itself is not part of this model. */
  datatype Matches = BadPath | Found(values: seq<Json>)

  /** The libraries rendering relies on. */
  datatype Libraries = Libraries(
    parse: string -> Option<Json>,
    evalPath: (Json, string) -> Matches,
    printed: Json -> string,
    escape: string -> string,
    queryOf: string -> Option<map<string, seq<string>>>)

  function Get(fields: seq<Field>, key: string): Option<Json> {
    if fields == [] then None
    else if fields[0].key == key then Some(fields[0].value)
    else Get(fields[1..], key)
  }

  /** The value of the first entry with this key. */
  lemma {:induction false} GetIsFirst(fields: seq<Field>, key: string)
    ensures Get(fields, key) == None <==> forall i :: 0 <= i < |fields| ==> fields[i].key != key
    ensures Get(fields, key).Some? ==>
      exists i :: 0 <= i < |fields| && fields[i] == Field(key, Get(fields, key).value) &&
        forall j :: 0 <= j < i ==> fields[j].key != key
  {
    if fields != [] && fields[0].key != key {
      GetIsFirst(fields[1..], key);
      assert forall i :: 1 <= i < |fields| ==> fields[i] == fields[1..][i - 1];
      if Get(fields[1..], key).Some? {
        var i :| 0 <= i < |fields[1..]| && fields[1..][i] == Field(key, Get(fields[1..], key).value) &&
          forall j :: 0 <= j < i ==> fields[1..][j].key != key;
        assert fields[i + 1] == fields[1..][i];
      }
    }
  }

  function GetString(fields: seq<Field>, key: string): Option<string> {
    match Get(fields, key)
    case Some(Str(text)) => Some(text)
    case _ => None
  }

  // ----- references ----------------------------------------------------------------------

  /** Somewhere in the value, an object's `$fromResponse` names the step. */
  predicate Mentions(v: Json, step: string) {
    match v
    case Obj(fields) =>
      || GetString(fields, "$fromResponse") == Some(step)
      || exists i :: 0 <= i < |fields| && Mentions(fields[i].value, step)
    case Arr(items) => exists i :: 0 <= i < |items| && Mentions(items[i], step)
    case _ => false
  }

  /** collect_response_refs appends exactly the steps the value mentions. */
  method CollectResponseRefs(value: Json, sofar: seq<string>) returns (out: seq<string>)
    ensures forall r :: r in out <==> r in sofar || Mentions(value, r)
    decreases value
  {
    out := sofar;
    if value.Obj? {
      var direct := GetString(value.fields, "$fromResponse");
      if direct.Some? {
        out := out + [direct.value];
      }
      for i := 0 to |value.fields|
        invariant
          forall r :: r in out <==>
            r in sofar || direct == Some(r) || exists j :: 0 <= j < i && Mentions(value.fields[j].value, r)
      {
        out := CollectResponseRefs(value.fields[i].value, out);
      }
    } else if value.Arr? {
      for i := 0 to |value.items|
        invariant forall r :: r in out <==> r in sofar || exists j :: 0 <= j < i && Mentions(value.items[j], r)
      {
        out := CollectResponseRefs(value.items[i], out);
      }
    }
  }

  // ----- rendering --------------------------------------------------------------------------

  function ResolveResponsePath(responses: map<string, Json>, step: string, path: string, lib: Libraries): Result<Json> {
    if step !in responses then Err(NotExecuted(step))
    else match lib.evalPath(responses[step], path)
      case BadPath => Err(InvalidPath(path))
      case Found(values) =>
        if |values| == 0 then Err(NoMatch(step, path))
        else if |values| == 1 then Ok(values[0])
        else Ok(Arr(values))
  }

  function RenderValue(v: Json, row: map<string, Json>, responses: map<string, Json>, lib: Libraries): Result<Json>
    decreases v
  {
    match v
    case Obj(fields) =>
      var from := GetString(fields, "$from");
      var step := GetString(fields, "$fromResponse");
      if from.Some? then Ok(if from.value in row then row[from.value] else Null)
      else if step.Some? then ResolveResponsePath(responses, step.value, GetString(fields, "path").GetOr(""), lib)
      else if Get(fields, "$literal").Some? then Ok(Get(fields, "$literal").value)
      else if GetString(fields, "$py").Some? then Ok(v)
      else
        (match RenderFields(fields, row, responses, lib)
        case Ok(out) => Ok(Obj(out))
        case Err(e) => Err(e))
    case Arr(items) =>
      (match RenderItems(items, row, responses, lib)
      case Ok(out) => Ok(Arr(out))
      case Err(e) => Err(e))
    case _ => Ok(v)
  }

  /** The entries of a mapping; which of two failing entries is reported is up to their order. */
  function RenderFields(
    fields: seq<Field>, row: map<string, Json>, responses: map<string, Json>, lib: Libraries
  ): Result<seq<Field>>
    decreases fields
  {
    if fields == [] then Ok([])
    else match RenderValue(fields[0].value, row, responses, lib)
      case Err(e) => Err(e)
      case Ok(v) =>
        match RenderFields(fields[1..], row, responses, lib)
        case Err(e) => Err(e)
        case Ok(rest) => Ok([Field(fields[0].key, v)] + rest)
  }

  function RenderItems(
    items: seq<Json>, row: map<string, Json>, responses: map<string, Json>, lib: Libraries
  ): Result<seq<Json>>
    decreases items
  {
    if items == [] then Ok([])
    else match RenderValue(items[0], row, responses, lib)
      case Err(e) => Err(e)
      case Ok(v) =>
        match RenderItems(items[1..], row, responses, lib)
        case Err(e) => Err(e)
        case Ok(rest) => Ok([v] + rest)
  }

  /** Two sets of responses that a mention cannot tell apart. */
  ghost predicate Agree(v: Json, a: map<string, Json>, b: map<string, Json>) {
    forall r :: Mentions(v, r) ==> (r in a <==> r in b) && (r in a ==> a[r] == b[r])
  }

  /** Rendering looks at no response the static collector does not see: it depends only on
      the mentioned ones, and can only miss a mentioned one that is not there. */
  lemma {:induction false} RenderedFromMentions(
    v: Json, row: map<string, Json>, a: map<string, Json>, b: map<string, Json>, lib: Libraries
  )
    requires Agree(v, a, b)
    ensures RenderValue(v, row, a, lib) == RenderValue(v, row, b, lib)
    ensures RenderValue(v, row, a, lib).Excused(r => Mentions(v, r), a)
    decreases v
  {
    match v
    case Obj(fields) =>
      AgreeInside(v, a, b);
      FieldsFromMentions(fields, row, a, b, lib);
      ObjectFromMentions(fields, row, a, b, lib);
    case Arr(items) =>
      AgreeInside(v, a, b);
      ItemsFromMentions(items, row, a, b, lib);
    case _ =>
  }

  lemma AgreeInside(v: Json, a: map<string, Json>, b: map<string, Json>)
    requires Agree(v, a, b)
    ensures v.Obj? ==> forall i :: 0 <= i < |v.fields| ==> Agree(v.fields[i].value, a, b)
    ensures v.Arr? ==> forall i :: 0 <= i < |v.items| ==> Agree(v.items[i], a, b)
  {
  }

  /** An object is one reference, or what its fields are. */
  lemma ObjectFromMentions(
    fields: seq<Field>, row: map<string, Json>, a: map<string, Json>, b: map<string, Json>, lib: Libraries
  )
    requires Agree(Obj(fields), a, b)
    requires RenderFields(fields, row, a, lib) == RenderFields(fields, row, b, lib)
    requires
      RenderFields(fields, row, a, lib).Excused(r => exists i :: 0 <= i < |fields| && Mentions(fields[i].value, r), a)
    ensures RenderValue(Obj(fields), row, a, lib) == RenderValue(Obj(fields), row, b, lib)
    ensures RenderValue(Obj(fields), row, a, lib).Excused(r => Mentions(Obj(fields), r), a)
  {
    var step := GetString(fields, "$fromResponse");
    if step.Some? {
      assert Mentions(Obj(fields), step.value);
    }
  }

  lemma {:induction false} FieldsFromMentions(
    fields: seq<Field>, row: map<string, Json>, a: map<string, Json>, b: map<string, Json>, lib: Libraries
  )
    requires forall i :: 0 <= i < |fields| ==> Agree(fields[i].value, a, b)
    ensures RenderFields(fields, row, a, lib) == RenderFields(fields, row, b, lib)
    ensures
      RenderFields(fields, row, a, lib).Excused(r => exists i :: 0 <= i < |fields| && Mentions(fields[i].value, r), a)
    decreases fields
  {
    if fields != [] {
      RenderedFromMentions(fields[0].value, row, a, b, lib);
      FieldsFromMentions(fields[1..], row, a, b, lib);
    }
  }

  lemma {:induction false} ItemsFromMentions(
    items: seq<Json>, row: map<string, Json>, a: map<string, Json>, b: map<string, Json>, lib: Libraries
  )
    requires forall i :: 0 <= i < |items| ==> Agree(items[i], a, b)
    ensures RenderItems(items, row, a, lib) == RenderItems(items, row, b, lib)
    ensures RenderItems(items, row, a, lib).Excused(r => exists i :: 0 <= i < |items| && Mentions(items[i], r), a)
    decreases items
  {
    if items != [] {
      RenderedFromMentions(items[0], row, a, b, lib);
      ItemsFromMentions(items[1..], row, a, b, lib);
    }
  }

  /** A value expression as text: Ok(None) when a row value is missing or null. */
  function ResolveValueExpr(
    expr: Json, row: map<string, Json>, responses: map<string, Json>, lib: Libraries
  ): Result<Option<string>> {
    match expr
    case Str(text) => Ok(Some(text))
    case Obj(fields) =>
      var from := GetString(fields, "$from");
      var literal := GetString(fields, "$literal");
      var step := GetString(fields, "$fromResponse");
      if from.Some? then
        Ok(if from.value in row && row[from.value] != Null then Some(CoerceToString(row[from.value], lib)) else None)
      else if literal.Some? then Ok(literal)
      else if step.Some? then
        var path := GetString(fields, "path").GetOr("");
        match ResolveResponsePath(responses, step.value, path, lib)
        case Err(e) => Err(e)
        case Ok(v) => if v == Null then Err(NullMatch(step.value, path)) else Ok(Some(CoerceToString(v, lib)))
      else Ok(None)
    case _ => Ok(None)
  }

  function CoerceToString(v: Json, lib: Libraries): string {
    if v.Str? then v.text else lib.printed(v)
  }

  lemma ResolvedFromMentions(
    expr: Json, row: map<string, Json>, a: map<string, Json>, b: map<string, Json>, lib: Libraries
  )
    requires Agree(expr, a, b)
    ensures ResolveValueExpr(expr, row, a, lib) == ResolveValueExpr(expr, row, b, lib)
    ensures ResolveValueExpr(expr, row, a, lib).Excused(r => Mentions(expr, r), a)
  {
  }

  /** The responses of a row's chain so far, by step name. */
  class Context {
    const row: map<string, Json>
    var responses: map<string, Json>

    constructor (row: map<string, Json>)
      ensures this.row == row && responses == map[]
    {
      this.row, responses := row, map[];
    }

    /** An empty or unreadable body is kept as null, never as absent. */
    method AddResponse(name: string, body: string, lib: Libraries)
      modifies this
      ensures responses == old(responses)[name := ParsedBody(body, lib)]
    {
      if body == "" {
        responses := responses[name := Null];
        return;
      }
      var parsed := lib.parse(body);
      responses := responses[name := if parsed.Some? then parsed.value else Null];
    }
  }

  function ParsedBody(body: string, lib: Libraries): Json {
    if body == "" then Null else lib.parse(body).GetOr(Null)
  }
}
