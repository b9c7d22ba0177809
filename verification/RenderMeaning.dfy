/** What a rendered value is, place by place: where the template refers to the row, to an
    earlier response or to a literal stands what is referred to, and everywhere else the
    template's own shape with its parts rendered. */
module RenderMeaning {
  import opened Options
  import opened Rendering

  /** What a `$fromResponse` reference stands for: the one match, or all of them. */
  ghost predicate RefersTo(responses: map<string, Json>, step: string, path: string, lib: Libraries, out: Json) {
    && step in responses
    && var matches := lib.evalPath(responses[step], path);
       matches.Found? && matches.values != []
       && (if |matches.values| == 1 then out == matches.values[0] else out == Arr(matches.values))
  }

  /** Why it stands for nothing. */
  ghost predicate RefersToNothing(
    responses: map<string, Json>, step: string, path: string, lib: Libraries, e: Error
  ) {
    || (step !in responses && e == NotExecuted(step))
    || (step in responses && lib.evalPath(responses[step], path) == BadPath && e == InvalidPath(path))
    || (step in responses && lib.evalPath(responses[step], path) == Found([]) && e == NoMatch(step, path))
  }

  /** The column an object refers to. */
  predicate IsColumn(fields: seq<Field>, column: string) {
    Get(fields, "$from") == Some(Str(column))
  }

  /** The response an object refers to; a column reference goes first. */
  predicate IsReference(fields: seq<Field>, step: string) {
    Get(fields, "$fromResponse") == Some(Str(step)) && !NamesColumn(fields)
  }

  predicate NamesColumn(fields: seq<Field>) {
    Get(fields, "$from").Some? && Get(fields, "$from").value.Str?
  }

  predicate NamesStep(fields: seq<Field>) {
    Get(fields, "$fromResponse").Some? && Get(fields, "$fromResponse").value.Str?
  }

  /** The path of a reference, empty when none is given. */
  function PathOf(fields: seq<Field>): string {
    match Get(fields, "path")
    case Some(Str(path)) => path
    case _ => ""
  }

  /** A literal, kept as it is. */
  predicate IsLiteral(fields: seq<Field>, content: Json) {
    !NamesColumn(fields) && !NamesStep(fields) && Get(fields, "$literal") == Some(content)
  }

  /** An expression for the script, passed on as it is. */
  predicate IsScript(fields: seq<Field>) {
    && !NamesColumn(fields) && !NamesStep(fields) && Get(fields, "$literal").None?
    && Get(fields, "$py").Some? && Get(fields, "$py").value.Str?
  }

  predicate IsPlain(fields: seq<Field>) {
    !NamesColumn(fields) && !NamesStep(fields) && Get(fields, "$literal").None? && !IsScript(fields)
  }

  ghost predicate RendersAs(
    v: Json, row: map<string, Json>, responses: map<string, Json>, lib: Libraries, out: Json
  )
    decreases v
  {
    match v
    case Obj(fields) =>
      && (forall column :: IsColumn(fields, column) ==> out == if column in row then row[column] else Null)
      && (forall step :: IsReference(fields, step) ==> RefersTo(responses, step, PathOf(fields), lib, out))
      && (forall content :: IsLiteral(fields, content) ==> out == content)
      && (IsScript(fields) ==> out == v)
      && (IsPlain(fields) ==>
            && out.Obj? && |out.fields| == |fields|
            && forall i :: 0 <= i < |fields| ==>
                 && out.fields[i].key == fields[i].key
                 && RendersAs(fields[i].value, row, responses, lib, out.fields[i].value))
    case Arr(items) =>
      && out.Arr? && |out.items| == |items|
      && forall i :: 0 <= i < |items| ==> RendersAs(items[i], row, responses, lib, out.items[i])
    case _ => out == v
  }

  /** Some reference in the value stands for nothing, for this reason. */
  ghost predicate FailsWith(v: Json, responses: map<string, Json>, lib: Libraries, e: Error)
    decreases v
  {
    match v
    case Obj(fields) =>
      || (exists step :: IsReference(fields, step) && RefersToNothing(responses, step, PathOf(fields), lib, e))
      || (IsPlain(fields) && exists i :: 0 <= i < |fields| && FailsWith(fields[i].value, responses, lib, e))
    case Arr(items) => exists i :: 0 <= i < |items| && FailsWith(items[i], responses, lib, e)
    case _ => false
  }

  ghost predicate FieldsRenderAs(
    fields: seq<Field>, row: map<string, Json>, responses: map<string, Json>, lib: Libraries, out: seq<Field>
  ) {
    && |out| == |fields|
    && forall i :: 0 <= i < |fields| ==>
         out[i].key == fields[i].key && RendersAs(fields[i].value, row, responses, lib, out[i].value)
  }

  ghost predicate ItemsRenderAs(
    items: seq<Json>, row: map<string, Json>, responses: map<string, Json>, lib: Libraries, out: seq<Json>
  ) {
    |out| == |items| && forall i :: 0 <= i < |items| ==> RendersAs(items[i], row, responses, lib, out[i])
  }

  /** The renderer gives exactly that value, and otherwise names a reference that fails. */
  lemma {:induction false} RenderedMeans(
    v: Json, row: map<string, Json>, responses: map<string, Json>, lib: Libraries, out: Json
  )
    ensures RenderValue(v, row, responses, lib) == Ok(out) <==> RendersAs(v, row, responses, lib, out)
    ensures
      var r := RenderValue(v, row, responses, lib);
      r.Err? ==> FailsWith(v, responses, lib, r.error)
    decreases v, 1
  {
    match v
    case Obj(fields) =>
      if IsPlain(fields) {
        var inner := if out.Obj? then out.fields else [];
        FieldsMean(fields, row, responses, lib, inner);
        PlainMeans(fields, row, responses, lib, inner, out);
      } else {
        ReferenceMeans(fields, row, responses, lib, out);
      }
    case Arr(items) =>
      var inner := if out.Arr? then out.items else [];
      ItemsMean(items, row, responses, lib, inner);
    case _ =>
  }

  lemma ReferenceMeans(
    fields: seq<Field>, row: map<string, Json>, responses: map<string, Json>, lib: Libraries, out: Json
  )
    requires !IsPlain(fields)
    ensures
      RenderValue(Obj(fields), row, responses, lib) == Ok(out) <==> RendersAs(Obj(fields), row, responses, lib, out)
    ensures
      var r := RenderValue(Obj(fields), row, responses, lib);
      r.Err? ==> FailsWith(Obj(fields), responses, lib, r.error)
  {
    if NamesColumn(fields) {
      ColumnMeans(fields, row, responses, lib, out);
    } else if NamesStep(fields) {
      StepMeans(fields, row, responses, lib, out);
    } else {
      LiteralMeans(fields, row, responses, lib, out);
    }
  }

  lemma ColumnMeans(
    fields: seq<Field>, row: map<string, Json>, responses: map<string, Json>, lib: Libraries, out: Json
  )
    requires NamesColumn(fields)
    ensures
      RenderValue(Obj(fields), row, responses, lib) == Ok(out) <==> RendersAs(Obj(fields), row, responses, lib, out)
    ensures
      var r := RenderValue(Obj(fields), row, responses, lib);
      r.Err? ==> FailsWith(Obj(fields), responses, lib, r.error)
  {
    var column := Get(fields, "$from").value.text;
    assert IsColumn(fields, column) && forall other :: IsColumn(fields, other) ==> other == column;
  }

  lemma StepMeans(
    fields: seq<Field>, row: map<string, Json>, responses: map<string, Json>, lib: Libraries, out: Json
  )
    requires !NamesColumn(fields) && NamesStep(fields)
    ensures
      RenderValue(Obj(fields), row, responses, lib) == Ok(out) <==> RendersAs(Obj(fields), row, responses, lib, out)
    ensures
      var r := RenderValue(Obj(fields), row, responses, lib);
      r.Err? ==> FailsWith(Obj(fields), responses, lib, r.error)
  {
    var step := Get(fields, "$fromResponse").value.text;
    assert IsReference(fields, step) && forall other :: IsReference(fields, other) ==> other == step;
    assert RenderValue(Obj(fields), row, responses, lib) == ResolveResponsePath(responses, step, PathOf(fields), lib);
    ReferenceResolves(responses, step, PathOf(fields), lib, out);
  }

  lemma ReferenceResolves(responses: map<string, Json>, step: string, path: string, lib: Libraries, out: Json)
    ensures ResolveResponsePath(responses, step, path, lib) == Ok(out) <==> RefersTo(responses, step, path, lib, out)
    ensures
      var r := ResolveResponsePath(responses, step, path, lib);
      r.Err? ==> RefersToNothing(responses, step, path, lib, r.error)
  {
  }

  lemma LiteralMeans(
    fields: seq<Field>, row: map<string, Json>, responses: map<string, Json>, lib: Libraries, out: Json
  )
    requires !NamesColumn(fields) && !NamesStep(fields) && !IsPlain(fields)
    ensures
      RenderValue(Obj(fields), row, responses, lib) == Ok(out) <==> RendersAs(Obj(fields), row, responses, lib, out)
    ensures
      var r := RenderValue(Obj(fields), row, responses, lib);
      r.Err? ==> FailsWith(Obj(fields), responses, lib, r.error)
  {
    if Get(fields, "$literal").Some? {
      assert IsLiteral(fields, Get(fields, "$literal").value);
    }
  }

  lemma PlainMeans(
    fields: seq<Field>, row: map<string, Json>, responses: map<string, Json>, lib: Libraries, inner: seq<Field>,
    out: Json
  )
    requires IsPlain(fields) && (out.Obj? ==> inner == out.fields)
    requires
      RenderFields(fields, row, responses, lib) == Ok(inner) <==> FieldsRenderAs(fields, row, responses, lib, inner)
    requires
      var r := RenderFields(fields, row, responses, lib);
      r.Err? ==> exists i :: 0 <= i < |fields| && FailsWith(fields[i].value, responses, lib, r.error)
    ensures
      RenderValue(Obj(fields), row, responses, lib) == Ok(out) <==> RendersAs(Obj(fields), row, responses, lib, out)
    ensures
      var r := RenderValue(Obj(fields), row, responses, lib);
      r.Err? ==> FailsWith(Obj(fields), responses, lib, r.error)
  {
    var rendered := RenderFields(fields, row, responses, lib);
    assert RenderValue(Obj(fields), row, responses, lib) ==
           if rendered.Ok? then Ok(Obj(rendered.value)) else Err(rendered.error);
    assert RendersAs(Obj(fields), row, responses, lib, out) <==>
        out.Obj? && FieldsRenderAs(fields, row, responses, lib, out.fields);
  }

  lemma {:induction false} FieldsMean(
    fields: seq<Field>, row: map<string, Json>, responses: map<string, Json>, lib: Libraries, out: seq<Field>
  )
    ensures RenderFields(fields, row, responses, lib) == Ok(out) <==> FieldsRenderAs(fields, row, responses, lib, out)
    ensures
      var r := RenderFields(fields, row, responses, lib);
      r.Err? ==> exists i :: 0 <= i < |fields| && FailsWith(fields[i].value, responses, lib, r.error)
    decreases fields, 0
  {
    if fields != [] {
      var first := if out != [] then out[0].value else Null;
      var rest := if out != [] then out[1..] else [];
      RenderedMeans(fields[0].value, row, responses, lib, first);
      FieldsMean(fields[1..], row, responses, lib, rest);
      FieldsMeanMore(fields, row, responses, lib, out);
    }
  }

  lemma FieldsMeanMore(
    fields: seq<Field>, row: map<string, Json>, responses: map<string, Json>, lib: Libraries, out: seq<Field>
  )
    requires fields != []
    requires
      var r := RenderValue(fields[0].value, row, responses, lib);
      && (out != [] ==> (r == Ok(out[0].value) <==> RendersAs(fields[0].value, row, responses, lib, out[0].value)))
      && (r.Err? ==> FailsWith(fields[0].value, responses, lib, r.error))
    requires
      var r, rest := RenderFields(fields[1..], row, responses, lib), if out != [] then out[1..] else [];
      && (r == Ok(rest) <==> FieldsRenderAs(fields[1..], row, responses, lib, rest))
      && (r.Err? ==> exists i :: 0 <= i < |fields[1..]| && FailsWith(fields[1..][i].value, responses, lib, r.error))
    ensures RenderFields(fields, row, responses, lib) == Ok(out) <==> FieldsRenderAs(fields, row, responses, lib, out)
    ensures
      var r := RenderFields(fields, row, responses, lib);
      r.Err? ==> exists i :: 0 <= i < |fields| && FailsWith(fields[i].value, responses, lib, r.error)
  {
    if out != [] {
      assert out == [out[0]] + out[1..] && out[0] == Field(out[0].key, out[0].value);
      assert FieldsRenderAs(fields, row, responses, lib, out) <==>
          && out[0].key == fields[0].key && RendersAs(fields[0].value, row, responses, lib, out[0].value)
          && FieldsRenderAs(fields[1..], row, responses, lib, out[1..]);
    }
  }

  lemma {:induction false} ItemsMean(
    items: seq<Json>, row: map<string, Json>, responses: map<string, Json>, lib: Libraries, out: seq<Json>
  )
    ensures RenderItems(items, row, responses, lib) == Ok(out) <==> ItemsRenderAs(items, row, responses, lib, out)
    ensures
      var r := RenderItems(items, row, responses, lib);
      r.Err? ==> exists i :: 0 <= i < |items| && FailsWith(items[i], responses, lib, r.error)
    decreases items, 0
  {
    if items != [] {
      var first := if out != [] then out[0] else Null;
      var rest := if out != [] then out[1..] else [];
      RenderedMeans(items[0], row, responses, lib, first);
      ItemsMean(items[1..], row, responses, lib, rest);
      if out != [] {
        assert out == [first] + rest;
        assert ItemsRenderAs(items, row, responses, lib, out) <==>
            RendersAs(items[0], row, responses, lib, first) && ItemsRenderAs(items[1..], row, responses, lib, rest);
      }
    }
  }

  // ----- value expressions ------------------------------------------------------------------------

  /** A value as text: strings as they are, everything else printed. */
  ghost predicate TextOf(v: Json, lib: Libraries, text: string) {
    (v.Str? ==> text == v.text) && (!v.Str? ==> text == lib.printed(v))
  }

  predicate IsTextLiteral(fields: seq<Field>, text: string) {
    !NamesColumn(fields) && Get(fields, "$literal") == Some(Str(text))
  }

  /** In URLs, queries and headers a string literal goes before a response. */
  predicate IsTextReference(fields: seq<Field>, step: string) {
    IsReference(fields, step) && !HasText(fields)
  }

  predicate HasText(fields: seq<Field>) {
    Get(fields, "$literal").Some? && Get(fields, "$literal").value.Str?
  }

  /** The text an expression stands for; None where the row has no value, or the expression
      is none. */
  ghost predicate ResolvesAs(
    expr: Json, row: map<string, Json>, responses: map<string, Json>, lib: Libraries, out: Option<string>
  ) {
    match expr
    case Str(text) => out == Some(text)
    case Obj(fields) =>
      && (forall column :: IsColumn(fields, column) ==>
            if column in row && row[column] != Null then out.Some? && TextOf(row[column], lib, out.value)
            else out == None)
      && (forall text :: IsTextLiteral(fields, text) ==> out == Some(text))
      && (forall step :: IsTextReference(fields, step) ==>
            && out.Some?
            && exists v :: v != Null && RefersTo(responses, step, PathOf(fields), lib, v) && TextOf(v, lib, out.value))
      && (!NamesColumn(fields) && !HasText(fields) && !NamesStep(fields) ==> out == None)
    case _ => out == None
  }

  lemma ResolvedMeans(
    expr: Json, row: map<string, Json>, responses: map<string, Json>, lib: Libraries, out: Option<string>
  )
    ensures ResolveValueExpr(expr, row, responses, lib) == Ok(out) <==> ResolvesAs(expr, row, responses, lib, out)
  {
    if expr.Obj? {
      if NamesColumn(expr.fields) {
        ColumnText(expr.fields, row, responses, lib, out);
      } else if HasText(expr.fields) {
        LiteralText(expr.fields, row, responses, lib, out);
      } else if NamesStep(expr.fields) {
        ReferenceText(expr.fields, row, responses, lib, out);
      }
    }
  }

  lemma ColumnText(
    fields: seq<Field>, row: map<string, Json>, responses: map<string, Json>, lib: Libraries, out: Option<string>
  )
    requires NamesColumn(fields)
    ensures
      ResolveValueExpr(Obj(fields), row, responses, lib) == Ok(out) <==>
        ResolvesAs(Obj(fields), row, responses, lib, out)
  {
    var column := Get(fields, "$from").value.text;
    assert IsColumn(fields, column) && forall other :: IsColumn(fields, other) ==> other == column;
  }

  lemma LiteralText(
    fields: seq<Field>, row: map<string, Json>, responses: map<string, Json>, lib: Libraries, out: Option<string>
  )
    requires !NamesColumn(fields) && HasText(fields)
    ensures
      ResolveValueExpr(Obj(fields), row, responses, lib) == Ok(out) <==>
        ResolvesAs(Obj(fields), row, responses, lib, out)
  {
    assert IsTextLiteral(fields, Get(fields, "$literal").value.text);
  }

  lemma ReferenceText(
    fields: seq<Field>, row: map<string, Json>, responses: map<string, Json>, lib: Libraries, out: Option<string>
  )
    requires !NamesColumn(fields) && !HasText(fields) && NamesStep(fields)
    ensures
      ResolveValueExpr(Obj(fields), row, responses, lib) == Ok(out) <==>
        ResolvesAs(Obj(fields), row, responses, lib, out)
  {
    var step, path := Get(fields, "$fromResponse").value.text, PathOf(fields);
    assert IsTextReference(fields, step) && forall other :: IsTextReference(fields, other) ==> other == step;
    var found := ResolveResponsePath(responses, step, path, lib);
    forall v ensures found == Ok(v) <==> RefersTo(responses, step, path, lib, v) {
      ReferenceResolves(responses, step, path, lib, v);
    }
  }
}
