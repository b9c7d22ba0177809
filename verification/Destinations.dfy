/** Rendering a destination: path parameters into the URL, then query parameters, then
    headers. */
module Destinations {
  import opened Options
  import opened Rendering
  import opened UrlTemplates
  import opened StrayBraces

  /** The three parameter objects list their entries in key order. */
  datatype Endpoint = Endpoint(url: string, pathParams: seq<Field>, queryParams: seq<Field>, headers: seq<Field>)

  type Query = map<string, seq<string>>

  datatype Rendered = Rendered(url: string, query: Option<Query>, headers: map<string, string>)

  predicate DistinctKeys(fields: seq<Field>) {
    forall i, j :: 0 <= i < j < |fields| ==> fields[i].key != fields[j].key
  }

  /** An object's keys are distinct, as in any Go map. */
  predicate Proper(d: Endpoint) {
    DistinctKeys(d.pathParams) && DistinctKeys(d.queryParams) && DistinctKeys(d.headers)
  }

  /** The JSON the template check sees. */
  function AsJson(d: Endpoint): Json {
    Obj([
      Field("pathParams", Obj(d.pathParams)),
      Field("queryParams", Obj(d.queryParams)),
      Field("headers", Obj(d.headers))
    ])
  }

  // ----- specification ---------------------------------------------------------------------

  /** One evaluation environment: the row and the responses so far. */
  datatype Scope = Scope(row: map<string, Json>, responses: map<string, Json>, lib: Libraries) {
    function Value(e: Json): Result<Option<string>> {
      ResolveValueExpr(e, row, responses, lib)
    }
  }

  /** The URL after the first path parameters; an escaped value is put in as it is, and the
      next replacement looks at the whole text again. */
  function Substituted(url: string, params: seq<Field>, s: Scope): string {
    if params == [] then url
    else
      var before, f := Substituted(url, params[..|params| - 1], s), params[|params| - 1];
      match s.Value(f.value)
      case Ok(Some(v)) => ReplaceAll(before, Braced(f.key), s.lib.escape(v))
      case _ => before
  }

  function Texts(items: seq<Json>, s: Scope): seq<string> {
    if items == [] then []
    else (match s.Value(items[0]) case Ok(Some(v)) => [v] case _ => []) + Texts(items[1..], s)
  }

  predicate Resolves(e: Json, s: Scope) {
    s.Value(e).Ok?
  }

  /** A query parameter resolves when its value does, or every item of its list. */
  predicate QueryResolves(e: Json, s: Scope) {
    if e.Arr? then forall i :: 0 <= i < |e.items| ==> Resolves(e.items[i], s) else Resolves(e, s)
  }

  /** The values of one query key: a list adds to those the URL has, a value replaces them. */
  function QueryValues(base: Query, params: seq<Field>, s: Scope, key: string): seq<string> {
    var existing := if key in base then base[key] else [];
    match Get(params, key)
    case None => existing
    case Some(Arr(items)) => existing + Texts(items, s)
    case Some(e) =>
      match s.Value(e)
      case Ok(Some(v)) => [v]
      case _ => existing
  }

  predicate HasValue(e: Json, s: Scope) {
    Resolves(e, s) && s.Value(e).value.Some?
  }

  predicate AllHaveValues(params: seq<Field>, s: Scope) {
    forall i :: 0 <= i < |params| ==> HasValue(params[i].value, s)
  }

  /** The destination renders in this scope. */
  predicate Renders(d: Endpoint, s: Scope) {
    && AllHaveValues(d.pathParams, s)
    && !HasPlaceholder(Substituted(d.url, d.pathParams, s))
    && (d.queryParams != [] ==> s.lib.queryOf(Substituted(d.url, d.pathParams, s)).Some?)
    && (forall i :: 0 <= i < |d.queryParams| ==> QueryResolves(d.queryParams[i].value, s))
    && (forall i :: 0 <= i < |d.headers| ==> Resolves(d.headers[i].value, s))
  }

  /** What it renders to: every parameter where it belongs, and nothing else. */
  ghost predicate RendersTo(d: Endpoint, s: Scope, r: Rendered) {
    && r.url == Substituted(d.url, d.pathParams, s)
    && (d.queryParams == [] ==> r.query == None)
    && (d.queryParams != [] ==>
          && r.query.Some? && s.lib.queryOf(r.url).Some?
          && QueryFrom(s.lib.queryOf(r.url).value, d.queryParams, s, r.query.value))
    && HeadersFrom(d.headers, s, r.headers)
  }

  ghost predicate QueryFrom(base: Query, params: seq<Field>, s: Scope, q: Query) {
    forall k :: QueryKeyFrom(base, params, s, q, k)
  }

  predicate QueryKeyFrom(base: Query, params: seq<Field>, s: Scope, q: Query, k: string) {
    var values := QueryValues(base, params, s, k);
    (k in q <==> k in base || values != []) && (k in q ==> q[k] == values)
  }

  /** A header is set when its value resolves to one. */
  function HeaderValue(params: seq<Field>, s: Scope, key: string): Option<string> {
    match Get(params, key)
    case None => None
    case Some(e) =>
      match s.Value(e)
      case Ok(v) => v
      case Err(_) => None
  }

  ghost predicate HeadersFrom(params: seq<Field>, s: Scope, h: map<string, string>) {
    forall k :: (if k in h then Some(h[k]) else None) == HeaderValue(params, s, k)
  }

  // ----- rendering ---------------------------------------------------------------------------

  lemma {:induction false} GetSnoc(fields: seq<Field>, f: Field, key: string)
    ensures
      Get(fields + [f], key) ==
        if Get(fields, key).Some? then Get(fields, key) else if f.key == key then Some(f.value) else None
  {
    if fields != [] {
      assert (fields + [f])[1..] == fields[1..] + [f];
      GetSnoc(fields[1..], f, key);
    }
  }

  lemma {:induction false} GetAt(fields: seq<Field>, key: string)
    ensures
      Get(fields, key).Some? ==>
        exists i :: 0 <= i < |fields| && fields[i].key == key && Get(fields, key) == Some(fields[i].value)
  {
    if fields != [] && fields[0].key != key {
      GetAt(fields[1..], key);
      if Get(fields[1..], key).Some? {
        var i :| 0 <= i < |fields[1..]| && fields[1..][i].key == key
          && Get(fields[1..], key) == Some(fields[1..][i].value);
        assert fields[i + 1] == fields[1..][i];
      }
    }
  }

  lemma {:induction false} TextsSnoc(items: seq<Json>, e: Json, s: Scope)
    ensures Texts(items + [e], s) == Texts(items, s) + match s.Value(e) case Ok(Some(v)) => [v] case _ => []
  {
    if items != [] {
      assert (items + [e])[1..] == items[1..] + [e];
      TextsSnoc(items[1..], e, s);
    }
  }

  method FillPath(d: Endpoint, s: Scope) returns (r: Result<string>)
    requires Proper(d)
    ensures r.Ok? <==> AllHaveValues(d.pathParams, s)
    ensures r.Ok? ==> r.value == Substituted(d.url, d.pathParams, s)
    ensures r.Excused(step => Mentions(AsJson(d), step), s.responses)
  {
    var url := d.url;
    for i := 0 to |d.pathParams|
      invariant forall j :: 0 <= j < i ==> HasValue(d.pathParams[j].value, s)
      invariant url == Substituted(d.url, d.pathParams[..i], s)
    {
      var f := d.pathParams[i];
      var v := s.Value(f.value);
      if v.Err? {
        MentionedInside(d, f);
        ResolvedFromMentions(f.value, s.row, s.responses, s.responses, s.lib);
        return Err(v.error);
      }
      if v.value.None? {
        return Err(NoValue(f.key));
      }
      assert d.pathParams[..i + 1][..i] == d.pathParams[..i];
      url := ReplaceAll(url, Braced(f.key), s.lib.escape(v.value.value));
    }
    assert d.pathParams[..|d.pathParams|] == d.pathParams;
    r := Ok(url);
  }

  // ----- what becomes of the URL -------------------------------------------------------------

  /** What a placeholder of the template becomes. */
  function Filled(p: Part, params: seq<Field>, s: Scope): Part {
    if p.Lit? || Get(params, p.name).None? then p
    else match s.Value(Get(params, p.name).value)
      case Ok(Some(v)) => Lit(s.lib.escape(v))
      case _ => p
  }

  function FilledUrl(parts: seq<Part>, params: seq<Field>, s: Scope): seq<Part> {
    seq(|parts|, i requires 0 <= i < |parts| => Filled(parts[i], params, s))
  }

  /** Percent-encoding leaves no brace, and parameter names hold none. */
  ghost predicate BraceFree(params: seq<Field>, s: Scope) {
    (forall v :: NoBraces(s.lib.escape(v))) && forall i :: 0 <= i < |params| ==> NoBraces(params[i].key)
  }

  lemma {:induction false} FillHolesAt(parts: seq<Part>, name: string, text: string)
    ensures |FillHoles(parts, name, text)| == |parts|
    ensures forall i :: 0 <= i < |parts| ==> FillHoles(parts, name, text)[i] == FillHole(parts[i], name, text)
  {
    if parts != [] {
      FillHolesAt(parts[1..], name, text);
    }
  }

  lemma FillNext(parts: seq<Part>, params: seq<Field>, f: Field, s: Scope, text: string)
    requires AllHaveValues(params, s) && s.Value(f.value) == Ok(Some(text))
    ensures FilledUrl(parts, params + [f], s) == FillHoles(FilledUrl(parts, params, s), f.key, s.lib.escape(text))
  {
    var before := FilledUrl(parts, params, s);
    FillHolesAt(before, f.key, s.lib.escape(text));
    forall k | 0 <= k < |parts|
      ensures Filled(parts[k], params + [f], s) == FillHole(Filled(parts[k], params, s), f.key, s.lib.escape(text))
    {
      if parts[k].Hole? {
        GetSnoc(params, f, parts[k].name);
        GetAt(params, parts[k].name);
      }
    }
  }

  /** In a template whose literal text holds no braces, every placeholder gets its own
      parameter's escaped value, in one go, and nothing else changes. */
  lemma {:induction false} PathFillsTemplate(parts: seq<Part>, params: seq<Field>, s: Scope)
    requires PlainParts(parts) && BraceFree(params, s) && AllHaveValues(params, s)
    ensures PlainParts(FilledUrl(parts, params, s))
    ensures Substituted(Flatten(parts), params, s) == Flatten(FilledUrl(parts, params, s))
    decreases |params|
  {
    if params == [] {
      assert FilledUrl(parts, params, s) == parts;
    } else {
      var front, f := params[..|params| - 1], params[|params| - 1];
      assert HasValue(f.value, s) && params == front + [f];
      PathFillsTemplate(parts, front, s);
      var text := s.Value(f.value).value.value;
      FillNext(parts, front, f, s, text);
      ReplaceFillsHoles(FilledUrl(parts, front, s), f.key, s.lib.escape(text));
    }
  }

  predicate AllHolesGiven(parts: seq<Part>, params: seq<Field>) {
    forall i :: 0 <= i < |parts| && parts[i].Hole? && IsPlaceholder(parts[i].name) ==>
      Get(params, parts[i].name).Some?
  }

  /** Such a URL is complete exactly when every placeholder has a parameter. */
  lemma CompleteIffAllGiven(parts: seq<Part>, params: seq<Field>, s: Scope)
    requires PlainParts(parts) && BraceFree(params, s) && AllHaveValues(params, s)
    ensures !HasPlaceholder(Substituted(Flatten(parts), params, s)) <==> AllHolesGiven(parts, params)
  {
    var url := FilledUrl(parts, params, s);
    PathFillsTemplate(parts, params, s);
    LeftoversAreOpenHoles(url);
    NothingLeftOver(Flatten(url));
    OpenHolesNone(url);
    forall i | 0 <= i < |parts| && parts[i].Hole? ensures url[i].Hole? <==> Get(params, parts[i].name).None? {
      GetAt(params, parts[i].name);
    }
  }

  lemma {:induction false} OpenHolesNone(url: seq<Part>)
    ensures OpenHoles(url) == [] <==> forall i :: 0 <= i < |url| && url[i].Hole? ==> !IsPlaceholder(url[i].name)
  {
    if url != [] {
      OpenHolesNone(url[1..]);
      assert forall i :: 1 <= i < |url| ==> url[i] == url[1..][i - 1];
      if OpenHoles(url) == [] {
        forall i | 0 <= i < |url| && url[i].Hole? ensures !IsPlaceholder(url[i].name) {
          if i > 0 {
            assert url[i] == url[1..][i - 1];
          }
        }
      }
    }
  }

  // ----- templates with braces of their own ---------------------------------------------------

  function KeysOf(params: seq<Field>): seq<string> {
    seq(|params|, i requires 0 <= i < |params| => params[i].key)
  }

  /** The unescaped values the path parameters resolve to. */
  function TextsOf(params: seq<Field>, s: Scope): map<string, string>
    requires AllHaveValues(params, s) && DistinctKeys(params)
  {
    map i | 0 <= i < |params| :: params[i].key := s.Value(params[i].value).value.value
  }

  lemma TextsOfNext(params: seq<Field>, s: Scope)
    requires params != [] && AllHaveValues(params, s) && DistinctKeys(params)
    ensures
      var front, f := params[..|params| - 1], params[|params| - 1];
      && AllHaveValues(front, s) && DistinctKeys(front) && HasValue(f.value, s)
      && KeysOf(params) == KeysOf(front) + [f.key]
      && TextsOf(params, s) == TextsOf(front, s)[f.key := s.Value(f.value).value.value]
  {
    assert HasValue(params[|params| - 1].value, s);
  }

  lemma {:induction false} FillsAlike(
    url: string, names: seq<string>, a: map<string, string>, b: map<string, string>
  )
    requires forall i :: 0 <= i < |names| ==> names[i] in a && names[i] in b && a[names[i]] == b[names[i]]
    ensures FillInTurn(url, names, a) == FillInTurn(url, names, b)
    decreases |names|
  {
    if names != [] {
      FillsAlike(url, names[..|names| - 1], a, b);
    }
  }

  /** Substituting path parameters is filling their names in turn. */
  lemma {:induction false} SubstitutedInTurn(url: string, params: seq<Field>, s: Scope)
    requires AllHaveValues(params, s) && DistinctKeys(params)
    ensures forall i :: 0 <= i < |params| ==> KeysOf(params)[i] in Escaped(TextsOf(params, s), s.lib.escape)
    ensures Substituted(url, params, s) == FillInTurn(url, KeysOf(params), Escaped(TextsOf(params, s), s.lib.escape))
    decreases |params|
  {
    if params != [] {
      var front, f := params[..|params| - 1], params[|params| - 1];
      TextsOfNext(params, s);
      SubstitutedInTurn(url, front, s);
      var a, b := Escaped(TextsOf(front, s), s.lib.escape), Escaped(TextsOf(params, s), s.lib.escape);
      assert KeysOf(params)[..|front|] == KeysOf(front);
      forall i | 0 <= i < |front| ensures KeysOf(front)[i] in b && a[KeysOf(front)[i]] == b[KeysOf(front)[i]] {
        assert front[i].key == params[i].key != f.key;
      }
      FillsAlike(url, KeysOf(front), a, b);
    }
  }

  /** Any template, in any scope: when nothing stray can come up, or a parameter is missing
      anyway, the URL is complete exactly when every placeholder has a parameter. */
  lemma CompleteWithoutStrays(url: string, params: seq<Field>, s: Scope)
    requires AllHaveValues(params, s) && DistinctKeys(params) && AllPlaceholders(KeysOf(params))
    requires forall v :: NoBraces(s.lib.escape(v))
    requires !AllGiven(url, KeysOf(params)) || !HasStray(Cells(url), Given(KeysOf(params)))
    ensures !HasPlaceholder(Substituted(url, params, s)) <==> AllGiven(url, KeysOf(params))
  {
    var names, values := KeysOf(params), Escaped(TextsOf(params, s), s.lib.escape);
    SubstitutedInTurn(url, params, s);
    ValuesCover(params, s);
    RightlyWithout(url, names, values);
  }

  lemma ValuesCover(params: seq<Field>, s: Scope)
    requires AllHaveValues(params, s) && DistinctKeys(params)
    ensures Given(KeysOf(params)) <= Escaped(TextsOf(params, s), s.lib.escape).Keys
  {
    var names := KeysOf(params);
    forall n | n in names ensures n in TextsOf(params, s) {
      var i :| 0 <= i < |names| && names[i] == n;
    }
  }

  /** A reference inside any parameter is one the template check sees. */
  lemma MentionedInside(d: Endpoint, f: Field)
    requires f in d.pathParams || f in d.queryParams || f in d.headers
    ensures forall r :: Mentions(f.value, r) ==> Mentions(AsJson(d), r)
  {
    forall r | Mentions(f.value, r) ensures Mentions(AsJson(d), r) {
      var fields := AsJson(d).fields;
      if f in d.pathParams {
        assert Mentions(fields[0].value, r);
      } else if f in d.queryParams {
        assert Mentions(fields[1].value, r);
      } else {
        assert Mentions(fields[2].value, r);
      }
    }
  }

  // ----- what a request depends on -----------------------------------------------------------

  /** The two scopes differ at most in responses the destination does not mention. */
  ghost predicate Alike(d: Endpoint, s: Scope, t: Scope) {
    s.row == t.row && s.lib == t.lib && Agree(AsJson(d), s.responses, t.responses)
  }

  predicate SameValue(e: Json, s: Scope, t: Scope) {
    && s.Value(e) == t.Value(e)
    && (e.Arr? ==> forall i :: 0 <= i < |e.items| ==> s.Value(e.items[i]) == t.Value(e.items[i]))
  }

  predicate SameValues(params: seq<Field>, s: Scope, t: Scope) {
    forall i :: 0 <= i < |params| ==> SameValue(params[i].value, s, t)
  }

  lemma ValueAlike(d: Endpoint, f: Field, s: Scope, t: Scope)
    requires Alike(d, s, t) && (f in d.pathParams || f in d.queryParams || f in d.headers)
    ensures SameValue(f.value, s, t)
  {
    MentionedInside(d, f);
    ResolvedFromMentions(f.value, s.row, s.responses, t.responses, s.lib);
    if f.value.Arr? {
      forall i | 0 <= i < |f.value.items| ensures s.Value(f.value.items[i]) == t.Value(f.value.items[i]) {
        assert forall r :: Mentions(f.value.items[i], r) ==> Mentions(f.value, r);
        ResolvedFromMentions(f.value.items[i], s.row, s.responses, t.responses, s.lib);
      }
    }
  }

  lemma ParamsAlike(d: Endpoint, s: Scope, t: Scope)
    requires Alike(d, s, t)
    ensures SameValues(d.pathParams, s, t) && SameValues(d.queryParams, s, t) && SameValues(d.headers, s, t)
  {
    forall f | f in d.pathParams || f in d.queryParams || f in d.headers ensures SameValue(f.value, s, t) {
      ValueAlike(d, f, s, t);
    }
  }

  lemma {:induction false} SubstitutedAlike(url: string, params: seq<Field>, s: Scope, t: Scope)
    requires SameValues(params, s, t) && s.lib == t.lib
    ensures Substituted(url, params, s) == Substituted(url, params, t)
    decreases |params|
  {
    if params != [] {
      SubstitutedAlike(url, params[..|params| - 1], s, t);
      assert SameValue(params[|params| - 1].value, s, t);
    }
  }

  lemma {:induction false} TextsAlike(items: seq<Json>, s: Scope, t: Scope)
    requires forall i :: 0 <= i < |items| ==> s.Value(items[i]) == t.Value(items[i])
    ensures Texts(items, s) == Texts(items, t)
  {
    if items != [] {
      TextsAlike(items[1..], s, t);
    }
  }

  lemma QueryAlike(base: Query, params: seq<Field>, s: Scope, t: Scope, q: Query)
    requires SameValues(params, s, t)
    ensures QueryFrom(base, params, s, q) <==> QueryFrom(base, params, t, q)
  {
    forall k ensures QueryKeyFrom(base, params, s, q, k) <==> QueryKeyFrom(base, params, t, q, k) {
      GetAt(params, k);
      match Get(params, k)
      case None =>
      case Some(e) =>
        assert SameValue(e, s, t);
        if e.Arr? {
          TextsAlike(e.items, s, t);
        }
    }
  }

  lemma HeadersAlike(params: seq<Field>, s: Scope, t: Scope, h: map<string, string>)
    requires SameValues(params, s, t)
    ensures HeadersFrom(params, s, h) <==> HeadersFrom(params, t, h)
  {
    forall k ensures HeaderValue(params, s, k) == HeaderValue(params, t, k) {
      GetAt(params, k);
    }
  }

  /** Scopes that agree on what a destination mentions render it alike: both or neither
      succeed, and with the same URL, query and headers. */
  lemma RequestFromMentions(d: Endpoint, s: Scope, t: Scope)
    requires Alike(d, s, t)
    ensures Renders(d, s) <==> Renders(d, t)
    ensures forall r :: RendersTo(d, s, r) <==> RendersTo(d, t, r)
  {
    ParamsAlike(d, s, t);
    SubstitutedAlike(d.url, d.pathParams, s, t);
    ResolveAlike(d, s, t);
    forall r ensures RendersTo(d, s, r) <==> RendersTo(d, t, r) {
      HeadersAlike(d.headers, s, t, r.headers);
      if r.query.Some? && s.lib.queryOf(r.url).Some? {
        QueryAlike(s.lib.queryOf(r.url).value, d.queryParams, s, t, r.query.value);
      }
    }
  }

  lemma ResolveAlike(d: Endpoint, s: Scope, t: Scope)
    requires SameValues(d.pathParams, s, t) && SameValues(d.queryParams, s, t) && SameValues(d.headers, s, t)
    ensures AllHaveValues(d.pathParams, s) <==> AllHaveValues(d.pathParams, t)
    ensures forall i :: 0 <= i < |d.queryParams| ==>
      (QueryResolves(d.queryParams[i].value, s) <==> QueryResolves(d.queryParams[i].value, t))
    ensures forall i :: 0 <= i < |d.headers| ==> (Resolves(d.headers[i].value, s) <==> Resolves(d.headers[i].value, t))
  {
    forall i | 0 <= i < |d.queryParams|
      ensures QueryResolves(d.queryParams[i].value, s) <==> QueryResolves(d.queryParams[i].value, t)
    {
      assert SameValue(d.queryParams[i].value, s, t);
    }
    forall i | 0 <= i < |d.pathParams|
      ensures HasValue(d.pathParams[i].value, s) <==> HasValue(d.pathParams[i].value, t)
    {
      assert SameValue(d.pathParams[i].value, s, t);
    }
    assert forall i :: 0 <= i < |d.headers| ==> SameValue(d.headers[i].value, s, t);
  }

  /** Two renderings of one destination in one scope are the same request. */
  lemma RenderedIsUnique(d: Endpoint, s: Scope, a: Rendered, b: Rendered)
    requires RendersTo(d, s, a) && RendersTo(d, s, b)
    ensures a == b
  {
    forall k ensures (k in a.headers <==> k in b.headers) && (k in a.headers ==> a.headers[k] == b.headers[k]) {
      assert (if k in a.headers then Some(a.headers[k]) else None) == HeaderValue(d.headers, s, k);
      assert (if k in b.headers then Some(b.headers[k]) else None) == HeaderValue(d.headers, s, k);
    }
    assert a.headers == b.headers;
    if d.queryParams != [] {
      var base, p, q := s.lib.queryOf(a.url).value, a.query.value, b.query.value;
      forall k ensures (k in p <==> k in q) && (k in p ==> p[k] == q[k]) {
        assert QueryKeyFrom(base, d.queryParams, s, p, k) && QueryKeyFrom(base, d.queryParams, s, q, k);
      }
      assert p == q;
    }
  }

  lemma NotYet(params: seq<Field>, i: nat)
    requires i < |params| && DistinctKeys(params)
    ensures Get(params[..i], params[i].key) == None
  {
    GetAt(params[..i], params[i].key);
  }

  /** The items of one list-valued query parameter. */
  method AddItems(existing: seq<string>, items: seq<Json>, s: Scope) returns (r: Result<seq<string>>)
    ensures r.Ok? <==> forall i :: 0 <= i < |items| ==> Resolves(items[i], s)
    ensures r.Ok? ==> r.value == existing + Texts(items, s)
    ensures r.Excused(step => Mentions(Arr(items), step), s.responses)
  {
    var values := existing;
    for i := 0 to |items|
      invariant forall j :: 0 <= j < i ==> Resolves(items[j], s)
      invariant values == existing + Texts(items[..i], s)
    {
      var v := s.Value(items[i]);
      if v.Err? {
        ResolvedFromMentions(items[i], s.row, s.responses, s.responses, s.lib);
        return Err(v.error);
      }
      TextsSnoc(items[..i], items[i], s);
      assert items[..i + 1] == items[..i] + [items[i]];
      if v.value.Some? {
        values := values + [v.value.value];
      }
    }
    assert items[..|items|] == items;
    r := Ok(values);
  }

  /** One query parameter. */
  method AddParam(q: Query, f: Field, s: Scope) returns (r: Result<Query>)
    ensures r.Ok? <==> QueryResolves(f.value, s)
    ensures r.Ok? ==> QueryKeyFrom(q, [f], s, r.value, f.key)
    ensures r.Ok? ==> forall k :: k != f.key ==> (k in r.value <==> k in q) && (k in q ==> r.value[k] == q[k])
    ensures r.Excused(step => Mentions(f.value, step), s.responses)
  {
    assert Get([f], f.key) == Some(f.value);
    if f.value.Arr? {
      var values := AddItems(if f.key in q then q[f.key] else [], f.value.items, s);
      if values.Err? {
        return Err(values.error);
      }
      return Ok(if values.value != [] then q[f.key := values.value] else q);
    }
    var v := s.Value(f.value);
    if v.Err? {
      ResolvedFromMentions(f.value, s.row, s.responses, s.responses, s.lib);
      return Err(v.error);
    }
    r := Ok(if v.value.Some? then q[f.key := [v.value.value]] else q);
  }

  method AddQuery(base: Query, d: Endpoint, s: Scope) returns (r: Result<Query>)
    requires Proper(d)
    ensures r.Ok? <==> forall i :: 0 <= i < |d.queryParams| ==> QueryResolves(d.queryParams[i].value, s)
    ensures r.Ok? ==> QueryFrom(base, d.queryParams, s, r.value)
    ensures r.Excused(step => Mentions(AsJson(d), step), s.responses)
  {
    var q := base;
    var params := d.queryParams;
    for i := 0 to |params|
      invariant forall j :: 0 <= j < i ==> QueryResolves(params[j].value, s)
      invariant QueryFrom(base, params[..i], s, q)
    {
      var f := params[i];
      MentionedInside(d, f);
      var next := AddParam(q, f, s);
      if next.Err? {
        return next;
      }
      QueryNext(base, params, i, s, q, next.value);
      q := next.value;
    }
    assert params[..|params|] == params;
    r := Ok(q);
  }

  lemma QueryNext(base: Query, params: seq<Field>, i: nat, s: Scope, was: Query, q: Query)
    requires i < |params| && DistinctKeys(params) && QueryFrom(base, params[..i], s, was)
    requires forall k :: k != params[i].key ==> (k in q <==> k in was) && (k in was ==> q[k] == was[k])
    requires QueryKeyFrom(was, [params[i]], s, q, params[i].key)
    ensures QueryFrom(base, params[..i + 1], s, q)
  {
    var f, all := params[i], params[..i + 1];
    assert all == params[..i] + [f];
    NotYet(params, i);
    assert QueryKeyFrom(base, params[..i], s, was, f.key);
    forall k ensures QueryKeyFrom(base, all, s, q, k) {
      GetSnoc(params[..i], f, k);
      GetAt(params[..i], k);
      assert QueryKeyFrom(base, params[..i], s, was, k);
      assert Get([f], f.key) == Some(f.value);
    }
  }

  method FillHeaders(d: Endpoint, s: Scope) returns (r: Result<map<string, string>>)
    requires Proper(d)
    ensures r.Ok? <==> forall i :: 0 <= i < |d.headers| ==> Resolves(d.headers[i].value, s)
    ensures r.Ok? ==> HeadersFrom(d.headers, s, r.value)
    ensures r.Excused(step => Mentions(AsJson(d), step), s.responses)
  {
    var headers := map[];
    for i := 0 to |d.headers|
      invariant forall j :: 0 <= j < i ==> Resolves(d.headers[j].value, s)
      invariant HeadersFrom(d.headers[..i], s, headers)
    {
      var f := d.headers[i];
      var v := s.Value(f.value);
      if v.Err? {
        MentionedInside(d, f);
        ResolvedFromMentions(f.value, s.row, s.responses, s.responses, s.lib);
        return Err(v.error);
      }
      NotYet(d.headers, i);
      assert d.headers[..i + 1] == d.headers[..i] + [f];
      forall k
        ensures HeaderValue(d.headers[..i + 1], s, k) ==
                if k == f.key then v.value else HeaderValue(d.headers[..i], s, k)
      {
        GetSnoc(d.headers[..i], f, k);
      }
      assert HeaderValue(d.headers[..i], s, f.key) == None;
      if v.value.Some? {
        headers := headers[f.key := v.value.value];
      }
    }
    assert d.headers[..|d.headers|] == d.headers;
    r := Ok(headers);
  }

  /** RenderDestination succeeds exactly when every part resolves, puts each value where it
      belongs, and can only miss the response of a step the destination mentions. */
  method RenderDestination(d: Endpoint, s: Scope) returns (r: Result<Rendered>)
    requires Proper(d)
    ensures r.Ok? <==> Renders(d, s)
    ensures r.Ok? ==> RendersTo(d, s, r.value)
    ensures r.Excused(step => Mentions(AsJson(d), step), s.responses)
  {
    var path := FillPath(d, s);
    if path.Err? {
      return Err(path.error);
    }
    var url := path.value;
    var leftover := Leftovers(url);
    NothingLeftOver(url);
    if leftover != [] {
      return Err(Unfilled(leftover));
    }
    var query := None;
    if d.queryParams != [] {
      var base := s.lib.queryOf(url);
      if base.None? {
        return Err(InvalidUrl);
      }
      var q := AddQuery(base.value, d, s);
      if q.Err? {
        return Err(q.error);
      }
      query := Some(q.value);
    }
    var headers := FillHeaders(d, s);
    if headers.Err? {
      return Err(headers.error);
    }
    r := Ok(Rendered(url, query, headers.value));
  }
}
