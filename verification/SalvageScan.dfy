/** Salvaging complete records from a JSON array that was cut short: the brace-depth
    scanner, and JSON texts of section 2 of RFC 8259 to run it on. */
module SalvageScan {
  import opened Options

  // ----- the scanner ----------------------------------------------------------------------

  datatype Failure = NonUtf8 | NoRecords

  datatype Salvage<+V> = Records(values: seq<V>) | Invalid(why: Failure)

  /** The scanner's variables; `out` holds the bounds of the objects it has closed. */
  datatype Scan = Scan(depth: int, start: Option<nat>, inString: bool, escape: bool, out: seq<(nat, nat)>)

  const INITIAL := Scan(0, None, false, false, [])

  function Step(s: Scan, ch: char, i: nat): Scan {
    if s.inString then
      if s.escape then s.(escape := false)
      else if ch == '\\' then s.(escape := true)
      else if ch == '"' then s.(inString := false)
      else s
    else if ch == '"' then s.(inString := true)
    else if ch == '{' then s.(start := if s.depth == 0 then Some(i) else s.start, depth := s.depth + 1)
    else if ch == '}' then
      if s.depth == 1 && s.start.Some? then s.(depth := 0, start := None, out := s.out + [(s.start.value, i + 1)])
      else s.(depth := s.depth - 1)
    else s
  }

  /** Scanning a text whose first character is at index `at`. */
  function Run(s: Scan, text: string, at: nat): Scan
    decreases |text|
  {
    if text == "" then s else Run(Step(s, text[0], at), text[1..], at + 1)
  }

  lemma {:induction false} RunConcat(s: Scan, a: string, b: string, at: nat)
    ensures Run(s, a + b, at) == Run(Run(s, a, at), b, at + |a|)
    decreases |a|
  {
    if a == "" {
      assert a + b == b;
    } else {
      assert (a + b)[1..] == a[1..] + b;
      RunConcat(Step(s, a[0], at), a[1..], b, at + 1);
    }
  }

  lemma RunNext(text: string, i: nat)
    requires i < |text|
    ensures Run(INITIAL, text[..i + 1], 0) == Step(Run(INITIAL, text[..i], 0), text[i], i)
  {
    var s, ch := Run(INITIAL, text[..i], 0), text[i];
    assert text[..i + 1] == text[..i] + [ch];
    RunConcat(INITIAL, text[..i], [ch], 0);
    assert [ch][1..] == "";
    assert Run(s, [ch], i) == Step(s, ch, i);
  }

  /** Bounds found stay inside what was scanned. */
  predicate Bounded(out: seq<(nat, nat)>, n: nat) {
    forall k :: 0 <= k < |out| ==> out[k].0 < out[k].1 <= n
  }

  /** The slices the parser accepts, in order. */
  function ParsedSlices<V>(text: string, out: seq<(nat, nat)>, parse: string -> Option<V>): seq<V>
    requires Bounded(out, |text|)
  {
    if out == [] then []
    else
      var last := out[|out| - 1];
      var parsed := parse(text[last.0..last.1]);
      ParsedSlices(text, out[..|out| - 1], parse) + if parsed.Some? then [parsed.value] else []
  }

  /** A closed slice is kept when the parser accepts it. */
  method KeepParsed<V>(
    text: string, ghost before: seq<(nat, nat)>, start: nat, end: nat, out: seq<V>, parse: string -> Option<V>
  ) returns (longer: seq<V>)
    requires start < end <= |text| && Bounded(before, |text|) && out == ParsedSlices(text, before, parse)
    ensures Bounded(before + [(start, end)], |text|)
    ensures longer == ParsedSlices(text, before + [(start, end)], parse)
  {
    assert (before + [(start, end)])[..|before|] == before;
    var parsed := parse(text[start..end]);
    longer := if parsed.Some? then out + [parsed.value] else out;
  }

  predicate StateFits(s: Scan, n: nat) {
    Bounded(s.out, n) && (s.start.Some? ==> s.start.value < n)
  }

  lemma StepFits(s: Scan, ch: char, n: nat)
    requires StateFits(s, n)
    ensures StateFits(Step(s, ch, n), n + 1)
  {
  }

  lemma {:induction false} RunFits(s: Scan, text: string, at: nat)
    requires StateFits(s, at)
    ensures StateFits(Run(s, text, at), at + |text|)
    decreases |text|
  {
    if text != "" {
      StepFits(s, text[0], at);
      RunFits(Step(s, text[0], at), text[1..], at + 1);
    }
  }

  /** best_effort_array: one pass over the characters; `decoded` is None for bytes that are
      not UTF-8. */
  method BestEffortArray<V>(decoded: Option<string>, parse: string -> Option<V>) returns (r: Salvage<V>)
    ensures decoded.None? ==> r == Invalid(NonUtf8)
    ensures decoded.Some? ==>
              var s := Run(INITIAL, decoded.value, 0);
              Bounded(s.out, |decoded.value|)
              && var values := ParsedSlices(decoded.value, s.out, parse);
              r == if values == [] then Invalid(NoRecords) else Records(values)
  {
    if decoded.None? {
      return Invalid(NonUtf8);
    }
    var text := decoded.value;
    var out: seq<V> := [];
    var depth, start: Option<nat>, inString, escape := 0, None, false, false;
    ghost var s := INITIAL;
    RunFits(INITIAL, text, 0);
    for i := 0 to |text|
      invariant s == Run(INITIAL, text[..i], 0) && StateFits(s, i)
      invariant (depth, start, inString, escape) == (s.depth, s.start, s.inString, s.escape)
      invariant out == ParsedSlices(text, s.out, parse)
    {
      var ch := text[i];
      RunNext(text, i);
      StepFits(s, ch, i);
      ghost var before := s.out;
      s := Step(s, ch, i);
      if inString {
        if escape {
          escape := false;
        } else if ch == '\\' {
          escape := true;
        } else if ch == '"' {
          inString := false;
        }
        continue;
      }
      if ch == '"' {
        inString := true;
      } else if ch == '{' {
        if depth == 0 {
          start := Some(i);
        }
        depth := depth + 1;
      } else if ch == '}' {
        depth := depth - 1;
        if depth == 0 && start.Some? {
          out := KeepParsed(text, before, start.value, i + 1, out, parse);
          start := None;
        }
      }
    }
    assert text[..|text|] == text;
    r := if out == [] then Invalid(NoRecords) else Records(out);
  }

  // ----- JSON texts ---------------------------------------------------------------------------

  /** One character of a string, as written: section 7 of RFC 8259. */
  datatype Piece = Raw(c: char) | Escaped(c: char) | Unicode(hex: string)

  /** Values as written, with their insignificant whitespace. */
  datatype Value =
    | Scalar(text: string)
    | Text(pieces: seq<Piece>)
    | List(items: seq<Item>, blank: string)
    | Object(members: seq<Member>, blank: string)

  datatype Item = Item(before: string, value: Value, after: string)

  datatype Member = Member(before: string, key: seq<Piece>, colon: string, value: Value, after: string)

  predicate Blank(s: string) {
    forall i :: 0 <= i < |s| ==> s[i] in " \t\n\r"
  }

  predicate PieceOk(p: Piece) {
    match p
    case Raw(c) => c != '"' && c != '\\' && c >= ' '
    case Escaped(c) => c in "\"\\/bfnrt"
    case Unicode(hex) => |hex| == 4 && forall i :: 0 <= i < 4 ==> hex[i] in "0123456789abcdefABCDEF"
  }

  predicate ScalarOk(s: string) {
    s in {"true", "false", "null"} || (s != "" && forall i :: 0 <= i < |s| ==> s[i] in "0123456789+-.eE")
  }

  /** Blanks around a colon: white space, the colon, white space. */
  predicate ColonOk(s: string) {
    exists k :: 0 <= k < |s| && s[k] == ':' && Blank(s[..k]) && Blank(s[k + 1..])
  }

  predicate PiecesOk(pieces: seq<Piece>) {
    forall i :: 0 <= i < |pieces| ==> PieceOk(pieces[i])
  }

  predicate JsonText(v: Value) {
    match v
    case Scalar(text) => ScalarOk(text)
    case Text(pieces) => PiecesOk(pieces)
    case List(items, blank) =>
      Blank(blank) && forall i :: 0 <= i < |items| ==>
        Blank(items[i].before) && JsonText(items[i].value) && Blank(items[i].after)
    case Object(members, blank) =>
      Blank(blank) && forall i :: 0 <= i < |members| ==>
        && Blank(members[i].before)
        && PiecesOk(members[i].key)
        && ColonOk(members[i].colon)
        && JsonText(members[i].value)
        && Blank(members[i].after)
  }

  function PrintPiece(p: Piece): string {
    match p
    case Raw(c) => [c]
    case Escaped(c) => ['\\', c]
    case Unicode(hex) => ['\\', 'u'] + hex
  }

  function PrintPieces(pieces: seq<Piece>): string {
    if pieces == [] then "" else PrintPiece(pieces[0]) + PrintPieces(pieces[1..])
  }

  function Quoted(pieces: seq<Piece>): string {
    "\"" + PrintPieces(pieces) + "\""
  }

  function Print(v: Value): string
    decreases v
  {
    match v
    case Scalar(text) => text
    case Text(pieces) => Quoted(pieces)
    case List(items, blank) => "[" + (if items == [] then blank else PrintItems(items)) + "]"
    case Object(members, blank) => "{" + (if members == [] then blank else PrintMembers(members)) + "}"
  }

  function PrintItem(i: Item): string
    decreases i
  {
    i.before + Print(i.value) + i.after
  }

  function PrintItems(items: seq<Item>): string
    decreases items
  {
    if items == [] then "" else PrintItem(items[0]) + if |items| == 1 then "" else "," + PrintItems(items[1..])
  }

  function PrintMember(m: Member): string
    decreases m
  {
    m.before + Quoted(m.key) + m.colon + Print(m.value) + m.after
  }

  function PrintMembers(members: seq<Member>): string
    decreases members
  {
    if members == [] then ""
    else PrintMember(members[0]) + if |members| == 1 then "" else "," + PrintMembers(members[1..])
  }
}
