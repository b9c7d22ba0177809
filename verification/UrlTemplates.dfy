/** URL templates as text: replacing `{name}` everywhere, and the placeholders left over.
    On templates whose literal text holds no braces this fills each placeholder, and only
    the placeholders; with stray braces a filled value can become one itself. */
module UrlTemplates {
  import opened Options

  /** The names the placeholder pattern [A-Za-z_][A-Za-z0-9_]* admits. */
  predicate IsPlaceholder(name: string) {
    && name != "" && !('0' <= name[0] <= '9')
    && forall i :: 0 <= i < |name| ==> NameChar(name[i])
  }

  predicate NameChar(c: char) {
    'A' <= c <= 'Z' || 'a' <= c <= 'z' || c == '_' || '0' <= c <= '9'
  }

  function Braced(name: string): (text: string)
    ensures text != ""
  {
    "{" + name + "}"
  }

  /** Every occurrence from left to right. */
  function ReplaceAll(text: string, mark: string, fill: string): string
    requires mark != ""
    decreases |text|
  {
    if text == "" then ""
    else if mark <= text then fill + ReplaceAll(text[|mark|..], mark, fill)
    else [text[0]] + ReplaceAll(text[1..], mark, fill)
  }

  /** The index of the first closing brace, or the length. */
  function FirstClose(text: string): (p: nat)
    ensures p <= |text| && (p < |text| ==> text[p] == '}') && forall i :: 0 <= i < p ==> text[i] != '}'
  {
    if text == "" || text[0] == '}' then 0 else 1 + FirstClose(text[1..])
  }

  /** The placeholder that starts the text, if one does. */
  function NameAt(text: string): (name: Option<string>)
    ensures name.Some? ==> Braced(name.value) <= text && IsPlaceholder(name.value)
  {
    if text == "" || text[0] != '{' then None
    else
      var p := FirstClose(text);
      if p < |text| && IsPlaceholder(text[1..p]) then Some(text[1..p]) else None
  }

  /** All matches of the placeholder pattern, in order. */
  function Leftovers(text: string): seq<string>
    decreases |text|
  {
    if text == "" then []
    else match NameAt(text)
      case Some(name) => [name] + Leftovers(text[|Braced(name)|..])
      case None => Leftovers(text[1..])
  }

  predicate PlaceholderAt(text: string, i: nat, j: nat) {
    i < j < |text| && text[i] == '{' && text[j] == '}' && IsPlaceholder(text[i + 1..j])
  }

  predicate HasPlaceholder(text: string) {
    exists i: nat, j: nat :: i < |text| && j < |text| && PlaceholderAt(text, i, j)
  }

  /** Nothing is left over exactly when no placeholder stands anywhere in the text. */
  lemma {:induction false} NothingLeftOver(text: string)
    ensures Leftovers(text) == [] <==> !HasPlaceholder(text)
    decreases |text|
  {
    if text != "" {
      if NameAt(text).Some? {
        assert PlaceholderAt(text, 0, FirstClose(text));
      } else {
        NothingLeftOver(text[1..]);
        PlaceholderLater(text);
      }
    }
  }

  /** Without a placeholder at the start, there is one exactly when there is one later. */
  lemma PlaceholderLater(text: string)
    requires text != "" && NameAt(text).None?
    ensures HasPlaceholder(text) <==> HasPlaceholder(text[1..])
  {
    var rest := text[1..];
    if HasPlaceholder(rest) {
      var i: nat, j: nat :| i < |rest| && j < |rest| && PlaceholderAt(rest, i, j);
      assert text[i + 2..j + 1] == rest[i + 1..j];
      assert PlaceholderAt(text, i + 1, j + 1);
    }
    if HasPlaceholder(text) {
      var i: nat, j: nat :| i < |text| && j < |text| && PlaceholderAt(text, i, j);
      ClosesFirst(text, i, j);
      assert rest[i..j - 1] == text[i + 1..j];
      assert PlaceholderAt(rest, i - 1, j - 1);
    }
  }

  /** A placeholder at the start ends at the first closing brace. */
  lemma ClosesFirst(text: string, i: nat, j: nat)
    requires PlaceholderAt(text, i, j)
    ensures i == 0 ==> NameAt(text) == Some(text[1..j])
  {
    if i == 0 {
      var p := FirstClose(text);
      assert forall k :: 1 <= k < j ==> text[k] == text[1..j][k - 1];
      assert forall k :: 0 <= k < j ==> text[k] != '}';
      assert p == j;
    }
  }

  // ----- templates of literal text and placeholders ----------------------------------------

  datatype Part = Lit(text: string) | Hole(name: string)

  predicate NoBraces(text: string) {
    forall i :: 0 <= i < |text| ==> text[i] != '{' && text[i] != '}'
  }

  predicate PlainPart(p: Part) {
    match p
    case Lit(text) => NoBraces(text)
    case Hole(name) => NoBraces(name)
  }

  predicate PlainParts(parts: seq<Part>) {
    forall i :: 0 <= i < |parts| ==> PlainPart(parts[i])
  }

  function PartText(p: Part): string {
    match p
    case Lit(text) => text
    case Hole(name) => Braced(name)
  }

  function Flatten(parts: seq<Part>): string {
    if parts == [] then "" else PartText(parts[0]) + Flatten(parts[1..])
  }

  /** One placeholder filled in everywhere. */
  function FillHole(p: Part, name: string, text: string): Part {
    if p == Hole(name) then Lit(text) else p
  }

  function FillHoles(parts: seq<Part>, name: string, text: string): seq<Part> {
    if parts == [] then [] else [FillHole(parts[0], name, text)] + FillHoles(parts[1..], name, text)
  }

  function OpenHoles(parts: seq<Part>): seq<string> {
    if parts == [] then []
    else (if parts[0].Hole? && IsPlaceholder(parts[0].name) then [parts[0].name] else []) + OpenHoles(parts[1..])
  }

  lemma {:induction false} ReplaceSkips(front: string, rest: string, mark: string, fill: string)
    requires mark != "" && forall i :: 0 <= i < |front| ==> front[i] != mark[0]
    ensures ReplaceAll(front + rest, mark, fill) == front + ReplaceAll(rest, mark, fill)
    decreases |front|
  {
    if front == "" {
      assert front + rest == rest;
    } else {
      var text := front + rest;
      assert text[0] == front[0] && !(mark <= text);
      assert text[1..] == front[1..] + rest;
      ReplaceSkips(front[1..], rest, mark, fill);
      assert front == [front[0]] + front[1..];
    }
  }

  /** Replacing text in the flat template fills exactly that placeholder. */
  lemma {:induction false} ReplaceFillsHoles(parts: seq<Part>, name: string, text: string)
    requires PlainParts(parts) && NoBraces(name) && NoBraces(text)
    ensures ReplaceAll(Flatten(parts), Braced(name), text) == Flatten(FillHoles(parts, name, text))
    ensures PlainParts(FillHoles(parts, name, text))
    decreases |parts|
  {
    if parts != [] {
      var rest := Flatten(parts[1..]);
      assert PlainPart(parts[0]);
      ReplaceFillsHoles(parts[1..], name, text);
      ReplaceInPart(parts[0], rest, name, text);
    }
  }

  lemma ReplaceInPart(p: Part, rest: string, name: string, text: string)
    requires PlainPart(p) && NoBraces(name)
    ensures
      ReplaceAll(PartText(p) + rest, Braced(name), text) ==
      PartText(FillHole(p, name, text)) + ReplaceAll(rest, Braced(name), text)
  {
    var mark := Braced(name);
    if p.Lit? {
      ReplaceSkips(p.text, rest, mark, text);
    } else if p.name == name {
      assert (mark + rest)[|mark|..] == rest;
    } else {
      SkipHole(p.name, rest, name, text);
    }
  }

  lemma SkipHole(other: string, rest: string, name: string, text: string)
    requires NoBraces(other) && NoBraces(name) && other != name
    ensures ReplaceAll(Braced(other) + rest, Braced(name), text) == Braced(other) + ReplaceAll(rest, Braced(name), text)
  {
    var whole, tail := Braced(other) + rest, other + "}";
    if Braced(name) <= whole {
      SameHole(other, name, rest);
    }
    assert whole[1..] == tail + rest && whole[0] == '{';
    ReplaceSkips(tail, rest, Braced(name), text);
    assert Braced(other) == ['{'] + tail;
  }

  /** Only a placeholder's own text starts with it. */
  lemma SameHole(a: string, b: string, rest: string)
    requires NoBraces(a) && NoBraces(b) && Braced(b) <= Braced(a) + rest
    ensures a == b
  {
    var whole := Braced(a) + rest;
    assert Braced(b)[|b| + 1] == '}' && whole[|b| + 1] == '}';
    assert Braced(a)[|a| + 1] == '}' && whole[|a| + 1] == '}';
    assert forall i :: 0 <= i < |a| ==> whole[i + 1] == a[i];
    assert forall i :: 0 <= i < |b| ==> whole[i + 1] == Braced(b)[i + 1] == b[i];
  }

  lemma {:induction false} LeftoversSkip(front: string, rest: string)
    requires forall i :: 0 <= i < |front| ==> front[i] != '{'
    ensures Leftovers(front + rest) == Leftovers(rest)
    decreases |front|
  {
    if front == "" {
      assert front + rest == rest;
    } else {
      assert (front + rest)[1..] == front[1..] + rest;
      LeftoversSkip(front[1..], rest);
    }
  }

  /** On such a template the leftovers are its unfilled placeholders. */
  lemma {:induction false} LeftoversAreOpenHoles(parts: seq<Part>)
    requires PlainParts(parts)
    ensures Leftovers(Flatten(parts)) == OpenHoles(parts)
    decreases |parts|
  {
    if parts != [] {
      var p, rest := parts[0], Flatten(parts[1..]);
      assert PlainPart(p);
      LeftoversAreOpenHoles(parts[1..]);
      if p.Lit? {
        LeftoversSkip(p.text, rest);
      } else {
        LeftoversAtHole(p.name, rest);
      }
    }
  }

  lemma LeftoversAtHole(name: string, rest: string)
    requires NoBraces(name)
    ensures Leftovers(Braced(name) + rest) == (if IsPlaceholder(name) then [name] else []) + Leftovers(rest)
  {
    var text := Braced(name) + rest;
    assert text[0] == '{' && text[|name| + 1] == '}' && text[1..|name| + 1] == name;
    assert forall i :: 0 < i <= |name| ==> text[i] == name[i - 1];
    assert FirstClose(text) == |name| + 1;
    if IsPlaceholder(name) {
      assert text[|Braced(name)|..] == rest;
    } else {
      assert text[1..] == (name + "}") + rest;
      LeftoversSkip(name + "}", rest);
    }
  }

  /** A stray pair of braces turns a filled value into a placeholder of its own. */
  lemma StrayBracesRemain(name: string, value: string)
    requires IsPlaceholder(name) && IsPlaceholder(value)
    ensures ReplaceAll("{" + Braced(name) + "}", Braced(name), value) == Braced(value)
    ensures Leftovers(Braced(value)) == [value]
  {
    var mark := Braced(name);
    var url := "{" + mark + "}";
    assert url[1] == '{' && name[0] != '{' && mark[1] == name[0];
    assert !(mark <= url);
    assert url[1..] == mark + "}" && (mark + "}")[|mark|..] == "}";
    assert ReplaceAll("}", mark, value) == "}" by {
      assert |mark| > 1 && "}"[1..] == "";
    }
    assert Braced(value) + "" == Braced(value);
    LeftoversAtHole(value, "");
  }
}
