/** Which URL templates the check for leftover placeholders judges exactly. A template is cut
    into characters and brace groups; a stray pair of braces is one that closes over name
    characters and given parameters only, so that a filled value makes it a placeholder. */
module StrayBraces {
  import opened Options
  import opened UrlTemplates

  /** One character of a template, or braces with no brace between them. */
  datatype Cell = Char(c: char) | Group(name: string)

  /** The index of the first brace, or the length. */
  function FirstBrace(text: string): (p: nat)
    ensures p <= |text| && (p < |text| ==> text[p] == '{' || text[p] == '}')
    ensures forall i :: 0 <= i < p ==> text[i] != '{' && text[i] != '}'
  {
    if text == "" || text[0] == '{' || text[0] == '}' then 0 else 1 + FirstBrace(text[1..])
  }

  /** The group that starts the text, if one does. */
  function GroupAt(text: string): (name: Option<string>)
    ensures name.Some? ==> NoBraces(name.value) && Braced(name.value) <= text
  {
    if text == "" || text[0] != '{' then None
    else
      var rest := text[1..];
      var p := FirstBrace(rest);
      if p < |rest| && rest[p] == '}' then
        assert text == ['{'] + rest && rest == rest[..p] + ['}'] + rest[p + 1..];
        Some(rest[..p])
      else None
  }

  function Cells(text: string): seq<Cell>
    decreases |text|
  {
    if text == "" then []
    else match GroupAt(text)
      case Some(name) => [Group(name)] + Cells(text[|Braced(name)|..])
      case None => [Char(text[0])] + Cells(text[1..])
  }

  /** The text of some cells with the given groups filled. */
  function Print(cells: seq<Cell>, fill: map<string, string>): string {
    if cells == [] then "" else CellText(cells[0], fill) + Print(cells[1..], fill)
  }

  function CellText(cell: Cell, fill: map<string, string>): string {
    match cell
    case Char(c) => [c]
    case Group(name) => if name in fill then fill[name] else Braced(name)
  }

  // ----- stray pairs ----------------------------------------------------------------------------

  predicate InName(cell: Cell, given: set<string>) {
    match cell
    case Char(c) => NameChar(c)
    case Group(name) => name in given
  }

  predicate BeginsName(cell: Cell, given: set<string>) {
    InName(cell, given) && (cell.Char? ==> !('0' <= cell.c <= '9'))
  }

  /** Name characters and given groups up to a closing brace. */
  predicate Closes(cells: seq<Cell>, given: set<string>) {
    cells != [] && (cells[0] == Char('}') || (InName(cells[0], given) && Closes(cells[1..], given)))
  }

  /** A brace that opens no group, but could open a placeholder once the given ones are filled. */
  predicate StrayAt(cells: seq<Cell>, i: nat, given: set<string>)
    requires i < |cells|
  {
    cells[i] == Char('{') && i + 1 < |cells| && BeginsName(cells[i + 1], given) && Closes(cells[i + 1..], given)
  }

  predicate HasStray(cells: seq<Cell>, given: set<string>) {
    exists i :: 0 <= i < |cells| && StrayAt(cells, i, given)
  }

  /** As `Cells` cuts: groups hold no braces, and no group is left in pieces. */
  predicate WellCut(cells: seq<Cell>) {
    && (forall i :: 0 <= i < |cells| && cells[i].Group? ==> NoBraces(cells[i].name))
    && (forall i :: 0 <= i < |cells| && cells[i] == Char('{') ==> !Closes(cells[i + 1..], {}))
  }

  predicate BraceFreeValues(fill: map<string, string>) {
    forall n :: n in fill ==> NoBraces(fill[n])
  }

  lemma TailStray(cells: seq<Cell>, given: set<string>)
    requires cells != [] && !HasStray(cells, given)
    ensures !HasStray(cells[1..], given)
  {
    forall i | 0 <= i < |cells| - 1 ensures !StrayAt(cells[1..], i, given) {
      assert !StrayAt(cells, i + 1, given);
      assert cells[1..][i + 1..] == cells[i + 2..];
    }
  }

  lemma TailCut(cells: seq<Cell>)
    requires cells != [] && WellCut(cells)
    ensures WellCut(cells[1..])
  {
    forall i | 0 <= i < |cells| - 1 && cells[1..][i] == Char('{') ensures !Closes(cells[1..][i + 1..], {}) {
      assert cells[1..][i + 1..] == cells[i + 2..];
    }
  }

  lemma {:induction false} ClosesMore(cells: seq<Cell>, a: set<string>, b: set<string>)
    requires a <= b && Closes(cells, a)
    ensures Closes(cells, b)
  {
    if cells[0] != Char('}') {
      ClosesMore(cells[1..], a, b);
    }
  }

  // ----- names in the printed text --------------------------------------------------------------

  /** Name characters up to a closing brace. */
  predicate NamePrefix(text: string) {
    text != "" && (text[0] == '}' || (NameChar(text[0]) && NamePrefix(text[1..])))
  }

  lemma {:induction false} NamePrefixSplit(front: string, rest: string)
    requires NoBraces(front) && NamePrefix(front + rest)
    ensures NamePrefix(rest)
    decreases |front|
  {
    if front == "" {
      assert front + rest == rest;
    } else {
      assert (front + rest)[1..] == front[1..] + rest;
      NamePrefixSplit(front[1..], rest);
    }
  }

  lemma {:induction false} NamePrefixConcat(front: string, rest: string)
    requires (forall i :: 0 <= i < |front| ==> NameChar(front[i])) && NamePrefix(rest)
    ensures NamePrefix(front + rest)
    decreases |front|
  {
    if front == "" {
      assert front + rest == rest;
    } else {
      assert (front + rest)[1..] == front[1..] + rest;
      NamePrefixConcat(front[1..], rest);
    }
  }

  /** What reads as the rest of a placeholder closes over name characters and filled groups. */
  lemma {:induction false} PrintCloses(cells: seq<Cell>, fill: map<string, string>)
    requires BraceFreeValues(fill) && NamePrefix(Print(cells, fill))
    ensures Closes(cells, fill.Keys)
    decreases |cells|
  {
    var rest := Print(cells[1..], fill);
    match cells[0]
    case Char(c) =>
      assert Print(cells, fill)[1..] == rest;
      if c != '}' {
        PrintCloses(cells[1..], fill);
      }
    case Group(name) =>
      if name in fill {
        NamePrefixSplit(fill[name], rest);
        PrintCloses(cells[1..], fill);
      }
  }

  predicate NameValues(fill: map<string, string>) {
    forall n :: n in fill ==> forall i :: 0 <= i < |fill[n]| ==> NameChar(fill[n][i])
  }

  /** And the other way round, when the values are name characters. */
  lemma {:induction false} ClosesPrint(cells: seq<Cell>, fill: map<string, string>)
    requires NameValues(fill) && Closes(cells, fill.Keys)
    ensures NamePrefix(Print(cells, fill))
    decreases |cells|
  {
    var rest := Print(cells[1..], fill);
    if cells[0] == Char('}') {
      assert Print(cells, fill)[0] == '}';
    } else {
      ClosesPrint(cells[1..], fill);
      NamePrefixConcat(CellText(cells[0], fill), rest);
    }
  }

  lemma {:induction false} NamePrefixEnd(text: string) returns (p: nat)
    requires NamePrefix(text)
    ensures p < |text| && text[p] == '}' && forall i :: 0 <= i < p ==> NameChar(text[i])
  {
    if text[0] == '}' {
      p := 0;
    } else {
      var q := NamePrefixEnd(text[1..]);
      p := q + 1;
    }
  }

  lemma {:induction false} NamePrefixFrom(text: string, p: nat)
    requires p < |text| && text[p] == '}' && forall i :: 0 <= i < p ==> NameChar(text[i])
    ensures NamePrefix(text)
  {
    if p > 0 {
      NamePrefixFrom(text[1..], p - 1);
    }
  }

  lemma PlaceholderEnds(name: string, text: string)
    requires IsPlaceholder(name) && name + "}" <= text
    ensures NamePrefix(text) && text[0] == name[0]
  {
    forall i | 0 <= i < |name| ensures NameChar(text[i]) {
      assert text[i] == (name + "}")[i];
    }
    assert text[|name|] == (name + "}")[|name|] == '}' && text[0] == (name + "}")[0];
    NamePrefixFrom(text, |name|);
  }

  // ----- cutting --------------------------------------------------------------------------------

  lemma {:induction false} CellsWellCut(text: string)
    ensures Print(Cells(text), map[]) == text && WellCut(Cells(text))
    decreases |text|
  {
    if text != "" {
      match GroupAt(text) {
        case Some(name) =>
          var rest := text[|Braced(name)|..];
          CellsWellCut(rest);
          assert text == Braced(name) + rest;
          CutMore(Group(name), Cells(rest));
          PrintMore(Group(name), Cells(rest), map[]);
        case None =>
          var rest := text[1..];
          CellsWellCut(rest);
          assert text == [text[0]] + rest;
          LooseBrace(text);
          CutMore(Char(text[0]), Cells(rest));
          PrintMore(Char(text[0]), Cells(rest), map[]);
      }
    }
  }

  lemma PrintMore(cell: Cell, cells: seq<Cell>, fill: map<string, string>)
    ensures Print([cell] + cells, fill) == CellText(cell, fill) + Print(cells, fill)
  {
    assert ([cell] + cells)[1..] == cells;
  }

  lemma LooseBrace(text: string)
    requires text != "" && GroupAt(text).None? && Print(Cells(text[1..]), map[]) == text[1..]
    ensures text[0] == '{' ==> !Closes(Cells(text[1..]), {})
  {
    if text[0] == '{' && Closes(Cells(text[1..]), {}) {
      var none: map<string, string> := map[];
      assert none.Keys == {};
      ClosesPrint(Cells(text[1..]), none);
      var p := NamePrefixEnd(text[1..]);
      GroupFound(text, p);
    }
  }

  lemma CutMore(cell: Cell, cells: seq<Cell>)
    requires WellCut(cells) && (cell.Group? ==> NoBraces(cell.name))
    requires cell == Char('{') ==> !Closes(cells, {})
    ensures WellCut([cell] + cells)
  {
    var all := [cell] + cells;
    forall i | 0 <= i < |all| && all[i] == Char('{') ensures !Closes(all[i + 1..], {}) {
      if i == 0 {
        assert all[1..] == cells;
      } else {
        assert all[i + 1..] == cells[i..] && cells[i - 1] == Char('{');
      }
    }
  }

  lemma GroupFound(text: string, p: nat)
    requires text != "" && text[0] == '{' && p < |text[1..]| && text[1..][p] == '}'
    requires forall i :: 0 <= i < p ==> NameChar(text[1..][i])
    ensures GroupAt(text).Some?
  {
    var q := FirstBrace(text[1..]);
    assert forall i :: 0 <= i < p ==> text[1..][i] != '{' && text[1..][i] != '}';
    assert q == p;
  }

  // ----- filling one group ----------------------------------------------------------------------

  /** No loose brace reads as the start of this group. */
  predicate NoMark(cells: seq<Cell>, fill: map<string, string>, name: string) {
    forall i :: 0 <= i < |cells| && cells[i] == Char('{') ==> !(name + "}" <= Print(cells[i + 1..], fill))
  }

  lemma TailNoMark(cells: seq<Cell>, fill: map<string, string>, name: string)
    requires cells != [] && NoMark(cells, fill, name)
    ensures NoMark(cells[1..], fill, name)
  {
    forall i | 0 <= i < |cells| - 1 && cells[1..][i] == Char('{')
      ensures !(name + "}" <= Print(cells[1..][i + 1..], fill))
    {
      assert cells[i + 1] == Char('{') && cells[1..][i + 1..] == cells[i + 2..];
    }
  }

  /** Then replacing its text fills exactly that group. */
  lemma {:induction false} ReplaceFillsGroup(cells: seq<Cell>, fill: map<string, string>, name: string, value: string)
    requires WellCut(cells) && BraceFreeValues(fill) && NoBraces(name) && name !in fill && NoMark(cells, fill, name)
    ensures ReplaceAll(Print(cells, fill), Braced(name), value) == Print(cells, fill[name := value])
    decreases |cells|
  {
    if cells != [] {
      TailCut(cells);
      TailNoMark(cells, fill, name);
      ReplaceFillsGroup(cells[1..], fill, name, value);
      var rest := Print(cells[1..], fill);
      match cells[0]
      case Char(c) => ReplaceSkipsChar(c, rest, name, value);
      case Group(n) =>
        if n in fill {
          ReplaceSkips(fill[n], rest, Braced(name), value);
        } else if n == name {
          assert (Braced(name) + rest)[|Braced(name)|..] == rest;
        } else {
          SkipHole(n, rest, name, value);
        }
    }
  }

  lemma PrefixCons(a: char, x: string, b: char, y: string)
    ensures [a] + x <= [b] + y <==> a == b && x <= y
  {
    var s, t := [a] + x, [b] + y;
    assert s[1..] == x && t[1..] == y && s[0] == a && t[0] == b;
    if s <= t {
      assert t[..|s|] == s;
      assert y[..|x|] == t[1..|s|] == s[1..];
    }
  }

  lemma ReplaceSkipsChar(c: char, rest: string, name: string, value: string)
    requires c == '{' ==> !(name + "}" <= rest)
    ensures ReplaceAll([c] + rest, Braced(name), value) == [c] + ReplaceAll(rest, Braced(name), value)
  {
    var text, mark := [c] + rest, Braced(name);
    assert text[1..] == rest && mark == ['{'] + (name + "}");
    PrefixCons('{', name + "}", c, rest);
  }

  /** Without stray pairs no loose brace ever reads as the start of a placeholder. */
  lemma NoStrayNoMark(cells: seq<Cell>, fill: map<string, string>, name: string, given: set<string>)
    requires !HasStray(cells, given) && fill.Keys <= given && BraceFreeValues(fill) && IsPlaceholder(name)
    ensures NoMark(cells, fill, name)
  {
    forall i | 0 <= i < |cells| && cells[i] == Char('{') ensures !(name + "}" <= Print(cells[i + 1..], fill)) {
      if name + "}" <= Print(cells[i + 1..], fill) {
        MarkIsStray(cells, i, fill, name, given);
      }
    }
  }

  lemma MarkIsStray(cells: seq<Cell>, i: nat, fill: map<string, string>, name: string, given: set<string>)
    requires i < |cells| && cells[i] == Char('{') && name + "}" <= Print(cells[i + 1..], fill)
    requires fill.Keys <= given && BraceFreeValues(fill) && IsPlaceholder(name)
    ensures HasStray(cells, given)
  {
    PlaceholderEnds(name, Print(cells[i + 1..], fill));
    StrayFound(cells[i + 1..], fill, given);
    assert StrayAt(cells, i, given);
  }

  /** What reads as a placeholder after a loose brace makes that brace a stray one. */
  lemma StrayFound(after: seq<Cell>, fill: map<string, string>, given: set<string>)
    requires fill.Keys <= given && BraceFreeValues(fill)
    requires
      var text := Print(after, fill);
      NamePrefix(text) && NameChar(text[0]) && !('0' <= text[0] <= '9')
    ensures after != [] && BeginsName(after[0], given) && Closes(after, given)
  {
    PrintCloses(after, fill);
    ClosesMore(after, fill.Keys, given);
    if after[0].Char? {
      assert Print(after, fill)[0] == after[0].c;
    }
  }

  // ----- filling all of them --------------------------------------------------------------------

  /** As the code does it: one name after the other, each on the text so far. */
  function FillInTurn(url: string, names: seq<string>, values: map<string, string>): string
    requires forall i :: 0 <= i < |names| ==> names[i] in values
  {
    if names == [] then url
    else
      var last := names[|names| - 1];
      ReplaceAll(FillInTurn(url, names[..|names| - 1], values), Braced(last), values[last])
  }

  function Filling(names: seq<string>, values: map<string, string>): map<string, string>
    requires forall i :: 0 <= i < |names| ==> names[i] in values
  {
    map n | n in names :: values[n]
  }

  predicate Distinct(names: seq<string>) {
    forall i, j :: 0 <= i < j < |names| ==> names[i] != names[j]
  }

  predicate AllPlaceholders(names: seq<string>) {
    forall i :: 0 <= i < |names| ==> IsPlaceholder(names[i])
  }

  ghost function Given(names: seq<string>): set<string> {
    set n | n in names
  }

  /** If no loose brace is ever mistaken, filling in turn is filling at once. */
  lemma {:induction false} InTurnIsAtOnce(url: string, names: seq<string>, values: map<string, string>)
    requires (forall i :: 0 <= i < |names| ==> names[i] in values) && BraceFreeValues(values)
    requires Distinct(names) && AllPlaceholders(names)
    requires
      forall k :: 0 <= k < |names| ==> NoMark(Cells(url), Filling(names[..k], values), names[k])
    ensures FillInTurn(url, names, values) == Print(Cells(url), Filling(names, values))
    decreases |names|
  {
    CellsWellCut(url);
    if names == [] {
      assert Filling(names, values) == map[];
    } else {
      var front, last := names[..|names| - 1], names[|names| - 1];
      forall k | 0 <= k < |front| ensures NoMark(Cells(url), Filling(front[..k], values), front[k]) {
        assert front[..k] == names[..k];
      }
      InTurnIsAtOnce(url, front, values);
      FillingNext(names, values);
      assert NoMark(Cells(url), Filling(front, values), last);
      NameHasNoBraces(last);
      ReplaceFillsGroup(Cells(url), Filling(front, values), last, values[last]);
    }
  }

  lemma FillingNext(names: seq<string>, values: map<string, string>)
    requires names != [] && Distinct(names) && forall i :: 0 <= i < |names| ==> names[i] in values
    ensures
      var front, last := names[..|names| - 1], names[|names| - 1];
      && last !in Filling(front, values)
      && Filling(names, values) == Filling(front, values)[last := values[last]]
  {
    var front, last := names[..|names| - 1], names[|names| - 1];
    assert names == front + [last];
    assert forall n :: n in names <==> n in front || n == last;
  }

  lemma NameHasNoBraces(name: string)
    requires IsPlaceholder(name)
    ensures NoBraces(name)
  {
    assert forall i :: 0 <= i < |name| ==> NameChar(name[i]);
  }

  // ----- what is left over ----------------------------------------------------------------------

  /** The placeholders not given, in order. */
  function Open(cells: seq<Cell>, given: set<string>): seq<string> {
    if cells == [] then []
    else
      var c := cells[0];
      (if c.Group? && IsPlaceholder(c.name) && c.name !in given then [c.name] else []) + Open(cells[1..], given)
  }

  /** Without stray pairs the leftovers are those, whatever the values. */
  lemma {:induction false} LeftoversAreOpen(cells: seq<Cell>, fill: map<string, string>)
    requires WellCut(cells) && BraceFreeValues(fill) && !HasStray(cells, fill.Keys)
    ensures Leftovers(Print(cells, fill)) == Open(cells, fill.Keys)
    decreases |cells|
  {
    if cells != [] {
      TailCut(cells);
      TailStray(cells, fill.Keys);
      LeftoversAreOpen(cells[1..], fill);
      var rest := Print(cells[1..], fill);
      match cells[0]
      case Char(c) =>
        assert ([c] + rest)[1..] == rest;
        if c == '{' {
          NoNameHere(cells, fill);
        }
      case Group(n) =>
        if n in fill {
          LeftoversSkip(fill[n], rest);
        } else {
          LeftoversAtHole(n, rest);
        }
    }
  }

  lemma NoNameHere(cells: seq<Cell>, fill: map<string, string>)
    requires cells != [] && cells[0] == Char('{') && BraceFreeValues(fill) && !HasStray(cells, fill.Keys)
    ensures NameAt(Print(cells, fill)).None?
  {
    if NameAt(Print(cells, fill)).Some? {
      NameIsStray(cells, fill);
    }
  }

  lemma NameIsStray(cells: seq<Cell>, fill: map<string, string>)
    requires cells != [] && cells[0] == Char('{') && BraceFreeValues(fill) && NameAt(Print(cells, fill)).Some?
    ensures HasStray(cells, fill.Keys)
  {
    var rest := Print(cells[1..], fill);
    assert Print(cells, fill) == ['{'] + rest;
    var name := NameAt(['{'] + rest).value;
    assert Braced(name) == ['{'] + (name + "}");
    PrefixCons('{', name + "}", '{', rest);
    MarkIsStray(cells, 0, fill, name, fill.Keys);
  }

  /** The placeholders of the template itself. */
  lemma PlaceholdersOf(url: string)
    ensures Leftovers(url) == Open(Cells(url), {})
  {
    var none: map<string, string> := map[];
    assert none.Keys == {};
    CellsWellCut(url);
    LeftoversAreOpen(Cells(url), none);
  }

  /** Every placeholder of the template has a parameter. */
  predicate AllGiven(url: string, names: seq<string>) {
    forall n :: n in Leftovers(url) ==> n in names
  }

  lemma {:induction false} OpenGiven(cells: seq<Cell>, given: set<string>)
    ensures Open(cells, given) == [] <==> forall n :: n in Open(cells, {}) ==> n in given
  {
    if cells != [] {
      OpenGiven(cells[1..], given);
      var first := cells[0];
      if first.Group? && IsPlaceholder(first.name) {
        assert Open(cells, {}) == [first.name] + Open(cells[1..], {});
      } else {
        assert Open(cells, {}) == Open(cells[1..], {});
      }
    }
  }

  // ----- a missing parameter is always noticed ----------------------------------------------------

  predicate Holds(text: string, part: string) {
    exists i :: 0 <= i <= |text| && part <= text[i..]
  }

  lemma HoldsConcat(a: string, part: string, b: string)
    ensures Holds(a + part + b, part)
  {
    assert (a + part + b)[|a|..] == part + b;
  }

  /** A marker survives the replacement of any other. */
  lemma {:induction false} MarkSurvives(front: string, kept: string, rest: string, name: string, value: string)
    requires NoBraces(kept) && NoBraces(name) && kept != name
    ensures Holds(ReplaceAll(front + (Braced(kept) + rest), Braced(name), value), Braced(kept))
    decreases |front|
  {
    var mark, tail := Braced(name), Braced(kept) + rest;
    var text := front + tail;
    if front == "" {
      assert text == tail;
      SkipHole(kept, rest, name, value);
      HoldsConcat("", Braced(kept), ReplaceAll(rest, mark, value));
      assert "" + Braced(kept) + ReplaceAll(rest, mark, value) == Braced(kept) + ReplaceAll(rest, mark, value);
    } else if mark <= text {
      MarkEndsFirst(front, kept, rest, name);
      var behind := front[|mark|..];
      assert text[|mark|..] == behind + tail;
      MarkSurvives(behind, kept, rest, name, value);
      HoldsMore(value, ReplaceAll(behind + tail, mark, value), Braced(kept));
    } else {
      assert text[1..] == front[1..] + tail;
      MarkSurvives(front[1..], kept, rest, name, value);
      HoldsMore([text[0]], ReplaceAll(front[1..] + tail, mark, value), Braced(kept));
    }
  }

  lemma HoldsMore(a: string, b: string, part: string)
    requires Holds(b, part)
    ensures Holds(a + b, part)
  {
    var i :| 0 <= i <= |b| && part <= b[i..];
    assert (a + b)[|a| + i..] == b[i..];
  }

  /** A marker that starts in front of another one ends in front of it. */
  lemma MarkEndsFirst(front: string, kept: string, rest: string, name: string)
    requires front != "" && NoBraces(name) && Braced(name) <= front + (Braced(kept) + rest)
    ensures |Braced(name)| <= |front|
  {
    var text, mark := front + (Braced(kept) + rest), Braced(name);
    assert text[|front|] == '{';
    assert mark[|name| + 1] == '}' && forall i :: 0 < i <= |name| ==> mark[i] == name[i - 1];
  }

  lemma {:induction false} MissingStays(url: string, names: seq<string>, values: map<string, string>, kept: string)
    requires (forall i :: 0 <= i < |names| ==> names[i] in values && NoBraces(names[i])) && NoBraces(kept)
    requires kept !in names && Holds(url, Braced(kept))
    ensures Holds(FillInTurn(url, names, values), Braced(kept))
    decreases |names|
  {
    if names != [] {
      var front, last := names[..|names| - 1], names[|names| - 1];
      assert kept !in front && last in names;
      MissingStays(url, front, values, kept);
      var text := FillInTurn(url, front, values);
      var i :| 0 <= i <= |text| && Braced(kept) <= text[i..];
      var rest := text[i..][|Braced(kept)|..];
      assert text == text[..i] + (Braced(kept) + rest);
      MarkSurvives(text[..i], kept, rest, last, values[last]);
    }
  }

  lemma HeldPlaceholder(text: string, name: string)
    requires Holds(text, Braced(name)) && IsPlaceholder(name)
    ensures HasPlaceholder(text)
  {
    var i :| 0 <= i <= |text| && Braced(name) <= text[i..];
    var j := i + |name| + 1;
    assert text[i..][0] == '{' && text[i..][|name| + 1] == '}';
    assert text[i..][1..|name| + 1] == Braced(name)[1..|name| + 1] == name;
    assert text[i + 1..j] == text[i..][1..|name| + 1];
    assert PlaceholderAt(text, i, j);
  }

  lemma {:induction false} LeftoverHeld(text: string, name: string)
    requires name in Leftovers(text)
    ensures Holds(text, Braced(name)) && IsPlaceholder(name)
    decreases |text|
  {
    if text != "" {
      match NameAt(text) {
        case Some(first) =>
          if first == name {
            assert text[0..] == text;
          } else {
            var rest := text[|Braced(first)|..];
            LeftoverHeld(rest, name);
            assert text == Braced(first) + rest;
            HoldsMore(Braced(first), rest, Braced(name));
          }
        case None =>
          LeftoverHeld(text[1..], name);
          assert text == [text[0]] + text[1..];
          HoldsMore([text[0]], text[1..], Braced(name));
      }
    }
  }

  /** Whatever else the template holds, a placeholder without a parameter is left over. */
  lemma MissingIsNoticed(url: string, names: seq<string>, values: map<string, string>)
    requires forall i :: 0 <= i < |names| ==> names[i] in values && NoBraces(names[i])
    requires !AllGiven(url, names)
    ensures HasPlaceholder(FillInTurn(url, names, values))
  {
    var kept :| kept in Leftovers(url) && kept !in names;
    LeftoverHeld(url, kept);
    NameHasNoBraces(kept);
    MissingStays(url, names, values, kept);
    HeldPlaceholder(FillInTurn(url, names, values), kept);
  }

  // ----- a stray pair can always fail -------------------------------------------------------------

  /** A name longer than every parameter's. */
  function LongName(names: seq<string>): (w: string)
    ensures w != "" && forall i :: 0 <= i < |w| ==> w[i] == 'a'
    ensures forall i :: 0 <= i < |names| ==> |w| > |names[i]|
    decreases |names|
  {
    if names == [] then "a"
    else
      var last := names[|names| - 1];
      var w := LongName(names[..|names| - 1]);
      if |w| > |last| then w else seq(|last| + 1, i => 'a')
  }

  /** A loose brace reaches its closing one only past a filled value. */
  lemma {:induction false} ClosesLate(cells: seq<Cell>, fill: map<string, string>, w: string)
    requires (forall n :: n in fill ==> fill[n] == w) && NoBraces(w)
    requires Closes(cells, fill.Keys) && !Closes(cells, {})
    ensures forall i :: 0 <= i < |w| && i < |Print(cells, fill)| ==> Print(cells, fill)[i] != '}'
    decreases |cells|
  {
    var rest := Print(cells[1..], fill);
    match cells[0]
    case Char(c) =>
      ClosesLate(cells[1..], fill, w);
      assert Print(cells, fill) == [c] + rest;
    case Group(n) =>
      assert Print(cells, fill) == w + rest;
  }

  /** So no short name is mistaken for one of the groups. */
  lemma LongNoMark(cells: seq<Cell>, fill: map<string, string>, w: string, name: string)
    requires WellCut(cells) && (forall n :: n in fill ==> fill[n] == w) && NoBraces(w)
    requires IsPlaceholder(name) && |name| < |w|
    ensures NoMark(cells, fill, name)
  {
    forall i | 0 <= i < |cells| && cells[i] == Char('{') ensures !(name + "}" <= Print(cells[i + 1..], fill)) {
      var text := Print(cells[i + 1..], fill);
      if name + "}" <= text {
        PlaceholderEnds(name, text);
        PrintCloses(cells[i + 1..], fill);
        assert text[|name|] == (name + "}")[|name|];
        ClosesLate(cells[i + 1..], fill, w);
      }
    }
  }

  /** With name characters for values, a stray pair is a placeholder of the filled text. */
  lemma {:induction false} StrayIsLeft(cells: seq<Cell>, i: nat, fill: map<string, string>, w: string)
    requires i < |cells| && StrayAt(cells, i, fill.Keys)
    requires w != "" && (forall j :: 0 <= j < |w| ==> w[j] == 'a') && forall n :: n in fill ==> fill[n] == w
    ensures HasPlaceholder(Print(cells, fill))
    decreases i
  {
    var rest := Print(cells[1..], fill);
    if i > 0 {
      assert cells[i..] == cells[1..][i - 1..] && cells[i + 1..] == cells[1..][i..];
      StrayIsLeft(cells[1..], i - 1, fill, w);
      PlaceholderBehind(CellText(cells[0], fill), rest);
    } else {
      ClosesPrint(cells[1..], fill);
      assert rest[0] == CellText(cells[1], fill)[0];
      var p := NamePrefixEnd(rest);
      var text := ['{'] + rest;
      assert text[1..] == rest && text[1..p + 1] == text[1..][..p];
      assert PlaceholderAt(text, 0, p + 1);
    }
  }

  lemma PlaceholderBehind(a: string, b: string)
    requires HasPlaceholder(b)
    ensures HasPlaceholder(a + b)
  {
    var i: nat, j: nat :| i < |b| && j < |b| && PlaceholderAt(b, i, j);
    assert (a + b)[|a| + i + 1..|a| + j] == b[i + 1..j];
    assert PlaceholderAt(a + b, |a| + i, |a| + j);
  }

  // ----- the exact condition ----------------------------------------------------------------------

  /** Percent-encoding: no brace is left, and letters stay as they are. */
  ghost predicate Escaping(escape: string -> string) {
    && (forall v :: NoBraces(escape(v)))
    && forall v :: (forall i :: 0 <= i < |v| ==> 'a' <= v[i] <= 'z') ==> escape(v) == v
  }

  /** Given values, escaped. */
  function Escaped(given: map<string, string>, escape: string -> string): map<string, string> {
    map n | n in given :: escape(given[n])
  }

  /** With these values the check passes exactly when every placeholder has a parameter. */
  predicate JudgedRightly(url: string, names: seq<string>, values: map<string, string>)
    requires forall i :: 0 <= i < |names| ==> names[i] in values
  {
    HasPlaceholder(FillInTurn(url, names, values)) <==> !AllGiven(url, names)
  }

  /** Without stray pairs exactly the parameters not given are reported, in order. */
  lemma NoStrayReportsMissing(url: string, names: seq<string>, values: map<string, string>)
    requires Distinct(names) && AllPlaceholders(names) && !HasStray(Cells(url), Given(names))
    requires (forall i :: 0 <= i < |names| ==> names[i] in values) && BraceFreeValues(values)
    ensures Leftovers(FillInTurn(url, names, values)) == Open(Cells(url), Given(names))
    ensures JudgedRightly(url, names, values)
  {
    CellsWellCut(url);
    NoStrayNoMarks(url, names, values);
    InTurnIsAtOnce(url, names, values);
    var fill := Filling(names, values);
    assert fill.Keys == Given(names);
    LeftoversAreOpen(Cells(url), fill);
    NothingLeftOver(FillInTurn(url, names, values));
    AllGivenOpen(url, names);
  }

  lemma AllGivenOpen(url: string, names: seq<string>)
    ensures AllGiven(url, names) <==> Open(Cells(url), Given(names)) == []
  {
    PlaceholdersOf(url);
    OpenGiven(Cells(url), Given(names));
    assert forall n :: n in Given(names) <==> n in names;
  }

  lemma NoStrayNoMarks(url: string, names: seq<string>, values: map<string, string>)
    requires AllPlaceholders(names) && !HasStray(Cells(url), Given(names))
    requires (forall i :: 0 <= i < |names| ==> names[i] in values) && BraceFreeValues(values)
    ensures forall k :: 0 <= k < |names| ==> NoMark(Cells(url), Filling(names[..k], values), names[k])
  {
    forall k | 0 <= k < |names| ensures NoMark(Cells(url), Filling(names[..k], values), names[k]) {
      var fill := Filling(names[..k], values);
      assert fill.Keys <= Given(names);
      NoStrayNoMark(Cells(url), fill, names[k], Given(names));
    }
  }

  /** With a stray pair some values fail although nothing is missing. */
  lemma StrayCanFail(url: string, names: seq<string>) returns (given: map<string, string>)
    requires Distinct(names) && AllPlaceholders(names) && HasStray(Cells(url), Given(names))
    ensures given.Keys == Given(names) && forall n :: n in given ==> given[n] == LongName(names)
    ensures HasPlaceholder(FillInTurn(url, names, given))
  {
    var w := LongName(names);
    given := map n | n in names :: w;
    CellsWellCut(url);
    forall k | 0 <= k < |names| ensures NoMark(Cells(url), Filling(names[..k], given), names[k]) {
      LongNoMark(Cells(url), Filling(names[..k], given), w, names[k]);
    }
    InTurnIsAtOnce(url, names, given);
    var fill := Filling(names, given);
    assert fill.Keys == Given(names);
    var i :| 0 <= i < |Cells(url)| && StrayAt(Cells(url), i, Given(names));
    StrayIsLeft(Cells(url), i, fill, w);
  }

  /** It judges the template rightly whatever the values are. */
  ghost predicate AlwaysRight(url: string, names: seq<string>, escape: string -> string) {
    forall given: map<string, string> {:trigger Escaped(given, escape)} :: Given(names) <= given.Keys ==>
      JudgedRightly(url, names, Escaped(given, escape))
  }

  /** Exactly: the check judges a template rightly for all values of its parameters if and
      only if a parameter is missing anyway or the template has no stray pair. */
  lemma JudgedRightlyIff(url: string, names: seq<string>, escape: string -> string)
    requires Distinct(names) && AllPlaceholders(names) && Escaping(escape)
    ensures AlwaysRight(url, names, escape) <==> !AllGiven(url, names) || !HasStray(Cells(url), Given(names))
  {
    if !AllGiven(url, names) || !HasStray(Cells(url), Given(names)) {
      forall given: map<string, string> | Given(names) <= given.Keys
        ensures JudgedRightly(url, names, Escaped(given, escape))
      {
        RightlyWithout(url, names, Escaped(given, escape));
      }
    } else {
      var given := WrongOnce(url, names, escape);
    }
  }

  lemma WrongOnce(url: string, names: seq<string>, escape: string -> string) returns (given: map<string, string>)
    requires Distinct(names) && AllPlaceholders(names) && Escaping(escape)
    requires AllGiven(url, names) && HasStray(Cells(url), Given(names))
    ensures Given(names) <= given.Keys && !JudgedRightly(url, names, Escaped(given, escape))
  {
    given := StrayCanFail(url, names);
    EscapedAlike(given, LongName(names), escape);
  }

  lemma EscapedAlike(given: map<string, string>, w: string, escape: string -> string)
    requires Escaping(escape) && (forall i :: 0 <= i < |w| ==> w[i] == 'a') && forall n :: n in given ==> given[n] == w
    ensures Escaped(given, escape) == given
  {
    assert forall i :: 0 <= i < |w| ==> 'a' <= w[i] <= 'z';
    assert escape(w) == w;
  }

  lemma RightlyWithout(url: string, names: seq<string>, values: map<string, string>)
    requires Distinct(names) && AllPlaceholders(names) && Given(names) <= values.Keys && BraceFreeValues(values)
    requires !AllGiven(url, names) || !HasStray(Cells(url), Given(names))
    ensures JudgedRightly(url, names, values)
  {
    if !AllGiven(url, names) {
      forall i | 0 <= i < |names| ensures NoBraces(names[i]) {
        NameHasNoBraces(names[i]);
      }
      MissingIsNoticed(url, names, values);
    } else {
      NoStrayReportsMissing(url, names, values);
    }
  }
}
