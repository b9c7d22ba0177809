/** What the salvage scanner returns for any array of objects, cut anywhere. */
module SalvageTheorems {
  import opened Options
  import opened SalvageScan

  // ----- texts that emit nothing --------------------------------------------------------------

  /** Scanning the text leads from s to t, and no prefix of it emits anything. */
  ghost predicate Passes(s: Scan, text: string, at: nat, t: Scan) {
    && Run(s, text, at) == t && t.out == s.out
    && forall k :: 0 <= k <= |text| ==> Silent(s, text, at, k)
  }

  predicate Silent(s: Scan, text: string, at: nat, k: nat)
    requires k <= |text|
  {
    Run(s, text[..k], at).out == s.out
  }

  lemma PassConcat(s: Scan, a: string, t: Scan, b: string, u: Scan, at: nat)
    requires Passes(s, a, at, t) && Passes(t, b, at + |a|, u)
    ensures Passes(s, a + b, at, u)
  {
    RunConcat(s, a, b, at);
    forall k | 0 <= k <= |a + b| ensures Silent(s, a + b, at, k) {
      if k <= |a| {
        assert (a + b)[..k] == a[..k];
        assert Silent(s, a, at, k);
      } else {
        assert (a + b)[..k] == a + b[..k - |a|];
        RunConcat(s, a, b[..k - |a|], at);
        assert Silent(t, b, at + |a|, k - |a|);
      }
    }
  }

  lemma PassEmpty(s: Scan, at: nat)
    ensures Passes(s, "", at, s)
  {
  }

  /** One character that closes no object at the top. */
  lemma PassChar(s: Scan, ch: char, at: nat)
    requires Step(s, ch, at).out == s.out
    ensures Passes(s, [ch], at, Step(s, ch, at))
  {
    assert [ch][1..] == "";
    assert Run(s, [ch], at) == Step(s, ch, at);
    forall k | 0 <= k <= 1 ensures Silent(s, [ch], at, k) {
      assert k == 1 ==> [ch][..k] == [ch];
    }
  }

  /** Outside strings, text without quotes and braces changes nothing. */
  lemma {:induction false} PassPlain(s: Scan, text: string, at: nat)
    requires !s.inString && forall i :: 0 <= i < |text| ==> text[i] !in "\"{}"
    ensures Passes(s, text, at, s)
    decreases |text|
  {
    if text == "" {
      PassEmpty(s, at);
    } else {
      assert text == [text[0]] + text[1..];
      assert text[0] !in "\"{}";
      PassChar(s, text[0], at);
      PassPlain(s, text[1..], at + 1);
      PassConcat(s, [text[0]], s, text[1..], s, at);
    }
  }

  /** Inside a string, its pieces come back to the same place: an escape protects exactly
      the character after it. */
  lemma {:induction false} PassPieces(s: Scan, pieces: seq<Piece>, at: nat)
    requires s.inString && !s.escape && PiecesOk(pieces)
    ensures Passes(s, PrintPieces(pieces), at, s)
    decreases |pieces|
  {
    if pieces == [] {
      PassEmpty(s, at);
    } else {
      var first := PrintPiece(pieces[0]);
      PassPiece(s, pieces[0], at);
      PassPieces(s, pieces[1..], at + |first|);
      PassConcat(s, first, s, PrintPieces(pieces[1..]), s, at);
    }
  }

  lemma PassPiece(s: Scan, p: Piece, at: nat)
    requires s.inString && !s.escape && PieceOk(p)
    ensures Passes(s, PrintPiece(p), at, s)
  {
    match p
    case Raw(c) => PassChar(s, c, at);
    case Escaped(c) => PassEscape(s, c, at);
    case Unicode(hex) =>
      PassEscape(s, 'u', at);
      HexIsInside(hex);
      PassInside(s, hex, at + 2);
      PassConcat(s, ['\\', 'u'], s, hex, s, at);
  }

  lemma PassEscape(s: Scan, c: char, at: nat)
    requires s.inString && !s.escape
    ensures Passes(s, ['\\', c], at, s)
  {
    var t := s.(escape := true);
    PassChar(s, '\\', at);
    PassChar(t, c, at + 1);
    PassConcat(s, ['\\'], t, [c], s, at);
    assert ['\\'] + [c] == ['\\', c];
  }

  lemma HexIsInside(hex: string)
    requires forall i :: 0 <= i < |hex| ==> hex[i] in "0123456789abcdefABCDEF"
    ensures forall i :: 0 <= i < |hex| ==> hex[i] != '"' && hex[i] != '\\'
  {
    assert '"' !in "0123456789abcdefABCDEF" && '\\' !in "0123456789abcdefABCDEF";
  }

  /** Inside a string, characters that are neither quotes nor escapes change nothing. */
  lemma {:induction false} PassInside(s: Scan, text: string, at: nat)
    requires s.inString && !s.escape && forall i :: 0 <= i < |text| ==> text[i] != '"' && text[i] != '\\'
    ensures Passes(s, text, at, s)
    decreases |text|
  {
    if text == "" {
      PassEmpty(s, at);
    } else {
      assert text == [text[0]] + text[1..];
      PassChar(s, text[0], at);
      PassInside(s, text[1..], at + 1);
      PassConcat(s, [text[0]], s, text[1..], s, at);
    }
  }

  lemma PassQuoted(s: Scan, pieces: seq<Piece>, at: nat)
    requires !s.inString && !s.escape && PiecesOk(pieces)
    ensures Passes(s, Quoted(pieces), at, s)
  {
    var t, body := s.(inString := true), PrintPieces(pieces);
    PassChar(s, '"', at);
    PassPieces(t, pieces, at + 1);
    PassConcat(s, "\"", t, body, t, at);
    PassChar(t, '"', at + 1 + |body|);
    PassConcat(s, "\"" + body, t, "\"", s, at);
  }

  /** The scanner is inside a record, between tokens. */
  predicate Within(s: Scan) {
    s.depth >= 1 && !s.inString && !s.escape
  }

  /** Inside a record no value emits anything, whatever it holds. */
  lemma {:induction false} PassValue(s: Scan, v: Value, at: nat)
    requires Within(s) && JsonText(v)
    ensures Passes(s, Print(v), at, s)
    decreases v
  {
    match v
    case Scalar(text) => PassScalar(s, text, at);
    case Text(pieces) => PassQuoted(s, pieces, at);
    case List(items, blank) =>
      if items == [] {
        PassPlain(s, blank, at + 1);
        PassBracketed(s, blank, at);
      } else {
        PassItems(s, items, at + 1);
        PassBracketed(s, PrintItems(items), at);
      }
    case Object(members, blank) =>
      PassBody(s.(depth := s.depth + 1), v, at + 1);
      PassBraced(s, ObjectBody(v), at);
  }

  lemma PassBracketed(s: Scan, body: string, at: nat)
    requires Within(s) && Passes(s, body, at + 1, s)
    ensures Passes(s, "[" + body + "]", at, s)
  {
    PassPlain(s, "[", at);
    PassConcat(s, "[", s, body, s, at);
    PassPlain(s, "]", at + 1 + |body|);
    PassConcat(s, "[" + body, s, "]", s, at);
  }

  lemma PassBraced(s: Scan, body: string, at: nat)
    requires Within(s) && Passes(s.(depth := s.depth + 1), body, at + 1, s.(depth := s.depth + 1))
    ensures Passes(s, "{" + body + "}", at, s)
  {
    var t := s.(depth := s.depth + 1);
    PassChar(s, '{', at);
    PassConcat(s, "{", t, body, t, at);
    PassChar(t, '}', at + 1 + |body|);
    PassConcat(s, "{" + body, t, "}", s, at);
  }

  lemma PassScalar(s: Scan, text: string, at: nat)
    requires !s.inString && ScalarOk(text)
    ensures Passes(s, text, at, s)
  {
    PassPlain(s, text, at);
  }

  function ObjectBody(v: Value): string
    requires v.Object?
  {
    if v.members == [] then v.blank else PrintMembers(v.members)
  }

  lemma {:induction false} PassBody(s: Scan, v: Value, at: nat)
    requires Within(s) && v.Object? && JsonText(v)
    ensures Passes(s, ObjectBody(v), at, s)
    decreases v, 0
  {
    if v.members == [] {
      PassPlain(s, v.blank, at);
    } else {
      PassMembers(s, v.members, at);
    }
  }

  predicate ItemOk(i: Item) {
    Blank(i.before) && JsonText(i.value) && Blank(i.after)
  }

  lemma PassComma(s: Scan, first: string, rest: string, at: nat)
    requires !s.inString && Passes(s, first, at, s) && Passes(s, rest, at + |first| + 1, s)
    ensures Passes(s, first + ("," + rest), at, s)
  {
    PassPlain(s, ",", at + |first|);
    PassConcat(s, ",", s, rest, s, at + |first|);
    PassConcat(s, first, s, "," + rest, s, at);
  }

  lemma {:induction false} PassItem(s: Scan, item: Item, at: nat)
    requires Within(s) && ItemOk(item)
    ensures Passes(s, PrintItem(item), at, s)
    decreases item
  {
    var value := Print(item.value);
    PassPlain(s, item.before, at);
    PassValue(s, item.value, at + |item.before|);
    PassConcat(s, item.before, s, value, s, at);
    PassPlain(s, item.after, at + |item.before + value|);
    PassConcat(s, item.before + value, s, item.after, s, at);
  }

  lemma {:induction false} PassItems(s: Scan, items: seq<Item>, at: nat)
    requires Within(s) && forall i :: 0 <= i < |items| ==> ItemOk(items[i])
    ensures Passes(s, PrintItems(items), at, s)
    decreases items
  {
    if items == [] {
      PassEmpty(s, at);
    } else {
      var first := PrintItem(items[0]);
      PassItem(s, items[0], at);
      if |items| == 1 {
        assert first + "" == first;
      } else {
        PassItems(s, items[1..], at + |first| + 1);
        PassComma(s, first, PrintItems(items[1..]), at);
      }
    }
  }

  predicate MemberOk(m: Member) {
    Blank(m.before) && PiecesOk(m.key) && ColonOk(m.colon) && JsonText(m.value) && Blank(m.after)
  }

  lemma ColonIsPlain(colon: string)
    requires ColonOk(colon)
    ensures forall i :: 0 <= i < |colon| ==> colon[i] !in "\"{}"
  {
    var k :| 0 <= k < |colon| && colon[k] == ':' && Blank(colon[..k]) && Blank(colon[k + 1..]);
    forall i | 0 <= i < |colon| ensures colon[i] !in "\"{}" {
      if i < k {
        assert colon[i] == colon[..k][i];
      } else if i > k {
        assert colon[i] == colon[k + 1..][i - k - 1];
      }
    }
  }

  lemma PassBlank(s: Scan, text: string, at: nat)
    requires !s.inString && Blank(text)
    ensures Passes(s, text, at, s)
  {
    PassPlain(s, text, at);
  }

  lemma PassColon(s: Scan, text: string, at: nat)
    requires !s.inString && ColonOk(text)
    ensures Passes(s, text, at, s)
  {
    ColonIsPlain(text);
    PassPlain(s, text, at);
  }

  lemma PassMemberName(s: Scan, m: Member, at: nat)
    requires Within(s) && MemberOk(m)
    ensures Passes(s, m.before + Quoted(m.key) + m.colon, at, s)
  {
    var key := Quoted(m.key);
    PassBlank(s, m.before, at);
    PassQuoted(s, m.key, at + |m.before|);
    PassConcat(s, m.before, s, key, s, at);
    PassColon(s, m.colon, at + |m.before + key|);
    PassConcat(s, m.before + key, s, m.colon, s, at);
  }

  lemma {:induction false} PassMember(s: Scan, m: Member, at: nat)
    requires Within(s) && MemberOk(m)
    ensures Passes(s, PrintMember(m), at, s)
    decreases m
  {
    var front, value := m.before + Quoted(m.key) + m.colon, Print(m.value);
    PassMemberName(s, m, at);
    PassValue(s, m.value, at + |front|);
    PassConcat(s, front, s, value, s, at);
    PassPlain(s, m.after, at + |front + value|);
    PassConcat(s, front + value, s, m.after, s, at);
  }

  lemma {:induction false} PassMembers(s: Scan, members: seq<Member>, at: nat)
    requires Within(s) && forall i :: 0 <= i < |members| ==> MemberOk(members[i])
    ensures Passes(s, PrintMembers(members), at, s)
    decreases members
  {
    if members == [] {
      PassEmpty(s, at);
    } else {
      var first := PrintMember(members[0]);
      PassMember(s, members[0], at);
      if |members| == 1 {
        assert first + "" == first;
      } else {
        PassMembers(s, members[1..], at + |first| + 1);
        PassComma(s, first, PrintMembers(members[1..]), at);
      }
    }
  }

  // ----- texts that emit records --------------------------------------------------------------

  /** Between the records of the top array. */
  predicate Outside(s: Scan) {
    s.depth == 0 && s.start.None? && !s.inString && !s.escape
  }

  /** The spans that end by the cut. */
  function UpTo(spans: seq<(nat, nat)>, cut: nat): seq<(nat, nat)> {
    if spans == [] || spans[0].1 > cut then [] else [spans[0]] + UpTo(spans[1..], cut)
  }

  lemma {:induction false} UpToConcat(a: seq<(nat, nat)>, b: seq<(nat, nat)>, middle: nat, cut: nat)
    requires forall i :: 0 <= i < |a| ==> a[i].1 <= middle
    requires forall i :: 0 <= i < |b| ==> b[i].1 > middle
    ensures UpTo(a + b, cut) == if cut <= middle then UpTo(a, cut) else a + UpTo(b, cut)
  {
    if a == [] {
      assert a + b == b;
    } else {
      assert (a + b)[1..] == a[1..] + b;
      UpToConcat(a[1..], b, middle, cut);
    }
  }

  /** Scanning the text from s emits the given spans, each as soon as its text is complete,
      and is otherwise back where it was. */
  ghost predicate Emits(s: Scan, text: string, at: nat, spans: seq<(nat, nat)>) {
    && Run(s, text, at) == s.(out := s.out + spans)
    && (forall i :: 0 <= i < |spans| ==> at < spans[i].1 <= at + |text|)
    && forall k :: 0 <= k <= |text| ==> EmitsBy(s, text, at, spans, k)
  }

  predicate EmitsBy(s: Scan, text: string, at: nat, spans: seq<(nat, nat)>, k: nat)
    requires k <= |text|
  {
    Run(s, text[..k], at).out == s.out + UpTo(spans, at + k)
  }

  lemma EmitsNothing(s: Scan, text: string, at: nat)
    requires Outside(s) && NoMarks(text)
    ensures Emits(s, text, at, [])
  {
    PassPlain(s, text, at);
    forall k | 0 <= k <= |text| ensures EmitsBy(s, text, at, [], k) {
      assert Silent(s, text, at, k);
    }
    assert s.(out := s.out + []) == s;
  }

  lemma EmitsConcat(s: Scan, a: string, spansA: seq<(nat, nat)>, b: string, spansB: seq<(nat, nat)>, at: nat)
    requires Emits(s, a, at, spansA) && Emits(s.(out := s.out + spansA), b, at + |a|, spansB)
    ensures Emits(s, a + b, at, spansA + spansB)
  {
    RunConcat(s, a, b, at);
    assert s.out + spansA + spansB == s.out + (spansA + spansB);
    forall k | 0 <= k <= |a + b| ensures EmitsBy(s, a + b, at, spansA + spansB, k) {
      UpToConcat(spansA, spansB, at + |a|, at + k);
      if k <= |a| {
        assert EmitsBy(s, a, at, spansA, k);
        EmitsInFirst(s, a, spansA, b, spansB, at, k);
      } else {
        assert EmitsBy(s.(out := s.out + spansA), b, at + |a|, spansB, k - |a|);
        EmitsInSecond(s, a, spansA, b, spansB, at, k - |a|);
      }
    }
  }

  lemma EmitsInFirst(
    s: Scan, a: string, spansA: seq<(nat, nat)>, b: string, spansB: seq<(nat, nat)>, at: nat, k: nat
  )
    requires k <= |a| && EmitsBy(s, a, at, spansA, k)
    requires UpTo(spansA + spansB, at + k) == UpTo(spansA, at + k)
    ensures EmitsBy(s, a + b, at, spansA + spansB, k)
  {
    assert (a + b)[..k] == a[..k];
  }

  lemma EmitsInSecond(
    s: Scan, a: string, spansA: seq<(nat, nat)>, b: string, spansB: seq<(nat, nat)>, at: nat, k: nat
  )
    requires Run(s, a, at) == s.(out := s.out + spansA)
    requires k <= |b| && EmitsBy(s.(out := s.out + spansA), b, at + |a|, spansB, k)
    requires UpTo(spansA + spansB, at + |a| + k) == spansA + UpTo(spansB, at + |a| + k)
    ensures EmitsBy(s, a + b, at, spansA + spansB, |a| + k)
  {
    assert (a + b)[..|a| + k] == a + b[..k];
    RunConcat(s, a, b[..k], at);
    assert s.out + spansA + UpTo(spansB, at + |a| + k) == s.out + (spansA + UpTo(spansB, at + |a| + k));
  }

  predicate NoMarks(text: string) {
    forall i :: 0 <= i < |text| ==> text[i] !in "\"{}"
  }

  lemma EmitsAfterPlain(s: Scan, plain: string, text: string, spans: seq<(nat, nat)>, at: nat)
    requires Outside(s) && NoMarks(plain) && Emits(s, text, at + |plain|, spans)
    ensures Emits(s, plain + text, at, spans)
  {
    EmitsNothing(s, plain, at);
    assert s.(out := s.out + []) == s && [] + spans == spans;
    EmitsConcat(s, plain, [], text, spans, at);
  }

  lemma EmitsBeforePlain(s: Scan, text: string, spans: seq<(nat, nat)>, plain: string, at: nat)
    requires Outside(s) && NoMarks(plain) && Emits(s, text, at, spans)
    ensures Emits(s, text + plain, at, spans)
  {
    EmitsNothing(s.(out := s.out + spans), plain, at + |text|);
    assert spans + [] == spans;
    EmitsConcat(s, text, spans, plain, [], at);
  }

  /** A record is emitted exactly when its closing brace has been read. */
  lemma EmitsRecord(s: Scan, v: Value, at: nat)
    requires Outside(s) && v.Object? && JsonText(v)
    ensures Emits(s, Print(v), at, [(at, at + |Print(v)|)])
  {
    var body, inside := ObjectBody(v), s.(depth := 1, start := Some(at));
    PassChar(s, '{', at);
    PassBody(inside, v, at + 1);
    PassConcat(s, "{", inside, body, inside, at);
    assert Print(v) == "{" + body + "}";
    ClosesRecord(s, "{" + body, at);
  }

  /** The closing brace emits the record that began at `at`. */
  lemma ClosesRecord(s: Scan, front: string, at: nat)
    requires Outside(s) && Passes(s, front, at, s.(depth := 1, start := Some(at)))
    ensures Emits(s, front + "}", at, [(at, at + |front| + 1)])
  {
    var inside, text, spans := s.(depth := 1, start := Some(at)), front + "}", [(at, at + |front| + 1)];
    RunConcat(s, front, "}", at);
    assert "}"[1..] == "";
    assert Run(inside, "}", at + |front|) == Step(inside, '}', at + |front|);
    assert spans[1..] == [];
    forall k | 0 <= k <= |text| ensures EmitsBy(s, text, at, spans, k) {
      if k < |text| {
        assert text[..k] == front[..k];
        assert Silent(s, front, at, k);
        assert UpTo(spans, at + k) == [];
      } else {
        assert text[..k] == text;
        assert UpTo(spans, at + k) == spans;
      }
    }
  }

  // ----- the array ------------------------------------------------------------------------------

  /** Items of an array of objects. */
  predicate RecordsOk(items: seq<Item>) {
    forall i :: 0 <= i < |items| ==> ItemOk(items[i]) && items[i].value.Object?
  }

  /** Where the record of an item stands, when the item begins at `at`. */
  function SpanOf(item: Item, at: nat): seq<(nat, nat)> {
    [(at + |item.before|, at + |item.before| + |Print(item.value)|)]
  }

  /** Where each record stands, when the first item begins at `at`. */
  function Spans(items: seq<Item>, at: nat): seq<(nat, nat)> {
    if items == [] then [] else SpanOf(items[0], at) + Spans(items[1..], at + |PrintItem(items[0])| + 1)
  }

  lemma EmitsItem(s: Scan, item: Item, at: nat)
    requires Outside(s) && ItemOk(item) && item.value.Object?
    ensures Emits(s, PrintItem(item), at, SpanOf(item, at))
  {
    var value, span := Print(item.value), SpanOf(item, at);
    EmitsRecord(s, item.value, at + |item.before|);
    EmitsAfterPlain(s, item.before, value, span, at);
    EmitsBeforePlain(s, item.before + value, span, item.after, at);
  }

  /** An item, a comma and whatever follows it. */
  lemma EmitsAndThen(s: Scan, first: string, span: seq<(nat, nat)>, rest: string, spans: seq<(nat, nat)>, at: nat)
    requires Outside(s) && Emits(s, first, at, span)
    requires Emits(s.(out := s.out + span), rest, at + |first| + 1, spans)
    ensures Emits(s, first + ("," + rest), at, span + spans)
  {
    EmitsAfterPlain(s.(out := s.out + span), ",", rest, spans, at + |first|);
    EmitsConcat(s, first, span, "," + rest, spans, at);
  }

  lemma {:induction false} EmitsItems(s: Scan, items: seq<Item>, at: nat)
    requires Outside(s) && RecordsOk(items)
    ensures Emits(s, PrintItems(items), at, Spans(items, at))
    decreases |items|
  {
    if items == [] {
      EmitsNothing(s, "", at);
    } else {
      var first, span := PrintItem(items[0]), SpanOf(items[0], at);
      EmitsItem(s, items[0], at);
      if |items| == 1 {
        assert first + "" == first && span + [] == span && Spans(items[1..], at + |first| + 1) == [];
      } else {
        EmitsItems(s.(out := s.out + span), items[1..], at + |first| + 1);
        EmitsAndThen(s, first, span, PrintItems(items[1..]), Spans(items[1..], at + |first| + 1), at);
      }
    }
  }

  /** The whole file: an array of objects with white space around it. */
  datatype File = File(before: string, items: seq<Item>, blank: string, after: string)

  predicate FileOk(f: File) {
    Blank(f.before) && Blank(f.blank) && Blank(f.after) && RecordsOk(f.items)
  }

  function FileText(f: File): string {
    f.before + Print(List(f.items, f.blank)) + f.after
  }

  function ArrayBody(f: File): string {
    if f.items == [] then f.blank else PrintItems(f.items)
  }

  lemma FileParts(f: File)
    ensures FileText(f) == f.before + "[" + ArrayBody(f) + ("]" + f.after)
  {
    var list := Print(List(f.items, f.blank));
    assert list == "[" + ArrayBody(f) + "]";
  }

  lemma EmitsBody(f: File, at: nat)
    requires FileOk(f)
    ensures Emits(INITIAL, ArrayBody(f), at, Spans(f.items, at))
  {
    if f.items == [] {
      EmitsNothing(INITIAL, f.blank, at);
    } else {
      EmitsItems(INITIAL, f.items, at);
    }
  }

  lemma EmitsFile(f: File)
    requires FileOk(f)
    ensures Emits(INITIAL, FileText(f), 0, Spans(f.items, |f.before| + 1))
  {
    var open, spans := f.before + "[", Spans(f.items, |f.before| + 1);
    EmitsBody(f, |open|);
    EmitsAfterPlain(INITIAL, open, ArrayBody(f), spans, 0);
    EmitsBeforePlain(INITIAL, open + ArrayBody(f), spans, "]" + f.after, 0);
    FileParts(f);
  }

  // ----- what is salvaged -----------------------------------------------------------------------

  /** The end of the i-th record in the text. */
  function EndOf(f: File, i: nat): nat
    requires i < |f.items|
  {
    |f.before| + 1 + ItemStart(f.items, i) + |f.items[i].before| + |Print(f.items[i].value)|
  }

  function ItemStart(items: seq<Item>, i: nat): nat
    requires i <= |items|
  {
    if i == 0 then 0 else |PrintItem(items[0])| + 1 + ItemStart(items[1..], i - 1)
  }

  lemma {:induction false} SpanAt(items: seq<Item>, at: nat, i: nat)
    requires i < |items|
    ensures |Spans(items, at)| == |items|
    ensures Spans(items, at)[i].1 == at + ItemStart(items, i) + |items[i].before| + |Print(items[i].value)|
    ensures Spans(items, at)[i].0 == at + ItemStart(items, i) + |items[i].before|
  {
    if |items| > 1 {
      SpanAt(items[1..], at + |PrintItem(items[0])| + 1, if i == 0 then 0 else i - 1);
    }
  }

  /** The printed text holds each record at its span. */
  lemma {:induction false} RecordInItems(items: seq<Item>, i: nat)
    requires i < |items|
    ensures
      var start, value := ItemStart(items, i) + |items[i].before|, Print(items[i].value);
      start + |value| <= |PrintItems(items)| && PrintItems(items)[start..start + |value|] == value
    decreases items
  {
    var text, first := PrintItems(items), PrintItem(items[0]);
    if i > 0 {
      RecordInItems(items[1..], i - 1);
      var rest := PrintItems(items[1..]);
      var start := ItemStart(items[1..], i - 1) + |items[i].before|;
      assert text == first + "," + rest;
      assert text[|first| + 1..] == rest;
    }
  }

  lemma {:induction false} UpToPrefix(spans: seq<(nat, nat)>, cut: nat)
    requires forall i, j :: 0 <= i < j < |spans| ==> spans[i].1 < spans[j].1
    ensures |UpTo(spans, cut)| <= |spans| && UpTo(spans, cut) == spans[..|UpTo(spans, cut)|]
    ensures forall i :: 0 <= i < |spans| ==> (i < |UpTo(spans, cut)| <==> spans[i].1 <= cut)
  {
    if spans != [] && spans[0].1 <= cut {
      UpToPrefix(spans[1..], cut);
      var rest := UpTo(spans[1..], cut);
      forall i | 0 <= i < |spans| ensures i < |UpTo(spans, cut)| <==> spans[i].1 <= cut {
        if i > 0 {
          assert spans[1..][i - 1] == spans[i];
        }
      }
    }
  }

  lemma {:induction false} EndsIncrease(items: seq<Item>, at: nat)
    requires RecordsOk(items)
    ensures forall i, j :: 0 <= i < j < |Spans(items, at)| ==> Spans(items, at)[i].1 < Spans(items, at)[j].1
    ensures forall i :: 0 <= i < |Spans(items, at)| ==> Spans(items, at)[i].1 > at
  {
    if items != [] {
      EndsIncrease(items[1..], at + |PrintItem(items[0])| + 1);
      var spans, rest := Spans(items, at), Spans(items[1..], at + |PrintItem(items[0])| + 1);
      assert forall i :: 1 <= i < |spans| ==> spans[i] == rest[i - 1];
    }
  }

  /** The records whose closing brace lies before the cut: always the first few. */
  function Complete(f: File, cut: nat): (m: nat)
    requires FileOk(f)
    ensures m <= |f.items| && forall i: nat :: i < |f.items| ==> (i < m <==> EndOf(f, i) <= cut)
  {
    CompleteIsPrefix(f, cut);
    |UpTo(Spans(f.items, |f.before| + 1), cut)|
  }

  lemma CompleteIsPrefix(f: File, cut: nat)
    requires FileOk(f)
    ensures
      var m := |UpTo(Spans(f.items, |f.before| + 1), cut)|;
      m <= |f.items| && forall i: nat :: i < |f.items| ==> (i < m <==> EndOf(f, i) <= cut)
  {
    var spans := Spans(f.items, |f.before| + 1);
    EndsIncrease(f.items, |f.before| + 1);
    UpToPrefix(spans, cut);
    forall i: nat | i < |f.items| ensures |spans| == |f.items| && spans[i].1 == EndOf(f, i) {
      SpanAt(f.items, |f.before| + 1, i);
    }
  }

  /** The parses of the first m records, leaving out any the parser refuses. */
  function ParsedRecords<V>(items: seq<Item>, m: nat, parse: string -> Option<V>): seq<V>
    requires m <= |items|
  {
    if m == 0 then []
    else
      var parsed := parse(Print(items[m - 1].value));
      ParsedRecords(items, m - 1, parse) + if parsed.Some? then [parsed.value] else []
  }

  lemma MiddleSlice(a: string, b: string, c: string, i: nat, j: nat)
    requires i <= j <= |b|
    ensures (a + b + c)[|a| + i..|a| + j] == b[i..j]
  {
  }

  lemma RecordInMiddle(a: string, b: string, c: string, end: nat, value: string)
    requires |a| + |value| <= end <= |a + b| && b[end - |a| - |value|..end - |a|] == value
    ensures (a + b + c)[end - |value|..end] == value
  {
    MiddleSlice(a, b, c, end - |a| - |value|, end - |a|);
  }

  lemma RecordIsLong(v: Value)
    requires v.Object?
    ensures |Print(v)| >= 2
  {
    assert Print(v) == "{" + ObjectBody(v) + "}";
  }

  /** The slice at a record's span is the record as printed. */
  lemma RecordInFile(f: File, i: nat)
    requires FileOk(f) && i < |f.items|
    ensures
      var value := Print(f.items[i].value);
      2 <= |value| <= EndOf(f, i) <= |FileText(f)| && FileText(f)[EndOf(f, i) - |value|..EndOf(f, i)] == value
  {
    RecordInItems(f.items, i);
    FileParts(f);
    RecordIsLong(f.items[i].value);
    RecordInMiddle(f.before + "[", PrintItems(f.items), "]" + f.after, EndOf(f, i), Print(f.items[i].value));
  }

  lemma SpanIsRecord(f: File, i: nat)
    requires FileOk(f) && i < |f.items|
    ensures
      var out := Spans(f.items, |f.before| + 1);
      |out| == |f.items| && out[i].1 == EndOf(f, i) && out[i].0 == EndOf(f, i) - |Print(f.items[i].value)|
  {
    SpanAt(f.items, |f.before| + 1, i);
  }

  predicate SpanHolds(text: string, span: (nat, nat), value: string) {
    span.0 < span.1 <= |text| && text[span.0..span.1] == value
  }

  lemma RecordInPrefix(f: File, text: string, i: nat)
    requires FileOk(f) && text <= FileText(f) && i < |f.items| && EndOf(f, i) <= |text|
    ensures |Spans(f.items, |f.before| + 1)| == |f.items|
    ensures SpanHolds(text, Spans(f.items, |f.before| + 1)[i], Print(f.items[i].value))
  {
    RecordInFile(f, i);
    SpanIsRecord(f, i);
    var span := Spans(f.items, |f.before| + 1)[i];
    assert text[span.0..span.1] == FileText(f)[span.0..span.1];
  }

  lemma {:induction false} SlicesAreRecords<V>(
    items: seq<Item>, text: string, out: seq<(nat, nat)>, parse: string -> Option<V>
  )
    requires |out| <= |items| && forall i: nat :: i < |out| ==> SpanHolds(text, out[i], Print(items[i].value))
    ensures Bounded(out, |text|) && ParsedSlices(text, out, parse) == ParsedRecords(items, |out|, parse)
    decreases |out|
  {
    if out != [] {
      SlicesAreRecords(items, text, out[..|out| - 1], parse);
    }
  }

  /** For every array of objects, however written, and every cut, the scanner salvages
      exactly the records that end before the cut, in order; it reports no records exactly
      when none of those can be parsed. */
  method SalvageFile<V>(f: File, cut: nat, parse: string -> Option<V>) returns (r: SalvageScan.Salvage<V>)
    requires FileOk(f) && cut <= |FileText(f)|
    ensures
      var values := ParsedRecords(f.items, Complete(f, cut), parse);
      r == if values == [] then Invalid(NoRecords) else SalvageScan.Records(values)
    ensures
      (forall i: nat :: i < |f.items| ==> parse(Print(f.items[i].value)).Some?) ==>
        (r.Invalid? <==> Complete(f, cut) == 0)
  {
    var text := FileText(f)[..cut];
    r := BestEffortArray(Some(text), parse);
    EmitsFile(f);
    var spans := Spans(f.items, |f.before| + 1);
    assert EmitsBy(INITIAL, FileText(f), 0, spans, cut);
    EndsIncrease(f.items, |f.before| + 1);
    UpToPrefix(spans, cut);
    var out := UpTo(spans, cut);
    forall i: nat | i < |out| ensures i < |f.items| && SpanHolds(text, out[i], Print(f.items[i].value)) {
      CompleteIsPrefix(f, cut);
      RecordInPrefix(f, text, i);
    }
    SlicesAreRecords(f.items, text, out, parse);
    assert [] + out == out;
    ParsedSome(f.items, |out|, parse);
  }

  /** A parser that refuses no record leaves none out. */
  lemma {:induction false} ParsedSome<V>(items: seq<Item>, m: nat, parse: string -> Option<V>)
    requires m <= |items|
    ensures
      (forall i: nat :: i < |items| ==> parse(Print(items[i].value)).Some?) ==> |ParsedRecords(items, m, parse)| == m
  {
    if m > 0 {
      ParsedSome(items, m - 1, parse);
    }
  }
}
