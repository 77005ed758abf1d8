/** The recommendation page of `Frontend/src/Components/Recommendations.jsx`:
    `renderRecommendations` cuts the generated text into lines, classifies
    each trimmed line, and groups consecutive list items into lists;
    `formatText` turns `**x**`, `*x*` and `_x_` into HTML emphasis. The JSX
    elements become values of `Block`, holding the text each element passes
    to `formatText`. */
module RecommendationsView {
  import opened Text
  import opened Json

  // ------------------------------------------------------ line classification

  datatype ListKind = Numbered | Bulleted

  /** What one trimmed line is. */
  datatype LineKind = Blank | HeadingLine(text: string) | Item(kind: ListKind, text: string) | ParaLine(text: string)

  /** Number of leading ASCII digits. */
  function LeadingDigits(t: string): (n: nat)
    ensures n <= |t| && AllDigits(t[..n])
    ensures n == |t| || !IsDigit(t[n])
  {
    if t != [] && IsDigit(t[0]) then
      var n := 1 + LeadingDigits(t[1..]);
      assert t[..n] == [t[0]] + t[1..][..n - 1];
      n
    else 0
  }

  /** `/^\*\*.*\*\*$/`: at least four characters, `**` at both ends, and no
      line terminator between them (`.` does not match one). */
  predicate IsHeadingText(t: string) {
    |t| >= 4 && t[..2] == "**" && t[|t| - 2..] == "**"
    && forall i :: 2 <= i < |t| - 2 ==> !IsLineTerminator(t[i])
  }

  /** Length of the match of `/^\d+\.\s+/`, or 0 when it does not match. */
  function NumMarkerLen(t: string): nat
  {
    var n := LeadingDigits(t);
    if NumMarkerAt(t, n) then n + 1 + LeadingSpaces(t[n + 1..]) else 0
  }

  /** Digits end at `n`, a dot follows, then at least one whitespace character. */
  predicate NumMarkerAt(t: string, n: nat) {
    n >= 1 && n + 1 < |t| && t[n] == '.' && IsSpace(t[n + 1])
  }

  /** Length of the match of `/^[-*]\s+/`, or 0 when it does not match. */
  function BulletMarkerLen(t: string): nat
  {
    if BulletMarkerAt(t) then 1 + LeadingSpaces(t[1..]) else 0
  }

  /** A dash or an asterisk, then at least one whitespace character. */
  predicate BulletMarkerAt(t: string) {
    |t| >= 2 && (t[0] == '-' || t[0] == '*') && IsSpace(t[1])
  }

  /** The tests of the `forEach` body on a trimmed line, in their order:
      blank, heading, numbered item, bullet item, paragraph. An item keeps
      the line with its marker replaced by nothing. */
  function ClassifyTrimmed(t: string): LineKind
  {
    if t == [] then Blank
    else if IsHeadingText(t) then HeadingLine(t)
    else if NumMarkerLen(t) > 0 && NumMarkerLen(t) <= |t| then Item(Numbered, t[NumMarkerLen(t)..])
    else if BulletMarkerLen(t) > 0 && BulletMarkerLen(t) <= |t| then Item(Bulleted, t[BulletMarkerLen(t)..])
    else ParaLine(t)
  }

  function Classify(line: string): LineKind
  {
    ClassifyTrimmed(Trim(line))
  }

  // --------------------------------------------------------------- grouping

  /** One element pushed onto `elements`: an `h3`, an `ol` or `ul`, or a `p`. */
  datatype Block = Heading(text: string) | List(kind: ListKind, items: seq<string>) | Para(text: string)

  /** Number of leading items of kind `k`. */
  function RunLength(k: ListKind, ks: seq<LineKind>): (n: nat)
    ensures n <= |ks|
    ensures forall j :: 0 <= j < n ==> ks[j].Item? && ks[j].kind == k
    ensures n == |ks| || !(ks[n].Item? && ks[n].kind == k)
  {
    if ks != [] && ks[0].Item? && ks[0].kind == k then 1 + RunLength(k, ks[1..]) else 0
  }

  /** The texts of a run of items. */
  function ItemTexts(ks: seq<LineKind>): (r: seq<string>)
    requires forall j :: 0 <= j < |ks| ==> ks[j].Item?
    ensures |r| == |ks|
  {
    if ks == [] then [] else [ks[0].text] + ItemTexts(ks[1..])
  }

  /** The blocks of a sequence of classified lines: blank lines give
      nothing, headings and paragraphs one block each, and every maximal run
      of items of one kind one list. */
  function Group(ks: seq<LineKind>): seq<Block>
    decreases |ks|
  {
    if ks == [] then []
    else match ks[0]
      case Blank => Group(ks[1..])
      case HeadingLine(t) => [Heading(t)] + Group(ks[1..])
      case ParaLine(t) => [Para(t)] + Group(ks[1..])
      case Item(k, t) =>
        var n := RunLength(k, ks[1..]);
        [List(k, [t] + ItemTexts(ks[1..][..n]))] + Group(ks[1 + n..])
  }

  /** The blocks still to come when a list of kind `open` holding `items`
      is being collected and `rest` is unread. */
  function Continue(open: Option<ListKind>, items: seq<string>, rest: seq<LineKind>): seq<Block>
  {
    if open.None? then Group(rest)
    else
      var n := RunLength(open.value, rest);
      [List(open.value, items + ItemTexts(rest[..n]))] + Group(rest[n..])
  }

  function Kinds(lines: seq<string>): (ks: seq<LineKind>)
    ensures |ks| == |lines|
    ensures forall j :: 0 <= j < |lines| ==> ks[j] == Classify(lines[j])
  {
    seq(|lines|, j requires 0 <= j < |lines| => Classify(lines[j]))
  }

  /** What `renderRecommendations` returns, with `null` and the empty array
      both as no blocks. */
  function Blocks(recommendations: Option<string>): seq<Block>
  {
    if recommendations.None? || recommendations.value == "" then []
    else Group(Kinds(Split(recommendations.value, '\n')))
  }

  /** What `flushList` pushes: the open list if it has items, else nothing. */
  function Flushed(listType: Option<ListKind>, currentList: seq<string>): seq<Block>
    requires (currentList == []) == listType.None?
  {
    if currentList == [] then [] else [List(listType.value, currentList)]
  }

  /** `flushList`: pushes the open list, if it has items, and closes it. */
  method FlushList(elements: seq<Block>, currentList: seq<string>, listType: Option<ListKind>)
    returns (elements': seq<Block>, currentList': seq<string>, listType': Option<ListKind>)
    requires (currentList == []) == listType.None?
    ensures currentList' == [] && listType' == None
    ensures elements' == elements + Flushed(listType, currentList)
    ensures |elements'| == |elements| + (if currentList == [] then 0 else 1)
  {
    if currentList == [] {
      assert elements + [] == elements;
      return elements, currentList, listType;
    }
    elements' := elements + [List(listType.value, currentList)];
    currentList' := [];
    listType' := None;
  }

  /** The body of the `forEach` callback for one classified line; `rest` is
      the lines not yet read, so that the blocks still to come are the same
      before and after. */
  method ReadLine(elements: seq<Block>, currentList: seq<string>, listType: Option<ListKind>, kind: LineKind, ghost rest: seq<LineKind>)
    returns (elements': seq<Block>, currentList': seq<string>, listType': Option<ListKind>)
    requires (currentList == []) == listType.None?
    ensures (currentList' == []) == listType'.None?
    ensures elements' + Continue(listType', currentList', rest) == elements + Continue(listType, currentList, [kind] + rest)
  {
    match kind {
      case Blank =>
        ReadClosing(elements, currentList, listType, kind, rest);
        GroupCons(kind, rest);
        elements', currentList', listType' := FlushList(elements, currentList, listType);
      case HeadingLine(t) =>
        ReadClosing(elements, currentList, listType, kind, rest);
        elements', currentList', listType' := FlushList(elements, currentList, listType);
        PushBlock(elements', Heading(t), kind, rest);
        elements' := elements' + [Heading(t)];
      case Item(k, t) =>
        if listType == Some(k) {
          ContinueOpen(k, currentList, t, rest);
          elements', currentList', listType' := elements, currentList + [t], listType;
        } else {
          ReadClosing(elements, currentList, listType, kind, rest);
          GroupCons(kind, rest);
          elements', currentList', listType' := FlushList(elements, currentList, listType);
          listType' := Some(k);
          currentList' := currentList' + [t];
          assert currentList' == [t];
        }
      case ParaLine(t) =>
        ReadClosing(elements, currentList, listType, kind, rest);
        elements', currentList', listType' := FlushList(elements, currentList, listType);
        PushBlock(elements', Para(t), kind, rest);
        elements' := elements' + [Para(t)];
    }
  }

  /** A line that does not join the open list flushes it; what is pending
      is then the flushed list followed by the blocks from that line on. */
  lemma ReadClosing(elements: seq<Block>, currentList: seq<string>, listType: Option<ListKind>, x: LineKind, rest: seq<LineKind>)
    requires (currentList == []) == listType.None?
    requires !(x.Item? && listType == Some(x.kind))
    ensures elements + Continue(listType, currentList, [x] + rest) ==
      (elements + Flushed(listType, currentList)) + Group([x] + rest)
  {
    ContinueClosed(listType, currentList, x, rest);
  }

  /** A heading or paragraph block pushed after the flush. */
  lemma PushBlock(e: seq<Block>, b: Block, x: LineKind, rest: seq<LineKind>)
    requires x.HeadingLine? || x.ParaLine?
    requires b == if x.HeadingLine? then Heading(x.text) else Para(x.text)
    ensures e + Group([x] + rest) == (e + [b]) + Continue(None, [], rest)
  {
    GroupCons(x, rest);
  }

  /** `renderRecommendations`: the `forEach` loop over the lines with the
      `currentList` / `listType` accumulator, and the final flush. */
  method RenderRecommendations(recommendations: Option<string>) returns (elements: seq<Block>)
    ensures elements == Blocks(recommendations)
  {
    if recommendations.None? || recommendations.value == "" {
      return [];
    }
    var lines := Split(recommendations.value, '\n');
    ghost var ks := Kinds(lines);
    elements := [];
    var currentList: seq<string> := [];
    var listType: Option<ListKind> := None;
    for i := 0 to |lines|
      invariant (currentList == []) == listType.None?
      invariant elements + Continue(listType, currentList, ks[i..]) == Group(ks)
    {
      SliceCons(ks, i);
      elements, currentList, listType := ReadLine(elements, currentList, listType, Classify(lines[i]), ks[i + 1..]);
    }
    SliceEnd(ks);
    ContinueAtEnd(listType, currentList);
    elements, currentList, listType := FlushList(elements, currentList, listType);
  }

  lemma SliceEnd<T>(s: seq<T>)
    ensures s[|s|..] == []
  {
  }

  /** At the end of the text the open list is all that is pending. */
  lemma ContinueAtEnd(open: Option<ListKind>, items: seq<string>)
    requires (items == []) == open.None?
    ensures Continue(open, items, []) == Flushed(open, items)
  {
    if open.Some? {
      var none: seq<LineKind> := [];
      assert RunLength(open.value, none) == 0;
      assert none[..0] == none && none[0..] == none;
      assert ItemTexts(none) == [];
      assert items + ItemTexts(none) == items;
    }
  }

  lemma SliceCons<T>(s: seq<T>, i: nat)
    requires i < |s|
    ensures s[i..] == [s[i]] + s[i + 1..]
  {
  }

  /** A line that does not continue the open list closes it. */
  lemma ContinueClosed(open: Option<ListKind>, items: seq<string>, x: LineKind, rest: seq<LineKind>)
    requires (items == []) == open.None?
    requires !(x.Item? && open == Some(x.kind))
    ensures Continue(open, items, [x] + rest) == Flushed(open, items) + Group([x] + rest)
  {
    if open.Some? {
      var ks := [x] + rest;
      assert RunLength(open.value, ks) == 0;
      assert ks[..0] == [] && ks[0..] == ks;
      assert items + ItemTexts(ks[..0]) == items;
    }
  }

  /** An item of the open list's kind joins it. */
  lemma ContinueOpen(k: ListKind, items: seq<string>, t: string, rest: seq<LineKind>)
    ensures Continue(Some(k), items, [Item(k, t)] + rest) == Continue(Some(k), items + [t], rest)
  {
    var ks := [Item(k, t)] + rest;
    assert ks[1..] == rest;
    var n := RunLength(k, ks);
    assert ks[..n] == [Item(k, t)] + rest[..n - 1];
    assert ks[n..] == rest[n - 1..];
    assert items + ItemTexts(ks[..n]) == items + [t] + ItemTexts(rest[..n - 1]);
  }

  /** `Group` on a line followed by the rest. */
  lemma GroupCons(x: LineKind, rest: seq<LineKind>)
    ensures Group([x] + rest) ==
      if x.Blank? then Group(rest)
      else if x.HeadingLine? then [Heading(x.text)] + Group(rest)
      else if x.ParaLine? then [Para(x.text)] + Group(rest)
      else Continue(Some(x.kind), [x.text], rest)
  {
    var ks := [x] + rest;
    assert ks[1..] == rest;
    if x.Item? {
      var n := RunLength(x.kind, rest);
      assert ks[1 + n..] == rest[n..];
    }
  }

  // --------------------------------------------------------------- formatting

  /** Where the lazy `(.*?)` group ends: the first position at or after
      `from` where the delimiter `d` starts, unless a line terminator comes
      first. */
  function FindClose(s: string, d: string, from: nat): (r: Option<nat>)
    requires |d| >= 1
    ensures r.Some? ==> from <= r.value && r.value + |d| <= |s| && s[r.value..r.value + |d|] == d
    ensures r.Some? ==> forall k :: from <= k < r.value ==> !IsLineTerminator(s[k]) && !OccursAt(s, d, k)
    ensures r.None? ==> forall k :: from <= k && OccursAt(s, d, k) ==>
      exists m :: from <= m < k && IsLineTerminator(s[m])
    decreases |s| - from
  {
    if from + |d| > |s| then None
    else if s[from..from + |d|] == d then Some(from)
    else
      assert !OccursAt(s, d, from);
      if IsLineTerminator(s[from]) then None
      else FindClose(s, d, from + 1)
  }

  /** The delimiter `d` starts at position `k` of `s`. */
  predicate OccursAt(s: string, d: string, k: nat) {
    k + |d| <= |s| && s[k..k + |d|] == d
  }

  /** `s.replace(/D(.*?)D/g, open + "$1" + close)` for the delimiter `d`. */
  function Replace(s: string, d: string, open: string, close: string): string
    requires |d| >= 1
    decreases |s|
  {
    if s == [] then []
    else if |d| <= |s| && s[..|d|] == d && FindClose(s, d, |d|).Some? then
      var j := FindClose(s, d, |d|).value;
      open + s[|d|..j] + close + Replace(s[j + |d|..], d, open, close)
    else [s[0]] + Replace(s[1..], d, open, close)
  }

  /** `formatText`: bold first, then the two kinds of emphasis. */
  function FormatText(s: string): string
  {
    var bold := Replace(s, "**", "<strong>", "</strong>");
    var starred := Replace(bold, "*", "<em>", "</em>");
    Replace(starred, "_", "<em>", "</em>")
  }

  // ------------------------------------------------ classification properties

  /** A line is blank exactly when it is all whitespace. */
  lemma BlankIffAllSpace(line: string)
    ensures Classify(line) == Blank <==> AllSpace(line)
  {
    TrimEmptyIffAllSpace(line);
  }

  /** The heading test runs first: `**...**` is a heading even when it also
      looks like a list item, such as `**1. Save more**`. */
  lemma HeadingTakesPrecedence(x: string)
    requires forall i :: 0 <= i < |x| ==> !IsLineTerminator(x[i])
    ensures ClassifyTrimmed("**" + x + "**") == HeadingLine("**" + x + "**")
  {
    var t := "**" + x + "**";
    assert t[..2] == "**" && t[|t| - 2..] == "**";
    forall i | 2 <= i < |t| - 2
      ensures !IsLineTerminator(t[i])
    {
      assert t[i] == x[i - 2];
    }
  }

  /** A numbered item: the trimmed line is digits, a dot, whitespace and the
      item, and is not a heading; the item keeps everything after the
      whitespace. */
  lemma NumberedItemShape(t: string) returns (d: string, w: string)
    requires ClassifyTrimmed(t).Item? && ClassifyTrimmed(t).kind == Numbered
    ensures t == d + "." + w + ClassifyTrimmed(t).text
    ensures |d| >= 1 && AllDigits(d) && |w| >= 1 && AllSpace(w)
    ensures ClassifyTrimmed(t).text == [] || !IsSpace(ClassifyTrimmed(t).text[0])
    ensures !IsHeadingText(t)
  {
    var n := LeadingDigits(t);
    var m := NumMarkerLen(t);
    d := t[..n];
    w := t[n + 1..m];
    var u := t[n + 1..];
    assert t[n + 1..m] == u[..LeadingSpaces(u)];
    assert t == d + "." + w + t[m..] by {
      assert t == t[..n] + [t[n]] + t[n + 1..m] + t[m..];
    }
    assert t[m..] == u[LeadingSpaces(u)..];
  }

  /** Conversely, every such line is a numbered item with that text. */
  lemma NumberedItemFromShape(d: string, w: string, s: string)
    requires |d| >= 1 && AllDigits(d) && |w| >= 1 && AllSpace(w)
    requires s == [] || !IsSpace(s[0])
    requires !IsHeadingText(d + "." + w + s)
    ensures ClassifyTrimmed(d + "." + w + s) == Item(Numbered, s)
  {
    var t := d + "." + w + s;
    NumMarkerOfShape(d, w, s);
    assert t[|d| + 1 + |w|..] == s;
  }

  lemma NumMarkerOfShape(d: string, w: string, s: string)
    requires |d| >= 1 && AllDigits(d) && |w| >= 1 && AllSpace(w)
    requires s == [] || !IsSpace(s[0])
    ensures NumMarkerLen(d + "." + w + s) == |d| + 1 + |w|
  {
    var t := d + "." + w + s;
    assert t == d + (['.'] + w + s);
    LeadingDigitsOfPrefix(d, ['.'] + w + s);
    assert t[|d|] == '.' && t[|d| + 1] == w[0];
    assert NumMarkerAt(t, |d|);
    assert t[|d| + 1..] == w + s;
    LeadingSpacesOfPrefix(w, s);
  }

  lemma {:induction false} LeadingDigitsOfPrefix(d: string, r: string)
    requires AllDigits(d) && r != [] && !IsDigit(r[0])
    ensures LeadingDigits(d + r) == |d|
    decreases |d|
  {
    if d == [] {
      assert d + r == r;
    } else {
      assert (d + r)[1..] == d[1..] + r;
      LeadingDigitsOfPrefix(d[1..], r);
    }
  }

  /** A bullet item: `-` or `*`, whitespace and the item, and not a heading. */
  lemma BulletItemShape(t: string) returns (w: string)
    requires ClassifyTrimmed(t).Item? && ClassifyTrimmed(t).kind == Bulleted
    ensures t == [t[0]] + w + ClassifyTrimmed(t).text
    ensures (t[0] == '-' || t[0] == '*') && |w| >= 1 && AllSpace(w)
    ensures ClassifyTrimmed(t).text == [] || !IsSpace(ClassifyTrimmed(t).text[0])
    ensures !IsHeadingText(t) && NumMarkerLen(t) == 0
  {
    var m := BulletMarkerLen(t);
    var u := t[1..];
    w := t[1..m];
    assert w == u[..LeadingSpaces(u)];
    assert t == [t[0]] + w + t[m..] by {
      assert t == t[..1] + t[1..m] + t[m..];
    }
    assert t[m..] == u[LeadingSpaces(u)..];
  }

  /** Conversely, every such line is a bullet item with that text. */
  lemma BulletItemFromShape(c: char, w: string, s: string)
    requires (c == '-' || c == '*') && |w| >= 1 && AllSpace(w)
    requires s == [] || !IsSpace(s[0])
    requires !IsHeadingText([c] + w + s)
    ensures ClassifyTrimmed([c] + w + s) == Item(Bulleted, s)
  {
    var t := [c] + w + s;
    assert t[0] == c && t[1] == w[0];
    assert BulletMarkerAt(t);
    assert t[1..] == w + s;
    LeadingSpacesOfPrefix(w, s);
    assert BulletMarkerLen(t) == 1 + |w|;
    assert LeadingDigits(t) == 0;
    assert !NumMarkerAt(t, 0);
    assert t[1 + |w|..] == s;
  }

  lemma {:induction false} LeadingSpacesOfPrefix(w: string, s: string)
    requires AllSpace(w)
    requires s == [] || !IsSpace(s[0])
    ensures LeadingSpaces(w + s) == |w|
    decreases |w|
  {
    if w == [] {
      assert w + s == s;
    } else {
      assert (w + s)[1..] == w[1..] + s;
      LeadingSpacesOfPrefix(w[1..], s);
    }
  }

  /** Bare markers are paragraphs: trimming removes the whitespace the
      item patterns need, so `1.` and `-` stay as they are. */
  lemma BareMarkerIsParagraph(line: string, d: string)
    requires AllDigits(d)
    requires Trim(line) == d + "." || Trim(line) == "-" || Trim(line) == "*"
    requires |d| >= 1 || Trim(line) != d + "."
    ensures Classify(line) == ParaLine(Trim(line))
  {
    if Trim(line) == d + "." {
      DigitsThenDot(d);
    }
  }

  lemma DigitsThenDot(d: string)
    requires AllDigits(d)
    ensures LeadingDigits(d + ".") == |d|
  {
    var t := d + ".";
    var n := LeadingDigits(t);
    NotAllDigitsPast(t, |t|, |d|);
  }

  lemma NotAllDigitsPast(t: string, n: nat, k: nat)
    requires k < n <= |t| && !IsDigit(t[k])
    ensures !AllDigits(t[..n])
  {
    assert t[..n][k] == t[k];
  }

  /** An item taken from a trimmed line is never empty and starts with a
      non-space character. */
  lemma ItemOfTrimmedLine(line: string)
    requires Classify(line).Item?
    ensures Classify(line).text != [] && !IsSpace(Classify(line).text[0])
  {
    var t := Trim(line);
    TrimIsSpaceBoundedInfix(line);
    if Classify(line).kind == Numbered {
      var d, w := NumberedItemShape(t);
    } else {
      var w := BulletItemShape(t);
    }
  }

  // ------------------------------------------------------ grouping properties

  /** Null and the empty string render nothing. */
  lemma NothingRendersNothing()
    ensures Blocks(None) == [] && Blocks(Some("")) == []
  {
  }

  /** No list is ever emitted empty. */
  lemma {:induction false} NoEmptyList(ks: seq<LineKind>)
    ensures forall b :: b in Group(ks) && b.List? ==> b.items != []
    decreases |ks|
  {
    if ks != [] {
      match ks[0]
      case Blank => NoEmptyList(ks[1..]);
      case HeadingLine(_) => NoEmptyList(ks[1..]);
      case ParaLine(_) => NoEmptyList(ks[1..]);
      case Item(k, _) => NoEmptyList(ks[1 + RunLength(k, ks[1..])..]);
    }
  }

  /** The texts of the non-blank lines, in order. */
  function Texts(ks: seq<LineKind>): seq<string>
  {
    if ks == [] then []
    else if ks[0].Blank? then Texts(ks[1..])
    else [ks[0].text] + Texts(ks[1..])
  }

  /** The texts carried by a sequence of blocks, in order. */
  function Flatten(bs: seq<Block>): seq<string>
  {
    if bs == [] then []
    else (match bs[0] case Heading(t) => [t] case Para(t) => [t] case List(_, items) => items) + Flatten(bs[1..])
  }

  lemma {:induction false} FlattenAppend(a: seq<Block>, b: seq<Block>)
    ensures Flatten(a + b) == Flatten(a) + Flatten(b)
    decreases |a|
  {
    if a == [] {
      assert a + b == b;
    } else {
      assert (a + b)[1..] == a[1..] + b;
      FlattenAppend(a[1..], b);
    }
  }

  lemma {:induction false} TextsOfRun(ks: seq<LineKind>, rest: seq<LineKind>)
    requires forall j :: 0 <= j < |ks| ==> ks[j].Item?
    ensures Texts(ks + rest) == ItemTexts(ks) + Texts(rest)
    decreases |ks|
  {
    if ks == [] {
      assert ks + rest == rest;
    } else {
      assert (ks + rest)[1..] == ks[1..] + rest;
      TextsOfRun(ks[1..], rest);
    }
  }

  /** No loss and no reordering: the blocks carry the texts of the non-blank
      lines, each once, in input order. */
  lemma {:induction false} GroupKeepsEveryLine(ks: seq<LineKind>)
    ensures Flatten(Group(ks)) == Texts(ks)
    decreases |ks|
  {
    if ks != [] {
      match ks[0]
      case Blank => GroupKeepsEveryLine(ks[1..]);
      case HeadingLine(t) =>
        GroupKeepsEveryLine(ks[1..]);
        FlattenAppend([Heading(t)], Group(ks[1..]));
      case ParaLine(t) =>
        GroupKeepsEveryLine(ks[1..]);
        FlattenAppend([Para(t)], Group(ks[1..]));
      case Item(k, t) =>
        var n := RunLength(k, ks[1..]);
        var run := ks[1..][..n];
        GroupKeepsEveryLine(ks[1 + n..]);
        FlattenAppend([List(k, [t] + ItemTexts(run))], Group(ks[1 + n..]));
        assert ks[1..] == run + ks[1 + n..];
        TextsOfRun(run, ks[1 + n..]);
    }
  }

  /** A blank line closes any open list: what comes before it and what comes
      after it are grouped separately. */
  lemma {:induction false} BlankLineSeparates(a: seq<LineKind>, b: seq<LineKind>)
    ensures Group(a + [Blank] + b) == Group(a) + Group(b)
    decreases |a|
  {
    if a == [] {
      assert a + [Blank] + b == [Blank] + b;
      var lead := LeadBlocks(Blank, b);
    } else {
      var x, r := a[0], a[1..];
      var c := r + [Blank] + b;
      assert a == [x] + r;
      assert a + [Blank] + b == [x] + c;
      if x.Item? {
        var n := RunLengthBeforeBlank(x.kind, r, b);
        SplitAroundBlank(r, b, n);
        BlankLineSeparates(r[n..], b);
        ItemKeepsSplit(x, r, c, Group(b));
      } else {
        BlankLineSeparates(r, b);
        OtherKeepsSplit(x, r, c, Group(b));
      }
    }
  }

  lemma SplitAroundBlank(r: seq<LineKind>, b: seq<LineKind>, n: nat)
    requires n <= |r|
    ensures (r + [Blank] + b)[..n] == r[..n]
    ensures (r + [Blank] + b)[n..] == r[n..] + [Blank] + b
  {
  }

  /** Putting a line that is not an item in front of two sequences of lines
      keeps a relation between their groupings. */
  lemma OtherKeepsSplit(x: LineKind, r: seq<LineKind>, c: seq<LineKind>, tail: seq<Block>)
    requires !x.Item?
    requires Group(c) == Group(r) + tail
    ensures Group([x] + c) == Group([x] + r) + tail
  {
    var lead := LeadBlocks(x, c);
    var lead' := LeadBlocks(x, r);
  }

  /** The same for an item, when the run it opens is the same in both. */
  lemma ItemKeepsSplit(x: LineKind, r: seq<LineKind>, c: seq<LineKind>, tail: seq<Block>)
    requires x.Item?
    requires RunLength(x.kind, c) == RunLength(x.kind, r)
    requires c[..RunLength(x.kind, r)] == r[..RunLength(x.kind, r)]
    requires Group(c[RunLength(x.kind, r)..]) == Group(r[RunLength(x.kind, r)..]) + tail
    ensures Group([x] + c) == Group([x] + r) + tail
  {
    GroupCons(x, c);
    GroupCons(x, r);
  }

  /** A line that is not an item contributes its own block, if any, ahead
      of the blocks of the lines after it. */
  lemma LeadBlocks(x: LineKind, rest: seq<LineKind>) returns (lead: seq<Block>)
    requires !x.Item?
    ensures Group([x] + rest) == lead + Group(rest)
    ensures lead == if x.Blank? then [] else if x.HeadingLine? then [Heading(x.text)] else [Para(x.text)]
  {
    GroupCons(x, rest);
    lead := if x.Blank? then [] else if x.HeadingLine? then [Heading(x.text)] else [Para(x.text)];
  }

  lemma {:induction false} RunLengthBeforeBlank(k: ListKind, a: seq<LineKind>, b: seq<LineKind>) returns (n: nat)
    ensures n == RunLength(k, a + [Blank] + b) == RunLength(k, a) && n <= |a|
    decreases |a|
  {
    var ks := a + [Blank] + b;
    if a == [] {
      assert ks[0] == Blank;
      n := 0;
    } else if a[0].Item? && a[0].kind == k {
      assert ks[1..] == a[1..] + [Blank] + b;
      var m := RunLengthBeforeBlank(k, a[1..], b);
      n := m + 1;
    } else {
      n := 0;
    }
  }

  /** A run of items of one kind followed by a line that does not continue
      it forms exactly one list. */
  lemma {:induction false} RunFormsOneList(k: ListKind, run: seq<LineKind>, rest: seq<LineKind>)
    requires |run| >= 1 && forall j :: 0 <= j < |run| ==> run[j].Item? && run[j].kind == k
    requires rest == [] || !(rest[0].Item? && rest[0].kind == k)
    ensures Group(run + rest) == [List(k, ItemTexts(run))] + Group(rest)
  {
    var ks := run + rest;
    assert ks[1..] == run[1..] + rest;
    var n := RunOfItems(k, run[1..], rest);
    assert ks[1..][..n] == run[1..];
    assert ks[1 + n..] == rest;
  }

  lemma {:induction false} RunOfItems(k: ListKind, run: seq<LineKind>, rest: seq<LineKind>) returns (n: nat)
    requires forall j :: 0 <= j < |run| ==> run[j].Item? && run[j].kind == k
    requires rest == [] || !(rest[0].Item? && rest[0].kind == k)
    ensures n == |run| == RunLength(k, run + rest)
    decreases |run|
  {
    var ks := run + rest;
    if run == [] {
      assert ks == rest;
      n := 0;
    } else {
      assert ks[1..] == run[1..] + rest;
      var m := RunOfItems(k, run[1..], rest);
      n := m + 1;
    }
  }

  /** Switching between numbered and bullet items closes the current list. */
  lemma KindSwitchClosesList(k1: ListKind, x: string, k2: ListKind, y: string, rest: seq<LineKind>)
    requires k1 != k2
    ensures Group([Item(k1, x), Item(k2, y)] + rest) == [List(k1, [x])] + Group([Item(k2, y)] + rest)
  {
    var r := [Item(k2, y)] + rest;
    assert [Item(k1, x), Item(k2, y)] + rest == [Item(k1, x)] + r;
    GroupCons(Item(k1, x), r);
    assert RunLength(k1, r) == 0;
    ContinueWithoutRun(k1, x, r);
  }

  lemma ContinueWithoutRun(k: ListKind, x: string, r: seq<LineKind>)
    requires RunLength(k, r) == 0
    ensures Continue(Some(k), [x], r) == [List(k, [x])] + Group(r)
  {
    assert r[..0] == [] && r[0..] == r;
    assert ItemTexts(r[..0]) == [];
    assert [x] + ItemTexts(r[..0]) == [x];
  }

  // ------------------------------------------------------ formatting properties

  /** Text without the delimiter's first character is left as it is. */
  lemma {:induction false} ReplaceWithoutDelimiter(s: string, d: string, open: string, close: string)
    requires |d| >= 1 && d[0] !in s
    ensures Replace(s, d, open, close) == s
    decreases |s|
  {
    if s != [] {
      if |d| <= |s| {
        assert s[..|d|][0] == s[0];
      }
      ReplaceWithoutDelimiter(s[1..], d, open, close);
    }
  }

  /** Text containing no `*` and no `_` is returned unchanged. */
  lemma FormatTextWithoutMarkup(s: string)
    requires '*' !in s && '_' !in s
    ensures FormatText(s) == s
  {
    ReplaceWithoutDelimiter(s, "**", "<strong>", "</strong>");
    ReplaceWithoutDelimiter(s, "*", "<em>", "</em>");
    ReplaceWithoutDelimiter(s, "_", "<em>", "</em>");
  }

  /** One replacement: a delimited run on one line, free of the delimiter's
      first character, is wrapped in the open and close tags, and the search
      goes on after the closing delimiter. */
  lemma ReplaceStep(d: string, x: string, t: string, open: string, close: string)
    requires |d| >= 1 && d[0] !in x
    requires forall i :: 0 <= i < |x| ==> !IsLineTerminator(x[i])
    ensures Replace(d + x + d + t, d, open, close) == open + x + close + Replace(t, d, open, close)
  {
    var s := d + x + d + t;
    var j := |d| + |x|;
    assert s[..|d|] == d;
    assert s[j..j + |d|] == d;
    forall k | |d| <= k < j
      ensures !IsLineTerminator(s[k]) && s[k] != d[0]
    {
      assert s[k] == x[k - |d|];
    }
    FindCloseAt(s, d, |d|, j);
    assert s[|d|..j] == x;
    assert s[j + |d|..] == t;
  }

  /** Text in which the delimiter never occurs is left as it is. */
  lemma {:induction false} ReplaceWithoutOccurrence(s: string, d: string, open: string, close: string)
    requires |d| >= 1 && forall k :: 0 <= k <= |s| ==> !OccursAt(s, d, k)
    ensures Replace(s, d, open, close) == s
    decreases |s|
  {
    if s != [] {
      assert !OccursAt(s, d, 0);
      forall k | 0 <= k <= |s[1..]|
        ensures !OccursAt(s[1..], d, k)
      {
        assert !OccursAt(s, d, k + 1);
        if k + |d| <= |s[1..]| {
          assert s[1..][k..k + |d|] == s[k + 1..k + 1 + |d|];
        }
      }
      ReplaceWithoutOccurrence(s[1..], d, open, close);
    }
  }

  /** Bold runs before the single-asterisk rule: `**x**` becomes
      `<strong>x</strong>`, not two empty emphasis elements around x. */
  lemma BoldBeforeEmphasis(x: string)
    requires '*' !in x && '_' !in x
    requires forall i :: 0 <= i < |x| ==> !IsLineTerminator(x[i])
    ensures FormatText("**" + x + "**") == "<strong>" + x + "</strong>"
  {
    var r := "<strong>" + x + "</strong>";
    ReplaceStep("**", x, [], "<strong>", "</strong>");
    assert "**" + x + "**" + [] == "**" + x + "**" && r + [] == r;
    WrapKeepsOut('*', "<strong>", x, "</strong>");
    WrapKeepsOut('_', "<strong>", x, "</strong>");
    ReplaceWithoutDelimiter(r, "*", "<em>", "</em>");
    ReplaceWithoutDelimiter(r, "_", "<em>", "</em>");
  }

  /** `*x*` becomes `<em>x</em>` for a non-empty single-line x free of markup. */
  lemma StarEmphasis(x: string)
    requires |x| >= 1 && '*' !in x && '_' !in x
    requires forall i :: 0 <= i < |x| ==> !IsLineTerminator(x[i])
    ensures FormatText("*" + x + "*") == "<em>" + x + "</em>"
  {
    var s := "*" + x + "*";
    var r := "<em>" + x + "</em>";
    NoDoubleStar(x);
    ReplaceWithoutOccurrence(s, "**", "<strong>", "</strong>");
    ReplaceStep("*", x, [], "<em>", "</em>");
    assert s + [] == s && r + [] == r;
    WrapKeepsOut('_', "<em>", x, "</em>");
    ReplaceWithoutDelimiter(r, "_", "<em>", "</em>");
  }

  lemma NoDoubleStar(x: string)
    requires |x| >= 1 && '*' !in x
    ensures forall k :: 0 <= k <= |"*" + x + "*"| ==> !OccursAt("*" + x + "*", "**", k)
  {
    var s := "*" + x + "*";
    forall i | 0 < i < |s| - 1
      ensures s[i] != '*'
    {
      assert s[i] == x[i - 1];
    }
    forall k | 0 <= k <= |s|
      ensures !OccursAt(s, "**", k)
    {
      if k + 2 <= |s| {
        assert s[k..k + 2][0] == s[k] && s[k..k + 2][1] == s[k + 1];
      }
    }
  }

  /** `_x_` becomes `<em>x</em>` for a single-line x free of markup. */
  lemma UnderscoreEmphasis(x: string)
    requires '*' !in x && '_' !in x
    requires forall i :: 0 <= i < |x| ==> !IsLineTerminator(x[i])
    ensures FormatText("_" + x + "_") == "<em>" + x + "</em>"
  {
    var s := "_" + x + "_";
    WrapKeepsOut('*', "_", x, "_");
    ReplaceWithoutDelimiter(s, "**", "<strong>", "</strong>");
    ReplaceWithoutDelimiter(s, "*", "<em>", "</em>");
    ReplaceStep("_", x, [], "<em>", "</em>");
    assert s + [] == s;
  }

  lemma WrapKeepsOut(c: char, open: string, x: string, close: string)
    requires c !in open && c !in x && c !in close
    ensures c !in open + x + close
  {
  }

  lemma {:induction false} FindCloseAt(s: string, d: string, from: nat, j: nat)
    requires |d| >= 1 && from <= j && j + |d| <= |s| && s[j..j + |d|] == d
    requires forall k :: from <= k < j ==> !IsLineTerminator(s[k]) && s[k] != d[0]
    ensures FindClose(s, d, from) == Some(j)
    decreases j - from
  {
    if from < j {
      assert s[from..from + |d|][0] == s[from];
      FindCloseAt(s, d, from + 1, j);
    }
  }
}
