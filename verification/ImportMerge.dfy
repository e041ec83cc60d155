/**
 Merging the imports of each module into one, at the place of the first, written in two
 passes with a placeholder line in between.
 */
module ImportMerge {
  import opened Seqs
  import opened ImportLines

  const PLACEHOLDER := "__IMPORT_PLACEHOLDER__"

  /** A line of the first pass: an import's place, or a line kept. */
  datatype Item = Place(mod: string) | Text(text: string)

  /** How the second pass takes a line of the first. */
  function ItemOf(line: string): Item {
    if PLACEHOLDER <= line then Place(line[|PLACEHOLDER|..]) else Text(line)
  }

  function NamesOf(line: Line, mod: string, typed: bool): seq<string> {
    if line.Imports? && line.spec.mod == mod && line.spec.typed == typed then line.spec.names else []
  }

  /** All names imported from a module, as types or as values, in order. */
  function NamesIn(lines: seq<Line>, mod: string, typed: bool): seq<string> {
    if lines == [] then []
    else NamesIn(lines[..|lines| - 1], mod, typed) + NamesOf(lines[|lines| - 1], mod, typed)
  }

  predicate Mentioned(lines: seq<Line>, mod: string) {
    exists i :: 0 <= i < |lines| && lines[i].Imports? && lines[i].spec.mod == mod
  }

  function Outline(lines: seq<Line>): seq<Item> {
    if lines == [] then [] else
    var before, line := lines[..|lines| - 1], lines[|lines| - 1];
    Outline(before) + ItemsOf(before, line)
  }

  function ItemsOf(before: seq<Line>, line: Line): seq<Item> {
    match line
    case Other(text) => [ItemOf(text)]
    case Imports(spec) => if Mentioned(before, spec.mod) then [] else [Place(spec.mod)]
  }

  lemma OneMoreLine(before: seq<Line>, line: Line, mod: string, typed: bool)
    ensures Outline(before + [line]) == Outline(before) + ItemsOf(before, line)
    ensures NamesIn(before + [line], mod, typed) == NamesIn(before, mod, typed) + NamesOf(line, mod, typed)
  {
    assert (before + [line])[..|before|] == before;
  }

  /** Later lines leave the outline of the earlier ones as it was, and go on from it. */
  lemma {:induction false} OutlineGrows(lines: seq<Line>, more: seq<Line>)
    ensures Outline(lines) <= Outline(lines + more)
    decreases |more|
  {
    if more == [] {
      assert lines + more == lines;
    } else {
      var before, line := more[..|more| - 1], more[|more| - 1];
      OutlineGrows(lines, before);
      OneMoreLine(lines + before, line, "", true);
      assert more == before + [line];
      Assoc(lines, before, [line]);
    }
  }

  /** A line that is no import stands as it is after the lines before it; an import leaves a
      place for its module, if that is the first of the module, and nothing otherwise. */
  lemma LineInOutline(before: seq<Line>, line: Line, more: seq<Line>)
    ensures line.Other? ==> Outline(before) + [ItemOf(line.text)] <= Outline(before + [line] + more)
    ensures line.Imports? && !Mentioned(before, line.spec.mod) ==>
              Outline(before) + [Place(line.spec.mod)] <= Outline(before + [line] + more)
    ensures line.Imports? && Mentioned(before, line.spec.mod) ==> Outline(before + [line]) == Outline(before)
  {
    OneMoreLine(before, line, "", true);
    OutlineGrows(before + [line], more);
  }

  /** The names, each where it came first. */
  function Unique(names: seq<string>): seq<string> {
    if names == [] then [] else
    var before, name := Unique(names[..|names| - 1]), names[|names| - 1];
    if name in before then before else before + [name]
  }

  const TYPE := "type "

  function Inline(names: seq<string>): (r: seq<string>)
    ensures |r| == |names| && forall i :: 0 <= i < |r| ==> r[i] == TYPE + names[i]
  {
    if names == [] then [] else Inline(names[..|names| - 1]) + [TYPE + names[|names| - 1]]
  }

  function MergedImport(types: seq<string>, values: seq<string>, mod: string): Import {
    var uniqueTypes, uniqueValues := Unique(types), Unique(values);
    if uniqueValues != [] && uniqueTypes != [] then Import(false, uniqueValues + Inline(uniqueTypes), mod)
    else if uniqueValues != [] then Import(false, uniqueValues, mod)
    else Import(true, uniqueTypes, mod)
  }

  function Merge(lines: seq<Line>, mod: string): Import {
    MergedImport(NamesIn(lines, mod, true), NamesIn(lines, mod, false), mod)
  }

  function Rendered(lines: seq<Line>, item: Item): Line {
    match item
    case Place(mod) => Imports(Merge(lines, mod))
    case Text(text) => Other(text)
  }

  function Render(lines: seq<Line>, items: seq<Item>): (r: seq<Line>)
    ensures |r| == |items| && forall i :: 0 <= i < |r| ==> r[i] == Rendered(lines, items[i])
  {
    if items == [] then [] else Render(lines, items[..|items| - 1]) + [Rendered(lines, items[|items| - 1])]
  }

  function Merged(lines: seq<Line>): seq<Line> {
    Render(lines, Outline(lines))
  }

  // ----- one import a module, at its first place -----

  predicate Plain(items: seq<Item>) {
    && (forall i :: 0 <= i < |items| && items[i].Text? ==> !(PLACEHOLDER <= items[i].text))
    && (forall i, j :: 0 <= i < j < |items| && items[i].Place? ==> items[i] != items[j])
  }

  predicate PlainLine(line: Line) {
    line.Other? ==> !(PLACEHOLDER <= line.text)
  }

  predicate NoPlaceholder(lines: seq<Line>) {
    forall i :: 0 <= i < |lines| ==> PlainLine(lines[i])
  }

  lemma {:induction false} OutlineIsPlain(lines: seq<Line>)
    requires NoPlaceholder(lines)
    ensures Plain(Outline(lines))
    ensures forall mod :: Place(mod) in Outline(lines) <==> Mentioned(lines, mod)
  {
    if lines != [] {
      var before, line := lines[..|lines| - 1], lines[|lines| - 1];
      OutlineIsPlain(before);
      assert PlainLine(line);
      forall mod ensures Mentioned(lines, mod) <==> Mentioned(before, mod) || (line.Imports? && line.spec.mod == mod) {
        MentionedSnoc(before, line, mod);
        assert before + [line] == lines;
      }
    }
  }

  lemma MentionedSnoc(before: seq<Line>, line: Line, mod: string)
    ensures Mentioned(before + [line], mod) <==> Mentioned(before, mod) || (line.Imports? && line.spec.mod == mod)
  {
    var lines := before + [line];
    if Mentioned(before, mod) {
      var i :| 0 <= i < |before| && before[i].Imports? && before[i].spec.mod == mod;
      assert lines[i] == before[i];
    }
    assert lines[|before|] == line;
  }

  lemma RenderMentions(lines: seq<Line>, items: seq<Item>, mod: string)
    ensures Mentioned(Render(lines, items), mod) <==> Place(mod) in items
  {
    if Place(mod) in items {
      var i :| 0 <= i < |items| && items[i] == Place(mod);
      assert Render(lines, items)[i] == Rendered(lines, items[i]);
    }
  }

  lemma PlainInit(items: seq<Item>)
    requires items != [] && Plain(items)
    ensures Plain(items[..|items| - 1])
    ensures items[|items| - 1].Place? ==> items[|items| - 1] !in items[..|items| - 1]
  {
  }

  lemma InitAndLast(items: seq<Item>)
    requires items != []
    ensures items == items[..|items| - 1] + [items[|items| - 1]]
  {
  }

  lemma RenderedItems(lines: seq<Line>, items: seq<Item>, item: Item)
    requires Plain(items) && (item.Text? ==> !(PLACEHOLDER <= item.text)) && (item.Place? ==> item !in items)
    ensures ItemsOf(Render(lines, items), Rendered(lines, item)) == [item]
  {
    if item.Place? {
      RenderMentions(lines, items, item.mod);
    }
  }

  lemma {:induction false} RenderKeepsOutline(lines: seq<Line>, items: seq<Item>)
    requires Plain(items)
    ensures Outline(Render(lines, items)) == items
  {
    if items != [] {
      var before, item := items[..|items| - 1], items[|items| - 1];
      PlainInit(items);
      RenderKeepsOutline(lines, before);
      RenderedItems(lines, before, item);
      OneMoreLine(Render(lines, before), Rendered(lines, item), "", true);
      InitAndLast(items);
    }
  }

  // ----- the same names -----

  function NamesAt(lines: seq<Line>, item: Item, mod: string, typed: bool): seq<string> {
    if item == Place(mod) && Merge(lines, mod).typed == typed then Merge(lines, mod).names else []
  }

  lemma RenderLast(lines: seq<Line>, items: seq<Item>)
    requires items != []
    ensures Render(lines, items) == Render(lines, items[..|items| - 1]) + [Rendered(lines, items[|items| - 1])]
  {
  }

  lemma RenderedHas(lines: seq<Line>, item: Item, mod: string, typed: bool)
    ensures NamesOf(Rendered(lines, item), mod, typed) == NamesAt(lines, item, mod, typed)
  {
  }

  lemma OneMoreItem(lines: seq<Line>, items: seq<Item>, mod: string, typed: bool)
    requires items != []
    ensures var before, item := items[..|items| - 1], items[|items| - 1];
            NamesIn(Render(lines, items), mod, typed) ==
              NamesIn(Render(lines, before), mod, typed) + NamesAt(lines, item, mod, typed)
  {
    var before, item := items[..|items| - 1], items[|items| - 1];
    RenderLast(lines, items);
    RenderedHas(lines, item, mod, typed);
    OneMoreLine(Render(lines, before), Rendered(lines, item), mod, typed);
  }

  lemma {:induction false} NoPlaceNoNames(lines: seq<Line>, items: seq<Item>, mod: string, typed: bool)
    requires Place(mod) !in items
    ensures NamesIn(Render(lines, items), mod, typed) == []
  {
    if items != [] {
      NoPlaceNoNames(lines, items[..|items| - 1], mod, typed);
      OneMoreItem(lines, items, mod, typed);
    }
  }

  /** The one import of a module has all its names. */
  lemma {:induction false} RenderedNames(lines: seq<Line>, items: seq<Item>, mod: string, typed: bool)
    requires Plain(items) && Place(mod) in items
    ensures NamesIn(Render(lines, items), mod, typed) == NamesAt(lines, Place(mod), mod, typed)
  {
    PlainInit(items);
    InitAndLast(items);
    OneMoreItem(lines, items, mod, typed);
    if items[|items| - 1] == Place(mod) {
      NoPlaceNoNames(lines, items[..|items| - 1], mod, typed);
    } else {
      RenderedNames(lines, items[..|items| - 1], mod, typed);
    }
  }

  lemma {:induction false} UniqueKeepsNames(names: seq<string>)
    ensures forall n :: n in Unique(names) <==> n in names
    ensures Unique(names) == [] <==> names == []
  {
    if names != [] {
      UniqueKeepsNames(names[..|names| - 1]);
      assert names == names[..|names| - 1] + [names[|names| - 1]];
    }
  }

  lemma {:induction false} UniqueIsDistinct(names: seq<string>)
    ensures NoDuplicates(Unique(names)) && |Unique(names)| <= |names|
    ensures NoDuplicates(names) <==> Unique(names) == names
  {
    if names != [] {
      var before, name := names[..|names| - 1], names[|names| - 1];
      UniqueIsDistinct(before);
      UniqueKeepsNames(before);
      assert before + [name] == names;
      if NoDuplicates(names) {
        assert NoDuplicates(before);
        assert name !in before;
      }
    }
  }

  /** Where a name comes first. */
  function FirstAt(names: seq<string>, name: string): (i: nat)
    requires name in names
    ensures i < |names| && names[i] == name && forall j :: 0 <= j < i ==> names[j] != name
  {
    if names[0] == name then 0 else
    assert names == [names[0]] + names[1..];
    1 + FirstAt(names[1..], name)
  }

  lemma FirstAtOf(names: seq<string>, name: string, i: nat)
    requires i < |names| && names[i] == name && forall j :: 0 <= j < i ==> names[j] != name
    ensures FirstAt(names, name) == i
  {
  }

  ghost predicate ByFirstPlace(names: seq<string>, u: seq<string>) {
    && (forall i :: 0 <= i < |u| ==> u[i] in names)
    && forall i, j :: 0 <= i < j < |u| ==> FirstAt(names, u[i]) < FirstAt(names, u[j])
  }

  /** The names stand in the order of their first places. */
  lemma {:induction false} UniqueIsByFirstPlace(names: seq<string>)
    ensures ByFirstPlace(names, Unique(names))
  {
    if names != [] {
      var n := |names| - 1;
      var before, name := names[..n], names[n];
      UniqueIsByFirstPlace(before);
      UniqueKeepsNames(before);
      assert names == before + [name];
      forall x | x in before ensures x in names && FirstAt(names, x) == FirstAt(before, x) < n {
        FirstAtOf(names, x, FirstAt(before, x));
      }
      if name !in before {
        FirstAtOf(names, name, n);
      }
    }
  }

  /** A module's import: its values first, then its types, each marked as one, if it has both;
      only its types, as an import of types, if it has no values. */
  lemma MergeByName(lines: seq<Line>, mod: string)
    ensures var values, types := Unique(NamesIn(lines, mod, false)), Unique(NamesIn(lines, mod, true));
            && Merge(lines, mod).mod == mod && (Merge(lines, mod).typed <==> values == [])
            && (values == [] ==> Merge(lines, mod).names == types)
            && (values != [] ==> Merge(lines, mod).names == values + MarkedTypes(types))
  {
    TypesAreMarked(Unique(NamesIn(lines, mod, true)));
  }

  function MarkedTypes(types: seq<string>): seq<string> {
    seq(|types|, i requires 0 <= i < |types| => "type " + types[i])
  }

  lemma TypesAreMarked(types: seq<string>)
    ensures Inline(types) == MarkedTypes(types)
  {
  }

  /** What is imported from a module, as an import of values says it. */
  function Specifiers(lines: seq<Line>, mod: string): set<string> {
    (set n | n in NamesIn(lines, mod, false)) + (set n | n in Inline(NamesIn(lines, mod, true)))
  }

  lemma InlineHas(names: seq<string>, n: string)
    ensures TYPE + n in Inline(names) <==> n in names
  {
    if n in names {
      var i :| 0 <= i < |names| && names[i] == n;
      assert Inline(names)[i] == TYPE + n;
    }
    if TYPE + n in Inline(names) {
      var i :| 0 <= i < |names| && Inline(names)[i] == TYPE + n;
      assert (TYPE + names[i])[|TYPE|..] == names[i] && (TYPE + n)[|TYPE|..] == n;
    }
  }

  lemma InlineSame(a: seq<string>, b: seq<string>)
    requires forall n :: n in a <==> n in b
    ensures forall n :: n in Inline(a) <==> n in Inline(b)
  {
    forall n ensures n in Inline(a) <==> n in Inline(b) {
      if n in Inline(a) {
        var i :| 0 <= i < |a| && Inline(a)[i] == n;
        assert a[i] in b;
        InlineHas(b, a[i]);
      }
      if n in Inline(b) {
        var i :| 0 <= i < |b| && Inline(b)[i] == n;
        assert b[i] in a;
        InlineHas(a, b[i]);
      }
    }
  }

  /** The specifiers an import line stands for. */
  function Says(spec: Import): set<string> {
    var names := if spec.typed then Inline(spec.names) else spec.names;
    set n | n in names
  }

  lemma MergedSays(types: seq<string>, values: seq<string>, mod: string)
    ensures Says(MergedImport(types, values, mod)) == (set n | n in values) + (set n | n in Inline(types))
  {
    UniqueKeepsNames(types);
    UniqueKeepsNames(values);
    InlineSame(Unique(types), types);
  }

  lemma {:induction false} UnmentionedHasNone(lines: seq<Line>, mod: string, typed: bool)
    requires !Mentioned(lines, mod)
    ensures NamesIn(lines, mod, typed) == []
  {
    if lines != [] {
      MentionedSnoc(lines[..|lines| - 1], lines[|lines| - 1], mod);
      assert lines[..|lines| - 1] + [lines[|lines| - 1]] == lines;
      UnmentionedHasNone(lines[..|lines| - 1], mod, typed);
    }
  }

  lemma {:induction false} MentionedHasPlace(lines: seq<Line>, mod: string)
    requires Mentioned(lines, mod)
    ensures Place(mod) in Outline(lines)
  {
    var before, line := lines[..|lines| - 1], lines[|lines| - 1];
    assert lines == before + [line];
    MentionedSnoc(before, line, mod);
    if Mentioned(before, mod) {
      MentionedHasPlace(before, mod);
    }
  }

  /** Every place of a module has its names, and no other line has. */
  lemma {:induction false} RenderedNamesAre(lines: seq<Line>, items: seq<Item>, mod: string, typed: bool)
    ensures forall n :: n in NamesIn(Render(lines, items), mod, typed) <==>
                        Place(mod) in items && n in NamesAt(lines, Place(mod), mod, typed)
  {
    if items != [] {
      RenderedNamesAre(lines, items[..|items| - 1], mod, typed);
      InitAndLast(items);
      OneMoreItem(lines, items, mod, typed);
    }
  }

  predicate AllKnown(lines: seq<Line>, items: seq<Item>) {
    forall i :: 0 <= i < |items| && items[i].Place? ==> Mentioned(lines, items[i].mod)
  }

  /** The second pass meets the placeholder of a module it has no imports of. */
  predicate Throws(lines: seq<Line>) {
    !AllKnown(lines, Outline(lines))
  }

  lemma PlacedIffMentioned(lines: seq<Line>, mod: string)
    requires !Throws(lines)
    ensures Place(mod) in Outline(lines) <==> Mentioned(lines, mod)
  {
    if Mentioned(lines, mod) {
      MentionedHasPlace(lines, mod);
    }
  }

  lemma SpecifiersOf(lines: seq<Line>, mod: string, values: seq<string>, types: seq<string>)
    requires forall n :: n in NamesIn(lines, mod, false) <==> n in values
    requires forall n :: n in NamesIn(lines, mod, true) <==> n in types
    ensures Specifiers(lines, mod) == (set n | n in values) + (set n | n in Inline(types))
  {
    InlineSame(NamesIn(lines, mod, true), types);
  }

  /** Whatever lines there are, placeholders among them: what is imported from a module is
      the same afterwards. */
  lemma MergedKeepsSpecifiers(lines: seq<Line>, mod: string)
    requires !Throws(lines)
    ensures Specifiers(Merged(lines), mod) == Specifiers(lines, mod)
  {
    PlacedIffMentioned(lines, mod);
    RenderedNamesAre(lines, Outline(lines), mod, true);
    RenderedNamesAre(lines, Outline(lines), mod, false);
    if Mentioned(lines, mod) {
      var spec := Merge(lines, mod);
      SpecifiersOf(Merged(lines), mod, if spec.typed then [] else spec.names, if spec.typed then spec.names else []);
      MergedSays(NamesIn(lines, mod, true), NamesIn(lines, mod, false), mod);
    } else {
      SpecifiersOf(Merged(lines), mod, [], []);
      UnmentionedHasNone(lines, mod, true);
      UnmentionedHasNone(lines, mod, false);
    }
  }

  // ----- the other lines, and one import a module -----

  /** The lines that are no imports. */
  function Others(lines: seq<Line>): seq<string> {
    if lines == [] then []
    else Others(lines[..|lines| - 1]) + (if lines[|lines| - 1].Other? then [lines[|lines| - 1].text] else [])
  }

  function Texts(items: seq<Item>): seq<string> {
    if items == [] then []
    else Texts(items[..|items| - 1]) + (if items[|items| - 1].Text? then [items[|items| - 1].text] else [])
  }

  lemma {:induction false} RenderKeepsTexts(lines: seq<Line>, items: seq<Item>)
    ensures Others(Render(lines, items)) == Texts(items)
  {
    if items != [] {
      RenderKeepsTexts(lines, items[..|items| - 1]);
      RenderLast(lines, items);
      assert Render(lines, items)[..|items| - 1] == Render(lines, items[..|items| - 1]);
    }
  }

  lemma TextsAppend(a: seq<Item>, b: seq<Item>)
    requires |b| <= 1
    ensures Texts(a + b) == Texts(a) + Texts(b)
  {
    if b == [] {
      assert a + b == a;
    } else {
      assert (a + b)[..|a|] == a && b[..0] == [];
    }
  }

  lemma NoPlaceholderSnoc(lines: seq<Line>)
    requires lines != []
    ensures NoPlaceholder(lines) <==> NoPlaceholder(lines[..|lines| - 1]) && PlainLine(lines[|lines| - 1])
  {
  }

  /** The outline has the other lines, short of those that look like placeholders. */
  lemma {:induction false} OutlineTexts(lines: seq<Line>)
    ensures |Texts(Outline(lines))| <= |Others(lines)|
    ensures Texts(Outline(lines)) == Others(lines) <==> NoPlaceholder(lines)
    ensures !NoPlaceholder(lines) ==> |Texts(Outline(lines))| < |Others(lines)|
  {
    if lines != [] {
      var before, line := lines[..|lines| - 1], lines[|lines| - 1];
      OutlineTexts(before);
      NoPlaceholderSnoc(lines);
      TextsAppend(Outline(before), ItemsOf(before, line));
      TextsOfLine(before, line);
    }
  }

  lemma TextsOfLine(before: seq<Line>, line: Line)
    ensures Texts(ItemsOf(before, line)) == if line.Other? && PlainLine(line) then [line.text] else []
  {
    var items := ItemsOf(before, line);
    assert |items| == 1 ==> items[..0] == [];
  }

  predicate SameModule(a: Line, b: Line) {
    a.Imports? && b.Imports? && a.spec.mod == b.spec.mod
  }

  predicate OneImportEach(lines: seq<Line>) {
    forall i, j :: 0 <= i < j < |lines| ==> !SameModule(lines[i], lines[j])
  }

  lemma {:induction false} PlaceholderDoublesPlace(lines: seq<Line>, text: string, mod: string) returns (i: nat, j: nat)
    requires Other(text) in lines && ItemOf(text) == Place(mod) && Mentioned(lines, mod)
    ensures i < j < |Outline(lines)| && Outline(lines)[i] == Place(mod) && Outline(lines)[j] == Place(mod)
  {
    var before, line := lines[..|lines| - 1], lines[|lines| - 1];
    assert lines == before + [line];
    MentionedSnoc(before, line, mod);
    if Other(text) in before && Mentioned(before, mod) {
      i, j := PlaceholderDoublesPlace(before, text, mod);
    } else {
      if Other(text) in before {
        LineIsInOutline(before, text);
      } else {
        MentionedHasPlace(before, mod);
      }
      i :| 0 <= i < |Outline(before)| && Outline(before)[i] == Place(mod);
      j := |Outline(before)|;
    }
  }

  lemma PlaceholderLine(lines: seq<Line>) returns (text: string)
    requires !NoPlaceholder(lines)
    ensures Other(text) in lines && ItemOf(text).Place?
  {
    var i :| 0 <= i < |lines| && !PlainLine(lines[i]);
    text := lines[i].text;
  }

  lemma PlainLeavesOneEach(lines: seq<Line>)
    requires NoPlaceholder(lines)
    ensures OneImportEach(Merged(lines))
  {
    OutlineIsPlain(lines);
    PlainRendersOneEach(lines, Outline(lines));
  }

  lemma PlainRendersOneEach(lines: seq<Line>, items: seq<Item>)
    requires Plain(items)
    ensures OneImportEach(Render(lines, items))
  {
    var once := Render(lines, items);
    forall i, j | 0 <= i < j < |once| ensures !SameModule(once[i], once[j]) {
      assert items[i].Place? ==> items[i] != items[j];
    }
  }

  lemma PlaceholderLeavesTwo(lines: seq<Line>)
    requires !Throws(lines) && !NoPlaceholder(lines)
    ensures !OneImportEach(Merged(lines))
  {
    var text := PlaceholderLine(lines);
    LineIsInOutline(lines, text);
    var i, j := PlaceholderDoublesPlace(lines, text, ItemOf(text).mod);
    assert SameModule(Merged(lines)[i], Merged(lines)[j]);
  }

  /** One import a module is left exactly if no line looks like a placeholder. */
  lemma OneImportEachIff(lines: seq<Line>)
    requires !Throws(lines)
    ensures OneImportEach(Merged(lines)) <==> NoPlaceholder(lines)
  {
    if NoPlaceholder(lines) {
      PlainLeavesOneEach(lines);
    } else {
      PlaceholderLeavesTwo(lines);
    }
  }

  // ----- merging again -----

  /** A type imported as a type and, with `type` before it, among the values too. */
  ghost predicate Clash(lines: seq<Line>, mod: string) {
    exists n :: n in NamesIn(lines, mod, true) && TYPE + n in NamesIn(lines, mod, false)
  }

  lemma InlineDistinct(names: seq<string>)
    requires NoDuplicates(names)
    ensures NoDuplicates(Inline(names))
  {
    forall i, j | 0 <= i < j < |names| ensures Inline(names)[i] != Inline(names)[j] {
      assert (TYPE + names[i])[|TYPE|..] == names[i] && (TYPE + names[j])[|TYPE|..] == names[j];
    }
  }

  lemma DistinctAppend(a: seq<string>, b: seq<string>)
    requires NoDuplicates(a) && NoDuplicates(b)
    ensures NoDuplicates(a + b) <==> forall n :: n in b ==> n !in a
  {
    var all := a + b;
    if forall n :: n in b ==> n !in a {
      forall i, j | 0 <= i < j < |all| ensures all[i] != all[j] {
        if i < |a| <= j {
          assert all[j] == b[j - |a|] && all[i] == a[i] && b[j - |a|] in b;
        } else if |a| <= i {
          assert all[i] == b[i - |a|] && all[j] == b[j - |a|];
        }
      }
    } else {
      var n :| n in b && n in a;
      var i :| 0 <= i < |a| && a[i] == n;
      var j :| 0 <= j < |b| && b[j] == n;
      assert all[i] == all[|a| + j];
    }
  }

  lemma MergedIsDistinctIff(types: seq<string>, values: seq<string>, mod: string)
    ensures NoDuplicates(MergedImport(types, values, mod).names) <==> !exists n :: n in types && TYPE + n in values
  {
    UniqueKeepsNames(types);
    UniqueKeepsNames(values);
    UniqueIsDistinct(types);
    UniqueIsDistinct(values);
    var a, b := Unique(values), Unique(types);
    InlineDistinct(b);
    DistinctAppend(a, Inline(b));
    forall n ensures n in types && TYPE + n in values ==> TYPE + n in Inline(b) {
      InlineHas(b, n);
    }
    forall n | n in Inline(b) ensures exists t :: t in types && n == TYPE + t {
      var i :| 0 <= i < |b| && Inline(b)[i] == n;
      assert b[i] in types;
    }
  }

  /** An import merged again is the same exactly if no name of it stands there twice. */
  lemma MergedAgain(spec: Import)
    requires !spec.typed ==> spec.names != []
    ensures MergedImport(if spec.typed then spec.names else [], if spec.typed then [] else spec.names, spec.mod) == spec
       <==> NoDuplicates(spec.names)
  {
    UniqueIsDistinct(spec.names);
    UniqueKeepsNames(spec.names);
  }

  lemma MergeTwiceIff(lines: seq<Line>, mod: string)
    requires NoPlaceholder(lines) && Mentioned(lines, mod)
    ensures Merge(Merged(lines), mod) == Merge(lines, mod) <==> !Clash(lines, mod)
  {
    OutlineIsPlain(lines);
    RenderedNames(lines, Outline(lines), mod, true);
    RenderedNames(lines, Outline(lines), mod, false);
    MergedAgain(Merge(lines, mod));
    MergedIsDistinctIff(NamesIn(lines, mod, true), NamesIn(lines, mod, false), mod);
  }

  lemma ClashIsMentioned(lines: seq<Line>, mod: string)
    requires Clash(lines, mod)
    ensures Mentioned(lines, mod)
  {
    if !Mentioned(lines, mod) {
      UnmentionedHasNone(lines, mod, true);
    }
  }

  lemma OneImportEachSnoc(lines: seq<Line>)
    requires lines != []
    ensures var before, line := lines[..|lines| - 1], lines[|lines| - 1];
            OneImportEach(before) && !OneImportEach(lines) ==> line.Imports? && Mentioned(before, line.spec.mod)
  {
    var before, line := lines[..|lines| - 1], lines[|lines| - 1];
    if OneImportEach(before) && !OneImportEach(lines) {
      var i, j :| 0 <= i < j < |lines| && SameModule(lines[i], lines[j]);
      assert before[i] == lines[i];
    }
  }

  lemma {:induction false} OutlineIsShort(lines: seq<Line>)
    ensures |Outline(lines)| <= |lines|
    ensures !OneImportEach(lines) ==> |Outline(lines)| < |lines|
  {
    if lines != [] {
      OutlineIsShort(lines[..|lines| - 1]);
      OneImportEachSnoc(lines);
    }
  }

  lemma NoClashMergedTwice(lines: seq<Line>)
    requires NoPlaceholder(lines) && forall mod :: !Clash(lines, mod)
    ensures Render(Merged(lines), Outline(lines)) == Merged(lines)
  {
    OutlineIsPlain(lines);
    var items, once := Outline(lines), Merged(lines);
    forall i | 0 <= i < |items| ensures Rendered(once, items[i]) == Rendered(lines, items[i]) {
      if items[i].Place? {
        assert Place(items[i].mod) in items;
        MergeTwiceIff(lines, items[i].mod);
      }
    }
  }

  lemma ClashMergedTwice(lines: seq<Line>, mod: string)
    requires NoPlaceholder(lines) && Clash(lines, mod)
    ensures Render(Merged(lines), Outline(lines)) != Merged(lines)
  {
    OutlineIsPlain(lines);
    ClashIsMentioned(lines, mod);
    MergeTwiceIff(lines, mod);
    var items := Outline(lines);
    var i :| 0 <= i < |items| && items[i] == Place(mod);
    assert Render(Merged(lines), items)[i] == Imports(Merge(Merged(lines), mod));
    assert Merged(lines)[i] == Imports(Merge(lines, mod));
  }

  lemma PlainMergedTwiceIff(lines: seq<Line>)
    requires NoPlaceholder(lines)
    ensures Merged(Merged(lines)) == Merged(lines) <==> forall mod :: !Clash(lines, mod)
  {
    OutlineIsPlain(lines);
    RenderKeepsOutline(lines, Outline(lines));
    if mod :| Clash(lines, mod) {
      ClashMergedTwice(lines, mod);
    } else {
      NoClashMergedTwice(lines);
    }
  }

  lemma MergedTwiceIff(lines: seq<Line>)
    requires !Throws(lines)
    ensures Merged(Merged(lines)) == Merged(lines) <==> NoPlaceholder(lines) && forall mod :: !Clash(lines, mod)
  {
    if NoPlaceholder(lines) {
      PlainMergedTwiceIff(lines);
    } else {
      OneImportEachIff(lines);
      OutlineIsShort(Merged(lines));
    }
  }

  // ----- the text -----

  function MergeLines(lines: seq<string>): Option<seq<string>> {
    if Throws(ReadAll(lines)) then None else Some(WriteAll(Merged(ReadAll(lines))))
  }

  predicate PlainText(lines: seq<string>) {
    forall i :: 0 <= i < |lines| ==> !("__IMPORT_PLACEHOLDER__" <= lines[i])
  }

  lemma PlainTextIff(lines: seq<string>)
    ensures PlainText(lines) <==> NoPlaceholder(ReadAll(lines))
  {
    var ls := ReadAll(lines);
    forall i | 0 <= i < |lines| ensures PlainLine(ls[i]) <==> !(PLACEHOLDER <= lines[i]) {
      PlainLineIff(lines[i]);
    }
  }

  /** No import looks like a placeholder. */
  lemma PlainLineIff(line: string)
    ensures PlainLine(ReadLine(line)) <==> !(PLACEHOLDER <= line)
  {
    if ReadLine(line).Imports? {
      assert line[0] == 'i' && PLACEHOLDER[0] == '_';
    } else {
      assert ReadLine(line).text == line;
    }
  }

  lemma MergedIsPlain(lines: seq<Line>)
    requires NoPlaceholder(lines)
    ensures !Throws(lines) && NoPlaceholder(Merged(lines))
  {
    OutlineIsPlain(lines);
    var once := Merged(lines);
    forall i | 0 <= i < |once| ensures PlainLine(once[i]) {
      assert once[i] == Rendered(lines, Outline(lines)[i]);
    }
  }

  /** Without lines that look like a placeholder a merge never fails, and leaves none, so
      merging again never fails either. */
  lemma PlainTextIsMerged(lines: seq<string>)
    requires PlainText(lines)
    ensures MergeLines(lines).Some? && PlainText(MergeLines(lines).value)
  {
    PlainTextIff(lines);
    MergedIsPlain(ReadAll(lines));
    MergedIsRead(lines);
    PlainTextIff(MergeLines(lines).value);
  }

  lemma NamesOfAreClean(lines: seq<Line>, mod: string, typed: bool)
    requires AllReadable(lines)
    ensures AllClean(NamesIn(lines, mod, typed))
  {
    if lines != [] {
      var before, line := lines[..|lines| - 1], lines[|lines| - 1];
      NamesOfAreClean(before, mod, typed);
      assert Readable(line);
      AllCleanAppend(NamesIn(before, mod, typed), NamesOf(line, mod, typed));
    }
  }

  lemma InlineIsClean(names: seq<string>)
    requires AllClean(names)
    ensures AllClean(Inline(names))
  {
    forall i | 0 <= i < |names| ensures Clean(Inline(names)[i]) {
      InlineOne(names[i]);
    }
  }

  lemma InlineOne(name: string)
    requires Clean(name)
    ensures Clean(TYPE + name)
  {
    var n := TYPE + name;
    assert n[|n| - 1] == name[|name| - 1] && n[0] == 't';
  }

  lemma UniqueIsClean(names: seq<string>)
    requires AllClean(names)
    ensures AllClean(Unique(names))
  {
    UniqueKeepsNames(names);
    forall i | 0 <= i < |Unique(names)| ensures Clean(Unique(names)[i]) {
      assert Unique(names)[i] in names;
    }
  }

  lemma MergedIsClean(types: seq<string>, values: seq<string>, mod: string)
    requires AllClean(types) && AllClean(values)
    ensures AllClean(MergedImport(types, values, mod).names)
  {
    UniqueIsClean(types);
    UniqueIsClean(values);
    InlineIsClean(Unique(types));
    AllCleanAppend(Unique(values), Inline(Unique(types)));
  }

  lemma {:induction false} OutlineIsFromLines(lines: seq<Line>, text: string)
    requires Text(text) in Outline(lines)
    ensures Other(text) in lines
  {
    var before, line := lines[..|lines| - 1], lines[|lines| - 1];
    assert lines == before + [line];
    if Text(text) in Outline(before) {
      OutlineIsFromLines(before, text);
    }
  }

  lemma ItemIsReadable(lines: seq<Line>, item: Item)
    requires AllReadable(lines) && item in Outline(lines) && (item.Place? ==> Mentioned(lines, item.mod))
    ensures Readable(Rendered(lines, item))
  {
    match item
    case Text(text) => OutlineIsFromLines(lines, text);
    case Place(mod) =>
      NamesOfAreClean(lines, mod, true);
      NamesOfAreClean(lines, mod, false);
      MergedIsClean(NamesIn(lines, mod, true), NamesIn(lines, mod, false), mod);
  }

  lemma MergedIsReadable(lines: seq<Line>)
    requires AllReadable(lines) && !Throws(lines)
    ensures AllReadable(Merged(lines))
  {
    forall i | 0 <= i < |Merged(lines)| ensures Readable(Merged(lines)[i]) {
      ItemIsReadable(lines, Outline(lines)[i]);
    }
  }

  lemma MergedIsRead(lines: seq<string>)
    requires MergeLines(lines).Some?
    ensures AllReadable(Merged(ReadAll(lines)))
    ensures ReadAll(MergeLines(lines).value) == Merged(ReadAll(lines))
  {
    ReadIsReadable(lines);
    MergedIsReadable(ReadAll(lines));
    WrittenIsRead(Merged(ReadAll(lines)));
  }

  /** Lines in the same order, the imports of each module at its first place. */
  predicate KeepsPlaces(before: seq<Line>, after: seq<Line>) {
    Outline(after) == Outline(before) && |after| == |Outline(before)|
  }

  /** What a merge keeps, of any lines it does not fail on: always what is imported from
      every module; and exactly if no line looks like a placeholder, all other lines in
      order, and one import of each module, which then is where its first import was. */
  lemma MergeKeepsImports(lines: seq<string>)
    requires MergeLines(lines).Some?
    ensures var before, after := ReadAll(lines), ReadAll(MergeLines(lines).value);
            && (forall mod :: Specifiers(after, mod) == Specifiers(before, mod))
            && (Others(after) == Others(before) <==> PlainText(lines))
            && (OneImportEach(after) <==> PlainText(lines))
            && (PlainText(lines) ==> KeepsPlaces(before, after))
  {
    var before := ReadAll(lines);
    MergedIsRead(lines);
    PlainTextIff(lines);
    forall mod ensures Specifiers(Merged(before), mod) == Specifiers(before, mod) {
      MergedKeepsSpecifiers(before, mod);
    }
    RenderKeepsTexts(before, Outline(before));
    OutlineTexts(before);
    OneImportEachIff(before);
    if NoPlaceholder(before) {
      OutlineIsPlain(before);
      RenderKeepsOutline(before, Outline(before));
    }
  }

  lemma WrittenDiffer(a: seq<Line>, b: seq<Line>)
    requires AllReadable(a) && AllReadable(b)
    ensures WriteAll(a) == WriteAll(b) <==> a == b
  {
    WrittenIsRead(a);
    WrittenIsRead(b);
  }

  /** Merging twice is merging once exactly if no line looks like a placeholder, and no
      module has the same type imported as a type and as an inline `type` among the values. */
  lemma MergeIsIdempotentIff(lines: seq<string>)
    requires MergeLines(lines).Some?
    ensures MergeLines(MergeLines(lines).value) == MergeLines(lines) <==>
              PlainText(lines) && forall mod :: !Clash(ReadAll(lines), mod)
  {
    var before := ReadAll(lines);
    var once := Merged(before);
    MergedIsRead(lines);
    PlainTextIff(lines);
    MergedTwiceIff(before);
    if !Throws(once) {
      MergedIsReadable(once);
      WrittenDiffer(Merged(once), once);
    } else {
      ThrowsOnlyIfPlaceholder(before);
    }
  }

  lemma ThrowsOnlyIfPlaceholder(lines: seq<Line>)
    requires Throws(Merged(lines))
    ensures !NoPlaceholder(lines)
  {
    if NoPlaceholder(lines) {
      MergedIsPlain(lines);
      MergedIsPlain(Merged(lines));
    }
  }

  lemma OnePlaceIsRendered(lines: seq<Line>, mod: string)
    requires Outline(lines) == [Place(mod)] && Mentioned(lines, mod)
    ensures !Throws(lines) && Merged(lines) == [Imports(Merge(lines, mod))]
  {
    assert Merged(lines)[0] == Rendered(lines, Place(mod));
  }

  lemma MergeOf(lines: seq<string>, ls: seq<Line>, merged: seq<Line>)
    requires ReadAll(lines) == ls && !Throws(ls) && Merged(ls) == merged
    ensures MergeLines(lines) == Some(WriteAll(merged))
  {
  }

  /** Imports of one module and nothing else become one. */
  lemma OneModuleIsMerged(lines: seq<Line>, mod: string, spec: Import)
    requires AllReadable(lines) && Outline(lines) == [Place(mod)] && Mentioned(lines, mod) && Merge(lines, mod) == spec
    ensures MergeLines(WriteAll(lines)) == Some([WriteLine(Imports(spec))])
  {
    WrittenIsRead(lines);
    OnePlaceIsRendered(lines, mod);
    MergeOf(WriteAll(lines), lines, [Imports(spec)]);
    OneWritten([Imports(spec)]);
  }

  lemma OneWritten(lines: seq<Line>)
    requires |lines| == 1
    ensures WriteAll(lines) == [WriteLine(lines[0])]
  {
    assert WriteAll(lines)[0] == WriteLine(lines[0]);
  }

  lemma TwoWritten(lines: seq<Line>)
    requires |lines| == 2
    ensures WriteAll(lines) == [WriteLine(lines[0]), WriteLine(lines[1])]
  {
    assert WriteAll(lines)[0] == WriteLine(lines[0]) && WriteAll(lines)[1] == WriteLine(lines[1]);
  }

  lemma PairIsCollected(values: Import, types: Import)
    requires !values.typed && types.typed && values.mod == types.mod
    ensures var lines, mod := [Imports(values), Imports(types)], values.mod;
            && Outline(lines) == [Place(mod)] && Mentioned(lines, mod)
            && NamesIn(lines, mod, true) == types.names && NamesIn(lines, mod, false) == values.names
  {
    var mod := values.mod;
    OneIsCollected(values);
    OneMoreLine([Imports(values)], Imports(types), mod, true);
    OneMoreLine([Imports(values)], Imports(types), mod, false);
    MentionedSnoc([Imports(values)], Imports(types), mod);
    assert [Imports(values)] + [Imports(types)] == [Imports(values), Imports(types)];
  }

  lemma OneIsCollected(values: Import)
    requires !values.typed
    ensures var lines, mod := [Imports(values)], values.mod;
            && Outline(lines) == [Place(mod)] && Mentioned(lines, mod)
            && NamesIn(lines, mod, true) == [] && NamesIn(lines, mod, false) == values.names
  {
    OneMoreLine([], Imports(values), values.mod, true);
    OneMoreLine([], Imports(values), values.mod, false);
    MentionedSnoc([], Imports(values), values.mod);
    assert [] + [Imports(values)] == [Imports(values)];
  }

  const VALUE := Import(false, ["type A"], "m")
  const TYPED := Import(true, ["A"], "m")
  const TWICE := Import(false, ["type A", "type A"], "m")

  lemma NamesAreReadable()
    ensures Readable(Imports(VALUE)) && Readable(Imports(TYPED)) && Readable(Imports(TWICE))
  {
    assert Clean("A") && Clean("type A") && Lacks("m", '\'');
  }

  lemma FirstMerge(lines: seq<Line>)
    requires lines == [Imports(VALUE), Imports(TYPED)]
    ensures MergeLines(WriteAll(lines)) == Some([WriteLine(Imports(TWICE))])
  {
    NamesAreReadable();
    PairMerges(lines);
    OneModuleIsMerged(lines, "m", TWICE);
  }

  lemma PairMerges(lines: seq<Line>)
    requires lines == [Imports(VALUE), Imports(TYPED)]
    ensures Outline(lines) == [Place("m")] && Mentioned(lines, "m") && Merge(lines, "m") == TWICE
  {
    PairIsCollected(VALUE, TYPED);
    MergedNames();
  }

  lemma SecondMerge(lines: seq<Line>)
    requires lines == [Imports(TWICE)]
    ensures MergeLines(WriteAll(lines)) == Some([WriteLine(Imports(VALUE))])
  {
    NamesAreReadable();
    OneIsCollected(TWICE);
    MergedNames();
    OneModuleIsMerged(lines, "m", VALUE);
  }

  /** The same type imported from a module in both ways: the merge names it twice, and
      merging what it wrote names it once. */
  lemma MergedTwiceDiffers()
    ensures MergeLines(["import { type A } from 'm';", "import type { A } from 'm';"]) ==
              Some(["import { type A, type A } from 'm';"])
    ensures MergeLines(["import { type A, type A } from 'm';"]) == Some(["import { type A } from 'm';"])
  {
    ValueWritten();
    TypedWritten();
    TwiceWritten();
    TwoWritten([Imports(VALUE), Imports(TYPED)]);
    FirstMerge([Imports(VALUE), Imports(TYPED)]);
    OneWritten([Imports(TWICE)]);
    SecondMerge([Imports(TWICE)]);
  }

  lemma ValueWritten()
    ensures WriteLine(Imports(VALUE)) == "import { type A } from 'm';"
  {
    WrittenImport(VALUE, " type A ");
  }

  lemma TypedWritten()
    ensures WriteLine(Imports(TYPED)) == "import type { A } from 'm';"
  {
    WrittenImport(TYPED, " A ");
  }

  lemma TwiceWritten()
    ensures WriteLine(Imports(TWICE)) == "import { type A, type A } from 'm';"
  {
    TwiceListed();
    WrittenImport(TWICE, " type A, type A ");
  }

  lemma MergedNames()
    ensures MergedImport(["A"], ["type A"], "m") == TWICE
    ensures MergedImport([], ["type A", "type A"], "m") == VALUE
  {
    UniqueOne("A");
    UniqueOne("type A");
    UniqueTwice("type A");
    assert Inline(["A"])[0] == TYPE + "A" == "type A";
  }

  lemma UniqueOne(name: string)
    ensures Unique([name]) == [name]
  {
    assert [name][..0] == [];
  }

  lemma UniqueTwice(name: string)
    ensures Unique([name, name]) == [name]
  {
    UniqueOne(name);
    assert [name, name][..1] == [name];
  }

  lemma TwiceListed()
    ensures Listed(["type A", "type A"]) == " type A, type A "
  {
    ListedTwice("type A");
    assert " type A" + ("," + " type A ") == " type A, type A ";
  }

  lemma ListedTwice(name: string)
    ensures Listed([name, name]) == " " + name + ("," + (" " + name + " "))
  {
    assert [name, name][1..] == [name];
    assert Listed([name]) == " " + name + " ";
  }

  lemma WrittenImport(spec: Import, listed: string)
    requires spec.mod == "m" && Listed(spec.names) == listed
    ensures WriteLine(Imports(spec)) == (if spec.typed then "import type {" else "import {") + (listed + "} from 'm';")
  {
    assert "} from '" + ("m" + "';") == "} from 'm';";
  }

  predicate Stray(lines: seq<Line>, line: Line) {
    line.Other? && "__IMPORT_PLACEHOLDER__" <= line.text && !Mentioned(lines, line.text[22..])
  }

  lemma StrayThrows(lines: seq<Line>, line: Line)
    requires line in lines && Stray(lines, line)
    ensures Throws(lines)
  {
    LineIsInOutline(lines, line.text);
    var i :| 0 <= i < |Outline(lines)| && Outline(lines)[i] == ItemOf(line.text);
  }

  /** It throws exactly if a line that is no import starts like a placeholder and goes on
      with a module nothing is imported from. */
  lemma ThrowsIff(lines: seq<Line>)
    ensures Throws(lines) <==> exists line :: line in lines && Stray(lines, line)
  {
    if Throws(lines) {
      var k :| 0 <= k < |Outline(lines)| && Outline(lines)[k].Place? && !Mentioned(lines, Outline(lines)[k].mod);
      var text := PlaceIsFromLines(lines, Outline(lines)[k].mod);
      assert Stray(lines, Other(text));
    }
    if line :| line in lines && Stray(lines, line) {
      StrayThrows(lines, line);
    }
  }

  lemma {:induction false} PlaceIsFromLines(lines: seq<Line>, mod: string) returns (text: string)
    requires Place(mod) in Outline(lines) && !Mentioned(lines, mod)
    ensures Other(text) in lines && ItemOf(text) == Place(mod)
  {
    var before, line := lines[..|lines| - 1], lines[|lines| - 1];
    assert lines == before + [line];
    MentionedSnoc(before, line, mod);
    if Place(mod) in Outline(before) {
      text := PlaceIsFromLines(before, mod);
    } else {
      text := line.text;
    }
  }

  lemma {:induction false} LineIsInOutline(lines: seq<Line>, text: string)
    requires Other(text) in lines
    ensures ItemOf(text) in Outline(lines)
  {
    var before, line := lines[..|lines| - 1], lines[|lines| - 1];
    assert lines == before + [line];
    if line != Other(text) {
      LineIsInOutline(before, text);
    }
  }

  // ----- the two passes -----

  datatype Entry = Entry(typeNames: seq<string>, valueNames: seq<string>) {
    function With(spec: Import): Entry {
      if spec.typed then Entry(typeNames + spec.names, valueNames) else Entry(typeNames, valueNames + spec.names)
    }
  }

  function EntryOf(imports: map<string, Entry>, mod: string): Entry {
    if mod in imports then imports[mod] else Entry([], [])
  }

  predicate Tracks(lines: seq<Line>, imports: map<string, Entry>, mod: string) {
    && (mod in imports <==> Mentioned(lines, mod))
    && EntryOf(imports, mod) == Entry(NamesIn(lines, mod, true), NamesIn(lines, mod, false))
  }

  ghost predicate Collected(lines: seq<Line>, imports: map<string, Entry>) {
    forall mod {:trigger Tracks(lines, imports, mod)} :: Tracks(lines, imports, mod)
  }

  ghost predicate Outlines(otherLines: seq<string>, items: seq<Item>) {
    |otherLines| == |items| && forall k :: 0 <= k < |items| ==> ItemOf(otherLines[k]) == items[k]
  }

  /** The first pass is right up to line `i`. */
  ghost predicate CollectedTo(lines: seq<Line>, i: nat, imports: map<string, Entry>, others: seq<string>)
    requires i <= |lines|
  {
    Collected(lines[..i], imports) && Outlines(others, Outline(lines[..i]))
  }

  function ImportsAfter(imports: map<string, Entry>, line: Line): map<string, Entry> {
    if line.Other? then imports else imports[line.spec.mod := EntryOf(imports, line.spec.mod).With(line.spec)]
  }

  function OthersAfter(imports: map<string, Entry>, others: seq<string>, line: Line): seq<string> {
    if line.Other? then others + [line.text]
    else if line.spec.mod in imports then others
    else others + [PLACEHOLDER + line.spec.mod]
  }

  lemma CollectNext(lines: seq<Line>, i: nat, imports: map<string, Entry>, others: seq<string>)
    requires i < |lines| && CollectedTo(lines, i, imports, others)
    ensures CollectedTo(lines, i + 1, ImportsAfter(imports, lines[i]), OthersAfter(imports, others, lines[i]))
  {
    var before, line := lines[..i], lines[i];
    assert lines[..i + 1] == before + [line];
    assert line.Imports? ==> Tracks(before, imports, line.spec.mod);
    Collects(before, line, imports, ImportsAfter(imports, line));
    OutlinesStep(before, line, line.Imports? && line.spec.mod in imports, others, OthersAfter(imports, others, line));
  }

  method CollectImports(lines: seq<Line>) returns (importsByModule: map<string, Entry>, otherLines: seq<string>)
    ensures Collected(lines, importsByModule) && Outlines(otherLines, Outline(lines))
  {
    importsByModule := map[];
    otherLines := [];
    var seenModules: set<string> := {};
    for i := 0 to |lines|
      invariant CollectedTo(lines, i, importsByModule, otherLines) && seenModules == importsByModule.Keys
    {
      CollectNext(lines, i, importsByModule, otherLines);
      importsByModule, otherLines, seenModules := CollectLine(lines[i], importsByModule, otherLines, seenModules);
    }
    assert lines[..|lines|] == lines;
  }

  method CollectLine(line: Line, imports: map<string, Entry>, others: seq<string>, seen: set<string>)
    returns (importsByModule: map<string, Entry>, otherLines: seq<string>, seenModules: set<string>)
    requires seen == imports.Keys
    ensures importsByModule == ImportsAfter(imports, line) && otherLines == OthersAfter(imports, others, line)
    ensures seenModules == importsByModule.Keys
  {
    importsByModule, otherLines, seenModules := imports, others, seen;
    match line {
      case Other(text) =>
        otherLines := otherLines + [text];
      case Imports(spec) =>
        if spec.mod !in importsByModule {
          importsByModule := importsByModule[spec.mod := Entry([], [])];
        }
        importsByModule := importsByModule[spec.mod := importsByModule[spec.mod].With(spec)];
        if spec.mod !in seenModules {
          seenModules := seenModules + {spec.mod};
          otherLines := otherLines + [PLACEHOLDER + spec.mod];
        }
    }
  }

  lemma OutlinesStep(before: seq<Line>, line: Line, known: bool, others: seq<string>, others': seq<string>)
    requires Outlines(others, Outline(before))
    requires line.Other? ==> others' == others + [line.text]
    requires line.Imports? ==> known == Mentioned(before, line.spec.mod)
    requires line.Imports? ==> others' == if known then others else others + [PLACEHOLDER + line.spec.mod]
    ensures Outlines(others', Outline(before + [line]))
  {
    OneMoreLine(before, line, "", true);
    OutlinesMore(others, Outline(before), ItemsOf(before, line));
    if line.Imports? {
      ItemOfPlace(line.spec.mod);
    }
  }

  lemma ItemOfPlace(mod: string)
    ensures ItemOf(PLACEHOLDER + mod) == Place(mod)
  {
  }

  lemma OutlinesMore(otherLines: seq<string>, items: seq<Item>, more: seq<Item>)
    requires Outlines(otherLines, items)
    ensures more == [] ==> Outlines(otherLines, items + more)
    ensures forall text :: more == [ItemOf(text)] ==> Outlines(otherLines + [text], items + more)
  {
    assert more == [] ==> items + more == items;
  }

  /** The line the second pass makes of one of the first. */
  function SecondPass(imports: map<string, Entry>, line: string): Option<Line> {
    match ItemOf(line)
    case Text(text) => Some(Other(text))
    case Place(mod) =>
      if mod !in imports then None
      else Some(Imports(MergedImport(imports[mod].typeNames, imports[mod].valueNames, mod)))
  }

  lemma RendersItem(lines: seq<Line>, imports: map<string, Entry>, line: string)
    requires Collected(lines, imports)
    ensures SecondPass(imports, line).None? <==> ItemOf(line).Place? && !Mentioned(lines, ItemOf(line).mod)
    ensures SecondPass(imports, line).Some? ==> SecondPass(imports, line).value == Rendered(lines, ItemOf(line))
  {
    if ItemOf(line).Place? {
      assert Tracks(lines, imports, ItemOf(line).mod);
    }
  }

  lemma OneMoreKnown(lines: seq<Line>, items: seq<Item>, i: nat)
    requires i < |items|
    ensures items[i].Place? && !Mentioned(lines, items[i].mod) ==> !AllKnown(lines, items)
    ensures AllKnown(lines, items[..i]) && (items[i].Place? ==> Mentioned(lines, items[i].mod)) ==>
              AllKnown(lines, items[..i + 1])
  {
  }

  lemma RenderStep(lines: seq<Line>, imports: map<string, Entry>, items: seq<Item>, i: nat, line: string)
    requires Collected(lines, imports) && i < |items| && ItemOf(line) == items[i] && AllKnown(lines, items[..i])
    ensures SecondPass(imports, line).None? ==> !AllKnown(lines, items)
    ensures SecondPass(imports, line).Some? ==>
              && AllKnown(lines, items[..i + 1])
              && Render(lines, items[..i + 1]) == Render(lines, items[..i]) + [SecondPass(imports, line).value]
  {
    RendersItem(lines, imports, line);
    OneMoreKnown(lines, items, i);
    assert items[..i + 1][..i] == items[..i];
    RenderLast(lines, items[..i + 1]);
  }

  method RenderImports(ghost lines: seq<Line>, importsByModule: map<string, Entry>, otherLines: seq<string>)
    returns (r: Option<seq<Line>>)
    requires Collected(lines, importsByModule) && Outlines(otherLines, Outline(lines))
    ensures r == if Throws(lines) then None else Some(Merged(lines))
  {
    ghost var items := Outline(lines);
    var merged: seq<Line> := [];
    for i := 0 to |otherLines|
      invariant merged == Render(lines, items[..i]) && AllKnown(lines, items[..i])
    {
      var line := otherLines[i];
      RenderStep(lines, importsByModule, items, i, line);
      if PLACEHOLDER <= line {
        var mod := line[|PLACEHOLDER|..];
        if mod !in importsByModule {
          return None;
        }
        var entry := importsByModule[mod];
        merged := merged + [Imports(MergedImport(entry.typeNames, entry.valueNames, mod))];
      } else {
        merged := merged + [Other(line)];
      }
    }
    assert items[..|items|] == items;
    r := Some(merged);
  }

  method MergeDuplicateImports(content: seq<string>) returns (r: Option<seq<string>>)
    ensures r == MergeLines(content)
  {
    var lines := ReadAll(content);
    var importsByModule, otherLines := CollectImports(lines);
    var merged := RenderImports(lines, importsByModule, otherLines);
    r := if merged.None? then None else Some(WriteAll(merged.value));
  }

  /** One more line adds its names to its module only. */
  lemma CollectsOne(before: seq<Line>, line: Line, imports: map<string, Entry>, imports': map<string, Entry>,
                    mod: string)
    requires Tracks(before, imports, mod)
    requires line.Other? ==> imports' == imports
    requires line.Imports? ==> imports' == imports[line.spec.mod := EntryOf(imports, line.spec.mod).With(line.spec)]
    ensures Tracks(before + [line], imports', mod)
  {
    MentionedSnoc(before, line, mod);
    OneMoreLine(before, line, mod, true);
    OneMoreLine(before, line, mod, false);
    if !Mentioned(before, mod) {
      UnmentionedHasNone(before, mod, true);
      UnmentionedHasNone(before, mod, false);
    }
  }

  lemma Collects(before: seq<Line>, line: Line, imports: map<string, Entry>, imports': map<string, Entry>)
    requires Collected(before, imports)
    requires line.Other? ==> imports' == imports
    requires line.Imports? ==> imports' == imports[line.spec.mod := EntryOf(imports, line.spec.mod).With(line.spec)]
    ensures Collected(before + [line], imports')
  {
    forall mod ensures Tracks(before + [line], imports', mod) {
      CollectsOne(before, line, imports, imports', mod);
    }
  }
}
