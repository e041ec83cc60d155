/**
 Two passes over a synced source file: the formatter's edits, and indentation by two
 spaces turned into tabs.
 */
module Formatter {
  import opened Seqs
  import opened Text

  // ----- edits -----

  datatype Edit = Edit(start: nat, length: nat, newText: string) {
    function End(): nat {
      start + length
    }
  }

  /** From `at` on, the edits follow each other and stay within the text. */
  predicate InOrder(edits: seq<Edit>, at: nat, size: nat)
    decreases |edits|
  {
    if edits == [] then at <= size else at <= edits[0].start && InOrder(edits[1..], edits[0].End(), size)
  }

  lemma {:induction false} InOrderIsInRange(edits: seq<Edit>, at: nat, size: nat)
    requires InOrder(edits, at, size)
    ensures at <= size && (edits != [] ==> edits[0].End() <= size)
    decreases |edits|
  {
    if edits != [] {
      InOrderIsInRange(edits[1..], edits[0].End(), size);
    }
  }

  /** All edits at once: the gaps between them as they were, and their texts. */
  function Spliced(content: string, edits: seq<Edit>, at: nat): string
    requires InOrder(edits, at, |content|)
    decreases |edits|
  {
    InOrderIsInRange(edits, at, |content|);
    if edits == [] then content[at..]
    else content[at..edits[0].start] + edits[0].newText + Spliced(content, edits[1..], edits[0].End())
  }

  lemma Cut(s: string, a: nat, b: nat, c: nat)
    requires a <= b <= c <= |s|
    ensures s[a..c] == s[a..b] + s[b..c]
  {
  }

  lemma Regroup(a: string, b: string, c: string, d: string)
    ensures (a + b) + c + d == a + (b + c + d)
  {
  }

  /** What lies before the first edit is left as it was. */
  lemma SplicedFrom(content: string, edits: seq<Edit>, at: nat, mid: nat)
    requires at <= mid && InOrder(edits, mid, |content|)
    ensures InOrder(edits, at, |content|)
    ensures mid <= |content| && Spliced(content, edits, at) == content[at..mid] + Spliced(content, edits, mid)
  {
    InOrderIsInRange(edits, mid, |content|);
    if edits == [] {
      assert content[at..] == content[at..mid] + content[mid..];
    } else {
      Cut(content, at, mid, edits[0].start);
      Regroup(content[at..mid], content[mid..edits[0].start], edits[0].newText,
              Spliced(content, edits[1..], edits[0].End()));
    }
  }

  lemma {:induction false} InOrderSuffix(edits: seq<Edit>, at: nat, size: nat, i: nat)
    requires InOrder(edits, at, size) && i <= |edits|
    ensures InOrder(edits[i..], if i == 0 then at else edits[i - 1].End(), size)
    decreases |edits|
  {
    if i > 0 {
      InOrderSuffix(edits[1..], edits[0].End(), size, i - 1);
      assert edits[1..][i - 1..] == edits[i..];
    } else {
      assert edits[0..] == edits;
    }
  }

  /** One more edit, before those already made. */
  lemma EditBefore(content: string, edits: seq<Edit>, current: string)
    requires edits != [] && InOrder(edits, 0, |content|)
    requires InOrder(edits[1..], 0, |content|) && current == Spliced(content, edits[1..], 0)
    ensures edits[0].End() <= |current|
    ensures current[..edits[0].start] + edits[0].newText + current[edits[0].End()..] == Spliced(content, edits, 0)
  {
    SplicedFrom(content, edits[1..], 0, edits[0].End());
    var rest := Spliced(content, edits[1..], edits[0].End());
    assert current[edits[0].End()..] == rest;
    assert current[..edits[0].start] == content[0..edits[0].start];
  }

  /** Applied from last to first, with the offsets of the original text, the edits make
      the simultaneous splice. */
  method ApplyEdits(original: string, edits: seq<Edit>) returns (content: string)
    requires InOrder(edits, 0, |original|)
    ensures content == Spliced(original, edits, 0)
  {
    content := original;
    var i := |edits|;
    while i > 0
      invariant 0 <= i <= |edits|
      invariant InOrder(edits[i..], 0, |original|) && content == Spliced(original, edits[i..], 0)
    {
      i := i - 1;
      var edit := edits[i];
      assert edits[i..][1..] == edits[i + 1..];
      InOrderSuffix(edits, 0, |original|, i);
      SplicedFrom(original, edits[i..], 0, if i == 0 then 0 else edits[i - 1].End());
      EditBefore(original, edits[i..], content);
      content := content[..edit.start] + edit.newText + content[edit.End()..];
    }
    assert edits[0..] == edits;
  }

  /** Edits that change nothing change nothing. */
  lemma {:induction false} SameTextIsKept(content: string, edits: seq<Edit>, at: nat)
    requires InOrder(edits, at, |content|)
    requires forall e :: e in edits ==> e.End() <= |content| && e.newText == content[e.start..e.End()]
    ensures at <= |content| && Spliced(content, edits, at) == content[at..]
    decreases |edits|
  {
    InOrderIsInRange(edits, at, |content|);
    if edits != [] {
      SameTextIsKept(content, edits[1..], edits[0].End());
      var first := edits[0];
      assert content[at..] == content[at..first.start] + content[first.start..first.End()] + content[first.End()..];
    }
  }

  /** By how much the edits lengthen the text. */
  function Shift(edits: seq<Edit>): int {
    if edits == [] then 0 else |edits[0].newText| - edits[0].length + Shift(edits[1..])
  }

  lemma {:induction false} SplicedSize(content: string, edits: seq<Edit>, at: nat)
    requires InOrder(edits, at, |content|)
    ensures |Spliced(content, edits, at)| == |content| - at + Shift(edits)
    decreases |edits|
  {
    InOrderIsInRange(edits, at, |content|);
    if edits != [] {
      SplicedSize(content, edits[1..], edits[0].End());
    }
  }

  /** Where edit `i` comes to stand: moved by what the edits before it add. */
  function PlaceOf(edits: seq<Edit>, at: nat, i: nat): int
    requires i < |edits|
  {
    edits[i].start - at + Shift(edits[..i])
  }

  /** Where the text after edit `i` ends, at the next edit or the end. */
  function GapEnd(content: string, edits: seq<Edit>, i: nat): nat
    requires i < |edits|
  {
    if i + 1 < |edits| then edits[i + 1].start else |content|
  }

  predicate StandsAt(text: string, p: int, part: string) {
    0 <= p <= |text| && part <= text[p..]
  }

  /** An edit's text, and the text that was there between it and the next. */
  function EditAndGap(content: string, edits: seq<Edit>, i: nat): string
    requires i < |edits| && edits[i].End() <= GapEnd(content, edits, i) <= |content|
  {
    edits[i].newText + content[edits[i].End()..GapEnd(content, edits, i)]
  }

  /** Each edit's text stands where the edits before it have moved it, followed by the text
      that was there between it and the next. */
  lemma {:induction false} EditIsInPlace(content: string, edits: seq<Edit>, at: nat, i: nat)
    requires InOrder(edits, at, |content|) && i < |edits|
    ensures edits[i].End() <= GapEnd(content, edits, i) <= |content|
    ensures StandsAt(Spliced(content, edits, at), PlaceOf(edits, at, i), EditAndGap(content, edits, i))
    decreases |edits|
  {
    InOrderIsInRange(edits, at, |content|);
    if i == 0 {
      FirstIsInPlace(content, edits, at);
    } else {
      var first, rest := edits[0], edits[1..];
      EditIsInPlace(content, rest, first.End(), i - 1);
      assert EditAndGap(content, rest, i - 1) == EditAndGap(content, edits, i);
      ShiftFirst(edits, i);
      StandsLater(content[at..first.start] + first.newText, Spliced(content, rest, first.End()),
                  PlaceOf(rest, first.End(), i - 1), EditAndGap(content, edits, i));
    }
  }

  lemma FirstIsInPlace(content: string, edits: seq<Edit>, at: nat)
    requires InOrder(edits, at, |content|) && edits != []
    ensures edits[0].End() <= GapEnd(content, edits, 0) <= |content|
    ensures StandsAt(Spliced(content, edits, at), PlaceOf(edits, at, 0), EditAndGap(content, edits, 0))
  {
    var first, rest := edits[0], edits[1..];
    InOrderIsInRange(edits, at, |content|);
    TextBeforeEdits(content, rest, first.End());
    assert edits[..0] == [];
    var later := Spliced(content, rest, first.End());
    Assoc(content[at..first.start], first.newText, later);
    StandsLater(content[at..first.start], first.newText + later, 0, EditAndGap(content, edits, 0));
  }

  lemma ShiftFirst(edits: seq<Edit>, i: nat)
    requires 0 < i <= |edits|
    ensures Shift(edits[..i]) == |edits[0].newText| - edits[0].length + Shift(edits[1..][..i - 1])
  {
    assert edits[..i][1..] == edits[1..][..i - 1];
  }

  lemma StandsLater(before: string, later: string, p: int, part: string)
    requires StandsAt(later, p, part)
    ensures StandsAt(before + later, |before| + p, part)
  {
    assert (before + later)[|before| + p..] == later[p..];
  }

  /** What is before the first edit stands there as it was. */
  lemma TextBeforeEdits(content: string, edits: seq<Edit>, at: nat)
    requires InOrder(edits, at, |content|)
    ensures var end := if edits == [] then |content| else edits[0].start;
            at <= end <= |content| && content[at..end] <= Spliced(content, edits, at)
  {
    InOrderIsInRange(edits, at, |content|);
  }

  // ----- indentation -----

  function Repeat(c: char, n: nat): (s: string)
    ensures |s| == n && forall i :: 0 <= i < n ==> s[i] == c
  {
    if n == 0 then "" else [c] + Repeat(c, n - 1)
  }

  function LeadingSpaces(line: string): (n: nat)
    ensures n <= |line|
    ensures forall i :: 0 <= i < n ==> line[i] == ' '
    ensures n < |line| ==> line[n] != ' '
  {
    if line == "" || line[0] != ' ' then 0 else 1 + LeadingSpaces(line[1..])
  }

  function ConvertLine(line: string): string {
    var spaces := LeadingSpaces(line);
    if spaces == 0 then line
    else Repeat('\t', spaces / 2) + Repeat(' ', spaces % 2) + line[spaces..]
  }

  /** How wide a line is indented, a tab being two, and what stands there. */
  function Width(line: string): nat {
    if line == "" || (line[0] != ' ' && line[0] != '\t') then 0
    else (if line[0] == '\t' then 2 else 1) + Width(line[1..])
  }

  function Unindented(line: string): string {
    if line == "" || (line[0] != ' ' && line[0] != '\t') then line else Unindented(line[1..])
  }

  lemma {:induction false} RepeatInFront(c: char, n: nat, rest: string)
    requires c == ' ' || c == '\t'
    ensures Width(Repeat(c, n) + rest) == (if c == '\t' then n + n else n) + Width(rest)
    ensures Unindented(Repeat(c, n) + rest) == Unindented(rest)
  {
    if n == 0 {
      assert "" + rest == rest;
    } else {
      RepeatInFront(c, n - 1, rest);
      OneInFront(c, Repeat(c, n - 1) + rest);
      Assoc([c], Repeat(c, n - 1), rest);
    }
  }

  lemma OneInFront(c: char, rest: string)
    requires c == ' ' || c == '\t'
    ensures Width([c] + rest) == (if c == '\t' then 2 else 1) + Width(rest)
    ensures Unindented([c] + rest) == Unindented(rest)
  {
    assert ([c] + rest)[1..] == rest;
  }

  lemma {:induction false} LineKeepsIndent(line: string)
    ensures Width(ConvertLine(line)) == Width(line)
    ensures Unindented(ConvertLine(line)) == Unindented(line)
  {
    var spaces := LeadingSpaces(line);
    var rest := line[spaces..];
    assert line == Repeat(' ', spaces) + rest;
    RepeatInFront(' ', spaces, rest);
    if spaces > 0 {
      RepeatInFront(' ', spaces % 2, rest);
      RepeatInFront('\t', spaces / 2, Repeat(' ', spaces % 2) + rest);
      Assoc(Repeat('\t', spaces / 2), Repeat(' ', spaces % 2), rest);
    }
  }

  /** Every two spaces at the front become one tab, a single one that is left over stays after
      them, and what follows is as it was. */
  lemma LineIsTabbed(line: string)
    ensures var n, r := LeadingSpaces(line), ConvertLine(line);
            && |r| == |line| - n + n / 2 + n % 2
            && (forall i :: 0 <= i < n / 2 ==> r[i] == '\t')
            && (n % 2 == 1 ==> r[n / 2] == ' ')
            && r[n / 2 + n % 2..] == line[n..]
  {
  }

  lemma LineTwice(line: string)
    ensures ConvertLine(ConvertLine(line)) == ConvertLine(line)
  {
    var spaces, once := LeadingSpaces(line), ConvertLine(line);
    if spaces >= 2 {
      assert once[0] == '\t';
    } else if spaces == 1 {
      assert Repeat('\t', 0) + Repeat(' ', 1) + line[1..] == line;
    }
  }

  function ConvertLines(lines: seq<string>): (r: seq<string>)
    ensures |r| == |lines| && forall i :: 0 <= i < |r| ==> r[i] == ConvertLine(lines[i])
  {
    if lines == [] then [] else [ConvertLine(lines[0])] + ConvertLines(lines[1..])
  }

  function ConvertIndentation(content: string): string {
    Join(ConvertLines(Split(content)))
  }

  lemma LineStaysOne(line: string)
    requires OneLine(line)
    ensures OneLine(ConvertLine(line))
  {
  }

  /** The text keeps its lines, every line its width and what stands after it; and doing
      it twice is doing it once. */
  lemma IndentationKeepsText(content: string)
    ensures var lines, after := Split(content), Split(ConvertIndentation(content));
            && |after| == |lines|
            && forall i :: 0 <= i < |lines| ==>
                 Width(after[i]) == Width(lines[i]) && Unindented(after[i]) == Unindented(lines[i])
    ensures ConvertIndentation(ConvertIndentation(content)) == ConvertIndentation(content)
  {
    var lines := Split(content);
    JoinSplit(content);
    var once := ConvertLines(lines);
    forall i | 0 <= i < |lines| ensures OneLine(once[i]) {
      LineStaysOne(lines[i]);
    }
    SplitJoin(once);
    forall i | 0 <= i < |lines|
      ensures Width(once[i]) == Width(lines[i]) && Unindented(once[i]) == Unindented(lines[i])
    {
      LineKeepsIndent(lines[i]);
    }
    forall i | 0 <= i < |lines| ensures ConvertLines(once)[i] == once[i] {
      LineTwice(lines[i]);
    }
    assert ConvertLines(once) == once;
  }
}
