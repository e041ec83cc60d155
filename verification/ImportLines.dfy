/**
 Import lines of one module: `import { A, B } from 'm';` and `import type { A } from 'm';`,
 already on one line each, read as the two regular expressions read them and written as
 the merge writes them.
 */
module ImportLines {
  import opened Seqs

  datatype Import = Import(typed: bool, names: seq<string>, mod: string)
  datatype Line = Imports(spec: Import) | Other(text: string)

  // ----- pieces of text -----

  function FirstIndex(c: char, s: string): (i: nat)
    ensures i <= |s| && (i < |s| ==> s[i] == c) && forall k :: 0 <= k < i ==> s[k] != c
  {
    if s == "" || s[0] == c then 0 else 1 + FirstIndex(c, s[1..])
  }

  predicate Lacks(s: string, c: char) {
    forall i :: 0 <= i < |s| ==> s[i] != c
  }

  lemma FirstIndexAt(c: char, a: string, b: string)
    requires Lacks(a, c) && (b == "" || b[0] == c)
    ensures FirstIndex(c, a + b) == |a|
    ensures (a + b)[..|a|] == a && (a + b)[|a|..] == b
  {
    assert b != "" ==> (a + b)[|a|] == b[0];
  }

  /** White space and line ends, as `trim` takes them. */
  predicate IsSpace(c: char) {
    || c == ' ' || '\t' <= c <= '\r'
    || c == '\U{A0}' || c == '\U{FEFF}' || c == '\U{1680}' || '\U{2000}' <= c <= '\U{200A}'
    || c == '\U{2028}' || c == '\U{2029}' || c == '\U{202F}' || c == '\U{205F}' || c == '\U{3000}'
  }

  function TrimStart(s: string): string {
    if s != "" && IsSpace(s[0]) then TrimStart(s[1..]) else s
  }

  function TrimEnd(s: string): string {
    if s != "" && IsSpace(s[|s| - 1]) then TrimEnd(s[..|s| - 1]) else s
  }

  lemma {:induction false} TrimStartLeaves(s: string, c: char)
    requires Lacks(s, c)
    ensures Lacks(TrimStart(s), c)
    ensures TrimStart(s) != "" ==> !IsSpace(TrimStart(s)[0])
  {
    if s != "" && IsSpace(s[0]) {
      TrimStartLeaves(s[1..], c);
    }
  }

  lemma {:induction false} TrimEndLeaves(s: string, c: char)
    requires Lacks(s, c)
    ensures Lacks(TrimEnd(s), c)
    ensures TrimEnd(s) != "" ==> TrimEnd(s)[0] == s[0] && !IsSpace(TrimEnd(s)[|TrimEnd(s)| - 1])
  {
    if s != "" && IsSpace(s[|s| - 1]) {
      TrimEndLeaves(s[..|s| - 1], c);
    }
  }

  function Trim(s: string): (r: string) {
    TrimEnd(TrimStart(s))
  }

  predicate AllSpaces(s: string) {
    forall i :: 0 <= i < |s| ==> IsSpace(s[i])
  }

  lemma {:induction false} TrimStartIs(s: string) returns (n: nat)
    ensures n <= |s| && AllSpaces(s[..n]) && s[n..] == TrimStart(s)
    ensures n < |s| ==> !IsSpace(s[n])
  {
    n := 0;
    if s != "" && IsSpace(s[0]) {
      n := TrimStartIs(s[1..]);
      n := n + 1;
      assert s[..n] == [s[0]] + s[1..][..n - 1];
    }
  }

  lemma {:induction false} TrimEndIs(s: string) returns (n: nat)
    ensures n <= |s| && AllSpaces(s[n..]) && s[..n] == TrimEnd(s)
    ensures n > 0 ==> !IsSpace(s[n - 1])
  {
    n := |s|;
    if s != "" && IsSpace(s[|s| - 1]) {
      n := TrimEndIs(s[..|s| - 1]);
      assert s[n..] == s[..|s| - 1][n..] + [s[|s| - 1]];
    }
  }

  /** Trimming takes the white space off both ends, and nothing else. */
  lemma TrimIs(s: string) returns (a: nat, b: nat)
    ensures a <= b <= |s| && Trim(s) == s[a..b] && AllSpaces(s[..a]) && AllSpaces(s[b..])
    ensures a < b ==> !IsSpace(s[a]) && !IsSpace(s[b - 1])
  {
    a := TrimStartIs(s);
    var n := TrimEndIs(s[a..]);
    b := a + n;
    assert s[a..][..n] == s[a..b] && s[a..][n..] == s[b..];
  }

  // ----- names -----

  predicate Clean(name: string) {
    && name != "" && !IsSpace(name[0]) && !IsSpace(name[|name| - 1])
    && Lacks(name, ',') && Lacks(name, '}')
  }

  predicate AllClean(names: seq<string>) {
    forall i :: 0 <= i < |names| ==> Clean(names[i])
  }

  lemma TrimIsClean(piece: string)
    requires Lacks(piece, ',') && Lacks(piece, '}')
    ensures Trim(piece) != "" ==> Clean(Trim(piece))
  {
    TrimStartLeaves(piece, ',');
    TrimStartLeaves(piece, '}');
    TrimEndLeaves(TrimStart(piece), ',');
    TrimEndLeaves(TrimStart(piece), '}');
  }

  lemma TrimFront(c: char, s: string)
    requires IsSpace(c)
    ensures TrimStart([c] + s) == TrimStart(s)
  {
    assert ([c] + s)[1..] == s;
  }

  lemma TrimBack(s: string, c: char)
    requires IsSpace(c)
    ensures TrimEnd(s + [c]) == TrimEnd(s)
  {
    assert (s + [c])[..|s|] == s;
  }

  lemma TrimSpaced(name: string)
    requires Clean(name)
    ensures Trim([' '] + name) == name && Trim([' '] + name + [' ']) == name
  {
    TrimFront(' ', name);
    TrimFront(' ', name + [' ']);
    Assoc([' '], name, [' ']);
    TrimBack(name, ' ');
  }

  function NoEmpty(name: string): seq<string> {
    if name == "" then [] else [name]
  }

  /** The names between commas; empty ones are dropped. */
  function Names(s: string): seq<string>
    decreases |s|
  {
    var comma := FirstIndex(',', s);
    var name := Trim(s[..comma]);
    NoEmpty(name) + if comma == |s| then [] else Names(s[comma + 1..])
  }

  lemma LacksWithin(s: string, c: char, i: nat)
    requires Lacks(s, c) && i <= |s|
    ensures Lacks(s[..i], c) && Lacks(s[i..], c)
  {
  }

  lemma AllCleanAppend(a: seq<string>, b: seq<string>)
    requires AllClean(a) && AllClean(b)
    ensures AllClean(a + b)
  {
  }

  lemma BeforeFirst(c: char, s: string)
    ensures Lacks(s[..FirstIndex(c, s)], c)
  {
  }

  lemma PieceIsClean(piece: string)
    requires Lacks(piece, ',') && Lacks(piece, '}')
    ensures AllClean(NoEmpty(Trim(piece)))
  {
    TrimIsClean(piece);
  }

  lemma {:induction false} NamesAreClean(s: string)
    requires Lacks(s, '}')
    ensures AllClean(Names(s))
    decreases |s|
  {
    var comma := FirstIndex(',', s);
    var first, rest := s[..comma], if comma == |s| then [] else Names(s[comma + 1..]);
    BeforeFirst(',', s);
    LacksWithin(s, '}', comma);
    PieceIsClean(first);
    if comma < |s| {
      LacksWithin(s, '}', comma + 1);
      NamesAreClean(s[comma + 1..]);
    }
    AllCleanAppend(NoEmpty(Trim(first)), rest);
  }

  /** The names with `, ` between them and a space at both ends. */
  function Listed(names: seq<string>): string {
    if names == [] then [' '] + [' ']
    else if |names| == 1 then [' '] + names[0] + [' ']
    else [' '] + names[0] + ([','] + Listed(names[1..]))
  }

  lemma NamesOfLast(piece: string)
    requires Lacks(piece, ',')
    ensures Names(piece) == NoEmpty(Trim(piece))
  {
    FirstIndexAt(',', piece, []);
    assert piece + [] == piece && piece[..|piece|] == piece;
  }

  lemma NamesOfMore(piece: string, rest: string)
    requires Lacks(piece, ',')
    ensures Names(piece + ([','] + rest)) == NoEmpty(Trim(piece)) + Names(rest)
  {
    FirstIndexAt(',', piece, [','] + rest);
    assert (piece + ([','] + rest))[|piece| + 1..] == rest;
  }

  lemma NamesOfNone()
    ensures Names([' '] + [' ']) == []
  {
    var two := [' '] + [' '];
    NamesOfLast(two);
    TrimFront(' ', [' ']);
    TrimFront(' ', []);
    assert [' '] + [] == [' '];
    assert TrimStart(two) == [];
  }

  lemma SpacedLacks(name: string, c: char)
    requires Lacks(name, c) && c != ' '
    ensures Lacks([' '] + name, c) && Lacks([' '] + name + [' '], c)
  {
  }

  lemma ReadOne(piece: string, name: string)
    requires Lacks(piece, ',') && Trim(piece) == name && name != ""
    ensures Names(piece) == [name]
  {
    NamesOfLast(piece);
  }

  lemma ReadMore(piece: string, name: string, rest: string)
    requires Lacks(piece, ',') && Trim(piece) == name && name != ""
    ensures Names(piece + ([','] + rest)) == [name] + Names(rest)
  {
    NamesOfMore(piece, rest);
  }

  lemma OnlyListed(name: string)
    requires Clean(name)
    ensures Names([' '] + name + [' ']) == [name]
  {
    TrimSpaced(name);
    SpacedLacks(name, ',');
    ReadOne([' '] + name + [' '], name);
  }

  lemma FirstListed(name: string, rest: string)
    requires Clean(name)
    ensures Names([' '] + name + ([','] + rest)) == [name] + Names(rest)
  {
    TrimSpaced(name);
    SpacedLacks(name, ',');
    ReadMore([' '] + name, name, rest);
  }

  lemma {:induction false} ListedIsRead(names: seq<string>)
    requires AllClean(names)
    ensures Names(Listed(names)) == names
  {
    if names == [] {
      NamesOfNone();
    } else if |names| == 1 {
      OnlyListed(names[0]);
    } else {
      ListedIsRead(names[1..]);
      FirstListed(names[0], Listed(names[1..]));
      HeadAndTail(names);
    }
  }

  lemma {:induction false} ListedLacksBrace(names: seq<string>)
    requires AllClean(names)
    ensures Lacks(Listed(names), '}') && Listed(names) != ""
  {
    if |names| > 1 {
      ListedLacksBrace(names[1..]);
    }
  }

  // ----- lines -----

  /** What follows the opening brace. */
  function ReadBody(typed: bool, s: string): Option<Import> {
    var close := FirstIndex('}', s);
    if close == 0 || !("} from '" <= s[close..]) then None
    else
      var after := s[close..][8..];
      var quote := FirstIndex('\'', after);
      if quote == 0 || after[quote..] != "';" then None
      else Some(Import(typed, Names(s[..close]), after[..quote]))
  }

  function ReadLine(line: string): Line {
    var spec :=
      if "import type {" <= line then ReadBody(true, line[13..])
      else if "import {" <= line then ReadBody(false, line[8..])
      else None;
    if spec.Some? then Imports(spec.value) else Other(line)
  }

  function WriteBody(spec: Import): string {
    Listed(spec.names) + ("} from '" + (spec.mod + "';"))
  }

  function WriteLine(line: Line): string {
    match line
    case Other(text) => text
    case Imports(spec) => (if spec.typed then "import type {" else "import {") + WriteBody(spec)
  }

  predicate Readable(line: Line) {
    match line
    case Other(text) => ReadLine(text) == line
    case Imports(spec) => AllClean(spec.names) && spec.mod != "" && Lacks(spec.mod, '\'')
  }

  /** A line that imports the names `names` says, as it can be written. */
  function ImportText(typed: bool, names: string, mod: string): string {
    (if typed then "import type {" else "import {") + (names + ("} from '" + (mod + "';")))
  }

  lemma BodyReads(typed: bool, names: string, mod: string)
    requires names != "" && Lacks(names, '}') && mod != "" && Lacks(mod, '\'')
    ensures ReadBody(typed, names + ("} from '" + (mod + "';"))) == Some(Import(typed, Names(names), mod))
  {
    var tail, end := "} from '" + (mod + "';"), "';";
    FirstIndexAt('}', names, tail);
    assert tail[..8] == "} from '" && tail[8..] == mod + end;
    FirstIndexAt('\'', mod, end);
  }

  /** Any text between the braces that has no brace, and any module without a quote. */
  lemma ImportTextIsRead(typed: bool, names: string, mod: string)
    requires names != "" && Lacks(names, '}') && mod != "" && Lacks(mod, '\'')
    ensures ReadLine(ImportText(typed, names, mod)) == Imports(Import(typed, Names(names), mod))
  {
    BodyReads(typed, names, mod);
    TypedOrNot(names + ("} from '" + (mod + "';")));
  }

  lemma UpTo(c: char, s: string, i: nat, tail: string)
    requires i == FirstIndex(c, s) && s[i..] == tail
    ensures s == s[..i] + tail && Lacks(s[..i], c)
  {
    BeforeFirst(c, s);
    assert s == s[..i] + s[i..];
  }

  lemma PrefixAndRest(prefix: string, s: string)
    requires prefix <= s
    ensures s == prefix + s[|prefix|..]
  {
  }

  /** The pieces in which a body was read. */
  lemma BodyParts(typed: bool, s: string) returns (close: nat, after: string, quote: nat)
    requires ReadBody(typed, s).Some?
    ensures close == FirstIndex('}', s) && 0 < close && s[close..] == "} from '" + after
    ensures quote == FirstIndex('\'', after) && 0 < quote && after[quote..] == "';"
    ensures ReadBody(typed, s) == Some(Import(typed, Names(s[..close]), after[..quote]))
  {
    close := FirstIndex('}', s);
    after := s[close..][8..];
    quote := FirstIndex('\'', after);
    PrefixAndRest("} from '", s[close..]);
  }

  lemma BodyWasText(typed: bool, s: string) returns (names: string)
    requires ReadBody(typed, s).Some?
    ensures var spec := ReadBody(typed, s).value;
            && spec.typed == typed && names != "" && Lacks(names, '}') && spec.mod != "" && Lacks(spec.mod, '\'')
            && spec.names == Names(names) && s == names + ("} from '" + (spec.mod + "';"))
  {
    var close, after, quote := BodyParts(typed, s);
    UpTo('}', s, close, "} from '" + after);
    UpTo('\'', after, quote, "';");
    names := s[..close];
  }

  /** And no other line is an import. */
  lemma ReadImportWasText(line: string) returns (names: string)
    requires ReadLine(line).Imports?
    ensures var spec := ReadLine(line).spec;
            && names != "" && Lacks(names, '}') && spec.mod != "" && Lacks(spec.mod, '\'')
            && spec.names == Names(names) && line == ImportText(spec.typed, names, spec.mod)
  {
    var typed := "import type {" <= line;
    var body := LineHasBody(line, typed);
    names := BodyWasText(typed, body);
  }

  lemma LineHasBody(line: string, typed: bool) returns (body: string)
    requires ReadLine(line).Imports? && (typed <==> "import type {" <= line)
    ensures line == (if typed then "import type {" else "import {") + body
    ensures ReadBody(typed, body) == Some(ReadLine(line).spec)
  {
    if typed {
      body := line[13..];
      PrefixAndRest("import type {", line);
    } else {
      body := line[8..];
      PrefixAndRest("import {", line);
    }
  }

  lemma TypedOrNot(body: string)
    ensures "import type {" <= "import type {" + body && ("import type {" + body)[13..] == body
    ensures "import {" <= "import {" + body && ("import {" + body)[8..] == body
    ensures !("import type {" <= "import {" + body)
  {
    assert ("import {" + body)[7] != "import type {"[7];
  }

  lemma BodyIsRead(spec: Import)
    requires Readable(Imports(spec))
    ensures ReadBody(spec.typed, WriteBody(spec)) == Some(spec)
  {
    var tail, end := "} from '" + (spec.mod + "';"), "';";
    ListedLacksBrace(spec.names);
    ListedIsRead(spec.names);
    FirstIndexAt('}', Listed(spec.names), tail);
    assert tail[..8] == "} from '" && tail[8..] == spec.mod + end;
    FirstIndexAt('\'', spec.mod, end);
  }

  /** A line written is read back. */
  lemma WrittenLineIsRead(line: Line)
    requires Readable(line)
    ensures ReadLine(WriteLine(line)) == line
  {
    if line.Imports? {
      BodyIsRead(line.spec);
      TypedOrNot(WriteBody(line.spec));
    }
  }

  lemma BodyIsReadable(typed: bool, s: string)
    ensures ReadBody(typed, s).Some? ==> Readable(Imports(ReadBody(typed, s).value))
  {
    var close := FirstIndex('}', s);
    if close != 0 && "} from '" <= s[close..] {
      BeforeFirst('}', s);
      NamesAreClean(s[..close]);
      BeforeFirst('\'', s[close..][8..]);
    }
  }

  lemma ReadLineIsReadable(line: string)
    ensures Readable(ReadLine(line))
  {
    if "import type {" <= line {
      BodyIsReadable(true, line[13..]);
    } else if "import {" <= line {
      BodyIsReadable(false, line[8..]);
    }
  }

  function ReadAll(lines: seq<string>): (r: seq<Line>)
    ensures |r| == |lines| && forall i :: 0 <= i < |r| ==> r[i] == ReadLine(lines[i])
  {
    if lines == [] then [] else ReadAll(lines[..|lines| - 1]) + [ReadLine(lines[|lines| - 1])]
  }

  function WriteAll(lines: seq<Line>): (r: seq<string>)
    ensures |r| == |lines| && forall i :: 0 <= i < |r| ==> r[i] == WriteLine(lines[i])
  {
    if lines == [] then [] else WriteAll(lines[..|lines| - 1]) + [WriteLine(lines[|lines| - 1])]
  }

  predicate AllReadable(lines: seq<Line>) {
    forall i :: 0 <= i < |lines| ==> Readable(lines[i])
  }

  lemma WrittenIsRead(lines: seq<Line>)
    requires AllReadable(lines)
    ensures ReadAll(WriteAll(lines)) == lines
  {
    forall i | 0 <= i < |lines| ensures ReadAll(WriteAll(lines))[i] == lines[i] {
      WrittenLineIsRead(lines[i]);
    }
  }

  lemma ReadIsReadable(lines: seq<string>)
    ensures AllReadable(ReadAll(lines))
  {
    forall i | 0 <= i < |lines| ensures Readable(ReadAll(lines)[i]) {
      ReadLineIsReadable(lines[i]);
    }
  }
}
