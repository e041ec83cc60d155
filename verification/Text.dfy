/** Text and its lines. */
module Text {
  function Split(s: string): (lines: seq<string>)
    ensures lines != []
  {
    if s == [] then [""]
    else if s[0] == '\n' then [""] + Split(s[1..])
    else InFront(s[0], Split(s[1..]))
  }

  function InFront(c: char, lines: seq<string>): (r: seq<string>)
    requires lines != []
    ensures |r| == |lines|
  {
    [[c] + lines[0]] + lines[1..]
  }

  function Join(lines: seq<string>): string
    requires lines != []
  {
    if |lines| == 1 then lines[0] else lines[0] + "\n" + Join(lines[1..])
  }

  predicate OneLine(s: string) {
    '\n' !in s
  }

  predicate AllOneLine(lines: seq<string>) {
    forall i :: 0 <= i < |lines| ==> OneLine(lines[i])
  }

  lemma {:induction false} JoinSplit(s: string)
    ensures Join(Split(s)) == s
    ensures AllOneLine(Split(s))
  {
    if s != [] {
      JoinSplit(s[1..]);
      var rest := Split(s[1..]);
      if s[0] == '\n' {
        assert Split(s)[1..] == rest;
      } else {
        assert Split(s)[1..] == rest[1..];
        assert |rest| > 1 ==>
            [s[0]] + (rest[0] + "\n" + Join(rest[1..])) == ([s[0]] + rest[0]) + "\n" + Join(rest[1..]);
      }
    }
  }

  lemma {:induction false} SplitOneLine(s: string)
    requires OneLine(s)
    ensures Split(s) == [s]
  {
    if s != [] {
      assert s == [s[0]] + s[1..];
      assert OneLine(s[1..]);
      SplitOneLine(s[1..]);
    }
  }

  lemma InFrontOf(c: char, a: seq<string>, b: seq<string>)
    requires a != []
    ensures InFront(c, a + b) == InFront(c, a) + b
  {
    assert (a + b)[1..] == a[1..] + b;
  }

  /** A newline ends a line. */
  lemma {:induction false} SplitAtNewline(a: string, b: string)
    ensures Split(a + "\n" + b) == Split(a) + Split(b)
  {
    if a == [] {
      assert a + "\n" + b == "\n" + b;
      assert ("\n" + b)[1..] == b;
    } else {
      SplitAtNewline(a[1..], b);
      var all := a + "\n" + b;
      assert all[0] == a[0] && all[1..] == a[1..] + "\n" + b;
      if a[0] == '\n' {
        assert [""] + (Split(a[1..]) + Split(b)) == [""] + Split(a[1..]) + Split(b);
      } else {
        InFrontOf(a[0], Split(a[1..]), Split(b));
      }
    }
  }

  function Init(lines: seq<string>): seq<string>
    requires lines != []
  {
    lines[..|lines| - 1]
  }

  function Last(lines: seq<string>): string
    requires lines != []
  {
    lines[|lines| - 1]
  }

  /** More text goes on from the last line. */
  lemma {:induction false} SplitMore(a: string, b: string)
    ensures Split(a + b) == Init(Split(a)) + Split(Last(Split(a)) + b)
  {
    if a == [] {
      assert a + b == b && "" + b == b;
    } else {
      SplitMore(a[1..], b);
      assert (a + b)[0] == a[0] && (a + b)[1..] == a[1..] + b;
      if a[0] == '\n' {
        NewlineInFront(Split(a[1..]), b);
      } else {
        CharInFront(a[0], Split(a[1..]), b);
      }
    }
  }

  lemma NewlineInFront(rest: seq<string>, b: string)
    requires rest != []
    ensures [""] + (Init(rest) + Split(Last(rest) + b)) == Init([""] + rest) + Split(Last([""] + rest) + b)
  {
    assert Init([""] + rest) == [""] + Init(rest);
  }

  lemma {:induction false} CharInFront(c: char, rest: seq<string>, b: string)
    requires rest != [] && c != '\n'
    ensures InFront(c, Init(rest) + Split(Last(rest) + b)) == Init(InFront(c, rest)) + Split(Last(InFront(c, rest)) + b)
  {
    if |rest| == 1 {
      var line := [c] + rest[0] + b;
      assert line[0] == c && line[1..] == rest[0] + b;
      assert Init(rest) + Split(rest[0] + b) == Split(rest[0] + b);
      assert Init(InFront(c, rest)) + Split(line) == Split(line);
    } else {
      InFrontOf(c, Init(rest), Split(Last(rest) + b));
      assert Init(InFront(c, rest)) == InFront(c, Init(rest));
    }
  }

  lemma {:induction false} SplitJoin(lines: seq<string>)
    requires lines != [] && AllOneLine(lines)
    ensures Split(Join(lines)) == lines
  {
    SplitOneLine(lines[0]);
    if |lines| > 1 {
      SplitJoin(lines[1..]);
      SplitAtNewline(lines[0], Join(lines[1..]));
      assert [lines[0]] + lines[1..] == lines;
    }
  }
}
