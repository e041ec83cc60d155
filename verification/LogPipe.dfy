/**
 A wrapped output stream: complete lines are logged as they are written, and what
 grows too long without a newline is logged as it is.
 */
module LogPipe {
  import opened Seqs
  import opened Text

  const MAX_STREAM_BUFFER_LENGTH: nat := 1024 * 1024

  /** What was logged, and of each entry whether it was an overflow; and the rest of the text. */
  datatype Pipe = Pipe(log: seq<string>, overflows: seq<bool>, buf: string)

  const EMPTY := Pipe([], [], "")

  function LastNewline(s: string): (i: int)
    ensures -1 <= i < |s|
    ensures i >= 0 ==> s[i] == '\n'
    ensures forall k :: i < k < |s| ==> s[k] != '\n'
  {
    LastNewlineBefore(s, |s|)
  }

  function LastNewlineBefore(s: string, n: nat): (i: int)
    requires n <= |s|
    ensures -1 <= i < n
    ensures i >= 0 ==> s[i] == '\n'
    ensures forall k :: i < k < n ==> s[k] != '\n'
  {
    if n == 0 then -1 else if s[n - 1] == '\n' then n - 1 else LastNewlineBefore(s, n - 1)
  }

  lemma AfterLastNewline(s: string)
    ensures OneLine(s[LastNewline(s) + 1..])
  {
  }

  function AfterWrite(p: Pipe, chunk: string): Pipe {
    var buf := p.buf + chunk;
    if |buf| > MAX_STREAM_BUFFER_LENGTH then
      Pipe(p.log + [buf], p.overflows + [true], "")
    else
      var eol := LastNewline(buf);
      if eol == -1 then p.(buf := buf)
      else Pipe(p.log + [buf[..eol]], p.overflows + [false], buf[eol + 1..])
  }

  /** One write by its cases: too much text is logged whole; else, up to the last newline, if
      there is one; the rest is kept. */
  lemma WriteByCases(p: Pipe, chunk: string)
    ensures var text, after := p.buf + chunk, AfterWrite(p, chunk);
            if |text| > 1024 * 1024 then after.log == p.log + [text] && after.buf == ""
            else if OneLine(text) then after.log == p.log && after.buf == text
            else
              |after.buf| < |text| && OneLine(after.buf)
              && var cut := |text| - |after.buf| - 1;
                 text[cut] == '\n' && text[cut + 1..] == after.buf && after.log == p.log + [text[..cut]]
  {
  }

  function WriteAll(p: Pipe, chunks: seq<string>): Pipe
    decreases |chunks|
  {
    if chunks == [] then p else WriteAll(AfterWrite(p, chunks[0]), chunks[1..])
  }

  predicate Shaped(p: Pipe) {
    |p.log| == |p.overflows| && OneLine(p.buf) && |p.buf| <= MAX_STREAM_BUFFER_LENGTH
  }

  /** The logged texts, with the newline each lost unless it was an overflow. */
  function Replay(log: seq<string>, overflows: seq<bool>): string
    requires |log| == |overflows|
  {
    if log == [] then "" else
    var n := |log| - 1;
    Replay(log[..n], overflows[..n]) + log[n] + if overflows[n] then "" else "\n"
  }

  lemma {:induction false} ReplaySnoc(log: seq<string>, overflows: seq<bool>, text: string, overflow: bool)
    requires |log| == |overflows|
    ensures Replay(log + [text], overflows + [overflow]) ==
              Replay(log, overflows) + text + if overflow then "" else "\n"
  {
    assert (log + [text])[..|log|] == log && (overflows + [overflow])[..|log|] == overflows;
  }

  lemma CutAtNewline(before: string, buf: string, eol: nat)
    requires eol < |buf| && buf[eol] == '\n'
    ensures (before + buf[..eol] + "\n") + buf[eol + 1..] == before + buf
  {
    assert buf == buf[..eol] + "\n" + buf[eol + 1..];
  }

  lemma WriteKeepsShape(p: Pipe, chunk: string)
    requires Shaped(p)
    ensures Shaped(AfterWrite(p, chunk))
  {
    var buf := p.buf + chunk;
    AfterLastNewline(buf);
    assert LastNewline(buf) == -1 ==> buf[0..] == buf;
  }

  /** Everything written so far, as the log and the rest tell it. */
  function Told(p: Pipe): string
    requires |p.log| == |p.overflows|
  {
    Replay(p.log, p.overflows) + p.buf
  }

  lemma {:induction false} OverflowKeepsText(p: Pipe, buf: string)
    requires |p.log| == |p.overflows|
    ensures Told(Pipe(p.log + [buf], p.overflows + [true], "")) == Replay(p.log, p.overflows) + buf
  {
    ReplaySnoc(p.log, p.overflows, buf, true);
    var before := Replay(p.log, p.overflows);
    assert before + buf + "" == before + buf;
    assert before + buf + "" + "" == before + buf;
  }

  lemma {:induction false} NewlineKeepsText(p: Pipe, buf: string, eol: nat)
    requires |p.log| == |p.overflows| && eol < |buf| && buf[eol] == '\n'
    ensures Told(Pipe(p.log + [buf[..eol]], p.overflows + [false], buf[eol + 1..])) == Replay(p.log, p.overflows) + buf
  {
    ReplaySnoc(p.log, p.overflows, buf[..eol], false);
    CutAtNewline(Replay(p.log, p.overflows), buf, eol);
  }

  lemma {:induction false} WriteKeepsText(p: Pipe, chunk: string)
    requires Shaped(p) && Shaped(AfterWrite(p, chunk))
    ensures Told(AfterWrite(p, chunk)) == Told(p) + chunk
  {
    var buf := p.buf + chunk;
    assert Told(p) + chunk == Replay(p.log, p.overflows) + buf;
    if |buf| > MAX_STREAM_BUFFER_LENGTH {
      OverflowKeepsText(p, buf);
    } else if LastNewline(buf) >= 0 {
      NewlineKeepsText(p, buf, LastNewline(buf));
    }
  }

  lemma FirstChunk(before: string, chunks: seq<string>)
    requires chunks != []
    ensures before + Concat(chunks) == before + chunks[0] + Concat(chunks[1..])
  {
  }

  /** Nothing written is lost or doubled: the log and the rest give it back, for every
      sequence of writes; the rest never holds a newline nor exceeds the limit. */
  lemma {:induction false} NothingIsLost(p: Pipe, chunks: seq<string>)
    requires Shaped(p)
    ensures Shaped(WriteAll(p, chunks)) && Told(WriteAll(p, chunks)) == Told(p) + Concat(chunks)
    decreases |chunks|
  {
    if chunks == [] {
      assert Told(p) + Concat(chunks) == Told(p);
    } else {
      WriteKeepsShape(p, chunks[0]);
      WriteKeepsText(p, chunks[0]);
      NothingIsLost(AfterWrite(p, chunks[0]), chunks[1..]);
      FirstChunk(Told(p), chunks);
    }
  }

  predicate NoOverflow(p: Pipe) {
    true !in p.overflows
  }

  /** The lines of all logged texts. */
  function Lines(log: seq<string>): seq<string> {
    if log == [] then [] else Lines(log[..|log| - 1]) + Split(log[|log| - 1])
  }

  lemma OverflowIsMarked(p: Pipe, chunk: string)
    requires Shaped(p)
    ensures |p.buf + chunk| > MAX_STREAM_BUFFER_LENGTH ==> !NoOverflow(AfterWrite(p, chunk))
  {
    if |p.buf + chunk| > MAX_STREAM_BUFFER_LENGTH {
      assert AfterWrite(p, chunk).overflows[|p.overflows|];
    }
  }

  /** Text that ends in no newline goes on with the rest. */
  lemma LogsNothing(log: seq<string>, rest: string, written: string, chunk: string)
    requires Lines(log) + [rest] == Split(written) && OneLine(rest + chunk)
    ensures Lines(log) + [rest + chunk] == Split(written + chunk)
  {
    SplitMore(written, chunk);
    SplitOneLine(rest + chunk);
    InitAndLast(Lines(log), rest);
  }

  lemma InitAndLast(lines: seq<string>, rest: string)
    ensures Init(lines + [rest]) == lines && Last(lines + [rest]) == rest
  {
  }

  /** Up to the last newline it is logged. */
  lemma LogsUpToNewline(log: seq<string>, rest: string, written: string, chunk: string, eol: nat)
    requires Lines(log) + [rest] == Split(written)
    requires eol < |rest + chunk| && (rest + chunk)[eol] == '\n' && OneLine((rest + chunk)[eol + 1..])
    ensures Lines(log + [(rest + chunk)[..eol]]) + [(rest + chunk)[eol + 1..]] == Split(written + chunk)
  {
    var buf := rest + chunk;
    SplitMore(written, chunk);
    InitAndLast(Lines(log), rest);
    SplitAtEol(buf, eol);
    LinesSnoc(log, buf[..eol]);
    Assoc(Lines(log), Split(buf[..eol]), [buf[eol + 1..]]);
  }

  lemma SplitAtEol(buf: string, eol: nat)
    requires eol < |buf| && buf[eol] == '\n' && OneLine(buf[eol + 1..])
    ensures Split(buf) == Split(buf[..eol]) + [buf[eol + 1..]]
  {
    assert buf == buf[..eol] + "\n" + buf[eol + 1..];
    SplitAtNewline(buf[..eol], buf[eol + 1..]);
    SplitOneLine(buf[eol + 1..]);
  }

  lemma LinesSnoc(log: seq<string>, text: string)
    ensures Lines(log + [text]) == Lines(log) + Split(text)
  {
    assert (log + [text])[..|log|] == log;
  }

  lemma {:induction false} WriteLogsLines(p: Pipe, chunk: string, written: string)
    requires Shaped(p) && Lines(p.log) + [p.buf] == Split(written)
    requires NoOverflow(AfterWrite(p, chunk))
    ensures Lines(AfterWrite(p, chunk).log) + [AfterWrite(p, chunk).buf] == Split(written + chunk)
  {
    OverflowIsMarked(p, chunk);
    var buf := p.buf + chunk;
    if |buf| <= MAX_STREAM_BUFFER_LENGTH {
      var eol := LastNewline(buf);
      AfterLastNewline(buf);
      if eol == -1 {
        assert buf[0..] == buf;
        LogsNothing(p.log, p.buf, written, chunk);
      } else {
        LogsUpToNewline(p.log, p.buf, written, chunk, eol);
      }
    }
  }

  lemma {:induction false} LogsLines(p: Pipe, chunks: seq<string>, written: string)
    requires Shaped(p) && Lines(p.log) + [p.buf] == Split(written)
    requires NoOverflow(WriteAll(p, chunks))
    ensures Lines(WriteAll(p, chunks).log) + [WriteAll(p, chunks).buf] == Split(written + Concat(chunks))
    decreases |chunks|
  {
    if chunks == [] {
      assert written + Concat(chunks) == written;
    } else {
      var p' := AfterWrite(p, chunks[0]);
      WriteKeepsShape(p, chunks[0]);
      NoOverflowBefore(p', chunks[1..]);
      WriteLogsLines(p, chunks[0], written);
      LogsLines(p', chunks[1..], written + chunks[0]);
      FirstChunk(written, chunks);
    }
  }

  lemma NoOverflowBefore(p: Pipe, chunks: seq<string>)
    requires Shaped(p) && NoOverflow(WriteAll(p, chunks))
    ensures NoOverflow(p)
  {
    OverflowsStay(p, chunks);
    var after := WriteAll(p, chunks).overflows;
    forall i | 0 <= i < |p.overflows| ensures !p.overflows[i] {
      assert after[i] == p.overflows[i];
    }
  }

  lemma {:induction false} OverflowsStay(p: Pipe, chunks: seq<string>)
    requires Shaped(p)
    ensures p.overflows <= WriteAll(p, chunks).overflows
    decreases |chunks|
  {
    if chunks != [] {
      WriteKeepsShape(p, chunks[0]);
      OverflowsStay(AfterWrite(p, chunks[0]), chunks[1..]);
    }
  }

  // ----- when nothing overflows -----

  function AfterLast(s: string): string {
    s[LastNewline(s) + 1..]
  }

  /** Every chunk fits the limit together with what follows the last newline before it. */
  predicate Fits(chunks: seq<string>) {
    || chunks == []
    || var before, chunk := chunks[..|chunks| - 1], chunks[|chunks| - 1];
       Fits(before) && |AfterLast(Concat(before))| + |chunk| <= 1024 * 1024
  }

  lemma LastNewlineIs(s: string, i: int)
    requires -1 <= i < |s| && (i >= 0 ==> s[i] == '\n') && forall k :: i < k < |s| ==> s[k] != '\n'
    ensures LastNewline(s) == i
  {
  }

  lemma NewlineInSecond(a: string, b: string)
    requires LastNewline(b) >= 0
    ensures AfterLast(a + b) == AfterLast(b)
  {
    AppendLastLine(a, b, LastNewline(b));
  }

  lemma AppendLastLine(a: string, b: string, j: nat)
    requires j < |b| && b[j] == '\n' && forall k :: j < k < |b| ==> b[k] != '\n'
    ensures AfterLast(a + b) == b[j + 1..]
  {
    NewlineAppended(a, b, j);
    LastNewlineIs(a + b, |a| + j);
  }

  lemma NewlineAppended(a: string, b: string, j: nat)
    requires j < |b| && b[j] == '\n' && forall k :: j < k < |b| ==> b[k] != '\n'
    ensures (a + b)[|a| + j] == '\n' && forall k :: |a| + j < k < |a + b| ==> (a + b)[k] != '\n'
    ensures (a + b)[|a| + j + 1..] == b[j + 1..]
  {
  }

  lemma NoNewlineInSecond(a: string, b: string)
    requires OneLine(b)
    ensures AfterLast(a + b) == AfterLast(a) + b
  {
    AppendOneLine(a, b, LastNewline(a));
  }

  lemma AppendOneLine(a: string, b: string, i: int)
    requires OneLine(b)
    requires -1 <= i < |a| && (i >= 0 ==> a[i] == '\n') && forall k :: i < k < |a| ==> a[k] != '\n'
    ensures AfterLast(a + b) == a[i + 1..] + b
  {
    NoNewlineAppended(a, b, i);
    LastNewlineIs(a + b, i);
  }

  lemma NoNewlineAppended(a: string, b: string, i: int)
    requires -1 <= i < |a|
    requires (forall k :: i < k < |a| ==> a[k] != '\n') && (forall k :: 0 <= k < |b| ==> b[k] != '\n')
    ensures forall k :: i < k < |a + b| ==> (a + b)[k] != '\n'
    ensures (a + b)[i + 1..] == a[i + 1..] + b && (i >= 0 ==> (a + b)[i] == a[i])
  {
  }

  lemma OneLineIsAfterLast(s: string)
    requires OneLine(s)
    ensures AfterLast(s) == s
  {
    LastNewlineIs(s, -1);
  }

  /** What follows the last newline depends on the text only through what followed it before. */
  lemma AfterLastAppend(a: string, b: string)
    ensures AfterLast(AfterLast(a) + b) == AfterLast(a + b)
  {
    if LastNewline(b) >= 0 {
      NewlineInSecond(a, b);
      NewlineInSecond(AfterLast(a), b);
    } else {
      AfterLastNewline(a);
      AfterLastNewline(b);
      assert b[0..] == b;
      OneLineIsAfterLast(AfterLast(a));
      NoNewlineInSecond(a, b);
      NoNewlineInSecond(AfterLast(a), b);
    }
  }

  /** No write so far has overflown exactly if all chunks fit; then the buffer is what
      follows the last newline. */
  lemma {:induction false} NoOverflowIff(chunks: seq<string>)
    ensures Shaped(WriteAll(EMPTY, chunks))
    ensures NoOverflow(WriteAll(EMPTY, chunks)) <==> Fits(chunks)
    ensures Fits(chunks) ==> WriteAll(EMPTY, chunks).buf == AfterLast(Concat(chunks))
    decreases |chunks|
  {
    NothingIsLost(EMPTY, chunks);
    if chunks != [] {
      var before, chunk := chunks[..|chunks| - 1], chunks[|chunks| - 1];
      NoOverflowIff(before);
      InitOfChunks(chunks);
      WriteAllSnoc(EMPTY, before, chunk);
      ConcatSnoc(before, chunk);
      WriteOverflowsIff(WriteAll(EMPTY, before), chunk);
      AfterLastAppend(Concat(before), chunk);
    }
  }

  lemma InitOfChunks(chunks: seq<string>)
    requires chunks != []
    ensures chunks == chunks[..|chunks| - 1] + [chunks[|chunks| - 1]]
  {
  }

  lemma {:induction false} WriteAllSnoc(p: Pipe, chunks: seq<string>, chunk: string)
    ensures WriteAll(p, chunks + [chunk]) == AfterWrite(WriteAll(p, chunks), chunk)
    decreases |chunks|
  {
    if chunks == [] {
      assert ([] + [chunk])[1..] == [];
    } else {
      TailOfAppend(chunks, [chunk]);
      WriteAllSnoc(AfterWrite(p, chunks[0]), chunks[1..], chunk);
    }
  }

  lemma WriteOverflowsIff(p: Pipe, chunk: string)
    requires Shaped(p)
    ensures NoOverflow(AfterWrite(p, chunk)) <==> NoOverflow(p) && |p.buf| + |chunk| <= MAX_STREAM_BUFFER_LENGTH
    ensures |p.buf| + |chunk| <= MAX_STREAM_BUFFER_LENGTH ==> AfterWrite(p, chunk).buf == AfterLast(p.buf + chunk)
  {
    var after := AfterWrite(p, chunk).overflows;
    OverflowIsMarked(p, chunk);
    assert forall i :: 0 <= i < |p.overflows| ==> after[i] == p.overflows[i];
    assert LastNewline(p.buf + chunk) == -1 ==> (p.buf + chunk)[0..] == p.buf + chunk;
  }

  lemma LinesLogged(chunks: seq<string>)
    requires NoOverflow(WriteAll(EMPTY, chunks))
    ensures Lines(WriteAll(EMPTY, chunks).log) + [WriteAll(EMPTY, chunks).buf] == Split(Concat(chunks))
  {
    LogsLines(EMPTY, chunks, "");
    FrontEmpty(Concat(chunks));
  }

  /** If the chunks fit, the lines logged and the rest are the lines of the text. */
  lemma FittingLinesAreLogged(chunks: seq<string>)
    requires Fits(chunks)
    ensures Lines(WriteAll(EMPTY, chunks).log) + [WriteAll(EMPTY, chunks).buf] == Split(Concat(chunks))
  {
    NoOverflowIff(chunks);
    LinesLogged(chunks);
  }

  lemma FrontEmpty(s: string)
    ensures "" + s == s
  {
  }

  lemma SameLinesAndRest(a: seq<string>, x: string, b: seq<string>, y: string)
    requires a + [x] == b + [y]
    ensures a == b && x == y
  {
    InitAndLast(a, x);
    InitAndLast(b, y);
  }

  /** So they do not depend on how the text was cut into writes. */
  lemma LinesDoNotDependOnChunks(chunks: seq<string>, chunks': seq<string>)
    requires Concat(chunks) == Concat(chunks') && Fits(chunks) && Fits(chunks')
    ensures Lines(WriteAll(EMPTY, chunks).log) == Lines(WriteAll(EMPTY, chunks').log)
    ensures WriteAll(EMPTY, chunks).buf == WriteAll(EMPTY, chunks').buf
  {
    FittingLinesAreLogged(chunks);
    FittingLinesAreLogged(chunks');
    var p, p' := WriteAll(EMPTY, chunks), WriteAll(EMPTY, chunks');
    SameLinesAndRest(Lines(p.log), p.buf, Lines(p'.log), p'.buf);
  }

  /** The stream whose `write` is wrapped. */
  class WrappedStream {
    var buf: string
    var log: seq<string>
    ghost var overflows: seq<bool>

    ghost function View(): Pipe
      reads this
    {
      Pipe(log, overflows, buf)
    }

    constructor ()
      ensures View() == EMPTY
    {
      buf, log, overflows := "", [], [];
    }

    method Write(chunk: string)
      modifies this
      ensures View() == AfterWrite(old(View()), chunk)
    {
      buf := buf + chunk;
      var eol: int := if |buf| > MAX_STREAM_BUFFER_LENGTH then |buf| else LastNewline(buf);
      if eol != -1 {
        assert buf[..|buf|] == buf;
        log := log + [buf[..eol]];
        overflows := overflows + [eol == |buf|];
        buf := if eol < |buf| then buf[eol + 1..] else "";
      }
    }
  }
}
