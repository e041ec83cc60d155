/**
 A sealed secret in a keyring whose entries are limited in size: it is cut into
 chunks kept in numbered slots, and every chunk but the last ends in a marker.
 A text is its bytes in UTF-8; cutting it inside a character panics.
 */
module Keyring {
  import opened Seqs

  /** `<MORE>` */
  const MARKER: Bytes := [0x3C, 0x4D, 0x4F, 0x52, 0x45, 0x3E]

  predicate Marked(s: Bytes) {
    |s| >= |MARKER| && s[|s| - |MARKER|..] == MARKER
  }

  function Unmarked(s: Bytes): Bytes {
    if Marked(s) then s[..|s| - |MARKER|] else s
  }

  /** The text can be cut at `i`: no character goes on there. */
  predicate Boundary(s: Bytes, i: nat)
    requires i <= |s|
  {
    i == 0 || i == |s| || !(0x80 <= s[i] < 0xC0)
  }

  /** The first chunk cannot be cut off. */
  predicate BadCut(s: Bytes, step: nat) {
    step <= |s| && !Boundary(s, step)
  }

  type Slots = map<nat, Bytes>

  datatype Outcome = Stored | Failed | Panicked

  /** The slots after storing `s` from slot `k` on, and how it ended: by writing slot
      `failing`, or by a bad cut. A chunk as long as the step is marked, even when
      nothing follows. */
  function StoreFrom(slots: Slots, k: nat, s: Bytes, step: nat, failing: Option<nat>): (Slots, Outcome)
    requires 0 < step
    decreases |s|
  {
    if s == [] then (slots, Stored)
    else if BadCut(s, step) then (slots, Panicked)
    else if failing == Some(k) then (slots, Failed)
    else if step <= |s| then StoreFrom(slots[k := s[..step] + MARKER], k + 1, s[step..], step, failing)
    else (slots[k := s], Stored)
  }

  /** How many slots such a store tries to write. */
  function Tried(k: nat, s: Bytes, step: nat, failing: Option<nat>): nat
    requires 0 < step
    decreases |s|
  {
    if s == [] then 0
    else if BadCut(s, step) || failing == Some(k) || |s| < step then 1
    else 1 + Tried(k + 1, s[step..], step, failing)
  }

  /** Where a store breaks off: after how many chunks, and whether in a panic. */
  datatype Break = Never | After(chunks: nat, panics: bool)

  function BreakOf(k: nat, s: Bytes, step: nat, failing: Option<nat>): (b: Break)
    requires 0 < step
    decreases |s|
  {
    if s == [] then Never
    else if BadCut(s, step) then After(0, true)
    else if failing == Some(k) then After(0, false)
    else if step <= |s| then
      match BreakOf(k + 1, s[step..], step, failing)
      case Never => Never
      case After(j, panics) => After(j + 1, panics)
    else Never
  }

  function Above(slots: Slots, k: nat): set<nat> {
    set j | j in slots && j >= k
  }

  function Prepend(chunk: Bytes, rest: Option<Bytes>): Option<Bytes> {
    if rest.Some? then Some(chunk + rest.value) else None
  }

  /** Reads slots from `k` on until one without the marker; a missing slot is no secret at all. */
  function ReadFrom(slots: Slots, k: nat): Option<Bytes>
    decreases Above(slots, k)
  {
    if k !in slots then None
    else if !Marked(slots[k]) then Some(slots[k])
    else
      assert k in Above(slots, k) && k !in Above(slots, k + 1);
      Prepend(Unmarked(slots[k]), ReadFrom(slots, k + 1))
  }

  /** How many slots a read looks at, and whether it meets the one that cannot be read. */
  function Visited(slots: Slots, k: nat, unreadable: Option<nat>): (n: nat)
    ensures n > 0
    decreases Above(slots, k)
  {
    if unreadable == Some(k) || k !in slots || !Marked(slots[k]) then 1
    else
      assert k in Above(slots, k) && k !in Above(slots, k + 1);
      1 + Visited(slots, k + 1, unreadable)
  }

  predicate ReadFails(slots: Slots, k: nat, unreadable: Option<nat>)
    decreases Above(slots, k)
  {
    if unreadable == Some(k) then true
    else if k !in slots || !Marked(slots[k]) then false
    else
      assert k in Above(slots, k) && k !in Above(slots, k + 1);
      ReadFails(slots, k + 1, unreadable)
  }

  /** What is left of a secret after its full chunks. */
  function LastChunk(s: Bytes, step: nat): Bytes
    requires 0 < step
    decreases |s|
  {
    if step <= |s| then LastChunk(s[step..], step) else s
  }

  /** No chunk ends inside a character. */
  predicate Cuttable(s: Bytes, step: nat)
    requires 0 < step
    decreases |s|
  {
    !BadCut(s, step) && (step <= |s| ==> Cuttable(s[step..], step))
  }

  /** Single-byte text can be cut anywhere. */
  lemma {:induction false} SingleByteIsCuttable(s: Bytes, step: nat)
    requires 0 < step && forall i :: 0 <= i < |s| ==> s[i] < 0x80
    ensures Cuttable(s, step)
    decreases |s|
  {
    if step <= |s| {
      SingleByteIsCuttable(s[step..], step);
    }
  }

  /** One character in UTF-8: a first byte, and up to three that go on with it. */
  predicate IsChar(c: Bytes) {
    1 <= |c| <= 4 && c[0] !in CONTINUES && forall i :: 1 <= i < |c| ==> c[i] in CONTINUES
  }

  const CONTINUES: set<int> := set b: int | 0x80 <= b <= 0xBF

  predicate AllChars(chars: seq<Bytes>) {
    forall i :: 0 <= i < |chars| ==> IsChar(chars[i])
  }

  /** How many bytes the first `n` characters take. */
  function Offset(chars: seq<Bytes>, n: nat): nat
    requires n <= |chars|
  {
    |Concat(chars[..n])|
  }

  lemma {:induction false} OffsetOfMore(chars: seq<Bytes>, n: nat)
    requires 0 < n <= |chars|
    ensures Offset(chars, n) == |chars[0]| + Offset(chars[1..], n - 1)
  {
    assert chars[..n][1..] == chars[1..][..n - 1];
  }

  /** A text of characters can be cut exactly where a character begins or the text ends. */
  lemma {:induction false} BoundaryIff(chars: seq<Bytes>, i: nat)
    requires AllChars(chars) && i <= |Concat(chars)|
    ensures Boundary(Concat(chars), i) <==> exists n: nat :: n <= |chars| && i == Offset(chars, n)
    decreases |chars|
  {
    if i == 0 {
      assert chars[..0] == [] && Offset(chars, 0) == 0;
    } else {
      var first, rest := chars[0], Concat(chars[1..]);
      assert IsChar(first);
      assert Concat(chars) == first + rest;
      forall n: nat | 0 < n <= |chars| ensures Offset(chars, n) == |first| + Offset(chars[1..], n - 1) {
        OffsetOfMore(chars, n);
      }
      if i < |first| {
        assert Concat(chars)[i] == first[i];
        assert chars[..0] == [] && Offset(chars, 0) == 0;
      } else {
        BoundaryIff(chars[1..], i - |first|);
        FirstByteOf(chars[1..]);
        BoundaryLater(first, rest, i);
        OffsetShifts(chars, i);
      }
    }
  }

  lemma FirstByteOf(chars: seq<Bytes>)
    requires AllChars(chars)
    ensures Concat(chars) != [] ==> Concat(chars)[0] !in CONTINUES
  {
    if chars != [] {
      assert IsChar(chars[0]);
    }
  }

  lemma BoundaryLater(first: Bytes, rest: Bytes, i: nat)
    requires |first| <= i <= |first + rest| && (rest != [] ==> rest[0] !in CONTINUES)
    ensures Boundary(first + rest, i) <==> Boundary(rest, i - |first|)
  {
    assert i < |first + rest| ==> (first + rest)[i] == rest[i - |first|];
  }

  lemma OffsetShifts(chars: seq<Bytes>, i: nat)
    requires chars != [] && chars[0] != [] && |chars[0]| <= i
    requires forall n: nat :: 0 < n <= |chars| ==> Offset(chars, n) == |chars[0]| + Offset(chars[1..], n - 1)
    ensures (exists n: nat :: n <= |chars| && i == Offset(chars, n)) <==>
              exists n: nat :: n <= |chars[1..]| && i - |chars[0]| == Offset(chars[1..], n)
  {
    assert chars[..0] == [] && Offset(chars, 0) == 0;
    if n: nat :| n <= |chars| && i == Offset(chars, n) {
      assert i - |chars[0]| == Offset(chars[1..], n - 1);
    }
    if n: nat :| n <= |chars[1..]| && i - |chars[0]| == Offset(chars[1..], n) {
      assert i == Offset(chars, n + 1);
    }
  }

  /** The condition on a secret alone: it can be cut, and something is left after its full
      chunks that does not happen to end in the marker. */
  predicate RoundTrips(s: Bytes, step: nat)
    requires 0 < step
  {
    Cuttable(s, step) && LastChunk(s, step) != [] && !Marked(LastChunk(s, step))
  }

  /** `n` is a multiple of the step. */
  predicate WholeSteps(n: nat, step: nat)
    requires 0 < step
  {
    n == 0 || (step <= n && WholeSteps(n - step, step))
  }

  lemma {:induction false} LastChunkAt(s: Bytes, step: nat, n: nat)
    requires 0 < step && WholeSteps(n, step) && n <= |s| < n + step
    ensures LastChunk(s, step) == s[n..]
    decreases n
  {
    if n > 0 {
      LastChunkAt(s[step..], step, n - step);
      assert s[step..][n - step..] == s[n..];
    }
  }

  /** In other words: cut after the last whole step, the rest is neither empty nor marked. */
  lemma RoundTripsByLength(s: Bytes, step: nat, n: nat)
    requires 0 < step && WholeSteps(n, step) && n <= |s| < n + step
    ensures RoundTrips(s, step) <==> Cuttable(s, step) && |s| != n && !Marked(s[n..])
  {
    LastChunkAt(s, step, n);
  }

  // ----- what a store does to the slots -----

  /** Storing touches only slots from `k` on, and keeps them within the limit. */
  lemma {:induction false} StoreStaysWithin(slots: Slots, k: nat, s: Bytes, step: nat, failing: Option<nat>)
    requires 0 < step
    ensures var after := StoreFrom(slots, k, s, step, failing).0;
            && (forall j :: j in after ==> j in slots || j >= k)
            && (forall j :: j in slots ==> j in after)
            && (forall j :: j in slots && j < k ==> after[j] == slots[j])
            && (forall j :: j in after && (j !in slots || after[j] != slots[j]) ==> |after[j]| <= step + |MARKER|)
    decreases |s|
  {
    if s != [] && !BadCut(s, step) && failing != Some(k) && step <= |s| {
      var slots1 := slots[k := s[..step] + MARKER];
      StoreStaysWithin(slots1, k + 1, s[step..], step, failing);
      assert forall j :: j in slots1 <==> j in slots || j == k;
    }
  }

  lemma NextStep(j: nat, step: nat)
    ensures (j + 1) * step == j * step + step
  {
  }

  /** A store ends as its break says; it has written the chunks before it. */
  lemma {:induction false} BreakIsOutcome(slots: Slots, k: nat, s: Bytes, step: nat, failing: Option<nat>)
    requires 0 < step
    ensures var (b, outcome) := (BreakOf(k, s, step, failing), StoreFrom(slots, k, s, step, failing).1);
            && (outcome.Stored? <==> b.Never?) && (outcome.Panicked? <==> b.After? && b.panics)
            && (b.After? ==> b.chunks * step < |s|)
    decreases |s|
  {
    if s != [] && !BadCut(s, step) && failing != Some(k) && step <= |s| {
      BreakIsOutcome(slots[k := s[..step] + MARKER], k + 1, s[step..], step, failing);
      var b := BreakOf(k + 1, s[step..], step, failing);
      if b.After? {
        NextStep(b.chunks, step);
      }
    }
  }

  /** A text that can be cut breaks off exactly at a slot it needs that cannot be written. */
  lemma {:induction false} BreakIff(k: nat, s: Bytes, step: nat, failing: Option<nat>)
    requires 0 < step && Cuttable(s, step)
    ensures BreakOf(k, s, step, failing) ==
              if failing.Some? && k <= failing.value && (failing.value - k) * step < |s|
              then After(failing.value - k, false) else Never
    decreases |s|
  {
    if s != [] && failing != Some(k) {
      if failing.Some? && k < failing.value {
        NextStep(failing.value - k - 1, step);
      }
      if step <= |s| {
        BreakIff(k + 1, s[step..], step, failing);
      } else if failing.Some? && k < failing.value {
        assert (failing.value - k - 1) * step >= 0;
      }
    }
  }

  /** The slots there after a store: those before, and those it needs, as far as it got. */
  lemma {:induction false} StoredSlots(slots: Slots, k: nat, s: Bytes, step: nat, failing: Option<nat>)
    requires 0 < step
    ensures var after, n := StoreFrom(slots, k, s, step, failing).0, Tried(k, s, step, failing);
            && (forall j :: j in slots ==> j in after)
            && (forall j :: j in after ==> j in slots || k <= j < k + n)
            && (BreakOf(k, s, step, failing).Never? ==> forall j :: k <= j < k + n ==> j in after)
    decreases |s|
  {
    if s != [] && !BadCut(s, step) && failing != Some(k) && step <= |s| {
      var slots1 := slots[k := s[..step] + MARKER];
      StoredSlots(slots1, k + 1, s[step..], step, failing);
      assert forall j :: j in slots1 <==> j in slots || j == k;
    }
  }

  /** It tries no slot it does not need, and all of them if it is not broken off. */
  lemma {:induction false} TriedIff(k: nat, s: Bytes, step: nat, failing: Option<nat>, j: nat)
    requires 0 < step
    ensures j < Tried(k, s, step, failing) ==> j * step < |s|
    ensures BreakOf(k, s, step, failing).Never? && j * step < |s| ==> j < Tried(k, s, step, failing)
    decreases |s|
  {
    if j > 0 {
      NextStep(j - 1, step);
      assert (j - 1) * step >= 0;
      if s != [] && !BadCut(s, step) && failing != Some(k) && step <= |s| {
        TriedIff(k + 1, s[step..], step, failing, j - 1);
      }
    }
  }

  /** What a chunk is: the bytes of its step and the marker, or what is left. */
  function ChunkAt(s: Bytes, step: nat, j: nat): Bytes
    requires j * step <= |s|
  {
    NextStep(j, step);
    if (j + 1) * step <= |s| then s[j * step..(j + 1) * step] + [0x3C, 0x4D, 0x4F, 0x52, 0x45, 0x3E] else s[j * step..]
  }

  lemma ChunkLater(s: Bytes, step: nat, j: nat)
    requires 0 < j && step <= |s| && j * step <= |s|
    ensures (j - 1) * step <= |s[step..]| && ChunkAt(s[step..], step, j - 1) == ChunkAt(s, step, j)
  {
    NextStep(j - 1, step);
    NextStep(j, step);
    assert s[step..][(j - 1) * step..] == s[j * step..];
    if (j + 1) * step <= |s| {
      assert s[step..][(j - 1) * step..j * step] == s[j * step..(j + 1) * step];
    }
  }

  /** Slot `k + j` has chunk `j` of the text, for every chunk a store gets to write. */
  lemma {:induction false} StoredChunk(slots: Slots, k: nat, s: Bytes, step: nat, failing: Option<nat>, j: nat)
    requires 0 < step && j * step < |s|
    requires var b := BreakOf(k, s, step, failing); b.After? ==> j < b.chunks
    ensures var after := StoreFrom(slots, k, s, step, failing).0;
            k + j in after && after[k + j] == ChunkAt(s, step, j)
    decreases |s|
  {
    if j > 0 {
      NeedsStep(s, step, j);
      ChunkLater(s, step, j);
      StoredChunk(slots[k := s[..step] + MARKER], k + 1, s[step..], step, failing, j - 1);
    } else {
      StoredFirst(slots, k, s, step, failing);
    }
  }

  lemma NeedsStep(s: Bytes, step: nat, j: nat)
    requires j > 0 && j * step < |s|
    ensures step <= |s| && (j - 1) * step < |s| - step
  {
    NextStep(j - 1, step);
    assert (j - 1) * step >= 0;
  }

  lemma StoredFirst(slots: Slots, k: nat, s: Bytes, step: nat, failing: Option<nat>)
    requires 0 < step && s != [] && !BadCut(s, step) && failing != Some(k)
    ensures var after := StoreFrom(slots, k, s, step, failing).0; k in after && after[k] == ChunkAt(s, step, 0)
  {
    FirstChunkIs(s, step);
    if step <= |s| {
      var slots1 := slots[k := s[..step] + MARKER];
      StoreStaysWithin(slots1, k + 1, s[step..], step, failing);
      assert k in slots1 && slots1[k] == s[..step] + MARKER;
      assert StoreFrom(slots, k, s, step, failing).0 == StoreFrom(slots1, k + 1, s[step..], step, failing).0;
    } else {
      assert StoreFrom(slots, k, s, step, failing).0 == slots[k := s];
    }
  }

  lemma FirstChunkIs(s: Bytes, step: nat)
    ensures ChunkAt(s, step, 0) == if step <= |s| then s[..step] + MARKER else s
  {
    var start, end := 0 * step, (0 + 1) * step;
    assert start == 0 && end == step;
    assert step <= |s| ==> s[start..end] == s[..step];
    assert s[start..] == s;
  }

  /** Chunk `i` would end inside a character. */
  predicate CutsInside(s: Bytes, step: nat, i: nat) {
    (i + 1) * step <= |s| && !Boundary(s, (i + 1) * step)
  }

  lemma CutsLater(s: Bytes, step: nat, i: nat)
    requires 0 < step <= |s|
    ensures CutsInside(s[step..], step, i) <==> CutsInside(s, step, i + 1)
  {
    NextStep(i, step);
    NextStep(i + 1, step);
    assert i * step >= 0;
  }

  /** Chunk `i` does not stop a store that starts at slot `k`. */
  predicate Passes(k: nat, s: Bytes, step: nat, failing: Option<nat>, i: nat) {
    !CutsInside(s, step, i) && failing != Some(k + i)
  }

  /** Chunk `j` is the first to stop it: by ending inside a character, or at a slot that is
      needed and cannot be written. */
  predicate StopsAt(k: nat, s: Bytes, step: nat, failing: Option<nat>, j: nat, panics: bool) {
    && (forall i: nat {:trigger Passes(k, s, step, failing, i)} :: i < j ==> Passes(k, s, step, failing, i))
    && if panics then CutsInside(s, step, j)
       else !CutsInside(s, step, j) && failing == Some(k + j) && j * step < |s|
  }

  lemma PassesLater(k: nat, s: Bytes, step: nat, failing: Option<nat>, i: nat)
    requires 0 < step <= |s|
    ensures Passes(k, s, step, failing, i + 1) <==> Passes(k + 1, s[step..], step, failing, i)
  {
    CutsLater(s, step, i);
  }

  lemma StopsLater(k: nat, s: Bytes, step: nat, failing: Option<nat>, j: nat, panics: bool)
    requires 0 < step <= |s| && Passes(k, s, step, failing, 0) && j > 0
    ensures StopsAt(k, s, step, failing, j, panics) <==> StopsAt(k + 1, s[step..], step, failing, j - 1, panics)
  {
    var rest, next: nat := s[step..], k + 1;
    NextStep(j - 1, step);
    CutsLater(s, step, j - 1);
    if StopsAt(next, rest, step, failing, j - 1, panics) {
      forall i: nat | i < j ensures Passes(k, s, step, failing, i) {
        if i > 0 {
          PassesLater(k, s, step, failing, i - 1);
          assert Passes(next, rest, step, failing, i - 1);
        }
      }
    }
    if StopsAt(k, s, step, failing, j, panics) {
      forall i: nat | i < j - 1 ensures Passes(next, rest, step, failing, i) {
        PassesLater(k, s, step, failing, i);
        assert Passes(k, s, step, failing, i + 1);
      }
    }
  }

  /** Where a store breaks off, and how. */
  lemma {:induction false} BreakExactly(k: nat, s: Bytes, step: nat, failing: Option<nat>, j: nat, panics: bool)
    requires 0 < step
    ensures BreakOf(k, s, step, failing) == After(j, panics) <==> StopsAt(k, s, step, failing, j, panics)
    decreases |s|
  {
    assert BadCut(s, step) <==> CutsInside(s, step, 0);
    if j > 0 {
      if !Passes(k, s, step, failing, 0) {
        assert !StopsAt(k, s, step, failing, j, panics);
      } else if step <= |s| {
        BreakExactly(k + 1, s[step..], step, failing, j - 1, panics);
        StopsLater(k, s, step, failing, j, panics);
      } else {
        NoneBeyond(s, step, j);
      }
    }
  }

  lemma NoneBeyond(s: Bytes, step: nat, j: nat)
    requires |s| < step && j > 0
    ensures !CutsInside(s, step, j) && !(j * step < |s|)
  {
    NextStep(j, step);
    NextStep(j - 1, step);
    assert (j - 1) * step >= 0;
  }

  /** Then a read looks at no other slots, if something is left after the full chunks. */
  lemma {:induction false} VisitedAfterStore(slots: Slots, k: nat, s: Bytes, step: nat, failing: Option<nat>,
                                             unreadable: Option<nat>)
    requires 0 < step && BreakOf(k, s, step, failing).Never? && RoundTrips(s, step)
    ensures Visited(StoreFrom(slots, k, s, step, failing).0, k, unreadable) <= Tried(k, s, step, failing)
    decreases |s|
  {
    if step <= |s| {
      var slots1 := slots[k := s[..step] + MARKER];
      VisitedAfterStore(slots1, k + 1, s[step..], step, failing, unreadable);
    }
  }

  // ----- what is read after a store -----

  /** What is read back, by the slots before the store. */
  function ReadBack(slots: Slots, k: nat, s: Bytes, step: nat, failing: Option<nat>): Option<Bytes>
    requires 0 < step
    decreases |s|
  {
    if s == [] || BadCut(s, step) || failing == Some(k) then ReadFrom(slots, k)
    else if step <= |s| then Prepend(s[..step], ReadBack(slots, k + 1, s[step..], step, failing))
    else if Marked(s) then Prepend(Unmarked(s), ReadFrom(slots, k + 1))
    else Some(s)
  }

  /** Reading looks at no slot below where it starts. */
  lemma {:induction false} ReadLooksAhead(slots: Slots, k: nat, j: nat, chunk: Bytes)
    requires k < j
    ensures ReadFrom(slots[k := chunk], j) == ReadFrom(slots, j)
    decreases Above(slots, j)
  {
    if j in slots && Marked(slots[j]) {
      assert j in Above(slots, j) && j !in Above(slots, j + 1);
      ReadLooksAhead(slots, k, j + 1, chunk);
    }
  }

  lemma {:induction false} ReadBackLooksAhead(slots: Slots, k: nat, j: nat, chunk: Bytes, s: Bytes, step: nat,
                                              failing: Option<nat>)
    requires 0 < step && k < j
    ensures ReadBack(slots[k := chunk], j, s, step, failing) == ReadBack(slots, j, s, step, failing)
    decreases |s|
  {
    ReadLooksAhead(slots, k, j, chunk);
    ReadLooksAhead(slots, k, j + 1, chunk);
    if s != [] && step <= |s| {
      ReadBackLooksAhead(slots, k, j + 1, chunk, s[step..], step, failing);
    }
  }

  lemma MarkedChunk(chunk: Bytes)
    ensures Marked(chunk + MARKER) && Unmarked(chunk + MARKER) == chunk
  {
  }

  /** After every store, whole or broken off. */
  lemma {:induction false} ReadAfterStore(slots: Slots, k: nat, s: Bytes, step: nat, failing: Option<nat>)
    requires 0 < step
    ensures ReadFrom(StoreFrom(slots, k, s, step, failing).0, k) == ReadBack(slots, k, s, step, failing)
    decreases |s|
  {
    if s != [] && !BadCut(s, step) && failing != Some(k) {
      if step <= |s| {
        var slots1 := slots[k := s[..step] + MARKER];
        ReadAfterStore(slots1, k + 1, s[step..], step, failing);
        StoreStaysWithin(slots1, k + 1, s[step..], step, failing);
        MarkedChunk(s[..step]);
        ReadBackLooksAhead(slots, k, k + 1, s[..step] + MARKER, s[step..], step, failing);
      } else {
        ReadLooksAhead(slots, k, k + 1, s);
      }
    }
  }

  /** Stale slots go on where the stored ones stop: behind a last chunk that is empty or
      ends in the marker they must supply exactly what is missing. */
  predicate Completes(slots: Slots, k: nat, s: Bytes, step: nat)
    requires 0 < step
    decreases |s|
  {
    if s == [] then ReadFrom(slots, k) == Some([])
    else if step <= |s| then Completes(slots, k + 1, s[step..], step)
    else Marked(s) ==> ReadFrom(slots, k + 1) == Some(MARKER)
  }

  lemma PrependIs(chunk: Bytes, s: Bytes, n: nat, rest: Option<Bytes>)
    requires n <= |s| && chunk == s[..n]
    ensures Prepend(chunk, rest) == Some(s) <==> rest == Some(s[n..])
  {
    assert s == s[..n] + s[n..];
    if rest.Some? && chunk + rest.value == s {
      assert (chunk + rest.value)[n..] == rest.value;
    }
  }

  /** A store that is not broken off is read back exactly if the stale slots behind it complete it. */
  lemma {:induction false} ReadBackIff(slots: Slots, k: nat, s: Bytes, step: nat, failing: Option<nat>)
    requires 0 < step && BreakOf(k, s, step, failing).Never?
    ensures ReadBack(slots, k, s, step, failing) == Some(s) <==> Completes(slots, k, s, step)
    decreases |s|
  {
    if s != [] {
      if step <= |s| {
        ReadBackIff(slots, k + 1, s[step..], step, failing);
        PrependIs(s[..step], s, step, ReadBack(slots, k + 1, s[step..], step, failing));
      } else if Marked(s) {
        PrependIs(Unmarked(s), s, |s| - |MARKER|, ReadFrom(slots, k + 1));
      }
    }
  }

  /** A secret that meets the condition is complete by itself. */
  lemma {:induction false} RoundTripsComplete(slots: Slots, k: nat, s: Bytes, step: nat)
    requires 0 < step && RoundTrips(s, step)
    ensures Completes(slots, k, s, step)
    decreases |s|
  {
    if step <= |s| {
      RoundTripsComplete(slots, k + 1, s[step..], step);
    }
  }

  /** A store that is broken off leaves the chunks written, and behind them the older secret. */
  lemma {:induction false} ReadAfterBreak(slots: Slots, k: nat, s: Bytes, step: nat, failing: Option<nat>)
    requires 0 < step && BreakOf(k, s, step, failing).After?
    ensures var j := BreakOf(k, s, step, failing).chunks;
            j * step <= |s| && ReadBack(slots, k, s, step, failing) == Prepend(s[..j * step], ReadFrom(slots, k + j))
    decreases |s|
  {
    if BadCut(s, step) || failing == Some(k) {
      PrependNothing(ReadFrom(slots, k));
    } else {
      ReadAfterBreak(slots, k + 1, s[step..], step, failing);
      var j := BreakOf(k + 1, s[step..], step, failing).chunks;
      NextStep(j, step);
      Front(s, step, j * step);
      PrependTwice(s[..step], s[step..][..j * step], ReadFrom(slots, k + 1 + j));
    }
  }

  lemma {:induction false} NothingAfterStore(slots: Slots, k: nat, s: Bytes, step: nat)
    requires 0 < step && !RoundTrips(s, step)
    requires forall j :: j in slots ==> j < k
    ensures ReadBack(slots, k, s, step, None) == None
    decreases |s|
  {
    if s != [] && !BadCut(s, step) && step <= |s| {
      NothingAfterStore(slots, k + 1, s[step..], step);
    }
  }

  /** The round trip: a secret is read back whatever stale slots there were before,
      exactly when it meets the condition. */
  lemma RoundTripIff(s: Bytes, step: nat)
    requires 0 < step
    ensures (forall slots :: ReadFrom(StoreFrom(slots, 0, s, step, None).0, 0) == Some(s)) <==> RoundTrips(s, step)
  {
    if RoundTrips(s, step) {
      BreakIff(0, s, step, None);
      forall slots ensures ReadFrom(StoreFrom(slots, 0, s, step, None).0, 0) == Some(s) {
        ReadAfterStore(slots, 0, s, step, None);
        RoundTripsComplete(slots, 0, s, step);
        ReadBackIff(slots, 0, s, step, None);
      }
    } else {
      NothingAfterStore(map[], 0, s, step);
      ReadAfterStore(map[], 0, s, step, None);
      assert ReadFrom(StoreFrom(map[], 0, s, step, None).0, 0) != Some(s);
    }
  }

  // ----- clearing -----

  /** Deletes slots `k` to `n`; a slot that is missing or cannot be deleted ends it. */
  function DeleteFrom(slots: Slots, k: nat, n: nat, failing: Option<nat>): (Slots, bool)
    requires k <= n
    decreases n - k
  {
    if k == n then (slots, true)
    else if k !in slots || failing == Some(k) then (slots, false)
    else DeleteFrom(slots - {k}, k + 1, n, failing)
  }

  /** All these slots are there and can be deleted. */
  predicate Deletable(slots: Slots, k: nat, n: nat, failing: Option<nat>) {
    forall j :: k <= j < n ==> j in slots && failing != Some(j)
  }

  lemma {:induction false} DeletedSlots(slots: Slots, k: nat, n: nat, failing: Option<nat>)
    requires k <= n
    ensures var (after, ok) := DeleteFrom(slots, k, n, failing);
            && (forall j :: j in after ==> j in slots && after[j] == slots[j])
            && (ok ==> forall j :: k <= j < n ==> j in slots && j !in after)
            && (forall j :: j in slots && !(k <= j < n) ==> j in after)
            && (ok <==> Deletable(slots, k, n, failing))
            && (k < n && k in slots && failing != Some(k) ==> k !in after)
    decreases n - k
  {
    if k < n && k in slots && failing != Some(k) {
      DeletedSlots(slots - {k}, k + 1, n, failing);
      assert forall j :: k < j < n ==> (j in slots - {k} <==> j in slots);
    }
  }

  /** Exactly the slots before the first that is missing or cannot be deleted go. */
  lemma {:induction false} DeletedExactly(slots: Slots, k: nat, n: nat, failing: Option<nat>, stop: nat)
    requires k <= stop <= n && Deletable(slots, k, stop, failing)
    requires stop < n ==> stop !in slots || failing == Some(stop)
    ensures var (after, ok) := DeleteFrom(slots, k, n, failing);
            && (forall j :: j in after <==> j in slots && !(k <= j < stop))
            && (forall j :: j in after ==> after[j] == slots[j])
            && (ok <==> stop == n)
    decreases n - k
  {
    if k < stop {
      assert forall i :: k < i ==> (i in slots - {k} <==> i in slots);
      DeletedExactly(slots - {k}, k + 1, n, failing, stop);
    }
  }

  lemma {:induction false} DeletedBefore(slots: Slots, k: nat, n: nat, failing: Option<nat>, j: nat)
    requires k <= j && k <= n && Deletable(slots, k, j + 1, failing) && !Deletable(slots, k, n, failing)
    ensures j < n && j !in DeleteFrom(slots, k, n, failing).0
    decreases n - k
  {
    if k < j {
      assert forall i :: k < i ==> (i in slots - {k} <==> i in slots);
      DeletedBefore(slots - {k}, k + 1, n, failing, j);
    } else {
      DeletedSlots(slots, k, n, failing);
    }
  }

  /** A clear that deletes slot 0 leaves no secret to be read, whether it goes on or not. */
  lemma ClearForgets(slots: Slots, n: nat, failing: Option<nat>)
    requires 0 < n
    ensures var after := DeleteFrom(slots, 0, n, failing).0;
            if 0 in slots && failing != Some(0) then ReadFrom(after, 0) == None else after == slots
  {
    DeletedSlots(slots, 0, n, failing);
  }

  /** A read goes from slot `k` over the marked ones to the first that is missing, not marked or
      cannot be read, and fails exactly at one of the last kind. */
  lemma {:induction false} VisitedExactly(slots: Slots, k: nat, unreadable: Option<nat>)
    ensures var last := k + Visited(slots, k, unreadable) - 1;
            && (forall j :: k <= j < last ==> j in slots && Marked(slots[j]) && unreadable != Some(j))
            && (unreadable == Some(last) || last !in slots || !Marked(slots[last]))
            && (ReadFails(slots, k, unreadable) <==> unreadable == Some(last))
    decreases Above(slots, k)
  {
    if unreadable != Some(k) && k in slots && Marked(slots[k]) {
      assert k in Above(slots, k) && k !in Above(slots, k + 1);
      VisitedExactly(slots, k + 1, unreadable);
    }
  }

  lemma {:induction false} NeverUnreadable(slots: Slots, k: nat)
    ensures !ReadFails(slots, k, None)
    decreases Above(slots, k)
  {
    if k in slots && Marked(slots[k]) {
      assert k in Above(slots, k) && k !in Above(slots, k + 1);
      NeverUnreadable(slots, k + 1);
    }
  }

  lemma {:induction false} ReadVisits(slots: Slots, k: nat)
    ensures ReadFrom(slots, k).Some? <==> forall j :: k <= j < k + Visited(slots, k, None) ==> j in slots
    decreases Above(slots, k)
  {
    if k in slots && Marked(slots[k]) {
      assert k in Above(slots, k) && k !in Above(slots, k + 1);
      ReadVisits(slots, k + 1);
    } else {
      assert Visited(slots, k, None) == 1;
    }
  }

  /** Without cached entries, clearing succeeds exactly when there is a secret to clear:
      the missing slot at which a read gave up is an error to delete. */
  lemma FreshClearIff(slots: Slots)
    ensures DeleteFrom(slots, 0, Visited(slots, 0, None), None).1 <==> ReadFrom(slots, 0).Some?
  {
    DeletedSlots(slots, 0, Visited(slots, 0, None), None);
    ReadVisits(slots, 0);
  }

  /** The storage and its cache of keyring entries; entry `j` names slot `j`. `slots` is
      the platform's keyring. */
  class KeyringStorage {
    const limit: nat
    var entries: seq<nat>
    var slots: Slots

    ghost predicate Valid()
      reads this
    {
      |MARKER| < limit && forall j :: 0 <= j < |entries| ==> entries[j] == j
    }

    function Step(): (step: nat)
      requires |MARKER| < limit
      ensures 0 < step && step + |MARKER| == limit
    {
      limit - |MARKER|
    }

    constructor (limit: nat, slots: Slots)
      requires |MARKER| < limit
      ensures Valid() && this.limit == limit && this.slots == slots && entries == []
    {
      this.limit, this.slots, entries := limit, slots, [];
    }

    method GetNextEntry(i: nat) returns (slot: nat)
      requires Valid() && i <= |entries|
      modifies `entries
      ensures Valid() && slot == i && |entries| == Max(old(|entries|), i + 1)
    {
      if i < |entries| {
        return entries[i];
      }
      entries := entries + [i];
      slot := entries[|entries| - 1];
    }

    /** Slot `unreadable` gives an error other than that it is missing. */
    method Read(unreadable: Option<nat>) returns (ok: bool, r: Option<Bytes>)
      requires Valid()
      modifies `entries
      ensures Valid() && (ok <==> !ReadFails(slots, 0, unreadable))
      ensures r == if ok then ReadFrom(slots, 0) else None
      ensures |entries| == Max(old(|entries|), Visited(slots, 0, unreadable))
    {
      var str := [];
      var i := 0;
      PrependNothing(ReadFrom(slots, 0));
      while true
        invariant Valid() && |entries| == Max(old(|entries|), i)
        invariant Visited(slots, 0, unreadable) == i + Visited(slots, i, unreadable)
        invariant ReadFails(slots, 0, unreadable) == ReadFails(slots, i, unreadable)
        invariant ReadFrom(slots, 0) == Prepend(str, ReadFrom(slots, i))
        decreases Above(slots, i)
      {
        var entry := GetNextEntry(i);
        if unreadable == Some(entry) {
          return false, None;
        }
        if entry !in slots {
          return true, None;
        }
        var nextChunk := slots[entry];
        if Marked(nextChunk) {
          assert i in Above(slots, i) && i !in Above(slots, i + 1);
          PrependTwice(str, Unmarked(nextChunk), ReadFrom(slots, i + 1));
          str := str + Unmarked(nextChunk);
        } else {
          return true, Some(str + nextChunk);
        }
        i := i + 1;
      }
    }

    method Store(sealed: Bytes, failing: Option<nat>) returns (outcome: Outcome)
      requires Valid()
      modifies `entries, `slots
      ensures Valid() && (slots, outcome) == StoreFrom(old(slots), 0, sealed, Step(), failing)
      ensures |entries| == Max(old(|entries|), Tried(0, sealed, Step(), failing))
    {
      var step := Step();
      var i, k := 0, 0;  // k is i / step
      while i < |sealed|
        invariant Valid() && i <= |sealed| && |entries| == Max(old(|entries|), k)
        invariant Tried(0, sealed, step, failing) == k + Tried(k, sealed[i..], step, failing)
        invariant StoreFrom(slots, k, sealed[i..], step, failing) == StoreFrom(old(slots), 0, sealed, step, failing)
      {
        var entry := GetNextEntry(k);
        var cutoff := i + step;
        if cutoff <= |sealed| {
          assert Boundary(sealed[i..], step) == Boundary(sealed, cutoff);
          if !Boundary(sealed, cutoff) {
            return Panicked;
          }
          if failing == Some(entry) {
            return Failed;
          }
          slots := slots[entry := sealed[i..cutoff] + MARKER];
          assert sealed[i..][step..] == sealed[cutoff..] && sealed[i..][..step] == sealed[i..cutoff];
          i, k := cutoff, k + 1;
        } else {
          if failing == Some(entry) {
            return Failed;
          }
          slots := slots[entry := sealed[i..]];
          return Stored;
        }
      }
      return Stored;
    }

    method Clear(unreadable: Option<nat>, failing: Option<nat>) returns (ok: bool)
      requires Valid()
      modifies this
      ensures Valid()
      ensures (slots, ok) == DeleteFrom(old(slots), 0, Max(old(|entries|), Visited(old(slots), 0, unreadable)), failing)
      ensures |entries| == if ok then 0 else Max(old(|entries|), Visited(old(slots), 0, unreadable))
    {
      var _, _ := Read(unreadable);
      for j := 0 to |entries|
        invariant Valid() && |entries| == Max(old(|entries|), Visited(old(slots), 0, unreadable))
        invariant DeleteFrom(slots, j, |entries|, failing) == DeleteFrom(old(slots), 0, |entries|, failing)
      {
        var entry := entries[j];
        if entry !in slots || failing == Some(entry) {
          return false;
        }
        slots := slots - {entry};
      }
      entries := [];
      ok := true;
    }
  }

  lemma PrependNothing(rest: Option<Bytes>)
    ensures Prepend([], rest) == rest
  {
    assert rest.Some? ==> [] + rest.value == rest.value;
  }

  lemma PrependTwice(a: Bytes, b: Bytes, rest: Option<Bytes>)
    ensures Prepend(a, Prepend(b, rest)) == Prepend(a + b, rest)
  {
    assert rest.Some? ==> a + (b + rest.value) == a + b + rest.value;
  }
}
