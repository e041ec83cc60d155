/** Vocabulary shared by the models: options, bytes, and sequences cut into pieces. */
module Seqs {
  datatype Option<+T> = None | Some(value: T)

  type Byte = x: int | 0 <= x < 256
  type Bytes = seq<Byte>
  type U32 = n: nat | n < 0x1_0000_0000

  /** The pieces of `parts`, one after another. */
  function Concat<T>(parts: seq<seq<T>>): seq<T> {
    if parts == [] then [] else parts[0] + Concat(parts[1..])
  }

  lemma {:induction false} ConcatAppend<T>(a: seq<seq<T>>, b: seq<seq<T>>)
    ensures Concat(a + b) == Concat(a) + Concat(b)
  {
    if a == [] {
      assert a + b == b;
    } else {
      ConcatAppend(a[1..], b);
      TailOfAppend(a, b);
      Assoc(a[0], Concat(a[1..]), Concat(b));
    }
  }

  lemma TailOfAppend<T>(a: seq<T>, b: seq<T>)
    requires a != []
    ensures (a + b)[0] == a[0] && (a + b)[1..] == a[1..] + b
  {
  }

  lemma Assoc<T>(a: seq<T>, b: seq<T>, c: seq<T>)
    ensures a + b + c == a + (b + c)
  {
  }

  lemma ConcatSnoc<T>(a: seq<seq<T>>, x: seq<T>)
    ensures Concat(a + [x]) == Concat(a) + x
  {
    ConcatAppend(a, [x]);
    assert Concat([x]) == x + Concat([]);
  }

  /** `a` is `b` with some elements left out, the order kept. */
  predicate Subseq<T(==)>(a: seq<T>, b: seq<T>)
    decreases |b|
  {
    || a == []
    || (b != [] && ((a[0] == b[0] && Subseq(a[1..], b[1..])) || Subseq(a, b[1..])))
  }

  lemma {:induction false} SubseqTail<T>(a: seq<T>, b: seq<T>)
    requires a != [] && Subseq(a, b)
    ensures Subseq(a[1..], b)
    decreases |b|
  {
    if a[0] == b[0] && Subseq(a[1..], b[1..]) {
      SubseqWiden(a[1..], b[0], b[1..]);
      assert [b[0]] + b[1..] == b;
    } else {
      SubseqTail(a, b[1..]);
      SubseqWiden(a[1..], b[0], b[1..]);
      assert [b[0]] + b[1..] == b;
    }
  }

  lemma SubseqWiden<T>(a: seq<T>, x: T, b: seq<T>)
    requires Subseq(a, b)
    ensures Subseq(a, [x] + b)
  {
    assert ([x] + b)[1..] == b;
  }

  /** Leaving out more, in the middle, still leaves a subsequence. */
  lemma {:induction false} SubseqDropMiddle<T>(x: seq<T>, y: seq<T>, z: seq<T>, b: seq<T>)
    requires Subseq(x + y + z, b)
    ensures Subseq(x + z, b)
    decreases |b|, |x| + |y|
  {
    if x == [] {
      assert x + y + z == y + z && x + z == z;
      if y != [] {
        SubseqTail(y + z, b);
        assert (y + z)[1..] == [] + y[1..] + z && [] + z == z;
        SubseqDropMiddle([], y[1..], z, b);
      }
    } else {
      var a := x + y + z;
      assert a[1..] == x[1..] + y + z && (x + z)[1..] == x[1..] + z;
      if a[0] == b[0] && Subseq(a[1..], b[1..]) {
        SubseqDropMiddle(x[1..], y, z, b[1..]);
      } else {
        SubseqDropMiddle(x, y, z, b[1..]);
      }
    }
  }

  lemma {:induction false} SubseqSelf<T>(a: seq<T>)
    ensures Subseq(a, a)
  {
    if a != [] {
      SubseqSelf(a[1..]);
    }
  }

  lemma {:induction false} SubseqAppend<T>(a: seq<T>, b: seq<T>, x: seq<T>)
    requires Subseq(a, b)
    ensures Subseq(a + x, b + x)
    decreases |b|
  {
    if b == [] {
      assert a + x == x && b + x == x;
      SubseqSelf(x);
    } else if a == [] {
      SubseqAppend([], b[1..], x);
      assert [] + x == x && b + x == [b[0]] + (b[1..] + x);
      SubseqWiden(x, b[0], b[1..] + x);
    } else if a[0] == b[0] && Subseq(a[1..], b[1..]) {
      SubseqAppend(a[1..], b[1..], x);
      TailOfAppend(a, x);
      TailOfAppend(b, x);
    } else {
      SubseqAppend(a, b[1..], x);
      TailOfAppend(b, x);
    }
  }

  /** Moving `sent` from what is pending to what is done; and dropping `lost` after it. */
  lemma SubseqAdvance<T>(done: seq<T>, sent: seq<T>, lost: seq<T>, rest: seq<T>, b: seq<T>)
    requires Subseq(done + (sent + lost + rest), b)
    ensures done + (sent + lost + rest) == (done + sent) + (lost + rest)
    ensures Subseq((done + sent) + rest, b)
  {
    assert done + (sent + lost + rest) == (done + sent) + lost + rest;
    SubseqDropMiddle(done + sent, lost, rest, b);
  }

  /** What `f` picks out of each element, one after another. */
  function Collect<T, U>(f: T -> seq<U>, xs: seq<T>): seq<U> {
    if xs == [] then [] else f(xs[0]) + Collect(f, xs[1..])
  }

  lemma {:induction false} CollectAppend<T, U>(f: T -> seq<U>, a: seq<T>, b: seq<T>)
    ensures Collect(f, a + b) == Collect(f, a) + Collect(f, b)
  {
    if a == [] {
      assert a + b == b;
    } else {
      CollectAppend(f, a[1..], b);
      TailOfAppend(a, b);
      Assoc(f(a[0]), Collect(f, a[1..]), Collect(f, b));
    }
  }

  lemma CollectSnoc<T, U>(f: T -> seq<U>, a: seq<T>, x: T)
    ensures Collect(f, a + [x]) == Collect(f, a) + f(x)
  {
    CollectAppend(f, a, [x]);
    assert Collect(f, [x]) == f(x) + Collect(f, []);
  }

  lemma CollectUpdate<T, U>(f: T -> seq<U>, a: seq<T>, t: nat, x: T)
    requires t < |a|
    ensures f(x) == f(a[t]) ==> Collect(f, a[t := x]) == Collect(f, a)
    ensures multiset(Collect(f, a[t := x])) + multiset(f(a[t])) == multiset(Collect(f, a)) + multiset(f(x))
  {
    assert a == a[..t] + ([a[t]] + a[t + 1..]) && a[t := x] == a[..t] + ([x] + a[t + 1..]);
    CollectAppend(f, a[..t], [a[t]] + a[t + 1..]);
    CollectAppend(f, a[..t], [x] + a[t + 1..]);
    assert ([a[t]] + a[t + 1..])[1..] == a[t + 1..] == ([x] + a[t + 1..])[1..];
  }

  /** No element twice. */
  predicate NoDuplicates<T(==)>(s: seq<T>) {
    forall i, j :: 0 <= i < j < |s| ==> s[i] != s[j]
  }

  function Max(a: nat, b: nat): nat {
    if a < b then b else a
  }

  lemma NoDuplicatesSplit<T>(a: seq<T>, b: seq<T>)
    requires NoDuplicates(a + b)
    ensures NoDuplicates(a) && forall x :: x in b ==> x !in a
  {
    var all := a + b;
    forall i, j | 0 <= i < j < |a| ensures a[i] != a[j] {
      assert all[i] == a[i] && all[j] == a[j];
    }
    forall i, j | 0 <= i < |a| && 0 <= j < |b| ensures a[i] != b[j] {
      assert all[i] == a[i] && all[|a| + j] == b[j];
    }
  }

  lemma HeadAndTail<T>(s: seq<T>)
    requires s != []
    ensures s == [s[0]] + s[1..]
  {
  }

  lemma Front<T>(s: seq<T>, m: nat, n: nat)
    requires m + n <= |s|
    ensures s[..m] + s[m..][..n] == s[..m + n]
  {
  }

  /** What is picked out of the first element comes first. */
  lemma CollectFirst<T, U>(f: T -> seq<U>, x: T, xs: seq<T>)
    ensures Collect(f, [x] + xs) == f(x) + Collect(f, xs)
  {
    assert ([x] + xs)[1..] == xs;
  }
}
