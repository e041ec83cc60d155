/**
 The stringifier behind the console: a depth-first walk over an object graph that
 writes every object it has already seen as '[Circular]'.

 Objects and arrays are nodes; a node lists its fields in order. Everything else,
 dates and regular expressions among it, is a leaf. What JSON leaves out of an object,
 such as a function, is not among its fields.
 */
module Stringifier {
  import opened Seqs

  datatype Value = Leaf(text: string) | Ref(node: nat)

  type Graph = seq<seq<Value>>

  predicate Closed(g: Graph) {
    forall n, i :: 0 <= n < |g| && 0 <= i < |g[n]| ==> Resolved(g, g[n][i])
  }

  predicate Resolved(g: Graph, v: Value) {
    v.Ref? ==> v.node < |g|
  }

  datatype Out = Text(text: string) | Circular | Object(node: nat, fields: Outs)
  datatype Outs = Nothing | Then(head: Out, tail: Outs)

  function Unseen(g: Graph, seen: seq<nat>): set<nat> {
    set n: nat | n < |g| && n !in seen
  }

  /** What is written for a value, and the objects seen by then. */
  function Walk(g: Graph, v: Value, seen: seq<nat>): (r: (Out, seq<nat>))
    requires Closed(g) && Resolved(g, v)
    ensures seen <= r.1
    decreases Unseen(g, seen), 0
  {
    match v
    case Leaf(text) => (Text(text), seen)
    case Ref(n) =>
      if n in seen then (Circular, seen)
      else
        assert n in Unseen(g, seen) && n !in Unseen(g, seen + [n]);
        var (fields, after) := WalkAll(g, g[n], seen + [n]);
        (Object(n, fields), after)
  }

  function WalkAll(g: Graph, vs: seq<Value>, seen: seq<nat>): (r: (Outs, seq<nat>))
    requires Closed(g) && forall i :: 0 <= i < |vs| ==> Resolved(g, vs[i])
    ensures seen <= r.1
    decreases Unseen(g, seen), |vs| + 1
  {
    if vs == [] then (Nothing, seen)
    else
      var (first, seen1) := Walk(g, vs[0], seen);
      var (rest, after) := WalkAll(g, vs[1..], seen1);
      (Then(first, rest), after)
  }

  /** The objects written out, in order, and the nodes of the output. */
  function Expanded(o: Out): seq<nat> {
    match o
    case Object(n, fields) => [n] + AllExpanded(fields)
    case _ => []
  }

  function AllExpanded(os: Outs): seq<nat> {
    match os
    case Nothing => []
    case Then(o, rest) => Expanded(o) + AllExpanded(rest)
  }

  function Size(o: Out): nat {
    match o
    case Object(_, fields) => 1 + AllSize(fields)
    case _ => 1
  }

  function AllSize(os: Outs): nat {
    match os
    case Nothing => 0
    case Then(o, rest) => Size(o) + AllSize(rest)
  }

  /** All the fields of some nodes, counted. */
  function References(g: Graph, nodes: seq<nat>): nat {
    if nodes == [] then 0
    else (if nodes[0] < |g| then |g[nodes[0]]| else 0) + References(g, nodes[1..])
  }

  lemma {:induction false} ReferencesAppend(g: Graph, a: seq<nat>, b: seq<nat>)
    ensures References(g, a + b) == References(g, a) + References(g, b)
  {
    if a == [] {
      assert a + b == b;
    } else {
      ReferencesAppend(g, a[1..], b);
      assert (a + b)[1..] == a[1..] + b;
    }
  }

  predicate Within(g: Graph, seen: seq<nat>) {
    forall i :: 0 <= i < |seen| ==> seen[i] < |g|
  }

  /** What is newly seen is what is written out, in that order. */
  lemma {:induction false} WalkSeesWhatItWrites(g: Graph, v: Value, seen: seq<nat>)
    requires Closed(g) && Resolved(g, v)
    ensures Walk(g, v, seen).1 == seen + Expanded(Walk(g, v, seen).0)
    decreases Unseen(g, seen), 0
  {
    if v.Ref? && v.node !in seen {
      assert v.node in Unseen(g, seen) && v.node !in Unseen(g, seen + [v.node]);
      AllSeesWhatItWrites(g, g[v.node], seen + [v.node]);
      Assoc(seen, [v.node], AllExpanded(WalkAll(g, g[v.node], seen + [v.node]).0));
    } else {
      assert seen + [] == seen;
    }
  }

  lemma {:induction false} AllSeesWhatItWrites(g: Graph, vs: seq<Value>, seen: seq<nat>)
    requires Closed(g) && forall i :: 0 <= i < |vs| ==> Resolved(g, vs[i])
    ensures WalkAll(g, vs, seen).1 == seen + AllExpanded(WalkAll(g, vs, seen).0)
    decreases Unseen(g, seen), |vs| + 1
  {
    if vs == [] {
      assert seen + [] == seen;
    } else {
      WalkSeesWhatItWrites(g, vs[0], seen);
      var (first, seen1) := Walk(g, vs[0], seen);
      AllSeesWhatItWrites(g, vs[1..], seen1);
      Assoc(seen, Expanded(first), AllExpanded(WalkAll(g, vs[1..], seen1).0));
    }
  }

  lemma DistinctSnoc(g: Graph, seen: seq<nat>, n: nat)
    requires NoDuplicates(seen) && Within(g, seen) && n !in seen && n < |g|
    ensures NoDuplicates(seen + [n]) && Within(g, seen + [n])
  {
  }

  /** No object is seen twice. */
  lemma {:induction false} WalkSeesOnce(g: Graph, v: Value, seen: seq<nat>)
    requires Closed(g) && Resolved(g, v) && NoDuplicates(seen) && Within(g, seen)
    ensures NoDuplicates(Walk(g, v, seen).1) && Within(g, Walk(g, v, seen).1)
    decreases Unseen(g, seen), 0
  {
    if v.Ref? && v.node !in seen {
      assert v.node in Unseen(g, seen) && v.node !in Unseen(g, seen + [v.node]);
      DistinctSnoc(g, seen, v.node);
      AllSeesOnce(g, g[v.node], seen + [v.node]);
    }
  }

  lemma {:induction false} AllSeesOnce(g: Graph, vs: seq<Value>, seen: seq<nat>)
    requires Closed(g) && (forall i :: 0 <= i < |vs| ==> Resolved(g, vs[i])) && NoDuplicates(seen) && Within(g, seen)
    ensures NoDuplicates(WalkAll(g, vs, seen).1) && Within(g, WalkAll(g, vs, seen).1)
    decreases Unseen(g, seen), |vs| + 1
  {
    if vs != [] {
      WalkSeesOnce(g, vs[0], seen);
      AllSeesOnce(g, vs[1..], Walk(g, vs[0], seen).1);
    }
  }

  /** There is one output node for the value itself and one for every field of the
      objects written out. */
  lemma {:induction false} WalkSize(g: Graph, v: Value, seen: seq<nat>)
    requires Closed(g) && Resolved(g, v)
    ensures Size(Walk(g, v, seen).0) == 1 + References(g, Expanded(Walk(g, v, seen).0))
    decreases Unseen(g, seen), 0
  {
    if v.Ref? && v.node !in seen {
      assert v.node in Unseen(g, seen) && v.node !in Unseen(g, seen + [v.node]);
      WalkAllSize(g, g[v.node], seen + [v.node]);
      var fields := AllExpanded(WalkAll(g, g[v.node], seen + [v.node]).0);
      assert ([v.node] + fields)[1..] == fields;
    }
  }

  lemma {:induction false} WalkAllSize(g: Graph, vs: seq<Value>, seen: seq<nat>)
    requires Closed(g) && forall i :: 0 <= i < |vs| ==> Resolved(g, vs[i])
    ensures AllSize(WalkAll(g, vs, seen).0) == |vs| + References(g, AllExpanded(WalkAll(g, vs, seen).0))
    decreases Unseen(g, seen), |vs| + 1
  {
    if vs != [] {
      WalkSize(g, vs[0], seen);
      var (first, seen1) := Walk(g, vs[0], seen);
      WalkAllSize(g, vs[1..], seen1);
      ReferencesAppend(g, Expanded(first), AllExpanded(WalkAll(g, vs[1..], seen1).0));
    }
  }

  // ----- reachability -----

  predicate Refers(g: Graph, a: nat, b: nat) {
    a < |g| && Ref(b) in g[a]
  }

  predicate IsPath(g: Graph, path: seq<nat>, a: nat, b: nat) {
    && path != [] && path[0] == a && path[|path| - 1] == b
    && forall i :: 0 <= i < |path| - 1 ==> Refers(g, path[i], path[i + 1])
  }

  ghost predicate Reaches(g: Graph, a: nat, b: nat) {
    exists path :: IsPath(g, path, a, b)
  }

  lemma ReachesOneMore(g: Graph, a: nat, b: nat, c: nat)
    requires Refers(g, a, b) && Reaches(g, b, c)
    ensures Reaches(g, a, c)
  {
    var path :| IsPath(g, path, b, c);
    assert IsPath(g, [a] + path, a, c);
  }

  lemma ReachesSelf(g: Graph, a: nat)
    ensures Reaches(g, a, a)
  {
    assert IsPath(g, [a], a, a);
  }

  /** What is newly seen can be reached. */
  lemma {:induction false} SeenIsReached(g: Graph, v: Value, seen: seq<nat>, m: nat)
    requires Closed(g) && Resolved(g, v) && m in Walk(g, v, seen).1 && m !in seen
    ensures v.Ref? && Reaches(g, v.node, m)
    decreases Unseen(g, seen), 0
  {
    var n := v.node;
    assert n in Unseen(g, seen) && n !in Unseen(g, seen + [n]);
    if m == n {
      ReachesSelf(g, n);
    } else {
      var c := AllSeenIsReached(g, g[n], seen + [n], m);
      ReachesOneMore(g, n, c, m);
    }
  }

  lemma {:induction false} AllSeenIsReached(g: Graph, vs: seq<Value>, seen: seq<nat>, m: nat) returns (c: nat)
    requires Closed(g) && forall i :: 0 <= i < |vs| ==> Resolved(g, vs[i])
    requires m in WalkAll(g, vs, seen).1 && m !in seen
    ensures Ref(c) in vs && Reaches(g, c, m)
    decreases Unseen(g, seen), |vs| + 1
  {
    var seen1 := Walk(g, vs[0], seen).1;
    if m in seen1 {
      SeenIsReached(g, vs[0], seen, m);
      c := vs[0].node;
    } else {
      c := AllSeenIsReached(g, vs[1..], seen1, m);
    }
  }

  predicate AllIn(vs: seq<Value>, seen: seq<nat>) {
    forall i :: 0 <= i < |vs| && vs[i].Ref? ==> vs[i].node in seen
  }

  /** Every field of what is newly seen is seen too. */
  lemma {:induction false} SeenIsFollowed(g: Graph, v: Value, seen: seq<nat>)
    requires Closed(g) && Resolved(g, v)
    ensures var after := Walk(g, v, seen).1;
            && (v.Ref? ==> v.node in after)
            && forall m :: m in after && m !in seen && m < |g| ==> AllIn(g[m], after)
    decreases Unseen(g, seen), 0
  {
    if v.Ref? && v.node !in seen {
      assert v.node in Unseen(g, seen) && v.node !in Unseen(g, seen + [v.node]);
      AllSeenIsFollowed(g, g[v.node], seen + [v.node]);
      assert (seen + [v.node])[|seen|] == v.node;
      assert v.node in Walk(g, v, seen).1;
    }
  }

  lemma {:induction false} AllSeenIsFollowed(g: Graph, vs: seq<Value>, seen: seq<nat>)
    requires Closed(g) && forall i :: 0 <= i < |vs| ==> Resolved(g, vs[i])
    ensures var after := WalkAll(g, vs, seen).1;
            && AllIn(vs, after)
            && forall m :: m in after && m !in seen && m < |g| ==> AllIn(g[m], after)
    decreases Unseen(g, seen), |vs| + 1
  {
    if vs != [] {
      SeenIsFollowed(g, vs[0], seen);
      var seen1 := Walk(g, vs[0], seen).1;
      AllSeenIsFollowed(g, vs[1..], seen1);
      var after := WalkAll(g, vs[1..], seen1).1;
      assert forall m :: m in seen1 ==> m in after;
    }
  }

  lemma {:induction false} PathStaysIn(g: Graph, path: seq<nat>, a: nat, b: nat, seen: seq<nat>)
    requires IsPath(g, path, a, b) && a in seen
    requires forall m :: m in seen && m < |g| ==> AllIn(g[m], seen)
    ensures b in seen
    decreases |path|
  {
    if |path| > 1 {
      assert Refers(g, path[0], path[1]);
      PathStaysIn(g, path[1..], path[1], b, seen);
    }
  }

  // ----- what is written -----

  /** `o` writes `v` down: a leaf as it is; an object as seen elsewhere, or with all its
      fields in order. */
  predicate Writes(g: Graph, o: Out, v: Value) {
    match o
    case Text(text) => v == Leaf(text)
    case Circular => v.Ref?
    case Object(n, fields) => v == Ref(n) && n < |g| && AllWrite(g, fields, g[n])
  }

  predicate AllWrite(g: Graph, os: Outs, vs: seq<Value>) {
    match os
    case Nothing => vs == []
    case Then(o, rest) => vs != [] && Writes(g, o, vs[0]) && AllWrite(g, rest, vs[1..])
  }

  lemma {:induction false} WalkWrites(g: Graph, v: Value, seen: seq<nat>)
    requires Closed(g) && Resolved(g, v)
    ensures Writes(g, Walk(g, v, seen).0, v)
    decreases Unseen(g, seen), 0
  {
    if v.Ref? && v.node !in seen {
      assert v.node in Unseen(g, seen) && v.node !in Unseen(g, seen + [v.node]);
      WalkAllWrites(g, g[v.node], seen + [v.node]);
    }
  }

  lemma {:induction false} WalkAllWrites(g: Graph, vs: seq<Value>, seen: seq<nat>)
    requires Closed(g) && forall i :: 0 <= i < |vs| ==> Resolved(g, vs[i])
    ensures AllWrite(g, WalkAll(g, vs, seen).0, vs)
    decreases Unseen(g, seen), |vs| + 1
  {
    if vs != [] {
      WalkWrites(g, vs[0], seen);
      WalkAllWrites(g, vs[1..], Walk(g, vs[0], seen).1);
    }
  }

  /** The walk from an object, on any graph, cyclic or shared: it writes out exactly
      the objects that can be reached, each once and with all its fields, and its output
      has one node for the object and one for every field of those objects. */
  lemma WalkExpandsReachable(g: Graph, root: nat)
    requires Closed(g) && root < |g|
    ensures var o := Walk(g, Ref(root), []).0;
            && Writes(g, o, Ref(root))
            && NoDuplicates(Expanded(o))
            && (forall m :: m in Expanded(o) <==> Reaches(g, root, m))
            && Size(o) == 1 + References(g, Expanded(o))
  {
    var (o, seen) := Walk(g, Ref(root), []);
    WalkSeesWhatItWrites(g, Ref(root), []);
    assert [] + Expanded(o) == Expanded(o);
    WalkSeesOnce(g, Ref(root), []);
    WalkSize(g, Ref(root), []);
    WalkWrites(g, Ref(root), []);
    SeenIsFollowed(g, Ref(root), []);
    forall m ensures m in seen <==> Reaches(g, root, m) {
      if m in seen {
        SeenIsReached(g, Ref(root), [], m);
      }
      if Reaches(g, root, m) {
        var path :| IsPath(g, path, root, m);
        PathStaysIn(g, path, root, m, seen);
      }
    }
  }

  // ----- the arguments of a console call -----

  datatype Arg = Undefined | Error(stack: string, message: string) | Plain(value: Value)

  function Massaged(arg: Arg): Value {
    match arg
    case Undefined => Leaf("undefined")
    case Error(stack, message) => Leaf(if stack != "" then stack else message)
    case Plain(value) => value
  }

  function AllMassaged(args: seq<Arg>): (r: seq<Value>)
    ensures |r| == |args| && forall i :: 0 <= i < |args| ==> r[i] == Massaged(args[i])
  {
    if args == [] then [] else AllMassaged(args[..|args| - 1]) + [Massaged(args[|args| - 1])]
  }

  /** The output written for an item of an array. */
  function ItemAt(os: Outs, i: nat): Out {
    match os
    case Nothing => Circular
    case Then(o, rest) => if i == 0 then o else ItemAt(rest, i - 1)
  }

  lemma {:induction false} ItemIsWritten(g: Graph, os: Outs, vs: seq<Value>, i: nat)
    requires AllWrite(g, os, vs) && i < |vs|
    ensures Writes(g, ItemAt(os, i), vs[i])
  {
    if i > 0 {
      ItemIsWritten(g, os.tail, vs[1..], i - 1);
    }
  }

  /** Each argument is written in its place: a missing one as the text 'undefined', an error as
      its stack, or its message if it has none, and any other value as it is. */
  lemma ArgIsWritten(g: Graph, os: Outs, args: seq<Arg>, i: nat)
    requires AllWrite(g, os, AllMassaged(args)) && i < |args|
    ensures args[i].Undefined? ==> ItemAt(os, i) == Text("undefined")
    ensures args[i].Error? ==> ItemAt(os, i) == Text(if args[i].stack != "" then args[i].stack else args[i].message)
    ensures args[i].Plain? ==> Writes(g, ItemAt(os, i), args[i].value)
  {
    ItemIsWritten(g, os, AllMassaged(args), i);
  }

  predicate ArgsResolved(g: Graph, args: seq<Arg>) {
    forall i :: 0 <= i < |args| ==> Resolved(g, Massaged(args[i]))
  }

  /** The arguments, gathered in an array nothing refers to. */
  function WithArgs(g: Graph, args: seq<Arg>): (r: Graph)
    requires Closed(g) && ArgsResolved(g, args)
    ensures Closed(r) && |r| == |g| + 1
  {
    var r := g + [AllMassaged(args)];
    assert forall n, i :: 0 <= n < |r| && 0 <= i < |r[n]| ==> Resolved(g, r[n][i]) && Resolved(r, r[n][i]);
    r
  }

  class SafeStringifier {
    var seen: seq<nat>

    constructor ()
      ensures seen == []
    {
      seen := [];
    }

    /** The replacer: whether the object is to be written as '[Circular]'. */
    method Replace(n: nat) returns (circular: bool)
      modifies this
      ensures circular == (n in old(seen))
      ensures seen == if circular then old(seen) else old(seen) + [n]
    {
      circular := n in seen;
      if !circular {
        seen := seen + [n];
      }
    }

    method Visit(g: Graph, v: Value) returns (o: Out)
      requires Closed(g) && Resolved(g, v)
      modifies this
      ensures (o, seen) == Walk(g, v, old(seen))
      decreases Unseen(g, seen), 0
    {
      if v.Leaf? {
        o := Text(v.text);
      } else {
        assert v.node !in seen ==> v.node in Unseen(g, seen) && v.node !in Unseen(g, seen + [v.node]);
        var circular := Replace(v.node);
        if circular {
          o := Circular;
        } else {
          var fields := VisitAll(g, g[v.node]);
          o := Object(v.node, fields);
        }
      }
    }

    method VisitAll(g: Graph, vs: seq<Value>) returns (os: Outs)
      requires Closed(g) && forall i :: 0 <= i < |vs| ==> Resolved(g, vs[i])
      modifies this
      ensures (os, seen) == WalkAll(g, vs, old(seen))
      decreases Unseen(g, seen), |vs| + 1
    {
      if vs == [] {
        os := Nothing;
      } else {
        var first := Visit(g, vs[0]);
        var rest := VisitAll(g, vs[1..]);
        os := Then(first, rest);
      }
    }
  }

  /** What one console call sends: the array of its arguments, massaged one by one. */
  method SafeToString(g: Graph, args: seq<Arg>) returns (o: Out)
    requires Closed(g) && ArgsResolved(g, args)
    ensures o == Walk(WithArgs(g, args), Ref(|g|), []).0
    ensures o.Object? && AllWrite(WithArgs(g, args), o.fields, AllMassaged(args))
    ensures NoDuplicates(Expanded(o)) && forall m :: m in Expanded(o) <==> Reaches(WithArgs(g, args), |g|, m)
  {
    var argsArray: seq<Value> := [];
    for i := 0 to |args|
      invariant argsArray == AllMassaged(args[..i])
    {
      assert args[..i + 1][..i] == args[..i];
      match args[i]
      case Undefined => argsArray := argsArray + [Leaf("undefined")];
      case Error(stack, message) => argsArray := argsArray + [Leaf(if stack != "" then stack else message)];
      case Plain(value) => argsArray := argsArray + [value];
    }
    assert args[..|args|] == args;
    assert g + [argsArray] == WithArgs(g, args);
    var stringifier := new SafeStringifier();
    o := stringifier.Visit(g + [argsArray], Ref(|g|));
    WalkExpandsReachable(WithArgs(g, args), |g|);
  }
}
