/**
 A cache of downloaded directories with the list of the most recently used ones,
 which is persisted beside them. Using an entry may evict the oldest.
 */
module DownloadCache {
  import opened Seqs
  import opened Persisted

  const KEEP_LRU := 5
  const STAGING_SUFFIX: string := ".staging"
  const RENAME_ATTEMPTS := 20

  function RemoveFirst(l: seq<string>, name: string): seq<string> {
    if l == [] then [] else if l[0] == name then l[1..] else [l[0]] + RemoveFirst(l[1..], name)
  }

  function Retain(l: seq<string>, name: string): seq<string> {
    if l == [] then [] else (if l[0] == name then [] else [l[0]]) + Retain(l[1..], name)
  }

  /** The list and the directories after a use of `name`: it moves to the front, and
      an entry beyond the limit goes if its directory is gone or can be removed. */
  datatype Used = Used(list: seq<string>, dirs: set<string>, failed: bool)

  function Use(l: seq<string>, dirs: set<string>, name: string, removes: bool): Used {
    var l1 := [name] + RemoveFirst(l, name);
    if |l1| <= KEEP_LRU then Used(l1, dirs, false)
    else
      var oldest := l1[|l1| - 1];
      if oldest !in dirs || removes then Used(l1[..|l1| - 1], dirs - {oldest}, false)
      else Used(l1, dirs, true)
  }

  // ----- the list refines recency -----

  /** The names of a trace of uses, the most recent use first. */
  function Recent(trace: seq<string>): seq<string> {
    if trace == [] then []
    else
      var last := trace[|trace| - 1];
      [last] + Retain(Recent(trace[..|trace| - 1]), last)
  }

  function Take(l: seq<string>, n: nat): seq<string> {
    if |l| <= n then l else l[..n]
  }

  /** Where a name was used last. */
  function LastUse(trace: seq<string>, name: string): int {
    LastUseIn(trace, |trace|, name)
  }

  function LastUseIn(trace: seq<string>, n: nat, name: string): (i: int)
    requires n <= |trace|
    ensures i < n
  {
    if n == 0 then -1 else if trace[n - 1] == name then n - 1 else LastUseIn(trace, n - 1, name)
  }

  lemma {:induction false} LastUseInPrefix(trace: seq<string>, last: string, n: nat, name: string)
    requires n <= |trace|
    ensures LastUseIn(trace + [last], n, name) == LastUseIn(trace, n, name)
  {
    if n > 0 {
      LastUseInPrefix(trace, last, n - 1, name);
    }
  }

  predicate ByLastUse(trace: seq<string>, l: seq<string>) {
    forall i, j :: 0 <= i < j < |l| ==> LastUse(trace, l[i]) > LastUse(trace, l[j])
  }

  lemma {:induction false} RecentHas(trace: seq<string>)
    ensures forall x :: x in Recent(trace) <==> x in trace
    ensures forall x :: x in Recent(trace) ==> 0 <= LastUse(trace, x) < |trace|
  {
    if trace != [] {
      var before, last := trace[..|trace| - 1], trace[|trace| - 1];
      RecentHas(before);
      assert trace == before + [last];
      RetainKeepsOrder(Recent(before), last);
      forall x | x in Recent(trace) ensures 0 <= LastUse(trace, x) < |trace| {
        LastUseSnoc(before, last, x);
      }
    }
  }

  lemma RetainByLastUse(before: seq<string>, last: string, l: seq<string>)
    requires ByLastUse(before, l)
    ensures ByLastUse(before + [last], Retain(l, last))
  {
    var r := Retain(l, last);
    RetainKeepsOrder(l, last);
    forall i, j | 0 <= i < j < |r| ensures LastUse(before + [last], r[i]) > LastUse(before + [last], r[j]) {
      var k, m := RetainAt(l, last, i, j);
      assert r[i] in r && r[j] in r;
      LastUseSnoc(before, last, r[i]);
      LastUseSnoc(before, last, r[j]);
    }
  }

  lemma {:induction false} RecentIsOrdered(trace: seq<string>)
    ensures ByLastUse(trace, Recent(trace))
  {
    if trace != [] {
      var before, last := trace[..|trace| - 1], trace[|trace| - 1];
      RecentIsOrdered(before);
      assert trace == before + [last];
      RetainByLastUse(before, last, Recent(before));
      RecentHas(before);
      RetainKeepsOrder(Recent(before), last);
      LastUseSnoc(before, last, last);
      forall x | x in Retain(Recent(before), last) ensures LastUse(trace, x) < LastUse(trace, last) {
        LastUseSnoc(before, last, x);
      }
      InFront(trace, last, Retain(Recent(before), last));
    }
  }

  lemma LastUseSnoc(before: seq<string>, last: string, x: string)
    ensures LastUse(before + [last], x) == if x == last then |before| else LastUse(before, x)
  {
    LastUseInPrefix(before, last, |before|, x);
  }

  lemma InFront(trace: seq<string>, last: string, r: seq<string>)
    requires ByLastUse(trace, r) && forall x :: x in r ==> LastUse(trace, x) < LastUse(trace, last)
    ensures ByLastUse(trace, [last] + r)
  {
    var l := [last] + r;
    forall i, j | 0 <= i < j < |l| ensures LastUse(trace, l[i]) > LastUse(trace, l[j]) {
      assert l[j] == r[j - 1] && r[j - 1] in r;
      assert i > 0 ==> l[i] == r[i - 1];
    }
  }

  /** What is meant by recency: every name of the trace once, in order of last use. */
  lemma RecentIsByLastUse(trace: seq<string>)
    ensures forall x :: x in Recent(trace) <==> x in trace
    ensures forall x :: x in Recent(trace) ==> 0 <= LastUse(trace, x) < |trace|
    ensures ByLastUse(trace, Recent(trace)) && NoDuplicates(Recent(trace))
  {
    RecentHas(trace);
    RecentIsOrdered(trace);
  }

  lemma {:induction false} RetainKeepsOrder(l: seq<string>, name: string)
    ensures forall x :: x in Retain(l, name) <==> x in l && x != name
  {
    if l != [] {
      RetainKeepsOrder(l[1..], name);
      assert l == [l[0]] + l[1..];
    }
  }

  lemma {:induction false} RetainAt(l: seq<string>, name: string, i: nat, j: nat) returns (k: nat, m: nat)
    requires i < j < |Retain(l, name)|
    ensures k < m < |l| && l[k] == Retain(l, name)[i] && l[m] == Retain(l, name)[j]
  {
    if l[0] == name {
      k, m := RetainAt(l[1..], name, i, j);
      k, m := k + 1, m + 1;
    } else if i == 0 {
      k := 0;
      m := RetainOneAt(l[1..], name, j - 1);
      m := m + 1;
    } else {
      k, m := RetainAt(l[1..], name, i - 1, j - 1);
      k, m := k + 1, m + 1;
    }
  }

  lemma {:induction false} RetainOneAt(l: seq<string>, name: string, j: nat) returns (m: nat)
    requires j < |Retain(l, name)|
    ensures m < |l| && l[m] == Retain(l, name)[j]
  {
    if l[0] == name {
      m := RetainOneAt(l[1..], name, j);
      m := m + 1;
    } else if j == 0 {
      m := 0;
    } else {
      m := RetainOneAt(l[1..], name, j - 1);
      m := m + 1;
    }
  }

  /** Without duplicates, removing one is removing all. */
  lemma {:induction false} RemoveFirstRetains(l: seq<string>, name: string)
    requires NoDuplicates(l)
    ensures RemoveFirst(l, name) == Retain(l, name)
  {
    if l != [] {
      RemoveFirstRetains(l[1..], name);
      if l[0] == name {
        NothingToRetain(l[1..], name);
      }
    }
  }

  lemma {:induction false} NothingToRetain(l: seq<string>, name: string)
    requires name !in l
    ensures Retain(l, name) == l
  {
    if l != [] {
      NothingToRetain(l[1..], name);
    }
  }

  /** Cutting the list before or after a use makes no difference. */
  lemma {:induction false} TakeCommutes(l: seq<string>, name: string, n: nat)
    requires NoDuplicates(l)
    ensures Take([name] + Retain(Take(l, n + 1), name), n + 1) == Take([name] + Retain(l, name), n + 1)
  {
    RetainPrefix(l, name, n);
    TakeCons(name, Retain(Take(l, n + 1), name), n + 1);
    TakeCons(name, Retain(l, name), n + 1);
  }

  lemma {:induction false} RetainPrefix(l: seq<string>, name: string, n: nat)
    requires NoDuplicates(l)
    ensures Take(Retain(Take(l, n + 1), name), n) == Take(Retain(l, name), n)
  {
    if l != [] && n > 0 {
      var cut := Take(l, n + 1);
      assert cut[0] == l[0] && cut[1..] == Take(l[1..], n);
      if l[0] == name {
        NothingToRetain(l[1..], name);
        assert name !in Take(l[1..], n);
        NothingToRetain(cut[1..], name);
      } else {
        RetainPrefix(l[1..], name, n - 1);
        TakeCons(l[0], Retain(cut[1..], name), n);
        TakeCons(l[0], Retain(l[1..], name), n);
      }
    }
  }

  lemma TakeCons(x: string, r: seq<string>, n: nat)
    requires n > 0
    ensures Take([x] + r, n) == [x] + Take(r, n - 1)
  {
  }

  /** The list after a trace of uses, each with its own luck in removing directories. */
  function UseAll(l: seq<string>, dirs: set<string>, trace: seq<string>, removes: seq<bool>)
    : (seq<string>, set<string>, nat)
    requires |removes| == |trace|
  {
    if trace == [] then (l, dirs, 0)
    else
      var n := |trace| - 1;
      var (l1, dirs1, failed) := UseAll(l, dirs, trace[..n], removes[..n]);
      var u := Use(l1, dirs1, trace[n], removes[n]);
      (u.list, u.dirs, failed + if u.failed then 1 else 0)
  }

  lemma NewInFront(x: string, l: seq<string>)
    requires NoDuplicates(l) && x !in l
    ensures NoDuplicates([x] + l)
  {
    assert forall j :: 0 <= j < |l| ==> ([x] + l)[j + 1] == l[j] && l[j] != x;
  }

  lemma {:induction false} RetainKeepsDistinct(l: seq<string>, name: string)
    requires NoDuplicates(l)
    ensures NoDuplicates(Retain(l, name)) && |Retain(l, name)| <= |l|
  {
    if l != [] {
      RetainKeepsDistinct(l[1..], name);
      RetainKeepsOrder(l[1..], name);
      if l[0] != name {
        NewInFront(l[0], Retain(l[1..], name));
      }
    }
  }

  lemma UseKeepsDistinct(l: seq<string>, dirs: set<string>, name: string, removes: bool)
    requires NoDuplicates(l)
    ensures NoDuplicates(Use(l, dirs, name, removes).list)
    ensures var u := Use(l, dirs, name, removes); |u.list| <= Max(KEEP_LRU, |l| + if u.failed then 1 else 0)
  {
    RemoveFirstRetains(l, name);
    RetainKeepsOrder(l, name);
    RetainKeepsDistinct(l, name);
    NewInFront(name, Retain(l, name));
  }

  /** In any trace from an empty list there are no duplicates, and no more entries than
      the limit and the evictions that failed. */
  lemma {:induction false} ListIsBounded(dirs: set<string>, trace: seq<string>, removes: seq<bool>)
    requires |removes| == |trace|
    ensures var (l, _, failed) := UseAll([], dirs, trace, removes);
            NoDuplicates(l) && |l| <= 5 + failed
  {
    if trace != [] {
      var n := |trace| - 1;
      ListIsBounded(dirs, trace[..n], removes[..n]);
      var (l, dirs1, failed) := UseAll([], dirs, trace[..n], removes[..n]);
      UseKeepsDistinct(l, dirs1, trace[n], removes[n]);
    }
  }

  lemma {:induction false} RetainFromPrefix(l: seq<string>, m: seq<string>, name: string)
    requires l <= m
    ensures Retain(l, name) <= Retain(m, name)
  {
    if l != [] {
      RetainFromPrefix(l[1..], m[1..], name);
    }
  }

  /** At least the names up to the limit. */
  predicate LongEnough(l: seq<string>, recent: seq<string>) {
    |l| >= 5 || |l| == |recent|
  }

  lemma UseIsPrefix(l: seq<string>, recent: seq<string>, dirs: set<string>, name: string, removes: bool)
    requires NoDuplicates(l) && l <= recent && LongEnough(l, recent)
    ensures var l' := Use(l, dirs, name, removes).list;
            l' <= [name] + Retain(recent, name) && LongEnough(l', [name] + Retain(recent, name))
  {
    RemoveFirstRetains(l, name);
    RetainFromPrefix(l, recent, name);
    RetainDropsOne(l, name);
    assert |l| == |recent| ==> l == recent;
  }

  lemma {:induction false} RetainDropsOne(l: seq<string>, name: string)
    requires NoDuplicates(l)
    ensures |Retain(l, name)| >= |l| - 1
  {
    if l != [] {
      RetainDropsOne(l[1..], name);
      if l[0] == name {
        NothingToRetain(l[1..], name);
      }
    }
  }

  /** Refinement, whatever evictions fail: the list is the most recently used names, in
      order and without gaps, and it has five of them if there are. */
  lemma {:induction false} ListIsPrefix(dirs: set<string>, trace: seq<string>, removes: seq<bool>)
    requires |removes| == |trace|
    ensures var l := UseAll([], dirs, trace, removes).0; l <= Recent(trace) && LongEnough(l, Recent(trace))
  {
    if trace != [] {
      var n := |trace| - 1;
      ListIsPrefix(dirs, trace[..n], removes[..n]);
      ListIsBounded(dirs, trace[..n], removes[..n]);
      var (l, dirs1, _) := UseAll([], dirs, trace[..n], removes[..n]);
      UseIsPrefix(l, Recent(trace[..n]), dirs1, trace[n], removes[n]);
    }
  }

  /** So as long as evictions succeed, it is the five most recently used. */
  lemma {:induction false} ListIsMostRecent(dirs: set<string>, trace: seq<string>, removes: seq<bool>)
    requires |removes| == |trace| && UseAll([], dirs, trace, removes).2 == 0
    ensures UseAll([], dirs, trace, removes).0 == Take(Recent(trace), 5)
  {
    ListIsPrefix(dirs, trace, removes);
    ListIsBounded(dirs, trace, removes);
  }

  lemma UseExactly(l: seq<string>, dirs: set<string>, name: string, removes: bool)
    requires NoDuplicates(l)
    ensures var l1, u := [name] + Retain(l, name), Use(l, dirs, name, removes);
            var oldest := l1[|l1| - 1];
            && u.dirs == (if |l1| > 5 && removes then dirs - {oldest} else dirs)
            && u.list == (if |l1| > 5 && (removes || oldest !in dirs) then l1[..|l1| - 1] else l1)
            && (u.failed <==> |l1| > 5 && oldest in dirs && !removes)
  {
    RemoveFirstRetains(l, name);
    var l1 := [name] + Retain(l, name);
    assert l1[|l1| - 1] !in dirs ==> dirs - {l1[|l1| - 1]} == dirs;
  }

  predicate AllUsedAfter(trace: seq<string>, names: seq<string>, d: string) {
    forall i :: 0 <= i < |names| ==> LastUse(trace, names[i]) > LastUse(trace, d)
  }

  /** What a use removes is the last of the list, and more than five. */
  lemma RemovedIsLast(l: seq<string>, recent: seq<string>, dirs: set<string>, name: string, removes: bool, d: string)
      returns (k: nat)
    requires NoDuplicates(l) && l <= recent && d in dirs && d !in Use(l, dirs, name, removes).dirs
    ensures var r := [name] + Retain(recent, name); 5 <= k < |r| && r[k] == d
  {
    UseExactly(l, dirs, name, removes);
    RetainFromPrefix(l, recent, name);
    k := |Retain(l, name)|;
  }

  /** Over any trace of uses: a directory that is removed is not among the five names used
      most recently by then; all of those were used after it. */
  lemma RecentAreKept(dirs: set<string>, trace: seq<string>, removes: seq<bool>, d: string)
    requires |removes| == |trace| > 0
    requires d in UseAll([], dirs, trace[..|trace| - 1], removes[..|trace| - 1]).1
    requires d !in UseAll([], dirs, trace, removes).1
    ensures d in trace && |Recent(trace)| > 5 && d !in Recent(trace)[..5]
    ensures AllUsedAfter(trace, Recent(trace)[..5], d)
  {
    var n := |trace| - 1;
    ListIsPrefix(dirs, trace[..n], removes[..n]);
    ListIsBounded(dirs, trace[..n], removes[..n]);
    var (l, dirs1, _) := UseAll([], dirs, trace[..n], removes[..n]);
    var k := RemovedIsLast(l, Recent(trace[..n]), dirs1, trace[n], removes[n], d);
    RecentIsByLastUse(trace);
    BeyondFive(trace, Recent(trace), k);
  }

  lemma BeyondFive(trace: seq<string>, l: seq<string>, k: nat)
    requires 5 <= k < |l| && NoDuplicates(l) && ByLastUse(trace, l)
    ensures l[k] in l && l[k] !in l[..5] && AllUsedAfter(trace, l[..5], l[k])
  {
  }

  // ----- the list tracks the directories -----

  datatype Cache = Cache(dirs: set<string>, list: Container<seq<string>>)

  function Names(c: Cache): seq<string> {
    Current(c.list, [])
  }

  predicate IsStaging(dir: string) {
    |dir| >= |STAGING_SUFFIX| && dir[|dir| - |STAGING_SUFFIX|..] == STAGING_SUFFIX
  }

  /** How the file system behaves during one operation: whether an old staging directory
      can be cleaned, a new one made and filled; whether an evicted or deleted directory
      can be removed; how the list is saved; and which rename attempts succeed. */
  datatype Luck = Luck(cleans: bool, makes: bool, fills: bool, removes: bool, fate: Fate, renames: nat -> bool)

  datatype Op = Exists(name: string) | Delete(name: string) | Create(name: string)

  function Touched(c: Cache, name: string, luck: Luck): Cache {
    var u := Use(Names(c), c.dirs, name, luck.removes);
    Cache(u.dirs, Saved(c.list, u.list, luck.fate))
  }

  /** Some attempt from `i` on, up to the last, succeeds. */
  predicate RenamesFrom(renames: nat -> bool, i: nat)
    decreases RENAME_ATTEMPTS + 1 - i
  {
    i <= RENAME_ATTEMPTS && (renames(i) || RenamesFrom(renames, i + 1))
  }

  /** The cache after an operation and whether it returned a path or succeeded. */
  function Next(c: Cache, op: Op, luck: Luck): (Cache, bool) {
    match op
    case Exists(name) =>
      if name in c.dirs then (Touched(c, name, luck), true) else (c, false)
    case Delete(name) =>
      if name in c.dirs && !luck.removes then (c, false)
      else (Cache(c.dirs - {name}, Saved(c.list, Retain(Names(c), name), luck.fate)), luck.fate.Written?)
    case Create(name) =>
      if name in c.dirs then (c, true)
      else
        var staging := name + STAGING_SUFFIX;
        var c1 := c.(dirs := if luck.cleans then c.dirs - {staging} else c.dirs);
        if !luck.makes then (c1, false)
        else
          var c2 := c1.(dirs := c1.dirs + {staging});
          if !luck.fills then (c2, false)
          else
            var c3 := Touched(c2, name, luck);
            // The touch may have evicted the staging directory itself.
            if staging in c3.dirs && RenamesFrom(luck.renames, 0)
            then (c3.(dirs := c3.dirs - {staging} + {name}), true)
            else (c3, false)
  }

  /** Every finished directory is in the list. */
  predicate Tracked(c: Cache) {
    forall d :: d in c.dirs && !IsStaging(d) ==> d in Names(c)
  }

  lemma {:induction false} RemoveFirstKeeps(l: seq<string>, name: string)
    ensures forall x :: x in l && x != name ==> x in RemoveFirst(l, name)
  {
    if l != [] {
      RemoveFirstKeeps(l[1..], name);
    }
  }

  lemma TouchKeepsTracked(c: Cache, name: string, luck: Luck)
    requires Tracked(c)
    ensures Tracked(Touched(c, name, luck)) && name in Names(Touched(c, name, luck))
    ensures Touched(c, name, luck).dirs <= c.dirs
  {
    var l1 := [name] + RemoveFirst(Names(c), name);
    RemoveFirstKeeps(Names(c), name);
    var u := Use(Names(c), c.dirs, name, luck.removes);
    assert u.list[0] == name;
    forall d | d in u.dirs && !IsStaging(d) ensures d in u.list {
      assert d in l1;
      var i :| 0 <= i < |l1| && l1[i] == d;
      assert i < |u.list| && u.list[i] == d;
    }
  }

  lemma StepKeepsTracked(c: Cache, op: Op, luck: Luck)
    requires Tracked(c)
    ensures Tracked(Next(c, op, luck).0)
  {
    match op
    case Exists(name) => TouchKeepsTracked(c, name, luck);
    case Delete(name) => RetainKeepsOrder(Names(c), name);
    case Create(name) =>
      var staging := name + STAGING_SUFFIX;
      assert IsStaging(staging);
      var c2 := c.(dirs := (if luck.cleans then c.dirs - {staging} else c.dirs) + {staging});
      assert Tracked(c2);
      TouchKeepsTracked(c2, name, luck);
  }

  function Run(c: Cache, ops: seq<Op>, lucks: seq<Luck>): Cache
    requires |ops| == |lucks|
    decreases |ops|
  {
    if ops == [] then c else Run(Next(c, ops[0], lucks[0]).0, ops[1..], lucks[1..])
  }

  /** In any sequential run, whatever fails, every finished directory is in the list in memory. */
  lemma {:induction false} TrackedInEveryRun(c: Cache, ops: seq<Op>, lucks: seq<Luck>)
    requires |ops| == |lucks| && Tracked(c)
    ensures Tracked(Run(c, ops, lucks))
    decreases |ops|
  {
    if ops != [] {
      StepKeepsTracked(c, ops[0], lucks[0]);
      TrackedInEveryRun(Next(c, ops[0], lucks[0]).0, ops[1..], lucks[1..]);
    }
  }

  /** A fresh cache over the same directory would load the same list. */
  predicate InSync(c: Cache) {
    OnDisk(c.list.disk, []) == Names(c)
  }

  lemma {:induction false} SyncInEveryRun(c: Cache, ops: seq<Op>, lucks: seq<Luck>)
    requires |ops| == |lucks| && InSync(c)
    requires forall i :: 0 <= i < |lucks| ==> lucks[i].fate.Written?
    ensures InSync(Run(c, ops, lucks))
    decreases |ops|
  {
    if ops != [] {
      SyncInEveryRun(Next(c, ops[0], lucks[0]).0, ops[1..], lucks[1..]);
    }
  }

  lemma {:induction false} StepKeepsDistinct(c: Cache, op: Op, luck: Luck)
    requires NoDuplicates(Names(c))
    ensures NoDuplicates(Names(Next(c, op, luck).0))
  {
    UseKeepsDistinct(Names(c), c.dirs, op.name, luck.removes);
    RetainKeepsDistinct(Names(c), op.name);
    if op.Create? {
      var staging := op.name + STAGING_SUFFIX;
      var dirs := (if luck.cleans then c.dirs - {staging} else c.dirs) + {staging};
      UseKeepsDistinct(Names(c), dirs, op.name, luck.removes);
    }
  }

  lemma StepKeepsSmall(c: Cache, op: Op, luck: Luck)
    requires NoDuplicates(Names(c)) && |Names(c)| <= KEEP_LRU && luck.removes
    ensures |Names(Next(c, op, luck).0)| <= KEEP_LRU
  {
    UseKeepsDistinct(Names(c), c.dirs, op.name, luck.removes);
    RetainKeepsDistinct(Names(c), op.name);
    if op.Create? {
      var staging := op.name + STAGING_SUFFIX;
      var dirs := (if luck.cleans then c.dirs - {staging} else c.dirs) + {staging};
      UseKeepsDistinct(Names(c), dirs, op.name, luck.removes);
    }
  }

  lemma {:induction false} RunKeepsSmall(c: Cache, ops: seq<Op>, lucks: seq<Luck>)
    requires |ops| == |lucks| && NoDuplicates(Names(c)) && |Names(c)| <= KEEP_LRU
    requires forall i :: 0 <= i < |lucks| ==> lucks[i].removes
    ensures |Names(Run(c, ops, lucks))| <= KEEP_LRU
    decreases |ops|
  {
    if ops != [] {
      StepKeepsDistinct(c, ops[0], lucks[0]);
      StepKeepsSmall(c, ops[0], lucks[0]);
      RunKeepsSmall(Next(c, ops[0], lucks[0]).0, ops[1..], lucks[1..]);
    }
  }

  function Finished(dirs: set<string>): set<string> {
    set d | d in dirs && !IsStaging(d)
  }

  lemma {:induction false} AtMostAsMany(dirs: set<string>, l: seq<string>)
    requires forall d :: d in dirs ==> d in l
    ensures |dirs| <= |l|
  {
    if l == [] {
      assert dirs == {};
    } else {
      var rest := dirs - {l[0]};
      AtMostAsMany(rest, l[1..]);
      assert dirs <= rest + {l[0]};
      assert |dirs| <= |rest| + 1;
    }
  }

  /** The cache stays small: in any sequential run in which directories can be removed,
      whatever else fails, there are never more than five finished directories. */
  lemma CacheStaysSmall(c: Cache, ops: seq<Op>, lucks: seq<Luck>)
    requires |ops| == |lucks| && Tracked(c) && NoDuplicates(Names(c)) && |Names(c)| <= KEEP_LRU
    requires forall i :: 0 <= i < |lucks| ==> lucks[i].removes
    ensures |Finished(Run(c, ops, lucks).dirs)| <= 5
  {
    var after := Run(c, ops, lucks);
    TrackedInEveryRun(c, ops, lucks);
    RunKeepsSmall(c, ops, lucks);
    AtMostAsMany(Finished(after.dirs), Names(after));
  }

  lemma {:induction false} RenamesIff(renames: nat -> bool, i: nat)
    ensures RenamesFrom(renames, i) <==> exists j: nat :: i <= j <= 20 && renames(j)
    decreases RENAME_ATTEMPTS + 1 - i
  {
    if i <= RENAME_ATTEMPTS && !renames(i) {
      RenamesIff(renames, i + 1);
    }
  }

  /** The list with `name` used: it in front, and the others as they were. */
  function WithUsed(c: Cache, name: string): (l: seq<string>)
    ensures l != [] && l[0] == name
  {
    [name] + Retain(Names(c), name)
  }

  /** The directory a use of `name` removes: the oldest of more than five, if it can be removed. */
  function Evicted(c: Cache, name: string, luck: Luck): set<string> {
    var l := WithUsed(c, name);
    if |l| > 5 && luck.removes then {l[|l| - 1]} else {}
  }

  /** Asking for an entry: it is there exactly if its directory is, and then it is the most
      recently used, and nothing but the oldest of more than five entries goes. */
  lemma ExistsExactly(c: Cache, name: string, luck: Luck)
    requires NoDuplicates(Names(c))
    ensures var (c', found) := Next(c, Exists(name), luck);
            var l := WithUsed(c, name);
            && (found <==> name in c.dirs) && (!found ==> c' == c)
            && (found ==>
                  && name in c'.dirs && c'.dirs == c.dirs - Evicted(c, name, luck)
                  && Names(c') ==
                       if |l| > 5 && (luck.removes || l[|l| - 1] !in c.dirs) then l[..|l| - 1] else l)
  {
    TouchedExactly(c, name, luck);
  }

  lemma TouchedExactly(c: Cache, name: string, luck: Luck)
    requires NoDuplicates(Names(c))
    ensures var l, c' := WithUsed(c, name), Touched(c, name, luck);
            && c'.dirs == c.dirs - Evicted(c, name, luck) && (name in c'.dirs <==> name in c.dirs)
            && Names(c') == (if |l| > 5 && (luck.removes || l[|l| - 1] !in c.dirs) then l[..|l| - 1] else l)
            && Names(c')[..1] == [name] && Names(c') <= l
  {
    UseExactly(Names(c), c.dirs, name, luck.removes);
    UsedStays(Names(c), c.dirs, name, luck.removes);
  }

  /** Deleting an entry fails, and changes nothing, if its directory cannot be removed; else
      neither the directory nor the list has it, and all others are as they were. */
  lemma DeleteExactly(c: Cache, name: string, luck: Luck)
    ensures var (c', ok) := Next(c, Delete(name), luck);
            if name in c.dirs && !luck.removes then !ok && c' == c
            else
              && c'.dirs == c.dirs - {name} && Names(c') == Retain(Names(c), name)
              && name !in Names(c') && (ok <==> luck.fate.Written?)
  {
    RetainKeepsOrder(Names(c), name);
  }

  /** One of 21 attempts to rename succeeds. */
  predicate Renames(renames: nat -> bool) {
    exists i: nat :: i <= 20 && renames(i)
  }

  /** The directories with the staging directory of `name` made, over what was there. */
  function Staged(c: Cache, name: string, luck: Luck): set<string> {
    var staging := name + ".staging";
    (if luck.cleans then c.dirs - {staging} else c.dirs) + (if luck.makes then {staging} else {})
  }

  /** Creating an entry that is not there: its staging directory is made, if it can be, and
      nothing else happens if that or filling it fails. Otherwise the entry is used, with the
      same eviction as ever, and is there in the end exactly if the staging directory was not
      evicted itself and one of the attempts to rename it succeeds. */
  lemma CreateExactly(c: Cache, name: string, luck: Luck)
    requires NoDuplicates(Names(c)) && name !in c.dirs
    ensures var (c', ok) := Next(c, Create(name), luck);
            var staging, kept := name + ".staging", Staged(c, name, luck) - Evicted(c, name, luck);
            if !luck.makes || !luck.fills then !ok && c' == Cache(Staged(c, name, luck), c.list)
            else
              && (ok <==> staging in kept && Renames(luck.renames))
              && c'.dirs == (if ok then kept - {staging} + {name} else kept)
              && Names(c')[..1] == [name] && Names(c') <= WithUsed(c, name)
  {
    if luck.makes && luck.fills {
      var staged := Cache(Staged(c, name, luck), c.list);
      TouchedExactly(staged, name, luck);
      assert Evicted(staged, name, luck) == Evicted(c, name, luck) && WithUsed(staged, name) == WithUsed(c, name);
      RenamesIff(luck.renames, 0);
    }
  }

  /** An entry that is there is not created again, nor used. */
  lemma CreatedOnce(c: Cache, name: string, luck: Luck)
    ensures name in c.dirs ==> Next(c, Create(name), luck) == (c, true)
    ensures Next(c, Create(name), luck).1 ==> name in Next(c, Create(name), luck).0.dirs
  {
  }

  /** Looking up and creating entries remove no directory but the oldest of more than five
      entries, and a staging directory of their own. */
  lemma OnlyOldestGoes(c: Cache, op: Op, luck: Luck, d: string)
    requires NoDuplicates(Names(c)) && !op.Delete?
    requires d in c.dirs && d !in Next(c, op, luck).0.dirs && d != op.name + ".staging"
    ensures var l := WithUsed(c, op.name); |l| > 5 && luck.removes && d == l[|l| - 1] && d != op.name
  {
    if op.Exists? {
      ExistsExactly(c, op.name, luck);
    } else if op.name !in c.dirs {
      CreateExactly(c, op.name, luck);
    }
  }

  lemma UsedStays(l: seq<string>, dirs: set<string>, name: string, removes: bool)
    requires NoDuplicates(l)
    ensures var u := Use(l, dirs, name, removes);
            && u.list != [] && u.list[0] == name
            && (name in dirs <==> name in u.dirs)
  {
    RemoveFirstRetains(l, name);
    RetainKeepsOrder(l, name);
    var rest := Retain(l, name);
    assert forall j :: 0 <= j < |rest| ==> rest[j] in rest;
  }

  /** Looks for `name` and removes it where it is found first. */
  method Without(l: seq<string>, name: string) returns (r: seq<string>)
    ensures r == RemoveFirst(l, name)
  {
    var index := 0;
    while index < |l| && l[index] != name
      invariant index <= |l|
      invariant RemoveFirst(l, name) == l[..index] + RemoveFirst(l[index..], name)
    {
      assert l[index..][1..] == l[index + 1..];
      index := index + 1;
    }
    if index < |l| {
      r := l[..index] + l[index + 1..];
    } else {
      assert l[index..] == [];
      r := l;
    }
  }

  /** Tries to rename, and tries again after every failure but the last. */
  method RetryRename(renames: nat -> bool) returns (ok: bool)
    ensures ok <==> Renames(renames)
    ensures ok <==> RenamesFrom(renames, 0)
  {
    RenamesIff(renames, 0);
    for attempt := 0 to RENAME_ATTEMPTS + 1
      invariant RenamesFrom(renames, 0) <==> RenamesFrom(renames, attempt)
    {
      if renames(attempt) {
        return true;
      }
    }
    ok := false;
  }

  /** The cache object: its directories, and the list it persists. */
  class DownloadCache {
    var dirs: set<string>
    const state: PersistedState<seq<string>>

    ghost predicate Valid() {
      state.default == []
    }

    ghost function View(): Cache
      reads this, state
    {
      Cache(dirs, state.View())
    }

    constructor (dirs: set<string>, state: PersistedState<seq<string>>)
      requires state.default == []
      ensures Valid() && this.dirs == dirs && this.state == state
    {
      this.dirs, this.state := dirs, state;
    }

    method Touch(name: string, luck: Luck)
      requires Valid()
      modifies this, state
      ensures View() == Touched(old(View()), name, luck)
    {
      var l := state.Load();
      ghost var used := Use(l, dirs, name, luck.removes);
      l := Without(l, name);
      l := [name] + l;
      if |l| > KEEP_LRU {
        var f := l[|l| - 1];
        var gone := f !in dirs;
        if !gone && luck.removes {
          dirs := dirs - {f};
          gone := true;
        }
        if gone {
          l := l[..|l| - 1];
        }
      }
      assert l == used.list && dirs == used.dirs;
      var _ := state.Save(l, luck.fate);
    }

    method Exists(name: string, luck: Luck) returns (found: bool)
      requires Valid()
      modifies this, state
      ensures (View(), found) == Next(old(View()), Op.Exists(name), luck)
    {
      if name !in dirs {
        return false;
      }
      Touch(name, luck);
      found := true;
    }

    method Delete(name: string, luck: Luck) returns (ok: bool)
      requires Valid()
      modifies this, state
      ensures (View(), ok) == Next(old(View()), Op.Delete(name), luck)
    {
      if name in dirs {
        if !luck.removes {
          return false;
        }
        dirs := dirs - {name};
      }
      assert dirs == old(dirs) - {name};
      var l := state.Load();
      ok := state.Save(Retain(l, name), luck.fate);
    }

    method Create(name: string, luck: Luck) returns (ok: bool)
      requires Valid()
      modifies this, state
      ensures (View(), ok) == Next(old(View()), Op.Create(name), luck)
    {
      if name in dirs {
        return true;
      }
      var staging := name + STAGING_SUFFIX;
      if luck.cleans {
        dirs := dirs - {staging};
      }
      if !luck.makes {
        return false;
      }
      dirs := dirs + {staging};
      if !luck.fills {
        return false;
      }
      Touch(name, luck);
      // without its source every attempt fails
      var renamed := RetryRename(luck.renames);
      if staging !in dirs || !renamed {
        return false;
      }
      dirs := dirs - {staging} + {name};
      ok := true;
    }
  }
}
