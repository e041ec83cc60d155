/**
 The parallel suite runner: workers that share one counter of suites still to start and
 one array of results, and the arguments that say how many workers there are.

 JavaScript runs a worker without interruption from the loop test to the next `await`.
 So there are two steps: a worker starts, or a suite ends and its worker stores the
 result; in both the worker then claims the next suite or returns.
 */
module WorkerPool {
  import opened Seqs

  datatype Suite = Suite(id: string, title: string, file: string)
  datatype RunResult = RunResult(suite: Suite, succeeded: bool)
  datatype Worker = Running(index: nat) | Returned
  datatype Pool = Pool(next: nat, workers: seq<Worker>, results: map<nat, RunResult>)
  datatype Event = Start | Complete(worker: nat, succeeded: bool)

  const IDLE := Pool(0, [], map[])

  predicate Allowed(p: Pool, jobs: nat, e: Event) {
    match e
    case Start => |p.workers| < jobs
    case Complete(w, _) => w < |p.workers| && p.workers[w].Running?
  }

  function Claim(suites: seq<Suite>, next: nat): (r: (Worker, nat)) {
    if next < |suites| then (Running(next), next + 1) else (Returned, next)
  }

  function Next(suites: seq<Suite>, p: Pool, e: Event): Pool
    requires e.Complete? ==>
               && e.worker < |p.workers| && p.workers[e.worker].Running?
               && p.workers[e.worker].index < |suites|
  {
    var (claimed, next) := Claim(suites, p.next);
    match e
    case Start => Pool(next, p.workers + [claimed], p.results)
    case Complete(w, succeeded) =>
      var i := p.workers[w].index;
      Pool(next, p.workers[w := claimed], p.results[i := RunResult(suites[i], succeeded)])
  }

  // ----- what every step keeps -----

  predicate RunsAt(p: Pool, w: nat, i: nat) {
    w < |p.workers| && p.workers[w] == Running(i)
  }

  /** A started suite either runs, or has its own result. */
  ghost predicate Accounted(suites: seq<Suite>, p: Pool, i: nat) {
    && (i in p.results <==> i < p.next && forall w: nat :: !RunsAt(p, w, i))
    && (i in p.results ==> i < |suites| && p.results[i].suite == suites[i])
  }

  ghost predicate Inv(suites: seq<Suite>, jobs: nat, p: Pool) {
    && p.next <= |suites| && |p.workers| <= jobs
    && (forall w: nat, i: nat {:trigger RunsAt(p, w, i)} :: RunsAt(p, w, i) ==> i < p.next)
    && (forall w: nat, v: nat, i: nat {:trigger RunsAt(p, w, i), RunsAt(p, v, i)} ::
          RunsAt(p, w, i) && RunsAt(p, v, i) ==> w == v)
    && (forall i: nat {:trigger Accounted(suites, p, i)} :: Accounted(suites, p, i))
    && (Returned in p.workers ==> p.next == |suites|)
  }

  lemma IdleIsInv(suites: seq<Suite>, jobs: nat)
    ensures Inv(suites, jobs, IDLE)
  {
    forall i: nat ensures Accounted(suites, IDLE, i) {
    }
  }

  predicate Possible(suites: seq<Suite>, p: Pool, jobs: nat, e: Event) {
    && Allowed(p, jobs, e)
    && (e.Complete? ==> p.workers[e.worker].index < |suites|)
  }

  lemma RunningIsPossible(suites: seq<Suite>, jobs: nat, p: Pool, e: Event)
    requires Inv(suites, jobs, p) && Allowed(p, jobs, e)
    ensures Possible(suites, p, jobs, e)
  {
    if e.Complete? {
      assert RunsAt(p, e.worker, p.workers[e.worker].index);
    }
  }

  lemma StartAccounts(suites: seq<Suite>, jobs: nat, p: Pool, i: nat)
    requires Inv(suites, jobs, p) && Allowed(p, jobs, Start)
    ensures Accounted(suites, Next(suites, p, Start), i)
  {
    var q := Next(suites, p, Start);
    assert Accounted(suites, p, i);
    assert forall w: nat :: w < |p.workers| ==> RunsAt(q, w, i) == RunsAt(p, w, i);
    assert RunsAt(q, |p.workers|, i) == (i == p.next < |suites|);
    if i < p.next && forall w: nat :: !RunsAt(p, w, i) {
      assert forall w: nat :: !RunsAt(q, w, i);
    }
  }

  lemma StartKeepsInv(suites: seq<Suite>, jobs: nat, p: Pool)
    requires Inv(suites, jobs, p) && Allowed(p, jobs, Start)
    ensures Inv(suites, jobs, Next(suites, p, Start))
  {
    var q := Next(suites, p, Start);
    forall w: nat, i: nat
      ensures RunsAt(q, w, i) ==> i < q.next && (RunsAt(p, w, i) || (w == |p.workers| && i == p.next))
    {
      assert RunsAt(p, w, i) ==> i < p.next;
    }
    forall i: nat ensures Accounted(suites, q, i) {
      StartAccounts(suites, jobs, p, i);
    }
  }

  lemma CompleteAccounts(suites: seq<Suite>, jobs: nat, p: Pool, e: Event, i: nat)
    requires Inv(suites, jobs, p) && e.Complete? && Possible(suites, p, jobs, e)
    ensures Accounted(suites, Next(suites, p, e), i)
  {
    var q, k := Next(suites, p, e), p.workers[e.worker].index;
    assert Accounted(suites, p, i) && RunsAt(p, e.worker, k);
    assert forall w: nat :: w != e.worker ==> RunsAt(q, w, i) == RunsAt(p, w, i);
    assert RunsAt(q, e.worker, i) == (i == p.next < |suites|);
    if i == k {
      assert forall w: nat :: !RunsAt(q, w, i);
    } else if forall w: nat :: !RunsAt(p, w, i) {
      assert i < p.next ==> forall w: nat :: !RunsAt(q, w, i);
    } else {
      var w: nat :| RunsAt(p, w, i);
      assert RunsAt(q, w, i);
    }
  }

  lemma CompleteKeepsInv(suites: seq<Suite>, jobs: nat, p: Pool, e: Event)
    requires Inv(suites, jobs, p) && e.Complete? && Possible(suites, p, jobs, e)
    ensures Inv(suites, jobs, Next(suites, p, e))
  {
    var q := Next(suites, p, e);
    forall w: nat, i: nat
      ensures RunsAt(q, w, i) ==> i < q.next && (RunsAt(p, w, i) || (w == e.worker && i == p.next))
    {
      assert RunsAt(p, w, i) ==> i < p.next;
    }
    forall i: nat ensures Accounted(suites, q, i) {
      CompleteAccounts(suites, jobs, p, e, i);
    }
  }

  /** In every state of every run: a started suite runs at exactly one worker or has its
      own result, never both; an unstarted one has neither; and at most `jobs` run. */
  lemma StepKeepsInv(suites: seq<Suite>, jobs: nat, p: Pool, e: Event)
    requires Inv(suites, jobs, p) && Allowed(p, jobs, e)
    ensures Possible(suites, p, jobs, e) && Inv(suites, jobs, Next(suites, p, e))
  {
    RunningIsPossible(suites, jobs, p, e);
    match e
    case Start => StartKeepsInv(suites, jobs, p);
    case Complete(_, _) => CompleteKeepsInv(suites, jobs, p, e);
  }

  // ----- runs -----

  predicate IsRun(suites: seq<Suite>, jobs: nat, p: Pool, es: seq<Event>)
    decreases |es|
  {
    es == [] || (Possible(suites, p, jobs, es[0]) && IsRun(suites, jobs, Next(suites, p, es[0]), es[1..]))
  }

  function Run(suites: seq<Suite>, jobs: nat, p: Pool, es: seq<Event>): Pool
    requires IsRun(suites, jobs, p, es)
    decreases |es|
  {
    if es == [] then p else Run(suites, jobs, Next(suites, p, es[0]), es[1..])
  }

  lemma {:induction false} RunKeepsInv(suites: seq<Suite>, jobs: nat, p: Pool, es: seq<Event>)
    requires Inv(suites, jobs, p) && IsRun(suites, jobs, p, es)
    ensures Inv(suites, jobs, Run(suites, jobs, p, es))
    decreases |es|
  {
    if es != [] {
      StepKeepsInv(suites, jobs, p, es[0]);
      RunKeepsInv(suites, jobs, Next(suites, p, es[0]), es[1..]);
    }
  }

  lemma StepCounts(suites: seq<Suite>, jobs: nat, p: Pool, e: Event)
    requires Inv(suites, jobs, p) && Possible(suites, p, jobs, e)
    ensures var q := Next(suites, p, e); |q.workers| + |q.results| == |p.workers| + |p.results| + 1
  {
    if e.Complete? {
      var i := p.workers[e.worker].index;
      assert RunsAt(p, e.worker, i) && Accounted(suites, p, i);
      assert Next(suites, p, e).results.Keys == p.results.Keys + {i};
    }
  }

  lemma {:induction false} RunCounts(suites: seq<Suite>, jobs: nat, p: Pool, es: seq<Event>)
    requires Inv(suites, jobs, p) && IsRun(suites, jobs, p, es)
    ensures var q := Run(suites, jobs, p, es); |q.workers| + |q.results| == |p.workers| + |p.results| + |es|
    decreases |es|
  {
    if es != [] {
      StepKeepsInv(suites, jobs, p, es[0]);
      StepCounts(suites, jobs, p, es[0]);
      RunCounts(suites, jobs, Next(suites, p, es[0]), es[1..]);
    }
  }

  function Below(n: nat): (r: set<nat>)
    ensures |r| == n && forall i: nat :: i in r <==> i < n
  {
    if n == 0 then {} else Below(n - 1) + {n - 1}
  }

  lemma SubsetIsSmaller(a: set<nat>, b: set<nat>)
    requires a <= b
    ensures |a| <= |b|
  {
    assert b == a + (b - a);
  }

  lemma ResultsAreOfSuites(suites: seq<Suite>, jobs: nat, p: Pool)
    requires Inv(suites, jobs, p)
    ensures |p.results| <= |suites|
  {
    forall i | i in p.results.Keys ensures i in Below(|suites|) {
      assert Accounted(suites, p, i);
    }
    SubsetIsSmaller(p.results.Keys, Below(|suites|));
  }

  predicate AllReturned(p: Pool, jobs: nat) {
    |p.workers| == jobs && forall w :: 0 <= w < jobs ==> p.workers[w].Returned?
  }

  lemma StuckIffAllReturned(p: Pool, jobs: nat)
    requires |p.workers| <= jobs
    ensures AllReturned(p, jobs) <==> forall e :: !Allowed(p, jobs, e)
  {
    if forall e :: !Allowed(p, jobs, e) {
      assert !Allowed(p, jobs, Start);
      forall w | 0 <= w < jobs ensures p.workers[w].Returned? {
        assert !Allowed(p, jobs, Complete(w, true));
      }
    }
  }

  /** Every run is at most one step a worker and one a suite, and can always go on
      until every worker has returned. */
  lemma RunsAreBounded(suites: seq<Suite>, jobs: nat, es: seq<Event>)
    requires IsRun(suites, jobs, IDLE, es)
    ensures |es| <= jobs + |suites|
    ensures var p := Run(suites, jobs, IDLE, es); AllReturned(p, jobs) <==> forall e :: !Allowed(p, jobs, e)
  {
    IdleIsInv(suites, jobs);
    RunKeepsInv(suites, jobs, IDLE, es);
    RunCounts(suites, jobs, IDLE, es);
    ResultsAreOfSuites(suites, jobs, Run(suites, jobs, IDLE, es));
    StuckIffAllReturned(Run(suites, jobs, IDLE, es), jobs);
  }

  /** When every worker has returned, every suite has run once: its result is its own,
      and the number of steps is that of workers and suites together. */
  lemma EverySuiteHasItsResult(suites: seq<Suite>, jobs: nat, es: seq<Event>)
    requires IsRun(suites, jobs, IDLE, es) && (jobs > 0 || suites == [])
    requires AllReturned(Run(suites, jobs, IDLE, es), jobs)
    ensures var p := Run(suites, jobs, IDLE, es);
            && (forall i: nat :: i in p.results <==> i < |suites|)
            && (forall i :: 0 <= i < |suites| ==> p.results[i].suite == suites[i])
            && |es| == jobs + |suites|
  {
    IdleIsInv(suites, jobs);
    RunKeepsInv(suites, jobs, IDLE, es);
    RunCounts(suites, jobs, IDLE, es);
    var p := Run(suites, jobs, IDLE, es);
    assert jobs > 0 ==> p.workers[0] == Returned;
    forall i: nat ensures (i in p.results <==> i < |suites|) && (i in p.results ==> p.results[i].suite == suites[i]) {
      assert Accounted(suites, p, i);
    }
    assert p.results.Keys == Below(|suites|);
  }

  predicate Failure(e: Event) {
    e.Complete? && !e.succeeded
  }

  ghost predicate HasFailure(p: Pool) {
    exists i :: i in p.results && !p.results[i].succeeded
  }

  lemma StepTellsFailures(suites: seq<Suite>, jobs: nat, p: Pool, e: Event)
    requires Inv(suites, jobs, p) && Possible(suites, p, jobs, e)
    ensures HasFailure(Next(suites, p, e)) <==> HasFailure(p) || Failure(e)
  {
    var q := Next(suites, p, e);
    if e.Complete? {
      var k := p.workers[e.worker].index;
      assert RunsAt(p, e.worker, k) && Accounted(suites, p, k);
      assert k in q.results && q.results[k].succeeded == e.succeeded;
      if HasFailure(p) {
        var i :| i in p.results && !p.results[i].succeeded;
        assert i in q.results && !q.results[i].succeeded;
      }
    }
  }

  /** No failure is lost or invented: some result is a failure exactly if some suite
      failed, whoever ran it and whenever it ended. */
  lemma {:induction false} FailuresAreReported(suites: seq<Suite>, jobs: nat, p: Pool, es: seq<Event>)
    requires Inv(suites, jobs, p) && IsRun(suites, jobs, p, es)
    ensures HasFailure(Run(suites, jobs, p, es)) <==> HasFailure(p) || exists k :: 0 <= k < |es| && Failure(es[k])
    decreases |es|
  {
    if es != [] {
      StepKeepsInv(suites, jobs, p, es[0]);
      StepTellsFailures(suites, jobs, p, es[0]);
      FailuresAreReported(suites, jobs, Next(suites, p, es[0]), es[1..]);
      assert forall k :: 1 <= k < |es| ==> es[k] == es[1..][k - 1];
    }
  }

  /** How the run of suite `i` ends among `es`, if it does. */
  ghost function OutcomeOf(suites: seq<Suite>, jobs: nat, p: Pool, es: seq<Event>, i: nat): Option<bool>
    requires IsRun(suites, jobs, p, es)
    decreases |es|
  {
    if es == [] then None
    else if es[0].Complete? && p.workers[es[0].worker].index == i then Some(es[0].succeeded)
    else OutcomeOf(suites, jobs, Next(suites, p, es[0]), es[1..], i)
  }

  /** The result of a suite is how its own run ended. */
  lemma {:induction false} ResultIsOwnOutcome(suites: seq<Suite>, jobs: nat, p: Pool, es: seq<Event>, i: nat)
    requires Inv(suites, jobs, p) && IsRun(suites, jobs, p, es) && i !in p.results && i < |suites|
    ensures var after, outcome := Run(suites, jobs, p, es).results, OutcomeOf(suites, jobs, p, es, i);
            if outcome.Some? then i in after && after[i] == RunResult(suites[i], outcome.value) else i !in after
    decreases |es|
  {
    if es != [] {
      var q := Next(suites, p, es[0]);
      StepKeepsInv(suites, jobs, p, es[0]);
      if es[0].Complete? && p.workers[es[0].worker].index == i {
        ResultStays(suites, jobs, q, es[1..], i);
      } else {
        ResultIsOwnOutcome(suites, jobs, q, es[1..], i);
      }
    }
  }

  lemma {:induction false} ResultStays(suites: seq<Suite>, jobs: nat, p: Pool, es: seq<Event>, i: nat)
    requires Inv(suites, jobs, p) && IsRun(suites, jobs, p, es) && i in p.results
    ensures i in Run(suites, jobs, p, es).results && Run(suites, jobs, p, es).results[i] == p.results[i]
    decreases |es|
  {
    if es != [] {
      var e := es[0];
      StepKeepsInv(suites, jobs, p, e);
      if e.Complete? {
        assert RunsAt(p, e.worker, p.workers[e.worker].index) && Accounted(suites, p, p.workers[e.worker].index);
      }
      ResultStays(suites, jobs, Next(suites, p, e), es[1..], i);
    }
  }

  /** The shared counter and array. */
  class Runner {
    const suites: seq<Suite>
    var nextSuite: nat
    var results: map<nat, RunResult>
    var workers: seq<Worker>

    ghost function View(): Pool
      reads this
    {
      Pool(nextSuite, workers, results)
    }

    constructor (suites: seq<Suite>)
      ensures View() == IDLE && this.suites == suites
    {
      this.suites := suites;
      nextSuite, results, workers := 0, map[], [];
    }

    method Begin()
      modifies this
      ensures View() == Next(suites, old(View()), Start)
    {
      if nextSuite < |suites| {
        workers := workers + [Running(nextSuite)];
        nextSuite := nextSuite + 1;
      } else {
        workers := workers + [Returned];
      }
    }

    method End(w: nat, succeeded: bool)
      requires w < |workers| && workers[w].Running? && workers[w].index < |suites|
      modifies this
      ensures View() == Next(suites, old(View()), Complete(w, succeeded))
    {
      var suiteIndex := workers[w].index;
      results := results[suiteIndex := RunResult(suites[suiteIndex], succeeded)];
      if nextSuite < |suites| {
        workers := workers[w := Running(nextSuite)];
        nextSuite := nextSuite + 1;
      } else {
        workers := workers[w := Returned];
      }
    }
  }

  // ----- the arguments -----

  datatype Scan = Scan(requested: Option<string>, forwarded: seq<string>) | NoValue

  /** What the arguments ask for and pass on; the last worker count given counts. */
  function Scanned(args: seq<string>, requested: Option<string>): (r: Scan)
    ensures r.Scan? ==> forall a :: a in r.forwarded ==> a in args && a != "--jobs" && !("--jobs=" <= a)
    decreases |args|
  {
    if args == [] then Scan(requested, [])
    else if args[0] == "--jobs" then
      if |args| == 1 || args[1] == "" then NoValue else Scanned(args[2..], Some(args[1]))
    else if "--jobs=" <= args[0] then Scanned(args[1..], Some(args[0][|"--jobs="|..]))
    else
      match Scanned(args[1..], requested)
      case NoValue => NoValue
      case Scan(asked, forwarded) => Scan(asked, [args[0]] + forwarded)
  }

  function Joined(before: seq<string>, rest: Scan): Scan {
    match rest
    case NoValue => NoValue
    case Scan(asked, forwarded) => Scan(asked, before + forwarded)
  }

  lemma {:induction false} ScannedAppend(a: seq<string>, b: seq<string>, requested: Option<string>)
    requires Scanned(a, requested).Scan?
    ensures Scanned(a + b, requested) ==
              Joined(Scanned(a, requested).forwarded, Scanned(b, Scanned(a, requested).requested))
    decreases |a|
  {
    if a == [] {
      assert a + b == b;
      assert forall s: seq<string> :: [] + s == s;
    } else if a[0] == "--jobs" {
      assert (a + b)[0] == a[0] && (a + b)[1] == a[1] && (a + b)[2..] == a[2..] + b;
      ScannedAppend(a[2..], b, Some(a[1]));
    } else {
      var now := if "--jobs=" <= a[0] then Some(a[0][|"--jobs="|..]) else requested;
      TailOfAppend(a, b);
      ScannedAppend(a[1..], b, now);
      var rest := Scanned(b, Scanned(a, requested).requested);
      if rest.Scan? && !("--jobs=" <= a[0]) {
        Assoc([a[0]], Scanned(a[1..], requested).forwarded, rest.forwarded);
      }
    }
  }

  /** `--jobs n` and `--jobs=n` mean the same, wherever they stand. */
  lemma SpellingsAgree(a: seq<string>, n: string, b: seq<string>, requested: Option<string>)
    requires Scanned(a, requested).Scan? && n != ""
    ensures Scanned(a + (["--jobs", n] + b), requested) == Scanned(a + (["--jobs=" + n] + b), requested)
  {
    ScannedAppend(a, ["--jobs", n] + b, requested);
    ScannedAppend(a, ["--jobs=" + n] + b, requested);
    assert (["--jobs", n] + b)[2..] == b && (["--jobs=" + n] + b)[1..] == b;
    assert ("--jobs=" + n)[|"--jobs="|..] == n;
  }

  lemma ScanStep(args: seq<string>, index: nat, requested: Option<string>)
    requires index < |args|
    ensures args[index] == "--jobs" && index + 1 < |args| && args[index + 1] != "" ==>
              Scanned(args[index..], requested) == Scanned(args[index + 2..], Some(args[index + 1]))
    ensures args[index] == "--jobs" && (index + 1 == |args| || args[index + 1] == "") ==>
              Scanned(args[index..], requested).NoValue?
    ensures args[index] != "--jobs" && "--jobs=" <= args[index] ==>
              Scanned(args[index..], requested) == Scanned(args[index + 1..], Some(args[index][|"--jobs="|..]))
    ensures args[index] != "--jobs" && !("--jobs=" <= args[index]) ==>
              Scanned(args[index..], requested) == Joined([args[index]], Scanned(args[index + 1..], requested))
  {
    assert args[index..][1..] == args[index + 1..];
    assert index + 1 < |args| ==> args[index..][2..] == args[index + 2..];
  }

  lemma JoinedTwice(before: seq<string>, one: seq<string>, rest: Scan)
    ensures Joined(before, Joined(one, rest)) == Joined(before + one, rest)
  {
    assert rest.Scan? ==> before + (one + rest.forwarded) == before + one + rest.forwarded;
  }

  // by position

  /** Argument `i` is the value of a `--jobs` before it. */
  predicate IsValue(args: seq<string>, i: nat)
    requires i <= |args|
  {
    i > 0 && args[i - 1] == "--jobs" && !IsValue(args, i - 1)
  }

  predicate LacksValue(args: seq<string>, i: nat) {
    i < |args| && args[i] == "--jobs" && !IsValue(args, i) && (i + 1 == |args| || args[i + 1] == "")
  }

  /** The arguments from `i` on that are neither a count nor ask for one. */
  function KeptFrom(args: seq<string>, i: nat): seq<string>
    requires i <= |args|
    decreases |args| - i
  {
    if i == |args| then []
    else
      (if IsValue(args, i) || args[i] == "--jobs" || "--jobs=" <= args[i] then [] else [args[i]])
      + KeptFrom(args, i + 1)
  }

  /** The last count given among the first `n` arguments. */
  function LastCount(args: seq<string>, n: nat, env: Option<string>): Option<string>
    requires n <= |args|
  {
    if n == 0 then env
    else if IsValue(args, n - 1) then Some(args[n - 1])
    else if "--jobs=" <= args[n - 1] then Some(args[n - 1][7..])
    else LastCount(args, n - 1, env)
  }

  lemma {:induction false} ScannedFrom(args: seq<string>, i: nat, env: Option<string>)
    requires i <= |args| && !IsValue(args, i)
    ensures var r := Scanned(args[i..], LastCount(args, i, env));
            && (r.NoValue? <==> exists j :: i <= j && LacksValue(args, j))
            && (r.Scan? ==> r == Scan(LastCount(args, |args|, env), KeptFrom(args, i)))
    decreases |args| - i
  {
    if i < |args| {
      ScanStep(args, i, LastCount(args, i, env));
      if args[i] != "--jobs" {
        ScannedFrom(args, i + 1, env);
        assert !LacksValue(args, i);
      } else if LacksValue(args, i) {
      } else {
        assert IsValue(args, i + 1) && !IsValue(args, i + 2);
        ScannedFrom(args, i + 2, env);
        assert !LacksValue(args, i + 1);
        assert KeptFrom(args, i) == KeptFrom(args, i + 1) == KeptFrom(args, i + 2);
      }
    }
  }

  /** The arguments by position: the scan fails exactly if some `--jobs` has no value; else
      the last count counts, and everything else is kept, in order. */
  lemma ScannedByPosition(args: seq<string>, env: Option<string>)
    ensures var r := Scanned(args, env);
            && (r.NoValue? <==> exists j :: 0 <= j && LacksValue(args, j))
            && (r.Scan? ==> r == Scan(LastCount(args, |args|, env), KeptFrom(args, 0)))
  {
    ScannedFrom(args, 0, env);
    assert args[0..] == args;
  }

  method ScanArguments(args: seq<string>, env: Option<string>) returns (r: Scan)
    ensures r == Scanned(args, env)
  {
    var forwardedArgs: seq<string> := [];
    var requested := env;
    var index := 0;
    while index < |args|
      invariant 0 <= index <= |args|
      invariant Scanned(args, env) == Joined(forwardedArgs, Scanned(args[index..], requested))
    {
      var argument := args[index];
      ScanStep(args, index, requested);
      if argument == "--jobs" {
        index := index + 1;
        if index >= |args| || args[index] == "" {
          return NoValue;
        }
        requested := Some(args[index]);
      } else if "--jobs=" <= argument {
        requested := Some(argument[|"--jobs="|..]);
      } else {
        JoinedTwice(forwardedArgs, [argument], Scanned(args[index + 1..], requested));
        forwardedArgs := forwardedArgs + [argument];
      }
      index := index + 1;
    }
    assert forwardedArgs + [] == forwardedArgs;
    r := Scan(requested, forwardedArgs);
  }

  const OWNED := ["--run", "--runGlob", "--glob", "--runGrep", "--testSplit"]

  predicate Managed(arg: string) {
    exists i :: 0 <= i < |OWNED| && (arg == OWNED[i] || OWNED[i] + "=" <= arg)
  }

  lemma ManagedByName(arg: string)
    ensures Managed(arg) <==>
              || arg in {"--run", "--runGlob", "--glob", "--runGrep", "--testSplit"}
              || "--run=" <= arg || "--runGlob=" <= arg || "--glob=" <= arg || "--runGrep=" <= arg
              || "--testSplit=" <= arg
  {
    assert OWNED[0] == "--run" && OWNED[0] + "=" == "--run=";
    assert OWNED[1] == "--runGlob" && OWNED[1] + "=" == "--runGlob=";
    assert OWNED[2] == "--glob" && OWNED[2] + "=" == "--glob=";
    assert OWNED[3] == "--runGrep" && OWNED[3] + "=" == "--runGrep=";
    assert OWNED[4] == "--testSplit" && OWNED[4] + "=" == "--testSplit=";
  }

  datatype Parsed =
    | Parsed(jobs: nat, forwarded: seq<string>)
    | MissingValue
    | ManagedArgument(arg: string)
    | InvalidCount

  function Min(a: int, b: int): int {
    if a < b then a else b
  }

  /** The worker count asked for, or as many as can run at once. */
  function JobsAsked(requested: Option<string>, suites: nat, parallelism: nat, number: string -> Option<int>)
    : Option<int>
  {
    if requested.None? then Some(Min(suites, parallelism)) else number(requested.value)
  }

  predicate ManagedAt(forwarded: seq<string>, i: nat) {
    i < |forwarded| && Managed(forwarded[i])
  }

  predicate FirstManagedIs(forwarded: seq<string>, i: nat, arg: string) {
    ManagedAt(forwarded, i) && arg == forwarded[i] && forall k: nat :: k < i ==> !ManagedAt(forwarded, k)
  }

  /** The workers to start, never more than there are suites; and the arguments passed
      on, none of which the runner manages itself. `number` reads an integer. */
  method ParseArguments(args: seq<string>, env: Option<string>, suites: nat, parallelism: nat,
                        number: string -> Option<int>)
    returns (r: Parsed)
    ensures r.MissingValue? <==> Scanned(args, env).NoValue?
    ensures r.ManagedArgument? <==>
              Scanned(args, env).Scan? && exists i: nat :: ManagedAt(Scanned(args, env).forwarded, i)
    ensures r.ManagedArgument? ==> exists i: nat :: FirstManagedIs(Scanned(args, env).forwarded, i, r.arg)
    ensures r.InvalidCount? || r.Parsed? ==>
              var jobs := JobsAsked(Scanned(args, env).requested, suites, parallelism, number);
              if jobs.Some? && jobs.value >= 1
              then r == Parsed(Min(jobs.value, suites), Scanned(args, env).forwarded)
              else r == InvalidCount
    ensures r.Parsed? ==> r.jobs <= suites && (suites > 0 ==> r.jobs > 0)
  {
    var scan := ScanArguments(args, env);
    if scan.NoValue? {
      return MissingValue;
    }
    var forwardedArgs, requested := scan.forwarded, scan.requested;
    for i := 0 to |forwardedArgs|
      invariant forall k: nat :: k < i ==> !ManagedAt(forwardedArgs, k)
    {
      if Managed(forwardedArgs[i]) {
        assert FirstManagedIs(forwardedArgs, i, forwardedArgs[i]);
        return ManagedArgument(forwardedArgs[i]);
      }
    }
    var defaultJobs := Min(suites, parallelism);
    var jobs := if requested.None? then Some(defaultJobs) else number(requested.value);
    if jobs.None? || jobs.value < 1 {
      return InvalidCount;
    }
    r := Parsed(Min(jobs.value, suites), forwardedArgs);
  }
}
