/**
 Progress of a connection. The loop that fills the queue is the one that drains it, and
 only between reads; so it can block for good, and what follows says exactly when.
 */
module Progress {
  import opened Seqs
  import opened Dispatch
  import opened Connection

  // ----- when the loop can get through a read -----

  function SendsAhead(frames: seq<Dispatched>): nat {
    if frames == [] then 0 else (if SendsAtOnce(frames[0]) then 1 else 0) + SendsAhead(frames[1..])
  }

  predicate AnyPanics(frames: seq<Dispatched>) {
    exists i :: 0 <= i < |frames| && frames[i].Panicked?
  }

  lemma PanicsLater(frames: seq<Dispatched>)
    requires frames != []
    ensures AnyPanics(frames) <==> frames[0].Panicked? || AnyPanics(frames[1..])
  {
    assert forall i :: 1 <= i < |frames| ==> frames[i] == frames[1..][i - 1];
  }

  /** No frame of the read panics, and the sends on the way fit the free slots. */
  predicate Passable(s: State) {
    !AnyPanics(s.frames) && |s.channel| + SendsAhead(s.frames) <= SLOTS
  }

  lemma StepStaysImpassable(s: State, e: Event)
    requires |s.channel| <= SLOTS && !Passable(s) && Enabled(s, e)
    ensures var s' := Next(s, e); |s'.channel| <= SLOTS && !Passable(s') && s'.wire == s.wire
  {
    assert s.frames != [];
    PanicsLater(s.frames);
  }

  /** Once a frame of a read panics, or the frames need more slots than are left, no
      interleaving gets the loop through them, and nothing reaches the wire any more. */
  lemma {:induction false} ImpassableReadNeverEnds(s: State, es: seq<Event>)
    requires |s.channel| <= SLOTS && !Passable(s) && Allowed(s, es)
    ensures Run(s, es).frames != [] && Run(s, es).wire == s.wire
    decreases |es|
  {
    if es != [] {
      StepStaysImpassable(s, es[0]);
      ImpassableReadNeverEnds(Next(s, es[0]), es[1..]);
    }
  }

  lemma {:induction false} PassableReadCanEnd(s: State) returns (es: seq<Event>)
    requires Passable(s)
    ensures Allowed(s, es) && Run(s, es).frames == []
    decreases |s.frames|
  {
    if s.frames == [] {
      es := [];
    } else {
      assert !s.frames[0].Panicked?;
      PanicsLater(s.frames);
      var rest := PassableReadCanEnd(DoTake(s));
      es := [Take] + rest;
      assert es[1..] == rest;
    }
  }

  /** The loop can get through the frames of a read exactly when none of them panics and
      the replies and announcements it must send on the way fit the free slots. */
  lemma ReadCanEndIff(s: State)
    requires |s.channel| <= SLOTS
    ensures (exists es :: Allowed(s, es) && Run(s, es).frames == []) <==> Passable(s)
  {
    if Passable(s) {
      var es := PassableReadCanEnd(s);
    } else {
      forall es | Allowed(s, es) ensures Run(s, es).frames != [] {
        ImpassableReadNeverEnds(s, es);
      }
    }
  }

  /** A request with an id that is answered at once: its method is synchronous, or unknown. */
  predicate SyncRequest(methods: map<string, Kind>, m: Incoming) {
    m.id.Some? && m.target.Some? && (m.target.value !in methods || methods[m.target.value].SyncMethod?)
  }

  lemma {:induction false} SyncRequestsSend(methods: map<string, Kind>, msgs: seq<Message>)
    requires forall i :: 0 <= i < |msgs| ==> SyncRequest(methods, msgs[i].m)
    ensures SendsAhead(FramesOf(methods, msgs)) == |msgs| && StreamsOf(FramesOf(methods, msgs)) == []
  {
    if msgs != [] {
      SyncRequestsSend(methods, msgs[1..]);
      FirstFrame(methods, msgs);
      assert SyncRequest(methods, msgs[0].m);
      assert FramesOf(methods, msgs)[1..] == FramesOf(methods, msgs[1..]);
    }
  }

  /** So a connection that gets nine such requests in its first read never answers any. */
  lemma NineRequestsBlock(methods: map<string, Kind>, msgs: seq<Message>, es: seq<Event>)
    requires |msgs| >= 9 && forall i :: 0 <= i < |msgs| ==> SyncRequest(methods, msgs[i].m)
    ensures var read := Read(FramesOf(methods, msgs));
            && Enabled(INITIAL, read)
            && (Allowed(Next(INITIAL, read), es) ==>
                  Run(Next(INITIAL, read), es).frames != [] && Run(Next(INITIAL, read), es).wire == [])
  {
    SyncRequestsSend(methods, msgs);
    assert [] + FramesOf(methods, msgs) == FramesOf(methods, msgs);
    var s := Next(INITIAL, Read(FramesOf(methods, msgs)));
    if Allowed(s, es) {
      ImpassableReadNeverEnds(s, es);
    }
  }

  // ----- when it does, whatever the schedule -----

  /** The loop waits for a slot that only it could free. */
  predicate Deadlocked(s: State) {
    s.frames != [] && SendsAtOnce(s.frames[0]) && |s.channel| == SLOTS
  }

  predicate NoReads(es: seq<Event>) {
    forall i :: 0 <= i < |es| ==> !es[i].Read?
  }

  /** How many slots a task may still take, if nobody drains; a live pump takes them all. */
  function Appetite(task: Task): nat {
    match task
    case Pump(_, _, _, _, phase) => if phase.Closed? then 0 else if phase.AtEnd? then 1 else SLOTS
    case Replier(reply, _, _) => |One(reply)|
    case Answered(_, _, _, _) => 0
  }

  function Appetites(tasks: seq<Task>): nat {
    if tasks == [] then 0 else Appetite(tasks[0]) + Appetites(tasks[1..])
  }

  lemma {:induction false} AppetitesAppend(a: seq<Task>, b: seq<Task>)
    ensures Appetites(a + b) == Appetites(a) + Appetites(b)
  {
    if a == [] {
      assert a + b == b;
    } else {
      AppetitesAppend(a[1..], b);
      TailOfAppend(a, b);
    }
  }

  lemma {:induction false} AppetitesUpdate(tasks: seq<Task>, t: nat, task: Task)
    requires t < |tasks|
    ensures Appetites(tasks[t := task]) + Appetite(tasks[t]) == Appetites(tasks) + Appetite(task)
  {
    if t == 0 {
      assert tasks[0 := task][1..] == tasks[1..];
    } else {
      AppetitesUpdate(tasks[1..], t - 1, task);
      assert tasks[t := task][1..] == tasks[1..][t - 1 := task];
    }
  }

  /** The slots the tasks spawned for a frame may take. */
  function AppetiteOf(d: Dispatched): nat {
    match d
    case Sync(_) => 0
    case Panicked(_) => 0
    case Future(reply) => |One(reply)|
    case Stream(dto, reply) => (if dto.Some? then SLOTS * |dto.value.streams| else 0) + |One(reply)|
  }

  lemma {:induction false} PumpsAppetite(dto: Dto, at: nat, n: nat)
    requires n <= |dto.streams|
    ensures Appetites(Pumps(dto, at, n)) == SLOTS * n
  {
    if n > 0 {
      PumpsAppetite(dto, at, n - 1);
      AppetitesAppend(Pumps(dto, at, n - 1), [Pump(dto.streams[n - 1], dto, at, [], Reading)]);
    }
  }

  lemma SpawnedAppetite(d: Dispatched, at: nat)
    ensures Appetites(Spawned(d, at)) == AppetiteOf(d)
  {
    if d.Stream? && d.dto.Some? {
      PumpsAppetite(d.dto.value, at, |d.dto.value.streams|);
      AppetitesAppend(Pumps(d.dto.value, at, |d.dto.value.streams|), [Replier(d.reply, d.dto, at)]);
    }
  }

  /** The slots that may be taken before the loop drains again. */
  function Demand(s: State): nat {
    |s.channel| + Appetites(s.tasks)
  }

  /** With that demand, at every frame the loop must send for there is a slot left; what
      comes after a frame that panics is never taken. */
  predicate AlwaysFits(demand: nat, frames: seq<Dispatched>)
    decreases |frames|
  {
    || frames == [] || frames[0].Panicked?
    || (&& (SendsAtOnce(frames[0]) ==> demand < SLOTS)
        && AlwaysFits(demand + |SentAtOnce(frames[0])| + AppetiteOf(frames[0]), frames[1..]))
  }

  lemma {:induction false} LessFitsToo(n: nat, m: nat, frames: seq<Dispatched>)
    requires AlwaysFits(n, frames) && (m <= n || n >= SLOTS)
    ensures AlwaysFits(m, frames)
    decreases |frames|
  {
    if frames != [] && !frames[0].Panicked? {
      var more := |SentAtOnce(frames[0])| + AppetiteOf(frames[0]);
      LessFitsToo(n + more, m + more, frames[1..]);
    }
  }

  lemma TakeDemands(s: State)
    requires s.frames != []
    ensures Demand(DoTake(s)) == Demand(s) + |SentAtOnce(s.frames[0])| + AppetiteOf(s.frames[0])
  {
    TakeParts(s);
    SpawnedAppetite(s.frames[0], |Out(s)|);
    AppetitesAppend(s.tasks, Spawned(s.frames[0], |Out(s)|));
  }

  lemma SpawnedStepDemands(s: State, e: Event)
    requires SpawnedStep(e) && Enabled(s, e)
    ensures Demand(Next(s, e)) <= Demand(s) || Demand(s) >= SLOTS
  {
    SpawnedStepParts(s, e);
    AppetitesUpdate(s.tasks, e.t, Next(s, e).tasks[e.t]);
    if e.PumpSends? && s.tasks[e.t].phase.Holding? {
      HungryTask(s.tasks, e.t);
    }
  }

  lemma {:induction false} HungryTask(tasks: seq<Task>, t: nat)
    requires t < |tasks|
    ensures Appetite(tasks[t]) <= Appetites(tasks)
  {
    if t > 0 {
      HungryTask(tasks[1..], t - 1);
    }
  }

  lemma StepKeepsFit(s: State, e: Event)
    requires !e.Read? && Enabled(s, e) && AlwaysFits(Demand(s), s.frames)
    ensures AlwaysFits(Demand(Next(s, e)), Next(s, e).frames)
  {
    if e.Take? {
      TakeDemands(s);
    } else if SpawnedStep(e) {
      SpawnedStepDemands(s, e);
      LessFitsToo(Demand(s), Demand(Next(s, e)), s.frames);
    }
  }

  lemma {:induction false} FitNeverBlocks(s: State, es: seq<Event>)
    requires Allowed(s, es) && NoReads(es) && AlwaysFits(Demand(s), s.frames)
    ensures !Deadlocked(Run(s, es))
    decreases |es|
  {
    if es != [] {
      assert !es[0].Read?;
      StepKeepsFit(s, es[0]);
      FitNeverBlocks(Next(s, es[0]), es[1..]);
    }
  }

  lemma {:induction false} SomeoneIsHungry(tasks: seq<Task>) returns (t: nat)
    requires Appetites(tasks) > 0
    ensures t < |tasks| && Appetite(tasks[t]) > 0
  {
    if Appetite(tasks[0]) > 0 {
      t := 0;
    } else {
      t := SomeoneIsHungry(tasks[1..]);
      t := t + 1;
    }
  }

  /** One task takes one more slot. */
  lemma TakeSlot(s: State) returns (es: seq<Event>)
    requires |s.channel| < SLOTS <= Demand(s)
    ensures Allowed(s, es) && NoReads(es)
    ensures var s' := Run(s, es);
            s'.frames == s.frames && |s'.channel| == |s.channel| + 1 && SLOTS <= Demand(s')
  {
    var t := SomeoneIsHungry(s.tasks);
    if s.tasks[t].Replier? {
      es := [Finish(t)];
      AppetitesUpdate(s.tasks, t, Next(s, Finish(t)).tasks[t]);
      RunOne(s, Finish(t));
    } else if s.tasks[t].phase.Reading? {
      es := [PumpReads(t, [0]), PumpSends(t)];
      var s1 := Next(s, PumpReads(t, [0]));
      HungryTask(Next(s1, PumpSends(t)).tasks, t);
      RunOne(s1, PumpSends(t));
      assert es[1..] == [PumpSends(t)];
    } else {
      es := [PumpSends(t)];
      var s1 := Next(s, PumpSends(t));
      AppetitesUpdate(s.tasks, t, s1.tasks[t]);
      HungryTask(s1.tasks, t);
      RunOne(s, PumpSends(t));
    }
  }

  lemma RunOne(s: State, e: Event)
    requires Enabled(s, e)
    ensures Allowed(s, [e]) && Run(s, [e]) == Next(s, e)
  {
    assert [e][1..] == [];
  }

  lemma {:induction false} RunAppend(s: State, a: seq<Event>, b: seq<Event>)
    requires Allowed(s, a) && Allowed(Run(s, a), b)
    ensures Allowed(s, a + b) && Run(s, a + b) == Run(Run(s, a), b)
    decreases |a|
  {
    if a == [] {
      assert a + b == b;
    } else {
      RunAppend(Next(s, a[0]), a[1..], b);
      TailOfAppend(a, b);
    }
  }

  lemma {:induction false} FillUp(s: State) returns (es: seq<Event>)
    requires |s.channel| <= SLOTS <= Demand(s)
    ensures Allowed(s, es) && NoReads(es)
    ensures Run(s, es).frames == s.frames && |Run(s, es).channel| == SLOTS
    decreases SLOTS - |s.channel|
  {
    if |s.channel| == SLOTS {
      es := [];
    } else {
      var first := TakeSlot(s);
      var rest := FillUp(Run(s, first));
      RunAppend(s, first, rest);
      es := first + rest;
    }
  }

  lemma {:induction false} UnfitCanBlock(s: State) returns (es: seq<Event>)
    requires |s.channel| <= SLOTS && !AlwaysFits(Demand(s), s.frames)
    ensures Allowed(s, es) && NoReads(es) && Deadlocked(Run(s, es))
    decreases |s.frames|
  {
    if SendsAtOnce(s.frames[0]) && Demand(s) >= SLOTS {
      es := FillUp(s);
    } else {
      TakeDemands(s);
      RunOne(s, Take);
      var rest := UnfitCanBlock(DoTake(s));
      RunAppend(s, [Take], rest);
      es := [Take] + rest;
    }
  }

  /** No schedule blocks the loop in a read exactly when, at every frame it must send
      for, the queue, the tasks and the frames before leave it a slot. */
  lemma ReadNeverBlocksIff(s: State)
    requires |s.channel| <= SLOTS
    ensures (forall es :: Allowed(s, es) && NoReads(es) ==> !Deadlocked(Run(s, es)))
       <==> AlwaysFits(Demand(s), s.frames)
  {
    if AlwaysFits(Demand(s), s.frames) {
      forall es | Allowed(s, es) && NoReads(es) ensures !Deadlocked(Run(s, es)) {
        FitNeverBlocks(s, es);
      }
    } else {
      var es := UnfitCanBlock(s);
    }
  }

  /** One stream that still has bytes to read is enough to block a frame that must send. */
  lemma LivePumpCanBlock(s: State, t: nat)
    requires |s.channel| <= SLOTS && s.frames != [] && SendsAtOnce(s.frames[0])
    requires t < |s.tasks| && s.tasks[t].Pump? && (s.tasks[t].phase.Reading? || s.tasks[t].phase.Holding?)
    ensures exists es :: Allowed(s, es) && NoReads(es) && Deadlocked(Run(s, es))
  {
    HungryTask(s.tasks, t);
    var es := UnfitCanBlock(s);
  }

  /** A deadlock is for good: no step of anyone resolves it. */
  lemma DeadlockLasts(s: State, es: seq<Event>)
    requires Deadlocked(s) && Allowed(s, es)
    ensures Run(s, es).frames != [] && Run(s, es).wire == s.wire
  {
    ImpassableReadNeverEnds(s, es);
  }

  // ----- where every schedule ends -----

  /** Steps that do not wait for a peer or for a stream. */
  predicate Internal(e: Event) {
    e.Take? || e.Drain? || e.Finish? || e.PumpSends?
  }

  predicate Busy(task: Task) {
    task.Replier? || (task.Pump? && (task.phase.Holding? || task.phase.AtEnd?))
  }

  function BusyTasks(tasks: seq<Task>): nat {
    if tasks == [] then 0 else (if Busy(tasks[0]) then 1 else 0) + BusyTasks(tasks[1..])
  }

  function Work(s: State): nat {
    4 * |s.frames| + |s.channel| + 2 * BusyTasks(s.tasks)
  }

  lemma {:induction false} BusyAppend(a: seq<Task>, b: seq<Task>)
    ensures BusyTasks(a + b) == BusyTasks(a) + BusyTasks(b)
  {
    if a == [] {
      assert a + b == b;
    } else {
      BusyAppend(a[1..], b);
      TailOfAppend(a, b);
    }
  }

  lemma {:induction false} BusyUpdate(tasks: seq<Task>, t: nat, task: Task)
    requires t < |tasks| && Busy(tasks[t]) && !Busy(task)
    ensures BusyTasks(tasks[t := task]) + 1 == BusyTasks(tasks)
  {
    if t == 0 {
      assert tasks[0 := task][1..] == tasks[1..];
    } else {
      BusyUpdate(tasks[1..], t - 1, task);
      assert tasks[t := task][1..] == tasks[1..][t - 1 := task];
    }
  }

  lemma {:induction false} NewPumpsAreIdle(dto: Dto, at: nat, n: nat)
    requires n <= |dto.streams|
    ensures BusyTasks(Pumps(dto, at, n)) == 0
  {
    if n > 0 {
      NewPumpsAreIdle(dto, at, n - 1);
      BusyAppend(Pumps(dto, at, n - 1), [Pump(dto.streams[n - 1], dto, at, [], Reading)]);
    }
  }

  lemma SpawnedBusy(d: Dispatched, at: nat)
    ensures BusyTasks(Spawned(d, at)) <= 1
  {
    if d.Stream? && d.dto.Some? {
      NewPumpsAreIdle(d.dto.value, at, |d.dto.value.streams|);
      BusyAppend(Pumps(d.dto.value, at, |d.dto.value.streams|), [Replier(d.reply, d.dto, at)]);
    }
  }

  lemma InternalStepTakesWork(s: State, e: Event)
    requires Internal(e) && Enabled(s, e)
    ensures Work(Next(s, e)) < Work(s)
  {
    if e.Take? {
      TakeParts(s);
      SpawnedBusy(s.frames[0], |Out(s)|);
      BusyAppend(s.tasks, Spawned(s.frames[0], |Out(s)|));
    } else if SpawnedStep(e) {
      SpawnedStepParts(s, e);
      BusyUpdate(s.tasks, e.t, Next(s, e).tasks[e.t]);
    }
  }

  /** However they are scheduled, internal steps come to an end. */
  lemma {:induction false} InternalRunsAreBounded(s: State, es: seq<Event>)
    requires Allowed(s, es) && forall i :: 0 <= i < |es| ==> Internal(es[i])
    ensures |es| + Work(Run(s, es)) <= Work(s)
    decreases |es|
  {
    if es != [] {
      InternalStepTakesWork(s, es[0]);
      InternalRunsAreBounded(Next(s, es[0]), es[1..]);
    }
  }

  /** Nothing is left to handle, to send or to write. */
  predicate Quiet(s: State) {
    s.frames == [] && s.channel == [] && forall t :: 0 <= t < |s.tasks| ==> !Busy(s.tasks[t])
  }

  /** Futures that end without a reply need no slot. */
  predicate AllReply(tasks: seq<Task>) {
    forall t :: 0 <= t < |tasks| ==> !(tasks[t].Replier? && tasks[t].reply.None?)
  }

  /** The loop has ended at a frame that panics. */
  predicate LoopEnded(s: State) {
    s.frames != [] && s.frames[0].Panicked?
  }

  /** No task can go on without a slot, and none is free. */
  predicate TasksWait(s: State) {
    (exists t :: 0 <= t < |s.tasks| && Busy(s.tasks[t])) ==> |s.channel| == SLOTS && AllReply(s.tasks)
  }

  /** And they end nowhere else than with everything done, deadlocked, or with the loop ended. */
  lemma StuckIff(s: State)
    requires |s.channel| <= SLOTS
    ensures (forall e :: Internal(e) ==> !Enabled(s, e))
       <==> Quiet(s) || (TasksWait(s) && (Deadlocked(s) || LoopEnded(s)))
  {
    if forall e :: Internal(e) ==> !Enabled(s, e) {
      assert Internal(Take) && Internal(Drain);
      forall t | 0 <= t < |s.tasks|
        ensures Busy(s.tasks[t]) ==> |s.channel| == SLOTS
        ensures !(s.tasks[t].Replier? && s.tasks[t].reply.None?)
      {
        assert Internal(Finish(t)) && Internal(PumpSends(t));
      }
    } else {
      var e :| Internal(e) && Enabled(s, e);
      assert e.Finish? || e.PumpSends? ==> Busy(s.tasks[e.t]);
    }
  }

  /** In a quiet state every reply called for is on the wire. */
  lemma QuietMeansAnswered(s: State)
    requires Inv(s) && Quiet(s)
    ensures Answers(s.wire) == Owed(s.taken)
  {
    forall t | 0 <= t < |s.tasks| ensures !s.tasks[t].Replier? {
      assert !Busy(s.tasks[t]);
    }
    NothingUnsent(s.tasks);
    assert Out(s) == s.wire;
  }

  lemma StepStaysSound(s: State, e: Event)
    requires Enabled(s, e) && !e.Read? && !AnyPanics(s.frames)
    ensures !AnyPanics(Next(s, e).frames)
  {
    if e.Take? {
      PanicsLater(s.frames);
    }
  }

  lemma {:induction false} StaysSound(s: State, es: seq<Event>)
    requires Allowed(s, es) && NoReads(es) && !AnyPanics(s.frames)
    ensures !AnyPanics(Run(s, es).frames)
    decreases |es|
  {
    if es != [] {
      assert !es[0].Read?;
      StepStaysSound(s, es[0]);
      StaysSound(Next(s, es[0]), es[1..]);
    }
  }

  lemma {:induction false} InternalReadsNothing(es: seq<Event>)
    requires forall i :: 0 <= i < |es| ==> Internal(es[i])
    ensures NoReads(es) && FramesRead(es) == []
  {
    if es != [] {
      InternalReadsNothing(es[1..]);
      assert Internal(es[0]);
      assert forall i :: 1 <= i < |es| ==> es[i] == es[1..][i - 1];
    }
  }

  /** A schedule of internal steps that cannot go on. */
  ghost predicate Exhausts(s: State, es: seq<Event>) {
    && Allowed(s, es) && (forall i :: 0 <= i < |es| ==> Internal(es[i]))
    && forall e :: Internal(e) ==> !Enabled(Run(s, es), e)
  }

  /** A read that always fits, and in which no frame panics. */
  predicate Fitting(s: State) {
    AlwaysFits(Demand(s), s.frames) && !AnyPanics(s.frames)
  }

  lemma FittingReadIsDone(s: State, es: seq<Event>)
    requires Inv(s) && Fitting(s) && Exhausts(s, es)
    ensures Inv(Run(s, es)) && Quiet(Run(s, es)) && FramesRead(es) == []
  {
    InternalReadsNothing(es);
    RunKeepsInv(s, es);
    FitNeverBlocks(s, es);
    StaysSound(s, es);
    StuckIff(Run(s, es));
  }

  /** A read that always fits, and in which no frame panics, is answered in full: every
      schedule of internal steps that cannot go on has handled all frames and put on the
      wire every reply that the frames read, in this read and before, call for. */
  lemma FittingReadIsAnswered(run: seq<Event>, s: State, es: seq<Event>)
    requires Allowed(INITIAL, run) && s == Run(INITIAL, run) && Fitting(s) && Exhausts(s, es)
    ensures Quiet(Run(s, es)) && Answers(Run(s, es).wire) == Owed(FramesRead(run))
  {
    RunKeepsInv(INITIAL, run);
    FittingReadIsDone(s, es);
    QuietMeansAnswered(Run(s, es));
    AllTaken(run, s, es);
  }

  lemma AllTaken(run: seq<Event>, s: State, es: seq<Event>)
    requires Allowed(INITIAL, run) && s == Run(INITIAL, run) && Allowed(s, es) && FramesRead(es) == []
    ensures Run(s, es).frames == [] ==> Run(s, es).taken == FramesRead(run)
  {
    TakenWereRead(run);
    RunTakesWhatWasRead(s, es);
    var s' := Run(s, es);
    assert s.taken + s.frames + [] == s.taken + s.frames;
    assert s'.frames == [] ==> s'.taken + s'.frames == s'.taken;
  }

  /** The same of messages, read in any batches: the ids answered on the wire are then
      exactly those of the requests that carry one. */
  lemma FittingReadAnswersRequests(run: seq<Event>, s: State, es: seq<Event>, methods: map<string, Kind>,
                                   msgs: seq<Message>)
    requires Allowed(INITIAL, run) && s == Run(INITIAL, run) && FramesRead(run) == FramesOf(methods, msgs)
    requires Fitting(s) && Exhausts(s, es)
    ensures Run(s, es).frames == [] && AnsweredIds(Run(s, es).wire) == multiset(RequestIds(msgs))
  {
    FittingReadIsAnswered(run, s, es);
    OneReplyPerRequest(methods, msgs);
    IdsOfFewer(Collect(ReplyIn, Run(s, es).wire), RepliesOf(FramesRead(run)));
    IdsOfFewer(RepliesOf(FramesRead(run)), Collect(ReplyIn, Run(s, es).wire));
  }

  lemma {:induction false} SyncRequestsFit(methods: map<string, Kind>, msgs: seq<Message>, demand: nat)
    requires demand + |msgs| <= SLOTS && forall i :: 0 <= i < |msgs| ==> SyncRequest(methods, msgs[i].m)
    ensures AlwaysFits(demand, FramesOf(methods, msgs)) && !AnyPanics(FramesOf(methods, msgs))
  {
    if msgs != [] {
      SyncRequestsFit(methods, msgs[1..], demand + 1);
      assert SyncRequest(methods, msgs[0].m);
      assert FramesOf(methods, msgs)[1..] == FramesOf(methods, msgs[1..]);
      PanicsLater(FramesOf(methods, msgs));
    }
  }

  /** The state after a first read. */
  predicate JustRead(s: State, frames: seq<Dispatched>) {
    s == State(frames, [], [], [], [])
  }

  lemma FirstRead(s: State, frames: seq<Dispatched>) returns (run: seq<Event>)
    requires NoDuplicates(StreamsOf(frames)) && JustRead(s, frames)
    ensures Allowed(INITIAL, run) && s == Run(INITIAL, run) && FramesRead(run) == frames
  {
    run := [Read(frames)];
    assert [] + frames == frames;
    RunOne(INITIAL, Read(frames));
    CollectSnoc(BatchOf, [], Read(frames));
    assert [] + [Read(frames)] == [Read(frames)];
  }

  lemma FirstReadFits(methods: map<string, Kind>, msgs: seq<Message>, s: State)
    requires |msgs| <= 8 && (forall i :: 0 <= i < |msgs| ==> SyncRequest(methods, msgs[i].m))
    requires JustRead(s, FramesOf(methods, msgs))
    ensures Fitting(s) && NoDuplicates(StreamsOf(FramesOf(methods, msgs)))
  {
    SyncRequestsSend(methods, msgs);
    SyncRequestsFit(methods, msgs, 0);
  }

  /** Eight such requests in the first read are all answered, in every schedule; nine never are. */
  lemma EightRequestsAreAnswered(methods: map<string, Kind>, msgs: seq<Message>, s: State, es: seq<Event>)
    requires |msgs| <= 8 && forall i :: 0 <= i < |msgs| ==> SyncRequest(methods, msgs[i].m)
    requires JustRead(s, FramesOf(methods, msgs)) && Exhausts(s, es)
    ensures AnsweredIds(Run(s, es).wire) == multiset(RequestIds(msgs))
  {
    FirstReadFits(methods, msgs, s);
    var run := FirstRead(s, FramesOf(methods, msgs));
    FittingReadAnswersRequests(run, s, es, methods, msgs);
  }
}
