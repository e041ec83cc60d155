/**
 The receive loop of an RPC connection with the tasks it spawns and the
 eight-slot queue they all reply through.

 The loop takes the frames of one read one at a time; only between reads does
 it drain the queue to the wire. Futures and stream pumps send whenever a slot
 is free. All their steps interleave in any order, and no send fails. A frame whose
 dispatch panics ends the loop: it and the frames after it are never taken.
 */
module Connection {
  import opened Seqs
  import opened Dispatch

  const SLOTS := 8
  const PUMP_BUFFER := 4096

  datatype Msg =
    | Started(dto: Dto)
    | Data(stream: U32, segment: Bytes)
    | Ended(stream: U32)
    | Answer(reply: Reply)

  datatype PumpPhase = Reading | Holding(segment: Bytes) | AtEnd | Closed

  /** A spawned task. `call` is the duplex call it belongs to and `started` the place
      of that call's announcement among all messages; `sent` are the segments a pump
      sent; `at` is where an answer went. */
  datatype Task =
    | Pump(stream: U32, call: Dto, started: nat, sent: seq<Bytes>, phase: PumpPhase)
    | Replier(reply: Option<Reply>, duplex: Option<Dto>, started: nat)
    | Answered(reply: Option<Reply>, duplex: Option<Dto>, started: nat, at: nat)

  /** `frames` are the dispatched frames of the last read not yet acted on, `taken`
      all those acted on so far. */
  datatype State = State(
    frames: seq<Dispatched>, channel: seq<Msg>, wire: seq<Msg>, tasks: seq<Task>, taken: seq<Dispatched>)

  const INITIAL := State([], [], [], [], [])

  datatype Event =
    | Read(batch: seq<Dispatched>)
    | Take
    | Drain
    | Finish(t: nat)
    | PumpReads(t: nat, segment: Bytes)
    | PumpEnds(t: nat)
    | PumpSends(t: nat)

  /** Everything ever queued, in order. */
  function Out(s: State): seq<Msg> {
    s.wire + s.channel
  }

  /** Frames whose handling sends before the loop goes on: replies of synchronous
      methods and the announcement of streams. */
  predicate SendsAtOnce(d: Dispatched) {
    (d.Sync? && d.reply.Some?) || (d.Stream? && d.dto.Some?)
  }

  predicate Enabled(s: State, e: Event) {
    match e
    case Read(batch) => s.frames == [] && NoDuplicates(StreamsOf(s.taken + batch))
    case Take => && s.frames != [] && !s.frames[0].Panicked?
                 && (SendsAtOnce(s.frames[0]) ==> |s.channel| < SLOTS)
    case Drain => s.frames == [] && s.channel != []
    case Finish(t) => && t < |s.tasks| && s.tasks[t].Replier?
                      && (s.tasks[t].reply.Some? ==> |s.channel| < SLOTS)
    case PumpReads(t, segment) => && t < |s.tasks| && s.tasks[t].Pump? && s.tasks[t].phase.Reading?
                                  && 0 < |segment| <= PUMP_BUFFER
    case PumpEnds(t) => t < |s.tasks| && s.tasks[t].Pump? && s.tasks[t].phase.Reading?
    case PumpSends(t) => && t < |s.tasks| && s.tasks[t].Pump?
                         && (s.tasks[t].phase.Holding? || s.tasks[t].phase.AtEnd?)
                         && |s.channel| < SLOTS
  }

  function Pumps(dto: Dto, started: nat, n: nat): seq<Task>
    requires n <= |dto.streams|
  {
    if n == 0 then [] else Pumps(dto, started, n - 1) + [Pump(dto.streams[n - 1], dto, started, [], Reading)]
  }

  function DoTake(s: State): State
    requires s.frames != []
  {
    var d := s.frames[0];
    var s1 := s.(frames := s.frames[1..], taken := s.taken + [d]);
    match d
    case Sync(Some(reply)) => s1.(channel := s.channel + [Answer(reply)])
    case Sync(None) => s1
    case Panicked(_) => s1
    case Future(reply) => s1.(tasks := s.tasks + [Replier(reply, None, 0)])
    case Stream(None, reply) => s1.(tasks := s.tasks + [Replier(reply, None, 0)])
    case Stream(Some(dto), reply) =>
      s1.(channel := s.channel + [Started(dto)],
          tasks := s.tasks + Pumps(dto, |Out(s)|, |dto.streams|) + [Replier(reply, Some(dto), |Out(s)|)])
  }

  function Next(s: State, e: Event): State
    requires Enabled(s, e)
  {
    match e
    case Read(batch) => s.(frames := batch)
    case Take => DoTake(s)
    case Drain => s.(channel := s.channel[1..], wire := s.wire + [s.channel[0]])
    case Finish(t) =>
      var Replier(reply, duplex, started) := s.tasks[t];
      s.(channel := if reply.Some? then s.channel + [Answer(reply.value)] else s.channel,
         tasks := s.tasks[t := Answered(reply, duplex, started, |Out(s)|)])
    case PumpReads(t, segment) =>
      s.(tasks := s.tasks[t := s.tasks[t].(phase := Holding(segment))])
    case PumpEnds(t) =>
      s.(tasks := s.tasks[t := s.tasks[t].(phase := AtEnd)])
    case PumpSends(t) =>
      var p := s.tasks[t];
      if p.phase.AtEnd? then
        s.(channel := s.channel + [Ended(p.stream)], tasks := s.tasks[t := p.(phase := Closed)])
      else
        s.(channel := s.channel + [Data(p.stream, p.phase.segment)],
           tasks := s.tasks[t := p.(sent := p.sent + [p.phase.segment], phase := Reading)])
  }

  // ----- what every reachable state keeps -----

  predicate About(m: Msg, stream: U32) {
    (m.Data? || m.Ended?) && m.stream == stream
  }

  function Trailing(stream: U32): Msg -> seq<Msg> {
    m => if About(m, stream) then [m] else []
  }

  /** The messages about one stream, in order. */
  function Trail(out: seq<Msg>, stream: U32): seq<Msg> {
    Collect(Trailing(stream), out)
  }

  function Datas(stream: U32, segments: seq<Bytes>): seq<Msg> {
    seq(|segments|, i requires 0 <= i < |segments| => Data(stream, segments[i]))
  }

  predicate Announced(out: seq<Msg>, at: nat, dto: Dto) {
    at < |out| && out[at] == Started(dto)
  }

  /** A pump's messages: the segments it sent, and then, once, the end; all of them
      after its call's announcement, non-empty and within the buffer. */
  ghost predicate PumpOk(out: seq<Msg>, p: Task)
    requires p.Pump?
  {
    && Announced(out, p.started, p.call) && p.stream in p.call.streams
    && Trail(out, p.stream) == Datas(p.stream, p.sent) + (if p.phase.Closed? then [Ended(p.stream)] else [])
    && (forall j :: 0 <= j < |out| && About(out[j], p.stream) ==> p.started < j)
    && (forall i :: 0 <= i < |p.sent| ==> 0 < |p.sent[i]| <= PUMP_BUFFER)
    && (p.phase.Holding? ==> 0 < |p.phase.segment| <= PUMP_BUFFER)
  }

  ghost predicate TaskOk(out: seq<Msg>, task: Task) {
    match task
    case Pump(_, _, _, _, _) => PumpOk(out, task)
    case Replier(_, duplex, started) => duplex.Some? ==> Announced(out, started, duplex.value)
    case Answered(reply, duplex, started, at) =>
      && (reply.Some? ==> at < |out| && out[at] == Answer(reply.value))
      && (duplex.Some? ==> Announced(out, started, duplex.value) && started < at)
  }

  function StreamPumped(task: Task): seq<U32> {
    if task.Pump? then [task.stream] else []
  }

  function ReplyUnsent(task: Task): seq<Reply> {
    if task.Replier? then One(task.reply) else []
  }

  function ReplyIn(m: Msg): seq<Reply> {
    if m.Answer? then [m.reply] else []
  }

  function PumpedStreams(tasks: seq<Task>): seq<U32> {
    Collect(StreamPumped, tasks)
  }

  /** The replies the frames call for. */
  function Owed(frames: seq<Dispatched>): multiset<Reply> {
    multiset(RepliesOf(frames))
  }

  function Answers(out: seq<Msg>): multiset<Reply> {
    multiset(Collect(ReplyIn, out))
  }

  /** The replies that futures still running will send. */
  function Unsent(tasks: seq<Task>): multiset<Reply> {
    multiset(Collect(ReplyUnsent, tasks))
  }

  predicate Bounded(s: State) {
    |s.channel| <= SLOTS
  }

  /** Streams never share an id, and each one announced so far has its pump. */
  predicate Named(taken: seq<Dispatched>, frames: seq<Dispatched>, tasks: seq<Task>) {
    NoDuplicates(StreamsOf(taken + frames)) && PumpedStreams(tasks) == StreamsOf(taken)
  }

  predicate NamedBy(m: Msg, streams: seq<U32>) {
    m.Data? || m.Ended? ==> m.stream in streams
  }

  predicate NamesIn(out: seq<Msg>, streams: seq<U32>) {
    forall j {:trigger NamedBy(out[j], streams)} :: 0 <= j < |out| ==> NamedBy(out[j], streams)
  }

  ghost predicate TasksOk(out: seq<Msg>, tasks: seq<Task>) {
    forall t {:trigger TaskOk(out, tasks[t])} :: 0 <= t < |tasks| ==> TaskOk(out, tasks[t])
  }

  /** Replies sent and replies to come are the replies called for. */
  predicate Accounted(out: seq<Msg>, tasks: seq<Task>, taken: seq<Dispatched>) {
    Answers(out) + Unsent(tasks) == Owed(taken)
  }

  ghost predicate Inv(s: State) {
    && Bounded(s)
    && Named(s.taken, s.frames, s.tasks) && NamesIn(Out(s), PumpedStreams(s.tasks))
    && TasksOk(Out(s), s.tasks)
    && Accounted(Out(s), s.tasks, s.taken)
  }

  // ----- every step keeps it -----

  lemma TrailSnoc(out: seq<Msg>, m: Msg, stream: U32)
    ensures Trail(out + [m], stream) == Trail(out, stream) + if About(m, stream) then [m] else []
  {
    CollectSnoc(Trailing(stream), out, m);
  }

  /** A message about another stream, or about none, keeps a task in order. */
  lemma TaskOkLater(out: seq<Msg>, m: Msg, task: Task)
    requires TaskOk(out, task) && (task.Pump? ==> !About(m, task.stream))
    ensures TaskOk(out + [m], task)
  {
    if task.Pump? {
      TrailSnoc(out, m, task.stream);
    }
  }

  lemma {:induction false} PumpsAt(dto: Dto, started: nat, n: nat)
    requires n <= |dto.streams|
    ensures |Pumps(dto, started, n)| == n
    ensures forall i :: 0 <= i < n ==> Pumps(dto, started, n)[i] == Pump(dto.streams[i], dto, started, [], Reading)
  {
    if n > 0 {
      PumpsAt(dto, started, n - 1);
    }
  }

  lemma {:induction false} PumpsCollect(dto: Dto, started: nat, n: nat)
    requires n <= |dto.streams|
    ensures PumpedStreams(Pumps(dto, started, n)) == dto.streams[..n]
    ensures Collect(ReplyUnsent, Pumps(dto, started, n)) == []
  {
    if n > 0 {
      PumpsCollect(dto, started, n - 1);
      var p := Pump(dto.streams[n - 1], dto, started, [], Reading);
      CollectSnoc(StreamPumped, Pumps(dto, started, n - 1), p);
      CollectSnoc(ReplyUnsent, Pumps(dto, started, n - 1), p);
    }
  }

  /** Distinct pumps have distinct streams. */
  lemma {:induction false} PumpsDiffer(tasks: seq<Task>, t: nat, u: nat)
    requires NoDuplicates(PumpedStreams(tasks))
    requires t < u < |tasks| && tasks[t].Pump? && tasks[u].Pump?
    ensures tasks[t].stream != tasks[u].stream
    ensures tasks[t].stream in PumpedStreams(tasks)
  {
    var a, b, c := tasks[..t], tasks[t..u], tasks[u..];
    assert tasks == a + (b + c);
    CollectAppend(StreamPumped, a, b + c);
    CollectAppend(StreamPumped, b, c);
    var x, y, z := PumpedStreams(a), PumpedStreams(b), PumpedStreams(c);
    assert y[0] == tasks[t].stream && z[0] == tasks[u].stream;
    var ids := PumpedStreams(tasks);
    assert ids == x + (y + z);
    assert ids[|x|] == y[0] && ids[|x| + |y|] == z[0];
  }

  lemma {:induction false} NoTrail(out: seq<Msg>, stream: U32)
    requires forall j :: 0 <= j < |out| ==> !About(out[j], stream)
    ensures Trail(out, stream) == []
  {
    if out != [] {
      NoTrail(out[1..], stream);
    }
  }

  /** The tasks a frame spawns, and the message its handling sends at once. */
  function Spawned(d: Dispatched, at: nat): seq<Task> {
    match d
    case Sync(_) => []
    case Panicked(_) => []
    case Future(reply) => [Replier(reply, None, 0)]
    case Stream(None, reply) => [Replier(reply, None, 0)]
    case Stream(Some(dto), reply) => Pumps(dto, at, |dto.streams|) + [Replier(reply, Some(dto), at)]
  }

  function SentAtOnce(d: Dispatched): seq<Msg> {
    match d
    case Sync(Some(reply)) => [Answer(reply)]
    case Stream(Some(dto), _) => [Started(dto)]
    case _ => []
  }

  lemma TakeParts(s: State)
    requires s.frames != []
    ensures DoTake(s) == State(s.frames[1..], s.channel + SentAtOnce(s.frames[0]), s.wire,
                               s.tasks + Spawned(s.frames[0], |Out(s)|), s.taken + [s.frames[0]])
    ensures Out(DoTake(s)) == Out(s) + SentAtOnce(s.frames[0])
  {
  }

  lemma SpawnedCollect(d: Dispatched, at: nat)
    requires !d.Panicked?
    ensures PumpedStreams(Spawned(d, at)) == StreamsIn(d)
    ensures Collect(ReplyUnsent, Spawned(d, at)) + Collect(ReplyIn, SentAtOnce(d)) == ReplyOwed(d)
  {
    if d.Stream? && d.dto.Some? {
      SpawnedWithStreams(d.dto.value, d.reply, at);
    } else if !d.Sync? {
      var replier := Replier(d.reply, None, 0);
      assert Spawned(d, at) == [] + [replier];
      CollectSnoc(StreamPumped, [], replier);
      CollectSnoc(ReplyUnsent, [], replier);
    }
  }

  lemma SpawnedWithStreams(dto: Dto, reply: Option<Reply>, at: nat)
    ensures PumpedStreams(Spawned(Stream(Some(dto), reply), at)) == dto.streams
    ensures Collect(ReplyUnsent, Spawned(Stream(Some(dto), reply), at)) == One(reply)
  {
    var pumps := Pumps(dto, at, |dto.streams|);
    PumpsCollect(dto, at, |dto.streams|);
    CollectSnoc(StreamPumped, pumps, Replier(reply, Some(dto), at));
    CollectSnoc(ReplyUnsent, pumps, Replier(reply, Some(dto), at));
  }

  lemma PumpedAfter(tasks: seq<Task>, d: Dispatched, at: nat)
    requires !d.Panicked?
    ensures PumpedStreams(tasks + Spawned(d, at)) == PumpedStreams(tasks) + StreamsIn(d)
  {
    SpawnedCollect(d, at);
    CollectAppend(StreamPumped, tasks, Spawned(d, at));
  }

  lemma NamedAfterTake(taken: seq<Dispatched>, d: Dispatched, rest: seq<Dispatched>, tasks: seq<Task>, at: nat)
    requires Named(taken, [d] + rest, tasks) && !d.Panicked?
    ensures Named(taken + [d], rest, tasks + Spawned(d, at))
  {
    PumpedAfter(tasks, d, at);
    CollectSnoc(StreamsIn, taken, d);
    Assoc(taken, [d], rest);
  }

  /** The streams of the next frame are new, and the pumped ones distinct. */
  lemma NextStreamsAreNew(taken: seq<Dispatched>, d: Dispatched, rest: seq<Dispatched>, tasks: seq<Task>)
    requires Named(taken, [d] + rest, tasks)
    ensures forall x :: x in StreamsIn(d) ==> x !in PumpedStreams(tasks)
  {
    CollectAppend(StreamsIn, taken, [d] + rest);
    CollectFirst(StreamsIn, d, rest);
    NoDuplicatesSplit(StreamsOf(taken), StreamsIn(d) + StreamsOf(rest));
  }

  lemma PumpedAreDistinct(taken: seq<Dispatched>, frames: seq<Dispatched>, tasks: seq<Task>)
    requires Named(taken, frames, tasks)
    ensures NoDuplicates(PumpedStreams(tasks))
  {
    CollectAppend(StreamsIn, taken, frames);
    NoDuplicatesSplit(StreamsOf(taken), StreamsOf(frames));
  }

  lemma SumUp(answers: multiset<Reply>, unsent: multiset<Reply>, owed: multiset<Reply>,
              queued: seq<Reply>, later: seq<Reply>, reply: seq<Reply>)
    requires answers + unsent == owed && later + queued == reply
    ensures (answers + multiset(queued)) + (unsent + multiset(later)) == owed + multiset(reply)
  {
  }

  lemma AccountedAfterTake(out: seq<Msg>, tasks: seq<Task>, taken: seq<Dispatched>, d: Dispatched, at: nat)
    requires Accounted(out, tasks, taken) && !d.Panicked?
    ensures Accounted(out + SentAtOnce(d), tasks + Spawned(d, at), taken + [d])
  {
    SpawnedCollect(d, at);
    CollectAppend(ReplyUnsent, tasks, Spawned(d, at));
    CollectAppend(ReplyIn, out, SentAtOnce(d));
    CollectSnoc(ReplyOwed, taken, d);
    SumUp(Answers(out), Unsent(tasks), Owed(taken),
          Collect(ReplyIn, SentAtOnce(d)), Collect(ReplyUnsent, Spawned(d, at)), ReplyOwed(d));
  }

  lemma Balance(out: multiset<Reply>, unsent: multiset<Reply>, unsent': multiset<Reply>,
                held: seq<Reply>, held': seq<Reply>, queued: seq<Reply>)
    requires held' + queued == held
    requires unsent' + multiset(held) == unsent + multiset(held')
    ensures out + multiset(queued) + unsent' == out + unsent
  {
    forall x: Reply
      ensures (out + multiset(queued) + unsent')[x] == (out + unsent)[x]
    {
      assert (unsent' + multiset(held))[x] == (unsent + multiset(held'))[x];
      assert multiset(held)[x] == (multiset(held') + multiset(queued))[x];
    }
  }

  /** A task changes, and what it queues is what it no longer owes. */
  lemma TaskStepAccounts(out: seq<Msg>, tasks: seq<Task>, taken: seq<Dispatched>, t: nat, task: Task, msgs: seq<Msg>)
    requires Accounted(out, tasks, taken) && t < |tasks|
    requires ReplyUnsent(task) + Collect(ReplyIn, msgs) == ReplyUnsent(tasks[t])
    ensures Accounted(out + msgs, tasks[t := task], taken)
  {
    CollectUpdate(ReplyUnsent, tasks, t, task);
    CollectAppend(ReplyIn, out, msgs);
    Balance(Answers(out), Unsent(tasks), Unsent(tasks[t := task]),
            ReplyUnsent(tasks[t]), ReplyUnsent(task), Collect(ReplyIn, msgs));
  }

  lemma TaskStepPumps(tasks: seq<Task>, t: nat, task: Task)
    requires t < |tasks| && StreamPumped(task) == StreamPumped(tasks[t])
    ensures PumpedStreams(tasks[t := task]) == PumpedStreams(tasks)
  {
    CollectUpdate(StreamPumped, tasks, t, task);
  }

  /** What a step of a spawned task queues. */
  function Queued(s: State, e: Event): seq<Msg>
    requires Enabled(s, e)
  {
    match e
    case Finish(t) => if s.tasks[t].reply.Some? then [Answer(s.tasks[t].reply.value)] else []
    case PumpSends(t) => [if s.tasks[t].phase.AtEnd? then Ended(s.tasks[t].stream)
                          else Data(s.tasks[t].stream, s.tasks[t].phase.segment)]
    case _ => []
  }

  predicate SpawnedStep(e: Event) {
    e.Finish? || e.PumpReads? || e.PumpEnds? || e.PumpSends?
  }

  lemma SpawnedStepParts(s: State, e: Event)
    requires SpawnedStep(e) && Enabled(s, e)
    ensures var s' := Next(s, e);
            && |s'.tasks| == |s.tasks|
            && s' == s.(tasks := s.tasks[e.t := s'.tasks[e.t]], channel := s.channel + Queued(s, e))
            && StreamPumped(s'.tasks[e.t]) == StreamPumped(s.tasks[e.t])
            && ReplyUnsent(s'.tasks[e.t]) + Collect(ReplyIn, Queued(s, e)) == ReplyUnsent(s.tasks[e.t])
  {
    assert s.channel + [] == s.channel;
  }

  lemma {:induction false} StreamIsPumped(tasks: seq<Task>, t: nat)
    requires t < |tasks| && tasks[t].Pump?
    ensures tasks[t].stream in PumpedStreams(tasks)
  {
    if t > 0 {
      StreamIsPumped(tasks[1..], t - 1);
    }
  }

  /** Queueing a message that is about no stream being pumped. */
  lemma QueueKeepsTasks(out: seq<Msg>, tasks: seq<Task>, m: Msg)
    requires TasksOk(out, tasks)
    requires m.Data? || m.Ended? ==> m.stream !in PumpedStreams(tasks)
    ensures TasksOk(out + [m], tasks)
  {
    forall t | 0 <= t < |tasks|
      ensures TaskOk(out + [m], tasks[t])
    {
      assert TaskOk(out, tasks[t]);
      if tasks[t].Pump? {
        StreamIsPumped(tasks, t);
      }
      TaskOkLater(out, m, tasks[t]);
    }
  }

  lemma NewPumpIsOk(out: seq<Msg>, dto: Dto, x: U32)
    requires x in dto.streams && forall j :: 0 <= j < |out| ==> !About(out[j], x)
    ensures PumpOk(out + [Started(dto)], Pump(x, dto, |out|, [], Reading))
  {
    NoTrail(out, x);
    TrailSnoc(out, Started(dto), x);
  }

  lemma NewTaskIsOk(out: seq<Msg>, streams: seq<U32>, d: Dispatched, i: nat)
    requires NamesIn(out, streams) && i < |Spawned(d, |out|)|
    requires forall x :: x in StreamsIn(d) ==> x !in streams
    ensures TaskOk(out + SentAtOnce(d), Spawned(d, |out|)[i])
  {
    if d.Stream? && d.dto.Some? {
      var dto := d.dto.value;
      PumpsAt(dto, |out|, |dto.streams|);
      if i < |dto.streams| {
        assert forall j :: 0 <= j < |out| ==> NamedBy(out[j], streams);
        NewPumpIsOk(out, dto, dto.streams[i]);
      }
    }
  }

  lemma TakeKeepsOldTasks(out: seq<Msg>, tasks: seq<Task>, d: Dispatched)
    requires TasksOk(out, tasks)
    ensures TasksOk(out + SentAtOnce(d), tasks)
  {
    if SendsAtOnce(d) {
      var m := SentAtOnce(d)[0];
      assert SentAtOnce(d) == [m];
      QueueKeepsTasks(out, tasks, m);
    } else {
      assert out + SentAtOnce(d) == out;
    }
  }

  lemma TakeKeepsTasks(out: seq<Msg>, tasks: seq<Task>, d: Dispatched)
    requires TasksOk(out, tasks) && NamesIn(out, PumpedStreams(tasks))
    requires forall x :: x in StreamsIn(d) ==> x !in PumpedStreams(tasks)
    ensures TasksOk(out + SentAtOnce(d), tasks + Spawned(d, |out|))
  {
    TakeKeepsOldTasks(out, tasks, d);
    var all := tasks + Spawned(d, |out|);
    forall t | 0 <= t < |all|
      ensures TaskOk(out + SentAtOnce(d), all[t])
    {
      if t < |tasks| {
        assert TaskOk(out + SentAtOnce(d), tasks[t]);
      } else {
        NewTaskIsOk(out, PumpedStreams(tasks), d, t - |tasks|);
      }
    }
  }

  lemma PumpOkAfterSend(out: seq<Msg>, p: Task)
    requires p.Pump? && PumpOk(out, p)
    ensures p.phase.Holding? ==>
              PumpOk(out + [Data(p.stream, p.phase.segment)], p.(sent := p.sent + [p.phase.segment], phase := Reading))
    ensures p.phase.AtEnd? ==> PumpOk(out + [Ended(p.stream)], p.(phase := Closed))
  {
    if p.phase.Holding? {
      var m := Data(p.stream, p.phase.segment);
      TrailSnoc(out, m, p.stream);
      ConcatSnoc(p.sent, p.phase.segment);
      assert Datas(p.stream, p.sent + [p.phase.segment]) == Datas(p.stream, p.sent) + [m];
    } else {
      TrailSnoc(out, Ended(p.stream), p.stream);
    }
  }

  lemma SteppedTaskOk(s: State, e: Event)
    requires SpawnedStep(e) && Enabled(s, e) && TaskOk(Out(s), s.tasks[e.t])
    ensures TaskOk(Out(s) + Queued(s, e), Next(s, e).tasks[e.t])
  {
    match e
    case Finish(t) =>
    case PumpReads(t, _) => assert Out(s) + [] == Out(s);
    case PumpEnds(t) => assert Out(s) + [] == Out(s);
    case PumpSends(t) => PumpOkAfterSend(Out(s), s.tasks[t]);
  }

  lemma OtherTaskOk(s: State, e: Event, u: nat)
    requires SpawnedStep(e) && Enabled(s, e) && u < |s.tasks| && u != e.t
    requires NoDuplicates(PumpedStreams(s.tasks)) && TaskOk(Out(s), s.tasks[u])
    ensures TaskOk(Out(s) + Queued(s, e), s.tasks[u])
  {
    if Queued(s, e) == [] {
      assert Out(s) + [] == Out(s);
    } else {
      if s.tasks[u].Pump? && s.tasks[e.t].Pump? {
        PumpsDiffer(s.tasks, if u < e.t then u else e.t, if u < e.t then e.t else u);
      }
      TaskOkLater(Out(s), Queued(s, e)[0], s.tasks[u]);
    }
  }

  lemma SpawnedStepKeepsTasks(s: State, e: Event)
    requires TasksOk(Out(s), s.tasks) && NoDuplicates(PumpedStreams(s.tasks)) && SpawnedStep(e) && Enabled(s, e)
    ensures TasksOk(Out(s) + Queued(s, e), Next(s, e).tasks)
  {
    var s' := Next(s, e);
    SpawnedStepParts(s, e);
    forall u | 0 <= u < |s'.tasks|
      ensures TaskOk(Out(s) + Queued(s, e), s'.tasks[u])
    {
      assert TaskOk(Out(s), s.tasks[u]);
      if u == e.t {
        SteppedTaskOk(s, e);
      } else {
        OtherTaskOk(s, e, u);
      }
    }
  }

  lemma NamesInBoth(out: seq<Msg>, more: seq<Msg>, streams: seq<U32>, extra: seq<U32>)
    requires NamesIn(out, streams) && NamesIn(more, streams)
    ensures NamesIn(out + more, streams + extra)
  {
    var all := out + more;
    forall j | 0 <= j < |all| ensures NamedBy(all[j], streams + extra) {
      if j < |out| {
        assert NamedBy(out[j], streams);
      } else {
        assert NamedBy(more[j - |out|], streams);
      }
    }
  }

  lemma QueuedAreNamed(s: State, e: Event)
    requires SpawnedStep(e) && Enabled(s, e) && NamesIn(Out(s), PumpedStreams(s.tasks))
    ensures NamesIn(Out(s) + Queued(s, e), PumpedStreams(s.tasks))
  {
    if e.PumpSends? {
      StreamIsPumped(s.tasks, e.t);
    }
    NamesInBoth(Out(s), Queued(s, e), PumpedStreams(s.tasks), []);
    assert PumpedStreams(s.tasks) + [] == PumpedStreams(s.tasks);
  }

  lemma SpawnedStepKeepsSums(s: State, e: Event)
    requires SpawnedStep(e) && Enabled(s, e)
    requires Named(s.taken, s.frames, s.tasks) && Accounted(Out(s), s.tasks, s.taken)
    ensures PumpedStreams(Next(s, e).tasks) == PumpedStreams(s.tasks)
    ensures Accounted(Out(s) + Queued(s, e), Next(s, e).tasks, s.taken)
  {
    SpawnedStepParts(s, e);
    var task := Next(s, e).tasks[e.t];
    TaskStepPumps(s.tasks, e.t, task);
    TaskStepAccounts(Out(s), s.tasks, s.taken, e.t, task, Queued(s, e));
  }

  lemma SpawnedStepQueues(s: State, e: Event)
    requires SpawnedStep(e) && Enabled(s, e) && Bounded(s)
    ensures var s' := Next(s, e);
            Bounded(s') && Out(s') == Out(s) + Queued(s, e) && s'.taken == s.taken && s'.frames == s.frames
  {
    SpawnedStepParts(s, e);
    Assoc(s.wire, s.channel, Queued(s, e));
  }

  lemma SpawnedStepKeepsInv(s: State, e: Event)
    requires Inv(s) && SpawnedStep(e) && Enabled(s, e)
    ensures Inv(Next(s, e))
  {
    SpawnedStepQueues(s, e);
    SpawnedStepKeepsSums(s, e);
    PumpedAreDistinct(s.taken, s.frames, s.tasks);
    SpawnedStepKeepsTasks(s, e);
    QueuedAreNamed(s, e);
  }

  lemma TakeKeepsNames(out: seq<Msg>, tasks: seq<Task>, d: Dispatched)
    requires NamesIn(out, PumpedStreams(tasks)) && !d.Panicked?
    ensures NamesIn(out + SentAtOnce(d), PumpedStreams(tasks + Spawned(d, |out|)))
  {
    PumpedAfter(tasks, d, |out|);
    NamesInBoth(out, SentAtOnce(d), PumpedStreams(tasks), StreamsIn(d));
  }

  lemma TakeIsNamed(s: State)
    requires Inv(s) && Enabled(s, Take)
    ensures Named(DoTake(s).taken, DoTake(s).frames, DoTake(s).tasks)
  {
    TakeParts(s);
    HeadAndTail(s.frames);
    NamedAfterTake(s.taken, s.frames[0], s.frames[1..], s.tasks, |Out(s)|);
  }

  lemma TakeIsAccounted(s: State)
    requires Inv(s) && Enabled(s, Take)
    ensures Accounted(Out(DoTake(s)), DoTake(s).tasks, DoTake(s).taken)
  {
    TakeParts(s);
    AccountedAfterTake(Out(s), s.tasks, s.taken, s.frames[0], |Out(s)|);
  }

  lemma TakeHasTasksOk(s: State)
    requires Inv(s) && Enabled(s, Take)
    ensures TasksOk(Out(DoTake(s)), DoTake(s).tasks)
    ensures NamesIn(Out(DoTake(s)), PumpedStreams(DoTake(s).tasks))
  {
    TakeParts(s);
    HeadAndTail(s.frames);
    NextStreamsAreNew(s.taken, s.frames[0], s.frames[1..], s.tasks);
    TakeKeepsTasks(Out(s), s.tasks, s.frames[0]);
    TakeKeepsNames(Out(s), s.tasks, s.frames[0]);
  }

  /** The parts of the invariant, put together. */
  lemma InvOf(s: State, out: seq<Msg>)
    requires Bounded(s) && Out(s) == out
    requires Named(s.taken, s.frames, s.tasks)
    requires NamesIn(out, PumpedStreams(s.tasks)) && TasksOk(out, s.tasks) && Accounted(out, s.tasks, s.taken)
    ensures Inv(s)
  {
  }

  lemma TakeKeepsInv(s: State)
    requires Inv(s) && Enabled(s, Take)
    ensures Inv(DoTake(s))
  {
    TakeIsNamed(s);
    TakeIsAccounted(s);
    TakeHasTasksOk(s);
    TakeIsBounded(s);
    InvOf(DoTake(s), Out(DoTake(s)));
  }

  lemma TakeIsBounded(s: State)
    requires Bounded(s) && Enabled(s, Take)
    ensures Bounded(DoTake(s))
  {
  }

  lemma ReadKeepsInv(s: State, batch: seq<Dispatched>)
    requires Inv(s) && Enabled(s, Read(batch))
    ensures Inv(Next(s, Read(batch)))
  {
    InvOf(Next(s, Read(batch)), Out(s));
  }

  lemma DrainKeepsInv(s: State)
    requires Inv(s) && Enabled(s, Drain)
    ensures Inv(Next(s, Drain))
  {
    HeadAndTail(s.channel);
    Assoc(s.wire, [s.channel[0]], s.channel[1..]);
    InvOf(Next(s, Drain), Out(s));
  }

  lemma StepKeepsInv(s: State, e: Event)
    requires Inv(s) && Enabled(s, e)
    ensures Inv(Next(s, e))
  {
    if e.Take? {
      TakeKeepsInv(s);
    } else if SpawnedStep(e) {
      SpawnedStepKeepsInv(s, e);
    } else if e.Read? {
      ReadKeepsInv(s, e.batch);
    } else {
      DrainKeepsInv(s);
    }
  }

  // ----- whole runs -----

  ghost predicate Allowed(s: State, es: seq<Event>)
    decreases |es|
  {
    es == [] || (Enabled(s, es[0]) && Allowed(Next(s, es[0]), es[1..]))
  }

  ghost function Run(s: State, es: seq<Event>): State
    requires Allowed(s, es)
    decreases |es|
  {
    if es == [] then s else Run(Next(s, es[0]), es[1..])
  }

  lemma {:induction false} RunKeepsInv(s: State, es: seq<Event>)
    requires Inv(s) && Allowed(s, es)
    ensures Inv(Run(s, es))
    decreases |es|
  {
    if es != [] {
      StepKeepsInv(s, es[0]);
      RunKeepsInv(Next(s, es[0]), es[1..]);
    }
  }

  // ----- what was read -----

  function BatchOf(e: Event): seq<Dispatched> {
    if e.Read? then e.batch else []
  }

  /** The frames of all reads, in order. */
  function FramesRead(es: seq<Event>): seq<Dispatched> {
    Collect(BatchOf, es)
  }

  lemma StepTakesWhatWasRead(s: State, e: Event)
    requires Enabled(s, e)
    ensures Next(s, e).taken + Next(s, e).frames == s.taken + s.frames + BatchOf(e)
  {
    if e.Take? {
      TakeParts(s);
      HeadAndTail(s.frames);
      Assoc(s.taken, [s.frames[0]], s.frames[1..]);
      NothingMore(s.taken + s.frames);
    } else if e.Read? {
      NothingMore(s.taken);
    } else {
      NothingMore(s.taken + s.frames);
    }
  }

  lemma NothingMore(frames: seq<Dispatched>)
    ensures frames + [] == frames
  {
  }

  /** No frame read is left out: it has been taken, or waits, in the order of the reads. */
  lemma {:induction false} RunTakesWhatWasRead(s: State, es: seq<Event>)
    requires Allowed(s, es)
    ensures Run(s, es).taken + Run(s, es).frames == s.taken + s.frames + FramesRead(es)
    decreases |es|
  {
    if es == [] {
      assert s.taken + s.frames + [] == s.taken + s.frames;
    } else {
      StepTakesWhatWasRead(s, es[0]);
      RunTakesWhatWasRead(Next(s, es[0]), es[1..]);
      Assoc(s.taken + s.frames, BatchOf(es[0]), FramesRead(es[1..]));
    }
  }

  lemma TakenWereRead(es: seq<Event>)
    requires Allowed(INITIAL, es)
    ensures Run(INITIAL, es).taken + Run(INITIAL, es).frames == FramesRead(es)
  {
    RunTakesWhatWasRead(INITIAL, es);
    assert [] + [] + FramesRead(es) == FramesRead(es);
  }

  function SegmentFor(t: nat): Event -> seq<Bytes> {
    (e: Event) => if e.PumpReads? && e.t == t then [e.segment] else []
  }

  /** What task `t` read of its stream, in order. */
  function SegmentsRead(es: seq<Event>, t: nat): seq<Bytes> {
    Collect(SegmentFor(t), es)
  }

  /** What a pump has sent, and what it holds. */
  function SegmentsOf(tasks: seq<Task>, t: nat): seq<Bytes> {
    if t < |tasks| && tasks[t].Pump?
    then tasks[t].sent + (if tasks[t].phase.Holding? then [tasks[t].phase.segment] else [])
    else []
  }

  predicate HasEnded(tasks: seq<Task>, t: nat) {
    t < |tasks| && tasks[t].Pump? && (tasks[t].phase.AtEnd? || tasks[t].phase.Closed?)
  }

  lemma SpawnedAreNew(d: Dispatched, at: nat, i: nat)
    requires i < |Spawned(d, at)|
    ensures Spawned(d, at)[i].Pump? ==> Spawned(d, at)[i].sent == [] && Spawned(d, at)[i].phase == Reading
  {
    if d.Stream? && d.dto.Some? {
      PumpsAt(d.dto.value, at, |d.dto.value.streams|);
    }
  }

  lemma TakeKeepsSegments(s: State, t: nat)
    requires Enabled(s, Take)
    ensures SegmentsOf(DoTake(s).tasks, t) == SegmentsOf(s.tasks, t)
    ensures HasEnded(DoTake(s).tasks, t) <==> HasEnded(s.tasks, t)
  {
    TakeParts(s);
    if |s.tasks| <= t < |DoTake(s).tasks| {
      SpawnedAreNew(s.frames[0], |Out(s)|, t - |s.tasks|);
    }
  }

  lemma StepKeepsSegments(s: State, e: Event, t: nat)
    requires Enabled(s, e)
    ensures SegmentsOf(Next(s, e).tasks, t) == SegmentsOf(s.tasks, t) + SegmentFor(t)(e)
    ensures HasEnded(Next(s, e).tasks, t) <==> HasEnded(s.tasks, t) || e == PumpEnds(t)
  {
    if e.Take? {
      TakeKeepsSegments(s, t);
    }
  }

  lemma {:induction false} RunKeepsSegments(s: State, es: seq<Event>, t: nat)
    requires Allowed(s, es)
    ensures SegmentsOf(Run(s, es).tasks, t) == SegmentsOf(s.tasks, t) + SegmentsRead(es, t)
    ensures HasEnded(Run(s, es).tasks, t) <==> HasEnded(s.tasks, t) || PumpEnds(t) in es
    decreases |es|
  {
    if es == [] {
      assert SegmentsOf(s.tasks, t) + [] == SegmentsOf(s.tasks, t);
    } else {
      StepKeepsSegments(s, es[0], t);
      RunKeepsSegments(Next(s, es[0]), es[1..], t);
      HeadAndTail(es);
      Assoc(SegmentsOf(s.tasks, t), SegmentFor(t)(es[0]), SegmentsRead(es[1..], t));
    }
  }

  /** The reply a task sends or has sent, and the duplex call it belongs to. */
  function CallOfTask(task: Task): seq<(Option<Reply>, Option<Dto>)> {
    match task
    case Replier(reply, duplex, _) => [(reply, duplex)]
    case Answered(reply, duplex, _, _) => [(reply, duplex)]
    case Pump(_, _, _, _, _) => []
  }

  function CallOfFrame(d: Dispatched): seq<(Option<Reply>, Option<Dto>)> {
    match d
    case Future(reply) => [(reply, None)]
    case Stream(dto, reply) => [(reply, dto)]
    case _ => []
  }

  lemma {:induction false} PumpsAreNoCalls(dto: Dto, at: nat, n: nat)
    requires n <= |dto.streams|
    ensures Collect(CallOfTask, Pumps(dto, at, n)) == []
  {
    if n > 0 {
      PumpsAreNoCalls(dto, at, n - 1);
      CollectSnoc(CallOfTask, Pumps(dto, at, n - 1), Pump(dto.streams[n - 1], dto, at, [], Reading));
    }
  }

  lemma SpawnedCalls(d: Dispatched, at: nat)
    ensures Collect(CallOfTask, Spawned(d, at)) == CallOfFrame(d)
  {
    if d.Stream? && d.dto.Some? {
      PumpsAreNoCalls(d.dto.value, at, |d.dto.value.streams|);
      CollectSnoc(CallOfTask, Pumps(d.dto.value, at, |d.dto.value.streams|), Replier(d.reply, d.dto, at));
    } else if d.Stream? || d.Future? {
      CollectSnoc(CallOfTask, [], Replier(d.reply, None, 0));
      assert [] + [Replier(d.reply, None, 0)] == [Replier(d.reply, None, 0)];
    }
  }

  lemma StepKeepsCalls(s: State, e: Event)
    requires Enabled(s, e) && Collect(CallOfTask, s.tasks) == Collect(CallOfFrame, s.taken)
    ensures Collect(CallOfTask, Next(s, e).tasks) == Collect(CallOfFrame, Next(s, e).taken)
  {
    if e.Take? {
      TakeParts(s);
      SpawnedCalls(s.frames[0], |Out(s)|);
      CollectAppend(CallOfTask, s.tasks, Spawned(s.frames[0], |Out(s)|));
      CollectSnoc(CallOfFrame, s.taken, s.frames[0]);
    } else if SpawnedStep(e) {
      SpawnedStepParts(s, e);
      CollectUpdate(CallOfTask, s.tasks, e.t, Next(s, e).tasks[e.t]);
    }
  }

  /** Every frame taken that is answered later has a task of its own, in their order, which
      sends its reply, and knows its duplex call. */
  lemma {:induction false} RunKeepsCalls(s: State, es: seq<Event>)
    requires Allowed(s, es) && Collect(CallOfTask, s.tasks) == Collect(CallOfFrame, s.taken)
    ensures Collect(CallOfTask, Run(s, es).tasks) == Collect(CallOfFrame, Run(s, es).taken)
    decreases |es|
  {
    if es != [] {
      StepKeepsCalls(s, es[0]);
      RunKeepsCalls(Next(s, es[0]), es[1..]);
    }
  }

  /** The messages about a pump's stream are exactly the segments it read, short of the one
      it holds, and then the end, if it read the end and has sent it. */
  lemma PumpInEveryRun(es: seq<Event>, t: nat)
    requires Allowed(INITIAL, es) && t < |Run(INITIAL, es).tasks| && Run(INITIAL, es).tasks[t].Pump?
    ensures var p := Run(INITIAL, es).tasks[t];
            && p.sent + (if p.phase.Holding? then [p.phase.segment] else []) == SegmentsRead(es, t)
            && (p.phase.AtEnd? || p.phase.Closed? <==> PumpEnds(t) in es)
    ensures var s := Run(INITIAL, es);
            !s.tasks[t].phase.Holding? && !s.tasks[t].phase.AtEnd? ==>
              Trail(Out(s), s.tasks[t].stream) ==
                Datas(s.tasks[t].stream, SegmentsRead(es, t))
                + (if PumpEnds(t) in es then [Ended(s.tasks[t].stream)] else [])
  {
    RunKeepsSegments(INITIAL, es, t);
    assert [] + SegmentsRead(es, t) == SegmentsRead(es, t);
    RunKeepsInv(INITIAL, es);
    var s := Run(INITIAL, es);
    assert TaskOk(Out(s), s.tasks[t]);
    assert s.tasks[t].sent + [] == s.tasks[t].sent;
  }

  /** In every interleaving each stream of a duplex call whose frame was taken has one pump,
      whose messages come after the announcement of the call: the non-empty segments of at
      most 4096 bytes that it sent, in order, and one end, last. The call's answer comes
      after its announcement too. */
  lemma StreamsInEveryRun(es: seq<Event>)
    requires Allowed(INITIAL, es)
    ensures var s := Run(INITIAL, es);
            && PumpedStreams(s.tasks) + StreamsOf(s.frames) == StreamsOf(FramesRead(es))
            && NoDuplicates(PumpedStreams(s.tasks)) && TasksOk(Out(s), s.tasks)
            && forall t :: 0 <= t < |s.tasks| && s.tasks[t].Pump? ==>
                 forall i :: 0 <= i < |s.tasks[t].sent| ==> 0 < |s.tasks[t].sent[i]| <= 4096
  {
    RunKeepsInv(INITIAL, es);
    var s := Run(INITIAL, es);
    StreamsAreInOrder(s);
    TakenWereRead(es);
    forall t | 0 <= t < |s.tasks| && s.tasks[t].Pump?
      ensures forall i :: 0 <= i < |s.tasks[t].sent| ==> 0 < |s.tasks[t].sent[i]| <= 4096
    {
      assert TaskOk(Out(s), s.tasks[t]);
    }
  }

  lemma StreamsAreInOrder(s: State)
    requires Inv(s)
    ensures PumpedStreams(s.tasks) + StreamsOf(s.frames) == StreamsOf(s.taken + s.frames)
    ensures NoDuplicates(PumpedStreams(s.tasks)) && TasksOk(Out(s), s.tasks)
  {
    PumpedAreDistinct(s.taken, s.frames, s.tasks);
    CollectAppend(StreamsIn, s.taken, s.frames);
  }

  /** In every interleaving each frame read that is answered later has, once taken, a task of
      its own, in their order, with its reply and its duplex call. */
  lemma CallsInEveryRun(es: seq<Event>)
    requires Allowed(INITIAL, es)
    ensures var s := Run(INITIAL, es);
            Collect(CallOfTask, s.tasks) + Collect(CallOfFrame, s.frames) == Collect(CallOfFrame, FramesRead(es))
  {
    var s := Run(INITIAL, es);
    TakenWereRead(es);
    RunKeepsCalls(INITIAL, es);
    CollectAppend(CallOfFrame, s.taken, s.frames);
  }

  predicate NoFutures(tasks: seq<Task>) {
    forall t :: 0 <= t < |tasks| ==> !tasks[t].Replier?
  }

  /** Never more answers than the frames read call for; and once no frame waits and no future
      runs, exactly those. */
  lemma RepliesInEveryRun(es: seq<Event>)
    requires Allowed(INITIAL, es)
    ensures var s := Run(INITIAL, es);
            && Answers(Out(s)) <= Owed(FramesRead(es))
            && (s.frames == [] && NoFutures(s.tasks) ==> Answers(Out(s)) == Owed(FramesRead(es)))
  {
    RunKeepsInv(INITIAL, es);
    var s := Run(INITIAL, es);
    RepliesAreOwed(Out(s), s.tasks, s.taken);
    TakenWereRead(es);
    OwedMore(s.taken, s.frames);
    assert s.frames == [] ==> s.taken + s.frames == s.taken;
  }

  lemma OwedMore(taken: seq<Dispatched>, frames: seq<Dispatched>)
    ensures Owed(taken) <= Owed(taken + frames)
  {
    CollectAppend(ReplyOwed, taken, frames);
  }

  lemma RepliesAreOwed(out: seq<Msg>, tasks: seq<Task>, taken: seq<Dispatched>)
    requires Accounted(out, tasks, taken)
    ensures Answers(out) <= Owed(taken)
    ensures NoFutures(tasks) ==> Answers(out) == Owed(taken)
  {
    if NoFutures(tasks) {
      NothingUnsent(tasks);
    }
  }

  /** The ids of the replies among some messages. */
  function AnsweredIds(out: seq<Msg>): multiset<U32> {
    multiset(IdsOf(Collect(ReplyIn, out)))
  }

  /** Over any messages, read in any batches: in every run the ids answered are ids of
      requests among them, none more often than asked for; and once no frame waits and no
      future runs they are exactly the ids of the requests that carry one. */
  lemma RepliesToRequests(es: seq<Event>, methods: map<string, Kind>, msgs: seq<Message>)
    requires Allowed(INITIAL, es) && FramesRead(es) == FramesOf(methods, msgs)
    ensures var s := Run(INITIAL, es);
            && AnsweredIds(Out(s)) <= multiset(RequestIds(msgs))
            && (s.frames == [] && NoFutures(s.tasks) ==> AnsweredIds(Out(s)) == multiset(RequestIds(msgs)))
  {
    var s := Run(INITIAL, es);
    RepliesInEveryRun(es);
    OneReplyPerRequest(methods, msgs);
    IdsOfFewer(Collect(ReplyIn, Out(s)), RepliesOf(FramesRead(es)));
    if s.frames == [] && NoFutures(s.tasks) {
      IdsOfFewer(RepliesOf(FramesRead(es)), Collect(ReplyIn, Out(s)));
    }
  }

  lemma {:induction false} IdsOfFewer(a: seq<Reply>, b: seq<Reply>)
    requires multiset(a) <= multiset(b)
    ensures multiset(IdsOf(a)) <= multiset(IdsOf(b))
    decreases |a|
  {
    if a != [] {
      HeadOut(a);
      var p, q := FoundIn(a[0], a[1..], b);
      IdsOfFewer(a[1..], p + q);
      IdSplitOut(p, a[0], q);
      IdHeadOut(a);
    }
  }

  lemma IdHeadOut(a: seq<Reply>)
    requires a != []
    ensures multiset(IdsOf(a)) == multiset(IdsOf(a[1..])) + multiset{a[0].id}
  {
    var ids := IdsOf(a);
    assert ids == [ids[0]] + ids[1..];
  }

  /** Something in `b` too: what is before it, and what after. */
  lemma FoundIn(x: Reply, rest: seq<Reply>, b: seq<Reply>) returns (p: seq<Reply>, q: seq<Reply>)
    requires multiset(rest) + multiset{x} <= multiset(b)
    ensures b == p + ([x] + q) && multiset(rest) <= multiset(p + q)
  {
    assert x in multiset(rest) + multiset{x} && x in b;
    var j :| 0 <= j < |b| && b[j] == x;
    p, q := b[..j], b[j + 1..];
    SplitOut(p, x, q);
    assert b == p + ([x] + q);
    Cancel(multiset(rest), multiset(p + q), x);
  }

  lemma Cancel(a: multiset<Reply>, b: multiset<Reply>, x: Reply)
    requires a + multiset{x} <= b + multiset{x}
    ensures a <= b
  {
    forall y ensures a[y] <= b[y] {
      assert (a + multiset{x})[y] <= (b + multiset{x})[y];
    }
  }

  lemma HeadOut(a: seq<Reply>)
    requires a != []
    ensures multiset(a) == multiset(a[1..]) + multiset{a[0]}
  {
    assert a == [a[0]] + a[1..];
  }

  lemma SplitOut(p: seq<Reply>, x: Reply, q: seq<Reply>)
    ensures multiset(p + ([x] + q)) == multiset(p + q) + multiset{x}
  {
  }

  lemma IdSplitOut(p: seq<Reply>, x: Reply, q: seq<Reply>)
    ensures multiset(IdsOf(p + ([x] + q))) == multiset(IdsOf(p + q)) + multiset{x.id}
  {
    IdsOfMiddle(p, x, q);
    SplitIds(IdsOf(p), x.id, IdsOf(q));
  }

  lemma IdsOfMiddle(p: seq<Reply>, x: Reply, q: seq<Reply>)
    ensures IdsOf(p + ([x] + q)) == IdsOf(p) + ([x.id] + IdsOf(q))
    ensures IdsOf(p + q) == IdsOf(p) + IdsOf(q)
  {
    IdsOfAppend(p, [x] + q);
    IdsOfAppend([x], q);
    IdsOfAppend(p, q);
  }

  lemma SplitIds(p: seq<U32>, x: U32, q: seq<U32>)
    ensures multiset(p + ([x] + q)) == multiset(p + q) + multiset{x}
  {
  }

  lemma {:induction false} NothingUnsent(tasks: seq<Task>)
    requires forall t :: 0 <= t < |tasks| ==> !tasks[t].Replier?
    ensures Collect(ReplyUnsent, tasks) == []
  {
    if tasks != [] {
      NothingUnsent(tasks[1..]);
    }
  }

  /**
   The receive loop's own state and the tasks spawned from it. Each method is one
   atomic step; a send needs a free slot, which is what it waits for.
   */
  class Loop {
    var frames: seq<Dispatched>
    var channel: seq<Msg>
    var wire: seq<Msg>
    var tasks: seq<Task>
    ghost var taken: seq<Dispatched>

    ghost function View(): State
      reads this
    {
      State(frames, channel, wire, tasks, taken)
    }

    constructor ()
      ensures View() == INITIAL
    {
      frames, channel, wire, tasks, taken := [], [], [], [], [];
    }

    method ReadFrames(batch: seq<Dispatched>)
      requires Enabled(View(), Event.Read(batch))
      modifies this
      ensures View() == Next(old(View()), Event.Read(batch))
    {
      frames := batch;
    }

    method Send(m: Msg)
      requires |channel| < SLOTS
      modifies `channel
      ensures channel == old(channel) + [m]
    {
      channel := channel + [m];
    }

    /** Announces the streams of a duplex call, then spawns a pump for each. */
    method RegisterStream(dto: Dto)
      requires |channel| < SLOTS
      modifies `channel, `tasks
      ensures channel == old(channel) + [Started(dto)]
      ensures tasks == old(tasks) + Pumps(dto, |Out(old(View()))|, |dto.streams|)
    {
      ghost var at := |Out(View())|;
      Send(Started(dto));
      for i := 0 to |dto.streams|
        invariant tasks == old(tasks) + Pumps(dto, at, i)
        invariant channel == old(channel) + [Started(dto)]
      {
        tasks := tasks + [Pump(dto.streams[i], dto, |wire| + |channel| - 1, [], Reading)];
      }
    }

    /** What the loop does with the next frame of a read. */
    method HandleFrame()
      requires Enabled(View(), Event.Take)
      modifies this
      ensures View() == Next(old(View()), Event.Take)
    {
      var frame := frames[0];
      frames := frames[1..];
      taken := taken + [frame];
      match frame {
        case Sync(reply) =>
          if reply.Some? {
            Send(Answer(reply.value));
          }
        case Future(reply) =>
          tasks := tasks + [Replier(reply, None, 0)];
        case Stream(dto, reply) =>
          if dto.Some? {
            RegisterStream(dto.value);
            tasks := tasks + [Replier(reply, dto, |wire| + |channel| - 1)];
          } else {
            tasks := tasks + [Replier(reply, None, 0)];
          }
        case Panicked(_) => assert false;
      }
    }

    /** Between reads, the oldest queued message goes to the wire. */
    method WriteOne()
      requires Enabled(View(), Event.Drain)
      modifies this
      ensures View() == Next(old(View()), Event.Drain)
    {
      wire := wire + [channel[0]];
      channel := channel[1..];
    }

    /** A future is done, and sends its reply if there is one. */
    method FinishFuture(t: nat)
      requires Enabled(View(), Event.Finish(t))
      modifies this
      ensures View() == Next(old(View()), Event.Finish(t))
    {
      var Replier(reply, duplex, started) := tasks[t];
      tasks := tasks[t := Answered(reply, duplex, started, |wire| + |channel|)];
      if reply.Some? {
        Send(Answer(reply.value));
      }
    }

    /** What a pump does after a read of its stream: at least one byte, or the end. */
    method PumpRead(t: nat, segment: Bytes)
      requires Enabled(View(), if segment == [] then Event.PumpEnds(t) else Event.PumpReads(t, segment))
      modifies this
      ensures View() == Next(old(View()), if segment == [] then Event.PumpEnds(t) else Event.PumpReads(t, segment))
    {
      if segment == [] {
        tasks := tasks[t := tasks[t].(phase := AtEnd)];
      } else {
        tasks := tasks[t := tasks[t].(phase := Holding(segment))];
      }
    }

    method PumpSend(t: nat)
      requires Enabled(View(), Event.PumpSends(t))
      modifies this
      ensures View() == Next(old(View()), Event.PumpSends(t))
    {
      var p := tasks[t];
      if p.phase.AtEnd? {
        Send(Ended(p.stream));
        tasks := tasks[t := p.(phase := Closed)];
      } else {
        Send(Data(p.stream, p.phase.segment));
        tasks := tasks[t := p.(sent := p.sent + [p.phase.segment], phase := Reading)];
      }
    }
  }
}
