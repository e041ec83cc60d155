/**
 The stream multiplexer of the RPC dispatcher: a lock-protected map of stream
 records, and the write loops that carry their queues to the streams.

 Every region the program runs under the lock is one atomic step, and so are
 every `write_all` and every `shutdown`. The steps of any number of streams
 interleave in any order.
 */
module Streams {
  import opened Seqs

  /** Names one WriteHalf object. */
  type Half = nat

  datatype Holder = Record | Task(t: nat) | Gone

  /** The history of one write half, which the program does not keep: the stream
      it was inserted for, the bytes accepted for it, the bytes that went into
      it, whether every write succeeded, who holds it, how often it was shut down. */
  datatype Pipe = Pipe(
    id: U32, accepted: Bytes, delivered: Bytes, intact: bool, holder: Holder, shutdowns: nat)

  /** `half` is history too: the write half the record was inserted with. */
  datatype StreamRec = StreamRec(half: Half, write: Option<Half>, q: seq<Bytes>, ended: bool)

  /** A spawned task. A loop whose batch is empty is about to take the lock. */
  datatype Task =
    | Loop(id: U32, w: Half, items: seq<Bytes>)
    | Closing(w: Half)
    | Finished

  datatype State = State(streams: map<U32, StreamRec>, tasks: seq<Task>, pipes: map<Half, Pipe>)

  const INITIAL := State(map[], [], map[])

  datatype Event =
    | Insert(id: U32, w: Half)
    | Write(id: U32, buf: Bytes)
    | Remove(id: U32)
    | TakeTurn(t: nat)
    | WriteAll(t: nat)
    | WriteFails(t: nat, got: nat)
    | Shutdown(t: nat)

  predicate IsLoop(s: State, t: int) {
    0 <= t < |s.tasks| && s.tasks[t].Loop?
  }

  predicate IsClosing(s: State, t: int) {
    0 <= t < |s.tasks| && s.tasks[t].Closing?
  }

  /** The steps the program or its peers can take. A new write half is a new
      object; a failing `write_all` may have let `got` bytes through. */
  predicate Enabled(s: State, e: Event) {
    match e
    case Insert(_, w) => w !in s.pipes
    case Write(_, _) => true
    case Remove(_) => true
    case TakeTurn(t) => IsLoop(s, t) && s.tasks[t].items == []
    case WriteAll(t) => IsLoop(s, t) && s.tasks[t].items != []
    case WriteFails(t, got) => IsLoop(s, t) && s.tasks[t].items != [] && got <= |s.tasks[t].items[0]|
    case Shutdown(t) => IsClosing(s, t)
  }

  function Handed(pipes: map<Half, Pipe>, w: Half, to: Holder): map<Half, Pipe> {
    if w in pipes then pipes[w := pipes[w].(holder := to)] else pipes
  }

  function DoInsert(s: State, id: U32, w: Half): State {
    s.(streams := s.streams[id := StreamRec(w, Some(w), [], false)],
       pipes := s.pipes[w := Pipe(id, [], [], true, Record, 0)])
  }

  function DoWrite(s: State, id: U32, buf: Bytes): State {
    if id !in s.streams then s else
    var rec := s.streams[id];
    var pipes := if rec.half in s.pipes
                 then s.pipes[rec.half := s.pipes[rec.half].(accepted := s.pipes[rec.half].accepted + buf)]
                 else s.pipes;
    match rec.write
    case Some(w) => State(s.streams[id := rec.(write := None, q := rec.q + [buf])],
                          s.tasks + [Loop(id, w, [])],
                          Handed(pipes, w, Task(|s.tasks|)))
    case None => s.(streams := s.streams[id := rec.(q := rec.q + [buf])], pipes := pipes)
  }

  function DoRemove(s: State, id: U32): State {
    if id !in s.streams then s else
    match s.streams[id].write
    case Some(w) => State(s.streams - {id}, s.tasks + [Closing(w)], Handed(s.pipes, w, Task(|s.tasks|)))
    case None => s.(streams := s.streams[id := s.streams[id].(ended := true)])
  }

  function DoTurn(s: State, t: nat): State
    requires Enabled(s, TakeTurn(t))
  {
    var Loop(id, w, _) := s.tasks[t];
    if id !in s.streams then
      s.(tasks := s.tasks[t := Closing(w)])
    else
      var rec := s.streams[id];
      if rec.q != [] then
        s.(streams := s.streams[id := rec.(q := [])], tasks := s.tasks[t := Loop(id, w, rec.q)])
      else if rec.ended then
        s.(streams := s.streams - {id}, tasks := s.tasks[t := Closing(w)])
      else
        State(s.streams[id := rec.(write := Some(w))], s.tasks[t := Finished], Handed(s.pipes, w, Record))
  }

  /** `got` bytes of the first item go through; a failure drops the rest of the batch. */
  function DoDeliver(s: State, t: nat, got: nat, failed: bool): State
    requires Enabled(s, WriteFails(t, got))
  {
    var Loop(id, w, items) := s.tasks[t];
    var pipes := if w in s.pipes
                 then s.pipes[w := s.pipes[w].(delivered := s.pipes[w].delivered + items[0][..got],
                                               intact := s.pipes[w].intact && !failed)]
                 else s.pipes;
    s.(tasks := s.tasks[t := Loop(id, w, if failed then [] else items[1..])], pipes := pipes)
  }

  function DoShutdown(s: State, t: nat): State
    requires Enabled(s, Shutdown(t))
  {
    var w := s.tasks[t].w;
    var pipes := if w in s.pipes
                 then s.pipes[w := s.pipes[w].(shutdowns := s.pipes[w].shutdowns + 1, holder := Gone)]
                 else s.pipes;
    s.(tasks := s.tasks[t := Finished], pipes := pipes)
  }

  function Next(s: State, e: Event): State
    requires Enabled(s, e)
  {
    match e
    case Insert(id, w) => DoInsert(s, id, w)
    case Write(id, buf) => DoWrite(s, id, buf)
    case Remove(id) => DoRemove(s, id)
    case TakeTurn(t) => DoTurn(s, t)
    case WriteAll(t) => DoDeliver(s, t, |s.tasks[t].items[0]|, false)
    case WriteFails(t, got) => DoDeliver(s, t, got, true)
    case Shutdown(t) => DoShutdown(s, t)
  }

  // ----- what every reachable state keeps -----

  /** A record's half is its own, and is with the record or with one loop of that stream. */
  ghost predicate RecordOk(s: State, id: U32)
    requires id in s.streams
  {
    var rec := s.streams[id];
    && rec.half in s.pipes
    && s.pipes[rec.half].id == id
    && match rec.write
       case Some(w) => w == rec.half && s.pipes[w].holder == Record && rec.q == [] && !rec.ended
       case None => && s.pipes[rec.half].holder.Task?
                    && IsLoop(s, s.pipes[rec.half].holder.t)
                    && s.tasks[s.pipes[rec.half].holder.t].id == id
  }

  ghost predicate TaskOk(s: State, t: nat)
    requires t < |s.tasks|
  {
    match s.tasks[t]
    case Loop(id, w, _) => && id in s.streams && s.streams[id].half == w && s.streams[id].write.None?
                           && w in s.pipes && s.pipes[w].holder == Task(t)
    case Closing(w) => w in s.pipes && s.pipes[w].holder == Task(t)
    case Finished => true
  }

  /** A half is with its record, with a task, or shut down: once, and only then. */
  ghost predicate PipeOk(s: State, w: Half)
    requires w in s.pipes
  {
    var p := s.pipes[w];
    && p.shutdowns == (if p.holder == Gone then 1 else 0)
    && match p.holder
       case Record => p.id in s.streams && s.streams[p.id].half == w && s.streams[p.id].write == Some(w)
       case Task(t) => && t < |s.tasks| && !s.tasks[t].Finished? && s.tasks[t].w == w
                       && (s.tasks[t].Loop? ==>
                             && s.tasks[t].id == p.id
                             && p.id in s.streams && s.streams[p.id].half == w)
       case Gone => true
  }

  ghost predicate Custody(s: State) {
    && (forall id {:trigger RecordOk(s, id)} :: id in s.streams ==> RecordOk(s, id))
    && (forall t {:trigger TaskOk(s, t)} :: 0 <= t < |s.tasks| ==> TaskOk(s, t))
    && (forall w {:trigger PipeOk(s, w)} :: w in s.pipes ==> PipeOk(s, w))
  }

  /** Bytes accepted for a half and not yet written: the batch of its loop, then the queue. */
  function Pending(s: State, w: Half): Bytes
    requires w in s.pipes
  {
    var p := s.pipes[w];
    if p.holder.Task? && IsLoop(s, p.holder.t) && p.id in s.streams
    then Concat(s.tasks[p.holder.t].items) + Concat(s.streams[p.id].q)
    else []
  }

  /** Nothing is lost, doubled or reordered between acceptance and delivery:
      exactly as long as no write failed, and up to omissions ever after. */
  predicate Conserved(s: State, w: Half)
    requires w in s.pipes
  {
    var p := s.pipes[w];
    && Subseq(p.delivered + Pending(s, w), p.accepted)
    && (p.intact ==> p.delivered + Pending(s, w) == p.accepted)
  }

  ghost predicate Inv(s: State) {
    Custody(s) && forall w {:trigger Conserved(s, w)} :: w in s.pipes ==> Conserved(s, w)
  }

  // ----- every step keeps it -----

  lemma WritePending(s: State, id: U32, buf: Bytes)
    requires id in s.streams && RecordOk(s, id) && PipeOk(s, s.streams[id].half)
    ensures Pending(DoWrite(s, id, buf), s.streams[id].half) == Pending(s, s.streams[id].half) + buf
  {
    var rec := s.streams[id];
    ConcatSnoc(rec.q, buf);
    var batch := if rec.write.Some? then [] else s.tasks[s.pipes[rec.half].holder.t].items;
    assert Concat(batch) + (Concat(rec.q) + buf) == Concat(batch) + Concat(rec.q) + buf;
  }

  /** As far as conservation goes, nothing has happened to the half. */
  predicate SameBytes(s: State, s': State, v: Half) {
    && v in s.pipes && v in s'.pipes
    && s'.pipes[v].accepted == s.pipes[v].accepted && s'.pipes[v].delivered == s.pipes[v].delivered
    && s'.pipes[v].intact == s.pipes[v].intact && Pending(s', v) == Pending(s, v)
  }

  lemma SameBytesConserve(s: State, s': State, v: Half)
    requires SameBytes(s, s', v) && Conserved(s, v)
    ensures Conserved(s', v)
  {
  }

  lemma WrittenBytesConserve(s: State, s': State, v: Half, buf: Bytes)
    requires v in s.pipes && v in s'.pipes && Conserved(s, v)
    requires s'.pipes[v].accepted == s.pipes[v].accepted + buf && s'.pipes[v].delivered == s.pipes[v].delivered
    requires s'.pipes[v].intact == s.pipes[v].intact && Pending(s', v) == Pending(s, v) + buf
    ensures Conserved(s', v)
  {
    var p, pending := s.pipes[v], Pending(s, v);
    SubseqAppend(p.delivered + pending, p.accepted, buf);
    Assoc(p.delivered, pending, buf);
  }

  lemma WriteConserves(s: State, id: U32, buf: Bytes, v: Half)
    requires id in s.streams && RecordOk(s, id)
    requires v in s.pipes && PipeOk(s, v) && Conserved(s, v)
    ensures Conserved(DoWrite(s, id, buf), v)
  {
    var s' := DoWrite(s, id, buf);
    if v == s.streams[id].half {
      WritePending(s, id, buf);
      WrittenBytesConserve(s, s', v, buf);
    } else {
      WriteElsewhere(s, id, buf, v);
      SameBytesConserve(s, s', v);
    }
  }

  lemma WriteElsewhere(s: State, id: U32, buf: Bytes, v: Half)
    requires id in s.streams && RecordOk(s, id)
    requires v in s.pipes && PipeOk(s, v) && v != s.streams[id].half
    ensures SameBytes(s, DoWrite(s, id, buf), v)
  {
  }

  lemma RemoveConserves(s: State, id: U32, v: Half)
    requires id in s.streams && RecordOk(s, id)
    requires v in s.pipes && PipeOk(s, v) && Conserved(s, v)
    ensures Conserved(DoRemove(s, id), v)
  {
    RemoveKeepsBytes(s, id, v);
    SameBytesConserve(s, DoRemove(s, id), v);
  }

  lemma RemoveKeepsBytes(s: State, id: U32, v: Half)
    requires id in s.streams && RecordOk(s, id) && v in s.pipes && PipeOk(s, v)
    ensures SameBytes(s, DoRemove(s, id), v)
  {
  }

  lemma TurnConserves(s: State, t: nat, v: Half)
    requires Enabled(s, TakeTurn(t)) && TaskOk(s, t) && RecordOk(s, s.tasks[t].id)
    requires v in s.pipes && PipeOk(s, v) && Conserved(s, v)
    ensures Conserved(DoTurn(s, t), v)
  {
    TurnKeepsBytes(s, t, v);
    SameBytesConserve(s, DoTurn(s, t), v);
  }

  /** A queue taken becomes the batch. */
  lemma TurnKeepsBytes(s: State, t: nat, v: Half)
    requires Enabled(s, TakeTurn(t)) && TaskOk(s, t) && RecordOk(s, s.tasks[t].id)
    requires v in s.pipes && PipeOk(s, v)
    ensures SameBytes(s, DoTurn(s, t), v)
  {
    if v == s.tasks[t].w {
      var q := Concat(s.streams[s.tasks[t].id].q);
      assert [] + q == q && q + [] == q;
    }
  }

  /** What a write does to the half's own bytes: `sent` goes out, `lost` is dropped
      by a failure and otherwise stays in the batch. */
  lemma DeliverPending(s: State, t: nat, got: nat, failed: bool)
    requires Enabled(s, WriteFails(t, got)) && TaskOk(s, t) && RecordOk(s, s.tasks[t].id)
    ensures var items := s.tasks[t].items;
            var w := s.tasks[t].w;
            var lost := items[0][got..] + Concat(items[1..]);
            var q := Concat(s.streams[s.tasks[t].id].q);
            && Pending(s, w) == items[0][..got] + lost + q
            && Pending(DoDeliver(s, t, got, failed), w) ==
                 if failed then q else Concat(items[1..]) + q
  {
    var items := s.tasks[t].items;
    assert items[0] == items[0][..got] + items[0][got..];
    assert Concat(items) == items[0] + Concat(items[1..]);
  }

  lemma DeliverConserves(s: State, t: nat, got: nat, failed: bool, v: Half)
    requires Enabled(s, WriteFails(t, got)) && (failed || got == |s.tasks[t].items[0]|)
    requires TaskOk(s, t) && RecordOk(s, s.tasks[t].id)
    requires v in s.pipes && PipeOk(s, v) && Conserved(s, v)
    ensures Conserved(DoDeliver(s, t, got, failed), v)
  {
    var s' := DoDeliver(s, t, got, failed);
    var Loop(id, w, items) := s.tasks[t];
    if v == w {
      DeliverPending(s, t, got, failed);
      SubseqAdvance(s.pipes[w].delivered, items[0][..got], items[0][got..] + Concat(items[1..]),
                    Concat(s.streams[id].q), s.pipes[w].accepted);
      assert !failed ==> items[0][got..] + Concat(items[1..]) == Concat(items[1..]);
    } else {
      assert Pending(s', v) == Pending(s, v);
    }
  }

  /** The steps of spawned tasks; the others are made on the map. */
  predicate TaskStep(e: Event) {
    e.TakeTurn? || e.WriteAll? || e.WriteFails? || e.Shutdown?
  }

  /** The precondition the id counter provides: no live stream is inserted over. */
  predicate Fresh(s: State, e: Event) {
    e.Insert? ==> e.id !in s.streams
  }

  /** The record and the task a step is about are in order. */
  ghost predicate SiteOk(s: State, e: Event)
    requires Enabled(s, e)
  {
    match e
    case Insert(id, _) => id !in s.streams
    case Write(id, _) => id in s.streams ==> RecordOk(s, id)
    case Remove(id) => id in s.streams ==> RecordOk(s, id)
    case TakeTurn(t) => TaskOk(s, t) && RecordOk(s, s.tasks[t].id)
    case WriteAll(t) => TaskOk(s, t) && RecordOk(s, s.tasks[t].id)
    case WriteFails(t, _) => TaskOk(s, t) && RecordOk(s, s.tasks[t].id)
    case Shutdown(t) => TaskOk(s, t)
  }

  lemma RecordKept(s: State, e: Event, id: U32)
    requires Enabled(s, e) && SiteOk(s, e)
    requires id in Next(s, e).streams && (id in s.streams ==> RecordOk(s, id))
    ensures RecordOk(Next(s, e), id)
  {
    if TaskStep(e) {
      TaskStepKeepsRecord(s, e, id);
    } else {
      MapStepKeepsRecord(s, e, id);
    }
  }

  lemma TaskStepKeepsRecord(s: State, e: Event, id: U32)
    requires TaskStep(e) && Enabled(s, e) && SiteOk(s, e)
    requires id in Next(s, e).streams && (id in s.streams ==> RecordOk(s, id))
    ensures RecordOk(Next(s, e), id)
  {
  }

  lemma MapStepKeepsRecord(s: State, e: Event, id: U32)
    requires !TaskStep(e) && Enabled(s, e) && SiteOk(s, e)
    requires id in Next(s, e).streams && (id in s.streams ==> RecordOk(s, id))
    ensures RecordOk(Next(s, e), id)
  {
  }

  lemma TaskKept(s: State, e: Event, t: nat)
    requires Enabled(s, e) && SiteOk(s, e)
    requires t < |Next(s, e).tasks| && (t < |s.tasks| ==> TaskOk(s, t))
    ensures TaskOk(Next(s, e), t)
  {
    if TaskStep(e) {
      TaskStepKeepsTask(s, e, t);
    } else {
      MapStepKeepsTask(s, e, t);
    }
  }

  lemma TaskStepKeepsTask(s: State, e: Event, t: nat)
    requires TaskStep(e) && Enabled(s, e) && SiteOk(s, e)
    requires t < |Next(s, e).tasks| && (t < |s.tasks| ==> TaskOk(s, t))
    ensures TaskOk(Next(s, e), t)
  {
  }

  lemma MapStepKeepsTask(s: State, e: Event, t: nat)
    requires !TaskStep(e) && Enabled(s, e) && SiteOk(s, e)
    requires t < |Next(s, e).tasks| && (t < |s.tasks| ==> TaskOk(s, t))
    ensures TaskOk(Next(s, e), t)
  {
  }

  lemma PipeKept(s: State, e: Event, w: Half)
    requires Enabled(s, e) && SiteOk(s, e)
    requires w in Next(s, e).pipes && (w in s.pipes ==> PipeOk(s, w))
    ensures PipeOk(Next(s, e), w)
  {
    if TaskStep(e) {
      TaskStepKeepsPipe(s, e, w);
    } else {
      MapStepKeepsPipe(s, e, w);
    }
  }

  lemma TaskStepKeepsPipe(s: State, e: Event, w: Half)
    requires TaskStep(e) && Enabled(s, e) && SiteOk(s, e)
    requires w in Next(s, e).pipes && (w in s.pipes ==> PipeOk(s, w))
    ensures PipeOk(Next(s, e), w)
  {
  }

  lemma MapStepKeepsPipe(s: State, e: Event, w: Half)
    requires !TaskStep(e) && Enabled(s, e) && SiteOk(s, e)
    requires w in Next(s, e).pipes && (w in s.pipes ==> PipeOk(s, w))
    ensures PipeOk(Next(s, e), w)
  {
    match e
    case Insert(_, _) =>
    case Write(id, buf) => WriteKeepsPipe(s, id, buf, w);
    case Remove(_) =>
  }

  lemma WriteKeepsPipe(s: State, id: U32, buf: Bytes, w: Half)
    requires (id in s.streams ==> RecordOk(s, id)) && w in s.pipes && PipeOk(s, w)
    ensures w in DoWrite(s, id, buf).pipes && PipeOk(DoWrite(s, id, buf), w)
  {
  }

  lemma CustodyKept(s: State, e: Event)
    requires Custody(s) && Enabled(s, e) && SiteOk(s, e)
    ensures Custody(Next(s, e))
  {
    var s' := Next(s, e);
    forall i | i in s'.streams ensures RecordOk(s', i) {
      RecordKept(s, e, i);
    }
    forall u | 0 <= u < |s'.tasks| ensures TaskOk(s', u) {
      TaskKept(s, e, u);
    }
    forall v | v in s'.pipes ensures PipeOk(s', v) {
      PipeKept(s, e, v);
    }
  }

  lemma StepConserves(s: State, e: Event, v: Half)
    requires Enabled(s, e) && Fresh(s, e) && SiteOk(s, e)
    requires v in Next(s, e).pipes && (v in s.pipes ==> PipeOk(s, v) && Conserved(s, v))
    ensures Conserved(Next(s, e), v)
  {
    var s' := Next(s, e);
    match e
    case Insert(id, w) => if v in s.pipes { SameBytesConserve(s, s', v); }
    case Write(id, buf) => if id in s.streams { WriteConserves(s, id, buf, v); }
    case Remove(id) => if id in s.streams { RemoveConserves(s, id, v); }
    case TakeTurn(t) => TurnConserves(s, t, v);
    case WriteAll(t) => DeliverConserves(s, t, |s.tasks[t].items[0]|, false, v);
    case WriteFails(t, got) => DeliverConserves(s, t, got, true, v);
    case Shutdown(t) => SameBytesConserve(s, s', v);
  }

  lemma SiteIsOk(s: State, e: Event)
    requires Custody(s) && Enabled(s, e) && Fresh(s, e)
    ensures SiteOk(s, e)
  {
    match e
    case Insert(_, _) =>
    case Write(id, _) => assert id in s.streams ==> RecordOk(s, id);
    case Remove(id) => assert id in s.streams ==> RecordOk(s, id);
    case TakeTurn(t) => assert TaskOk(s, t) && RecordOk(s, s.tasks[t].id);
    case WriteAll(t) => assert TaskOk(s, t) && RecordOk(s, s.tasks[t].id);
    case WriteFails(t, _) => assert TaskOk(s, t) && RecordOk(s, s.tasks[t].id);
    case Shutdown(t) => assert TaskOk(s, t);
  }

  lemma StepKeepsInv(s: State, e: Event)
    requires Inv(s) && Enabled(s, e) && Fresh(s, e)
    ensures Inv(Next(s, e))
  {
    SiteIsOk(s, e);
    CustodyKept(s, e);
    forall v | v in Next(s, e).pipes ensures Conserved(Next(s, e), v) {
      assert v in s.pipes ==> PipeOk(s, v) && Conserved(s, v);
      StepConserves(s, e, v);
    }
  }

  /** A stream can be inserted exactly when its id names no live stream. */
  lemma InsertKeepsInv(s: State, id: U32, w: Half)
    requires Inv(s) && w !in s.pipes
    ensures Inv(DoInsert(s, id, w)) <==> id !in s.streams
  {
    if id !in s.streams {
      StepKeepsInv(s, Insert(id, w));
    } else {
      var lost := s.streams[id].half;
      assert RecordOk(s, id);
      assert !PipeOk(DoInsert(s, id, w), lost);
    }
  }

  /** After the first shutdown nothing more is accepted for a half or written to it. */
  lemma ShutDownIsFinal(s: State, e: Event, w: Half)
    requires Inv(s) && Enabled(s, e)
    requires w in s.pipes && s.pipes[w].shutdowns == 1
    ensures w in Next(s, e).pipes && Next(s, e).pipes[w] == s.pipes[w]
  {
    assert PipeOk(s, w) && s.pipes[w].holder == Gone;
    match e
    case Write(id, _) => assert id in s.streams ==> RecordOk(s, id);
    case Remove(id) => assert id in s.streams ==> RecordOk(s, id);
    case Insert(_, _) =>
    case TakeTurn(t) => assert TaskOk(s, t);
    case WriteAll(t) => assert TaskOk(s, t);
    case WriteFails(t, _) => assert TaskOk(s, t);
    case Shutdown(t) => assert TaskOk(s, t);
  }

  // ----- whole runs -----

  ghost predicate Allowed(s: State, es: seq<Event>)
    decreases |es|
  {
    es == [] || (Enabled(s, es[0]) && Fresh(s, es[0]) && Allowed(Next(s, es[0]), es[1..]))
  }

  ghost function Run(s: State, es: seq<Event>): State
    requires Allowed(s, es)
    decreases |es|
  {
    if es == [] then s else Run(Next(s, es[0]), es[1..])
  }

  lemma {:induction false} RunKeepsInv(s: State, es: seq<Event>)
    requires Inv(s) && Allowed(s, es)
    ensures Inv(Run(s, es))
    decreases |es|
  {
    if es != [] {
      StepKeepsInv(s, es[0]);
      RunKeepsInv(Next(s, es[0]), es[1..]);
    }
  }

  // ----- what the histories record -----

  /** What one step has a half accept and puts into it; whether it is a write to it that
      fails, and whether it shuts it down. */
  function AcceptedBy(s: State, e: Event, w: Half): Bytes {
    if e.Write? && e.id in s.streams && s.streams[e.id].half == w then e.buf else []
  }

  function DeliveredBy(s: State, e: Event, w: Half): Bytes
    requires Enabled(s, e)
  {
    match e
    case WriteAll(t) => if s.tasks[t].w == w then s.tasks[t].items[0] else []
    case WriteFails(t, got) => if s.tasks[t].w == w then s.tasks[t].items[0][..got] else []
    case _ => []
  }

  predicate FailsBy(s: State, e: Event, w: Half)
    requires Enabled(s, e)
  {
    e.WriteFails? && s.tasks[e.t].w == w
  }

  predicate ShutBy(s: State, e: Event, w: Half)
    requires Enabled(s, e)
  {
    e.Shutdown? && s.tasks[e.t].w == w
  }

  datatype Log = Log(accepted: Bytes, delivered: Bytes, failed: bool, shutdowns: nat)

  const NOTHING := Log([], [], false, 0)

  function Logged(log: Log, s: State, e: Event, w: Half): Log
    requires Enabled(s, e)
  {
    Log(log.accepted + AcceptedBy(s, e, w), log.delivered + DeliveredBy(s, e, w), log.failed || FailsBy(s, e, w),
        log.shutdowns + if ShutBy(s, e, w) then 1 else 0)
  }

  /** The steps of a run that concern a half, added up. */
  ghost function LogOf(log: Log, s: State, es: seq<Event>, w: Half): Log
    requires Allowed(s, es)
    decreases |es|
  {
    if es == [] then log else LogOf(Logged(log, s, es[0], w), Next(s, es[0]), es[1..], w)
  }

  /** The histories say the same. */
  predicate Records(s: State, w: Half, log: Log) {
    if w in s.pipes then
      var p := s.pipes[w];
      p.accepted == log.accepted && p.delivered == log.delivered && p.intact == !log.failed
      && p.shutdowns == log.shutdowns
    else log == NOTHING
  }

  lemma StepIsRecorded(s: State, e: Event, w: Half, log: Log)
    requires Enabled(s, e) && SiteOk(s, e) && Records(s, w, log)
    ensures Records(Next(s, e), w, Logged(log, s, e, w))
  {
    assert log.accepted + [] == log.accepted && log.delivered + [] == log.delivered;
    if TaskStep(e) {
      TaskStepIsRecorded(s, e, w, log);
    }
  }

  lemma TaskStepIsRecorded(s: State, e: Event, w: Half, log: Log)
    requires TaskStep(e) && Enabled(s, e) && SiteOk(s, e) && Records(s, w, log)
    ensures Records(Next(s, e), w, Logged(log, s, e, w))
  {
    assert log.accepted + [] == log.accepted && log.delivered + [] == log.delivered;
    if e.WriteAll? {
      var item := s.tasks[e.t].items[0];
      assert item[..|item|] == item;
    }
  }

  lemma {:induction false} RunIsRecorded(s: State, es: seq<Event>, w: Half, log: Log)
    requires Inv(s) && Allowed(s, es) && Records(s, w, log)
    ensures Records(Run(s, es), w, LogOf(log, s, es, w))
    decreases |es|
  {
    if es != [] {
      SiteIsOk(s, es[0]);
      StepKeepsInv(s, es[0]);
      StepIsRecorded(s, es[0], w, log);
      RunIsRecorded(Next(s, es[0]), es[1..], w, Logged(log, s, es[0], w));
    }
  }

  /** In every interleaving, of the steps of the run alone: what was written to a half is, in
      order, what was accepted for it, short of what its loop and its queue still hold; a
      half is shut down at most once, and by then everything accepted is out. */
  lemma DeliveryInEveryRun(es: seq<Event>, w: Half)
    requires Allowed(INITIAL, es) && w in Run(INITIAL, es).pipes
    ensures var log := LogOf(NOTHING, INITIAL, es, w);
            && (!log.failed ==> log.delivered + Pending(Run(INITIAL, es), w) == log.accepted)
            && Subseq(log.delivered, log.accepted)
            && log.shutdowns <= 1
            && (log.shutdowns == 1 && !log.failed ==> log.delivered == log.accepted)
  {
    RunKeepsInv(INITIAL, es);
    RunIsRecorded(INITIAL, es, w, NOTHING);
    DeliveryIn(Run(INITIAL, es), w);
  }

  lemma DeliveryIn(s: State, w: Half)
    requires Inv(s) && w in s.pipes
    ensures var p := s.pipes[w];
            && (p.intact ==> p.delivered + Pending(s, w) == p.accepted)
            && Subseq(p.delivered, p.accepted)
            && p.shutdowns <= 1
            && (p.shutdowns == 1 && p.intact ==> p.delivered == p.accepted)
  {
    var p := s.pipes[w];
    assert PipeOk(s, w) && Conserved(s, w);
    assert p.delivered + Pending(s, w) + [] == p.delivered + Pending(s, w);
    SubseqDropMiddle(p.delivered, Pending(s, w), [], p.accepted);
    assert p.delivered + [] == p.delivered;
  }

  /** In every interleaving: a loop finds its record in the map and the record
      finds its half gone; a record that has its half has an empty queue, is not
      ended, and no loop runs for it; no two loops run for one stream. */
  lemma CustodyInEveryRun(es: seq<Event>)
    requires Allowed(INITIAL, es)
    ensures var s := Run(INITIAL, es);
            && (forall t :: IsLoop(s, t) ==>
                  s.tasks[t].id in s.streams && s.streams[s.tasks[t].id].write.None?)
            && (forall t, u :: IsLoop(s, t) && IsLoop(s, u) && t != u ==> s.tasks[t].id != s.tasks[u].id)
            && (forall id :: id in s.streams && s.streams[id].write.None? ==>
                  exists t :: IsLoop(s, t) && s.tasks[t].id == id)
            && (forall id :: id in s.streams && s.streams[id].write.Some? ==>
                  s.streams[id].q == [] && !s.streams[id].ended)
  {
    RunKeepsInv(INITIAL, es);
    var s := Run(INITIAL, es);
    forall t | IsLoop(s, t)
      ensures s.tasks[t].id in s.streams && s.streams[s.tasks[t].id].write.None?
    {
      assert TaskOk(s, t);
    }
    forall t, u | IsLoop(s, t) && IsLoop(s, u) && t != u
      ensures s.tasks[t].id != s.tasks[u].id
    {
      assert TaskOk(s, t) && TaskOk(s, u);
    }
    forall id | id in s.streams
      ensures s.streams[id].write.None? ==> exists t :: IsLoop(s, t) && s.tasks[t].id == id
      ensures s.streams[id].write.Some? ==> s.streams[id].q == [] && !s.streams[id].ended
    {
      assert RecordOk(s, id);
    }
  }

  /** Ids that are never inserted twice satisfy `Fresh` in every interleaving. */
  lemma {:induction false} UniqueIdsAreFresh(s: State, es: seq<Event>)
    requires forall i, j :: 0 <= i < j < |es| && es[i].Insert? && es[j].Insert? ==> es[i].id != es[j].id
    requires forall i :: 0 <= i < |es| && es[i].Insert? ==> es[i].id !in s.streams
    ensures Allowed(s, es) <==> Possible(s, es)
    decreases |es|
  {
    if es != [] && Enabled(s, es[0]) {
      UniqueIdsAreFresh(Next(s, es[0]), es[1..]);
    }
  }

  ghost predicate Possible(s: State, es: seq<Event>)
    decreases |es|
  {
    es == [] || (Enabled(s, es[0]) && Possible(Next(s, es[0]), es[1..]))
  }

  // ----- progress: once the peers fall silent, every loop ends -----

  function Weight(s: State, task: Task): nat {
    match task
    case Loop(id, _, items) => 2 + |items| + if id in s.streams then 2 * |s.streams[id].q| else 0
    case Closing(_) => 1
    case Finished => 0
  }

  /** Batches and queues still to be written, and tasks still to end. */
  function Work(s: State, tasks: seq<Task>): nat {
    if tasks == [] then 0 else Weight(s, tasks[0]) + Work(s, tasks[1..])
  }

  lemma {:induction false} WorkFalls(s: State, s': State, tasks: seq<Task>, tasks': seq<Task>, t: nat)
    requires |tasks| == |tasks'|
    requires forall u :: 0 <= u < |tasks| ==> Weight(s', tasks'[u]) <= Weight(s, tasks[u])
    requires t < |tasks| ==> Weight(s', tasks'[t]) < Weight(s, tasks[t])
    ensures Work(s', tasks') <= Work(s, tasks)
    ensures t < |tasks| ==> Work(s', tasks') < Work(s, tasks)
  {
    if tasks != [] {
      assert Weight(s', tasks'[0]) <= Weight(s, tasks[0]);
      WorkFalls(s, s', tasks[1..], tasks'[1..], if t == 0 then |tasks| else t - 1);
    }
  }

  lemma StepTakesWork(s: State, e: Event)
    requires TaskStep(e) && Enabled(s, e)
    ensures Work(Next(s, e), Next(s, e).tasks) < Work(s, s.tasks)
  {
    var s' := Next(s, e);
    WorkFalls(s, s', s.tasks, s'.tasks, e.t);
  }

  /** However the tasks are scheduled, they take at most `Work` steps. */
  lemma {:induction false} TaskStepsAreBounded(s: State, es: seq<Event>)
    requires Allowed(s, es) && forall i :: 0 <= i < |es| ==> TaskStep(es[i])
    ensures |es| + Work(Run(s, es), Run(s, es).tasks) <= Work(s, s.tasks)
    decreases |es|
  {
    if es != [] {
      StepTakesWork(s, es[0]);
      TaskStepsAreBounded(Next(s, es[0]), es[1..]);
    }
  }

  predicate Settled(s: State) {
    forall t :: 0 <= t < |s.tasks| ==> s.tasks[t].Finished?
  }

  /** A task that has not finished can always step, so the bound is reached only
      at a settled state: there every record has its half back, no ended record
      is left in the map, and every byte accepted is out. */
  lemma SettledMeansDone(s: State)
    requires Inv(s)
    ensures !Settled(s) ==> exists e :: TaskStep(e) && Enabled(s, e)
    ensures Settled(s) ==> forall id :: id in s.streams ==>
              s.streams[id].write.Some? && s.streams[id].q == [] && !s.streams[id].ended
    ensures Settled(s) ==> forall w :: w in s.pipes ==>
              && (s.pipes[w].intact ==> s.pipes[w].delivered == s.pipes[w].accepted)
              && (s.pipes[w].shutdowns == 1 || s.pipes[w].id in s.streams)
  {
    if !Settled(s) {
      var t :| 0 <= t < |s.tasks| && !s.tasks[t].Finished?;
      var e := if s.tasks[t].Closing? then Shutdown(t)
               else if s.tasks[t].items == [] then TakeTurn(t) else WriteAll(t);
      assert TaskStep(e) && Enabled(s, e);
    } else {
      forall id | id in s.streams
        ensures s.streams[id].write.Some? && s.streams[id].q == [] && !s.streams[id].ended
      {
        assert RecordOk(s, id);
      }
      forall w | w in s.pipes
        ensures s.pipes[w].intact ==> s.pipes[w].delivered == s.pipes[w].accepted
        ensures s.pipes[w].shutdowns == 1 || s.pipes[w].id in s.streams
      {
        assert PipeOk(s, w) && Conserved(s, w);
      }
    }
  }

  /** Ending a stream: whatever happens then, to this stream's id and to all others,
      once the tasks settle its record is gone, and its half was shut down after every
      byte ever accepted for it. */
  lemma EndedStreamCloses(s: State, id: U32, es: seq<Event>)
    requires Inv(s) && id in s.streams
    requires Allowed(DoRemove(s, id), es) && Settled(Run(DoRemove(s, id), es))
    ensures var w := s.streams[id].half;
            var s' := Run(DoRemove(s, id), es);
            && (forall i :: i in s'.streams ==> s'.streams[i].half != w)
            && w in s'.pipes && s'.pipes[w].shutdowns == 1
            && (s'.pipes[w].intact ==> s'.pipes[w].delivered == s'.pipes[w].accepted)
  {
    var w := s.streams[id].half;
    assert RecordOk(s, id);
    StepKeepsInv(s, Remove(id));
    EndingLasts(DoRemove(s, id), id, w, es);
    RunKeepsInv(DoRemove(s, id), es);
    EndingSettles(Run(DoRemove(s, id), es), id, w);
  }

  lemma EndingSettles(s: State, id: U32, w: Half)
    requires Inv(s) && Ending(s, id, w) && Settled(s)
    ensures forall i :: i in s.streams ==> s.streams[i].half != w
    ensures s.pipes[w].shutdowns == 1 && (s.pipes[w].intact ==> s.pipes[w].delivered == s.pipes[w].accepted)
  {
    SettledMeansDone(s);
    assert PipeOk(s, w) && Conserved(s, w);
    forall i | i in s.streams ensures s.streams[i].half != w {
      assert RecordOk(s, i);
    }
  }

  /** The stream was removed: if its record still has the half, it is ended. */
  ghost predicate Ending(s: State, id: U32, w: Half) {
    && w in s.pipes && s.pipes[w].id == id
    && (id in s.streams && s.streams[id].half == w ==> s.streams[id].ended)
  }

  lemma StepKeepsEnding(s: State, e: Event, id: U32, w: Half)
    requires Inv(s) && Enabled(s, e) && Fresh(s, e) && Ending(s, id, w)
    ensures Ending(Next(s, e), id, w)
  {
    assert id in s.streams ==> RecordOk(s, id);
  }

  lemma {:induction false} EndingLasts(s: State, id: U32, w: Half, es: seq<Event>)
    requires Inv(s) && Ending(s, id, w) && Allowed(s, es)
    ensures Ending(Run(s, es), id, w)
    decreases |es|
  {
    if es != [] {
      StepKeepsInv(s, es[0]);
      StepKeepsEnding(s, es[0], id, w);
      EndingLasts(Next(s, es[0]), id, w, es[1..]);
    }
  }

  /** Why ids must not be reused while live: a loop left over from the first
      stream 7 writes to the first stream what was accepted for the second. */
  lemma ReusedIdMisdelivers(a: Bytes, b: Bytes)
    requires a != [] && b != []
    ensures var s0 := DoWrite(DoInsert(INITIAL, 7, 0), 7, a);
            var s1 := DoWrite(DoInsert(s0, 7, 1), 7, b);
            && Enabled(s1, TakeTurn(0))
            && Enabled(DoTurn(s1, 0), WriteAll(0))
            && var s2 := Next(DoTurn(s1, 0), WriteAll(0));
               && s2.pipes[1].accepted == b && s2.pipes[0].accepted == a
               && s2.pipes[0].delivered == b
  {
    var s0 := DoWrite(DoInsert(INITIAL, 7, 0), 7, a);
    var s1 := DoWrite(DoInsert(s0, 7, 1), 7, b);
    assert s1.tasks[0] == Loop(7, 0, []);
    assert DoTurn(s1, 0).tasks[0] == Loop(7, 0, [b]);
    assert b[..|b|] == b;
  }

  /**
   The map behind the lock, and the tasks spawned on it. Each method is one
   atomic step and is proved to take the state where `Next` takes it.
   */
  class Multiplexer {
    var streams: map<U32, StreamRec>
    var tasks: seq<Task>
    ghost var pipes: map<Half, Pipe>

    ghost function View(): State
      reads this
    {
      State(streams, tasks, pipes)
    }

    constructor ()
      ensures View() == INITIAL
    {
      streams, tasks, pipes := map[], [], map[];
    }

    method Insert(id: U32, w: Half)
      requires w !in pipes
      modifies this
      ensures View() == Next(old(View()), Event.Insert(id, w))
    {
      streams := streams[id := StreamRec(w, Some(w), [], false)];
      pipes := pipes[w := Pipe(id, [], [], true, Record, 0)];
    }

    method Write(id: U32, buf: Bytes)
      modifies this
      ensures View() == Next(old(View()), Event.Write(id, buf))
    {
      if id in streams {
        var s := streams[id];
        s := s.(q := s.q + [buf]);
        if s.half in pipes {
          pipes := pipes[s.half := pipes[s.half].(accepted := pipes[s.half].accepted + buf)];
        }
        if s.write.Some? {
          var w := s.write.value;
          s := s.(write := None);
          pipes := Handed(pipes, w, Task(|tasks|));
          tasks := tasks + [Loop(id, w, [])];
        }
        streams := streams[id := s];
      }
    }

    method Remove(id: U32)
      modifies this
      ensures View() == Next(old(View()), Event.Remove(id))
    {
      var remove: Option<Half> := None;
      if id in streams {
        var s := streams[id];
        remove := s.write;
        if remove.Some? {
          streams := streams - {id};
        } else {
          streams := streams[id := s.(ended := true)];
        }
      }
      if remove.Some? {
        pipes := Handed(pipes, remove.value, Task(|tasks|));
        tasks := tasks + [Closing(remove.value)];
      }
    }

    /** The locked region at the top of the write loop. */
    method TakeTurn(t: nat)
      requires Enabled(View(), Event.TakeTurn(t))
      modifies this
      ensures View() == Next(old(View()), Event.TakeTurn(t))
    {
      var Loop(id, w, items) := tasks[t];
      if id !in streams {
        tasks := tasks[t := Closing(w)];
        return;
      }
      var s := streams[id];
      if s.q == [] {
        if s.ended {
          streams := streams - {id};
          tasks := tasks[t := Closing(w)];
        } else {
          streams := streams[id := s.(write := Some(w))];
          tasks := tasks[t := Finished];
          pipes := Handed(pipes, w, Record);
        }
        return;
      }
      var batch := s.q;
      streams := streams[id := s.(q := items)];
      tasks := tasks[t := Loop(id, w, batch)];
    }

    /** One `write_all` of the write loop: `got` bytes go through, then it fails or not. */
    method WriteAll(t: nat, got: nat, failed: bool)
      requires Enabled(View(), Event.WriteFails(t, got))
      requires failed || got == |tasks[t].items[0]|
      modifies this
      ensures View() == Next(old(View()), if failed then Event.WriteFails(t, got) else Event.WriteAll(t))
    {
      var Loop(id, w, items) := tasks[t];
      if w in pipes {
        pipes := pipes[w := pipes[w].(delivered := pipes[w].delivered + items[0][..got],
                                      intact := pipes[w].intact && !failed)];
      }
      if failed {
        items := [];
      } else {
        items := items[1..];
      }
      tasks := tasks[t := Loop(id, w, items)];
    }

    method Shutdown(t: nat)
      requires Enabled(View(), Event.Shutdown(t))
      modifies this
      ensures View() == Next(old(View()), Event.Shutdown(t))
    {
      var w := tasks[t].w;
      tasks := tasks[t := Finished];
      if w in pipes {
        pipes := pipes[w := pipes[w].(shutdowns := pipes[w].shutdowns + 1, holder := Gone)];
      }
    }
  }
}
