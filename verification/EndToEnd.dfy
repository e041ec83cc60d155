/**
 A stream from end to end: what its pump reads at one peer is sent in messages, written
 as bytes, cut up by the transport, decoded, and written to the half of that stream at
 the other peer.
 */
module EndToEnd {
  import opened Seqs
  import opened Serializer
  import opened WireMessages
  import opened Framing
  import MsgPack
  import C = Connection
  import T = Streams

  // ----- what is asked for a stream, at each stage -----

  function About(op: Option<Op>, x: U32): seq<Op> {
    if op.Some? && op.value.stream == x then [op.value] else []
  }

  function AskedBy(x: U32): C.Msg -> seq<Op> {
    m => About(OpAsked(m), x)
  }

  function OpIn(f: Frame): Option<Op> {
    var o := Read(f.obj);
    if o.Some? then OpOf(o.value) else None
  }

  function DecodedFrom(x: U32): Frame -> seq<Op> {
    f => About(OpIn(f), x)
  }

  function OpDone(e: T.Event): Option<Op> {
    match e
    case Write(id, buf) => Some(Op.Write(id, buf))
    case Remove(id) => Some(Op.Remove(id))
    case _ => None
  }

  function DoneBy(x: U32): T.Event -> seq<Op> {
    e => About(OpDone(e), x)
  }

  /** What the messages ask, what the frames ask, and what is done, for stream `x`. */
  function Asked(out: seq<C.Msg>, x: U32): seq<Op> {
    Collect(AskedBy(x), out)
  }

  function Decoded(frames: seq<Frame>, x: U32): seq<Op> {
    Collect(DecodedFrom(x), frames)
  }

  function Done(es: seq<T.Event>, x: U32): seq<Op> {
    Collect(DoneBy(x), es)
  }

  /** Writes of all segments, and then perhaps the end. */
  function Script(x: U32, segments: seq<Bytes>, ended: bool): seq<Op> {
    if segments != [] then [Op.Write(x, segments[0])] + Script(x, segments[1..], ended)
    else if ended then [Op.Remove(x)] else []
  }

  lemma {:induction false} ScriptPrefix(x: U32, segments: seq<Bytes>, ended: bool, ops: seq<Op>)
    returns (k: nat, over: bool)
    requires ops <= Script(x, segments, ended)
    ensures k <= |segments| && ops == Script(x, segments[..k], over)
    ensures over ==> ended && k == |segments|
    ensures ops == Script(x, segments, ended) ==> k == |segments| && over == ended
  {
    if ops == [] {
      k, over := 0, false;
    } else if segments == [] {
      k, over := 0, true;
    } else {
      k, over := ScriptPrefix(x, segments[1..], ended, ops[1..]);
      k := k + 1;
      assert segments[..k][1..] == segments[1..][..k - 1];
      HeadAndTail(ops);
    }
  }

  // ----- the sending peer -----

  lemma AskedSnoc(out: seq<C.Msg>, m: C.Msg, x: U32)
    ensures Asked(out + [m], x) == Asked(out, x) + About(OpAsked(m), x)
  {
    CollectSnoc(AskedBy(x), out, m);
  }

  /** Only the messages about the stream matter. */
  lemma {:induction false} AskedByTrail(out: seq<C.Msg>, x: U32)
    ensures Asked(out, x) == Asked(C.Trail(out, x), x)
  {
    if out != [] {
      AskedByTrail(out[1..], x);
      CollectAppend(AskedBy(x), C.Trailing(x)(out[0]), C.Trail(out[1..], x));
      assert C.About(out[0], x) ==> Asked([out[0]], x) == About(OpAsked(out[0]), x) + Asked([], x);
    }
  }

  lemma AskedByEnd(x: U32)
    ensures Asked([C.Ended(x)], x) == [Op.Remove(x)]
  {
    AskedSnoc([], C.Ended(x), x);
    assert [] + [C.Ended(x)] == [C.Ended(x)];
  }

  lemma {:induction false} AskedByDatas(x: U32, segments: seq<Bytes>, ended: bool)
    ensures Asked(C.Datas(x, segments) + (if ended then [C.Ended(x)] else []), x) == Script(x, segments, ended)
  {
    var last := if ended then [C.Ended(x)] else [];
    if segments == [] {
      assert C.Datas(x, segments) + last == last;
      AskedByEnd(x);
    } else {
      AskedByDatas(x, segments[1..], ended);
      assert C.Datas(x, segments) + last == [C.Data(x, segments[0])] + (C.Datas(x, segments[1..]) + last);
      CollectFirst(AskedBy(x), C.Data(x, segments[0]), C.Datas(x, segments[1..]) + last);
    }
  }

  /** The messages queued about a pump's stream ask for its segments, and then for the end. */
  lemma PumpAsks(out: seq<C.Msg>, p: C.Task)
    requires p.Pump? && C.PumpOk(out, p)
    ensures Asked(out, p.stream) == Script(p.stream, p.sent, p.phase.Closed?)
  {
    AskedByTrail(out, p.stream);
    AskedByDatas(p.stream, p.sent, p.phase.Closed?);
  }

  lemma {:induction false} PumpOf(tasks: seq<C.Task>, x: U32) returns (t: nat)
    requires x in C.PumpedStreams(tasks)
    ensures t < |tasks| && tasks[t].Pump? && tasks[t].stream == x
  {
    if tasks[0].Pump? && tasks[0].stream == x {
      t := 0;
    } else {
      t := PumpOf(tasks[1..], x);
      t := t + 1;
    }
  }

  lemma {:induction false} InTrail(out: seq<C.Msg>, j: nat, x: U32)
    requires j < |out| && C.About(out[j], x)
    ensures out[j] in C.Trail(out, x)
  {
    if j > 0 {
      InTrail(out[1..], j - 1, x);
    }
  }

  /** The segments of every stream are bounded by the buffers of the pumps. */
  lemma SegmentIsBounded(s: C.State, j: nat)
    requires C.Inv(s) && j < |C.Out(s)| && C.Out(s)[j].Data?
    ensures |C.Out(s)[j].segment| <= 4096
  {
    var out := C.Out(s);
    assert C.NamedBy(out[j], C.PumpedStreams(s.tasks));
    var t := PumpOf(s.tasks, out[j].stream);
    assert C.TaskOk(out, s.tasks[t]);
    InTrail(out, j, out[j].stream);
    assert out[j] in C.Datas(out[j].stream, s.tasks[t].sent);
  }

  predicate ShortDto(m: C.Msg) {
    m.Started? ==> |m.dto.streams| < TWO_32
  }

  predicate AllSendable(wire: seq<C.Msg>) {
    forall j :: 0 <= j < |wire| ==> Sendable(wire[j])
  }

  lemma WireIsSendable(s: C.State)
    requires C.Inv(s) && forall j :: 0 <= j < |s.wire| ==> ShortDto(s.wire[j])
    ensures AllSendable(s.wire)
  {
    forall j | 0 <= j < |s.wire| ensures Sendable(s.wire[j]) {
      assert C.Out(s)[j] == s.wire[j] && ShortDto(s.wire[j]);
      if s.wire[j].Data? {
        SegmentIsBounded(s, j);
      }
    }
  }

  // ----- the wire -----

  function ValuesOf(wire: seq<C.Msg>, coding: Coding): (r: seq<MsgPack.Value>)
    ensures |r| == |wire| && forall j :: 0 <= j < |r| ==> r[j] == Serializer.Write(ObjectOf(wire[j], coding))
  {
    if wire == [] then [] else [Serializer.Write(ObjectOf(wire[0], coding))] + ValuesOf(wire[1..], coding)
  }

  /** The bytes written for the messages. */
  function BytesOf(wire: seq<C.Msg>, coding: Coding): Bytes {
    Messages(ValuesOf(wire, coding))
  }

  lemma MessageIsRead(m: C.Msg, coding: Coding)
    requires Sound(coding) && Sendable(m)
    ensures var v := Serializer.Write(ObjectOf(m, coding));
            MsgPack.WellFormed(v) && OpIn(Frame(v, MsgPack.Encode(v))) == OpAsked(m)
  {
    MessageFits(m, coding);
    WrittenIsRead(ObjectOf(m, coding));
    MessageIsUnderstood(m, coding);
  }

  lemma {:induction false} FramesAsk(wire: seq<C.Msg>, coding: Coding, x: U32)
    requires Sound(coding) && AllSendable(wire)
    ensures Decoded(Frames(ValuesOf(wire, coding)), x) == Asked(wire, x)
  {
    if wire != [] {
      FramesAsk(wire[1..], coding, x);
      MessageIsRead(wire[0], coding);
      var v := Serializer.Write(ObjectOf(wire[0], coding));
      assert ValuesOf(wire, coding)[1..] == ValuesOf(wire[1..], coding);
      CollectFirst(DecodedFrom(x), Frame(v, MsgPack.Encode(v)), Frames(ValuesOf(wire[1..], coding)));
    }
  }

  lemma {:induction false} ValuesOfFront(wire: seq<C.Msg>, coding: Coding, k: nat)
    requires k <= |wire|
    ensures ValuesOf(wire, coding)[..k] == ValuesOf(wire[..k], coding)
  {
  }

  lemma AskedByFront(wire: seq<C.Msg>, k: nat, x: U32)
    requires k <= |wire|
    ensures Asked(wire[..k], x) <= Asked(wire, x)
  {
    assert wire == wire[..k] + wire[k..];
    CollectAppend(AskedBy(x), wire[..k], wire[k..]);
  }

  lemma ValuesAreSound(wire: seq<C.Msg>, coding: Coding)
    requires Sound(coding) && AllSendable(wire)
    ensures forall j :: 0 <= j < |wire| ==> MsgPack.WellFormed(ValuesOf(wire, coding)[j])
  {
    forall j | 0 <= j < |wire| ensures MsgPack.WellFormed(ValuesOf(wire, coding)[j]) {
      MessageIsRead(wire[j], coding);
    }
  }

  /** What arrived of the bytes asks, in order, for what the first messages ask for: for all
      of it if all bytes arrived. */
  lemma DecodedIsAsked(wire: seq<C.Msg>, coding: Coding, chunks: seq<Bytes>, x: U32)
    requires Sound(coding) && AllSendable(wire) && Concat(chunks) <= BytesOf(wire, coding)
    ensures var d := FeedAll(START, chunks);
            && !d.broken && Decoded(d.frames, x) <= Asked(wire, x)
            && (Concat(chunks) == BytesOf(wire, coding) ==> Decoded(d.frames, x) == Asked(wire, x))
  {
    ValuesAreSound(wire, coding);
    var k := FirstMessagesArrive(ValuesOf(wire, coding), chunks);
    ValuesOfFront(wire, coding, k);
    FramesAsk(wire[..k], coding, x);
    AskedByFront(wire, k, x);
    assert k == |wire| ==> wire[..k] == wire;
  }

  // ----- the receiving peer -----

  /** The half `w` of stream `x` has accepted these bytes, and its stream has ended or not. */
  ghost predicate At(s: T.State, x: U32, w: T.Half, got: Bytes, ended: bool) {
    && w in s.pipes && s.pipes[w].accepted == got
    && if ended then T.Ending(s, x, w)
       else x in s.streams && s.streams[x].half == w && !s.streams[x].ended
  }

  lemma StepLeavesAt(s: T.State, e: T.Event, x: U32, w: T.Half, got: Bytes, ended: bool)
    requires T.Inv(s) && T.Enabled(s, e) && T.Fresh(s, e) && At(s, x, w, got, ended)
    requires About(OpDone(e), x) == []
    ensures At(T.Next(s, e), x, w, got, ended)
  {
    assert x in s.streams ==> T.RecordOk(s, x);
    if e.Write? {
      assert e.id in s.streams ==> T.RecordOk(s, e.id);
    }
    if ended {
      T.StepKeepsEnding(s, e, x, w);
    }
  }

  lemma WriteIsAccepted(s: T.State, x: U32, w: T.Half, got: Bytes, buf: Bytes)
    requires T.Inv(s) && At(s, x, w, got, false)
    ensures At(T.DoWrite(s, x, buf), x, w, got + buf, false)
  {
    assert T.RecordOk(s, x);
  }

  lemma RemoveEnds(s: T.State, x: U32, w: T.Half, got: Bytes)
    requires T.Inv(s) && At(s, x, w, got, false)
    ensures At(T.DoRemove(s, x), x, w, got, true)
  {
    assert T.RecordOk(s, x);
  }

  lemma FirstDone(es: seq<T.Event>, x: U32)
    requires es != []
    ensures Done(es, x) == About(OpDone(es[0]), x) + Done(es[1..], x)
  {
  }

  /** The first thing done for the stream is the first of the script. */
  lemma FirstOp(es: seq<T.Event>, x: U32, segments: seq<Bytes>, ended: bool)
    requires es != [] && About(OpDone(es[0]), x) != [] && Done(es, x) == Script(x, segments, ended)
    ensures if segments != [] then
              es[0] == T.Event.Write(x, segments[0]) && Done(es[1..], x) == Script(x, segments[1..], ended)
            else
              es[0] == T.Event.Remove(x) && ended && Done(es[1..], x) == []
  {
    FirstDone(es, x);
    var op := OpDone(es[0]).value;
    assert Done(es, x)[0] == op && Done(es, x)[1..] == Done(es[1..], x);
    if segments != [] {
      assert Script(x, segments, ended)[1..] == Script(x, segments[1..], ended);
    }
  }

  /** Whatever happens to other streams, to the map and in the tasks: the half accepts the
      segments written to its stream, and after the end nothing more. */
  lemma {:induction false} RunAccepts(s: T.State, es: seq<T.Event>, x: U32, w: T.Half, got: Bytes,
                                      segments: seq<Bytes>, ended: bool)
    requires T.Inv(s) && T.Allowed(s, es) && At(s, x, w, got, false) && Done(es, x) == Script(x, segments, ended)
    ensures At(T.Run(s, es), x, w, got + Concat(segments), ended)
    decreases |es|
  {
    if es == [] {
      assert segments == [] && !ended && got + [] == got;
    } else {
      var e, s' := es[0], T.Next(s, es[0]);
      FirstDone(es, x);
      T.StepKeepsInv(s, e);
      if About(OpDone(e), x) == [] {
        StepLeavesAt(s, e, x, w, got, false);
        RunAccepts(s', es[1..], x, w, got, segments, ended);
      } else if segments != [] {
        FirstOp(es, x, segments, ended);
        WriteIsAccepted(s, x, w, got, segments[0]);
        RunAccepts(s', es[1..], x, w, got + segments[0], segments[1..], ended);
        Assoc(got, segments[0], Concat(segments[1..]));
      } else {
        FirstOp(es, x, segments, ended);
        RemoveEnds(s, x, w, got);
        EndedStays(s', es[1..], x, w, got);
        assert got + [] == got;
      }
    }
  }

  lemma {:induction false} EndedStays(s: T.State, es: seq<T.Event>, x: U32, w: T.Half, got: Bytes)
    requires T.Inv(s) && T.Allowed(s, es) && At(s, x, w, got, true) && Done(es, x) == []
    ensures At(T.Run(s, es), x, w, got, true)
    decreases |es|
  {
    if es != [] {
      FirstDone(es, x);
      T.StepKeepsInv(s, es[0]);
      StepLeavesAt(s, es[0], x, w, got, true);
      EndedStays(T.Next(s, es[0]), es[1..], x, w, got);
    }
  }

  // ----- from end to end -----

  lemma {:induction false} ConcatFront(segments: seq<Bytes>, k: nat)
    requires k <= |segments|
    ensures Concat(segments[..k]) <= Concat(segments)
  {
    assert segments == segments[..k] + segments[k..];
    ConcatAppend(segments[..k], segments[k..]);
  }

  lemma PumpIsOk(s: C.State, p: C.Task)
    requires C.Inv(s) && p in s.tasks && p.Pump?
    ensures C.PumpOk(C.Out(s), p)
  {
    var t :| 0 <= t < |s.tasks| && s.tasks[t] == p;
    assert C.TaskOk(C.Out(s), s.tasks[t]);
  }

  lemma WireIsFront(wire: seq<C.Msg>, channel: seq<C.Msg>, x: U32)
    ensures Asked(wire, x) <= Asked(wire + channel, x)
    ensures channel == [] ==> wire + channel == wire
  {
    assert (wire + channel)[..|wire|] == wire;
    AskedByFront(wire + channel, |wire|, x);
  }

  /** The messages on the wire ask for the first segments sent; for all, and for the end if
      it was sent, once nothing is queued. */
  lemma WireAsks(s: C.State, p: C.Task)
    requires C.Inv(s) && p in s.tasks && p.Pump?
    ensures Asked(s.wire, p.stream) <= Script(p.stream, p.sent, p.phase.Closed?)
    ensures s.channel == [] ==> Asked(s.wire, p.stream) == Script(p.stream, p.sent, p.phase.Closed?)
  {
    PumpIsOk(s, p);
    PumpAsks(C.Out(s), p);
    WireIsFront(s.wire, s.channel, p.stream);
  }

  /** A first part of the bytes written has arrived. */
  ghost predicate Transported(wire: seq<C.Msg>, coding: Coding, chunks: seq<Bytes>) {
    && Sound(coding) && (forall j :: 0 <= j < |wire| ==> ShortDto(wire[j]))
    && Concat(chunks) <= BytesOf(wire, coding)
  }

  /** What is done for the stream is what was decoded for it, in order, as far as it got.
      Writes are made at once; a removal is made later, by a task, but it comes last. */
  predicate ActedOn(es: seq<T.Event>, x: U32, chunks: seq<Bytes>) {
    Done(es, x) <= Decoded(FeedAll(START, chunks).frames, x)
  }

  /** Everything queued was written, has arrived, and was acted on. */
  predicate AllActedOn(s: C.State, x: U32, coding: Coding, chunks: seq<Bytes>, es: seq<T.Event>) {
    && s.channel == [] && Concat(chunks) == BytesOf(s.wire, coding)
    && Done(es, x) == Decoded(FeedAll(START, chunks).frames, x)
  }

  lemma DecodedIsScript(s: C.State, p: C.Task, coding: Coding, chunks: seq<Bytes>)
    requires C.Inv(s) && p in s.tasks && p.Pump? && Transported(s.wire, coding, chunks)
    ensures var ops := Decoded(FeedAll(START, chunks).frames, p.stream);
            && ops <= Script(p.stream, p.sent, p.phase.Closed?)
            && (s.channel == [] && Concat(chunks) == BytesOf(s.wire, coding) ==>
                  ops == Script(p.stream, p.sent, p.phase.Closed?))
  {
    WireIsSendable(s);
    WireAsks(s, p);
    DecodedIsAsked(s.wire, coding, chunks, p.stream);
  }

  lemma DoneIsScript(s: C.State, p: C.Task, coding: Coding, chunks: seq<Bytes>, es: seq<T.Event>)
    returns (k: nat, ended: bool)
    requires C.Inv(s) && p in s.tasks && p.Pump?
    requires Transported(s.wire, coding, chunks) && ActedOn(es, p.stream, chunks)
    ensures k <= |p.sent| && Done(es, p.stream) == Script(p.stream, p.sent[..k], ended)
    ensures ended ==> p.phase.Closed? && k == |p.sent|
    ensures p.phase.Closed? && AllActedOn(s, p.stream, coding, chunks, es) ==> ended
  {
    DecodedIsScript(s, p, coding, chunks);
    k, ended := ScriptPrefix(p.stream, p.sent, p.phase.Closed?, Done(es, p.stream));
  }

  lemma AcceptedArrives(s: T.State, x: U32, w: T.Half, sent: Bytes, ended: bool)
    requires T.Inv(s) && At(s, x, w, sent, ended)
    ensures s.pipes[w].shutdowns == 1 ==> ended
    ensures ended && T.Settled(s) ==> s.pipes[w].shutdowns == 1
  {
    assert T.PipeOk(s, w);
    if !ended {
      assert T.RecordOk(s, x);
    } else if T.Settled(s) {
      T.EndingSettles(s, x, w);
    }
  }

  /** The stream can be inserted, and then this leads to that. */
  ghost predicate Receives(s: T.State, x: U32, w: T.Half, es: seq<T.Event>, receiver: T.State) {
    && x !in s.streams && w !in s.pipes
    && T.Allowed(T.DoInsert(s, x, w), es) && T.Run(T.DoInsert(s, x, w), es) == receiver
  }

  /** What happened to the half after its insertion. */
  ghost function LogAfter(s: T.State, x: U32, w: T.Half, es: seq<T.Event>): T.Log
    requires T.Allowed(T.DoInsert(s, x, w), es)
  {
    T.LogOf(T.NOTHING, T.DoInsert(s, x, w), es, w)
  }

  lemma ReceiverAccepts(s: T.State, x: U32, w: T.Half, es: seq<T.Event>, receiver: T.State, segments: seq<Bytes>,
                        ended: bool)
    requires T.Inv(s) && Receives(s, x, w, es, receiver) && Done(es, x) == Script(x, segments, ended)
    ensures T.Inv(receiver) && At(receiver, x, w, Concat(segments), ended)
    ensures T.Records(receiver, w, LogAfter(s, x, w, es))
  {
    T.StepKeepsInv(s, T.Event.Insert(x, w));
    RunAccepts(T.DoInsert(s, x, w), es, x, w, [], segments, ended);
    T.RunKeepsInv(T.DoInsert(s, x, w), es);
    T.RunIsRecorded(T.DoInsert(s, x, w), es, w, T.NOTHING);
    assert [] + Concat(segments) == Concat(segments);
  }

  /** What happened to the half: it accepted these bytes, and was shut down only if its
      stream ended, and then once all tasks have settled. */
  lemma ReceiverDelivers(s: T.State, x: U32, w: T.Half, es: seq<T.Event>, receiver: T.State, segments: seq<Bytes>,
                         ended: bool)
    requires T.Inv(s) && Receives(s, x, w, es, receiver) && Done(es, x) == Script(x, segments, ended)
    ensures var log := LogAfter(s, x, w, es);
            && log.accepted == Concat(segments)
            && Subseq(log.delivered, log.accepted) && (!log.failed ==> log.delivered <= log.accepted)
            && log.shutdowns <= 1 && (log.shutdowns == 1 ==> ended)
            && (log.shutdowns == 1 && !log.failed ==> log.delivered == log.accepted)
            && (ended && T.Settled(receiver) ==> log.shutdowns == 1)
  {
    ReceiverAccepts(s, x, w, es, receiver, segments, ended);
    AcceptedArrives(receiver, x, w, Concat(segments), ended);
    T.DeliveryIn(receiver, w);
  }

  /** The bytes that pump `t` got from its stream. */
  function BytesRead(run: seq<C.Event>, t: nat): Bytes {
    Concat(C.SegmentsRead(run, t))
  }

  lemma SentIsRead(run: seq<C.Event>, s: C.State, t: nat, k: nat)
    requires Sends(s, run) && t < |s.tasks| && s.tasks[t].Pump? && k <= |s.tasks[t].sent|
    ensures Concat(s.tasks[t].sent[..k]) <= BytesRead(run, t)
    ensures s.tasks[t].phase.Closed? ==> C.PumpEnds(t) in run && Concat(s.tasks[t].sent) == BytesRead(run, t)
    ensures C.PumpEnds(t) in run && !s.tasks[t].phase.AtEnd? ==> s.tasks[t].phase.Closed?
  {
    var p := s.tasks[t];
    C.PumpInEveryRun(run, t);
    assert p.phase.Closed? ==> p.sent + [] == p.sent;
    assert C.SegmentsRead(run, t)[..k] == p.sent[..k];
    ConcatFront(C.SegmentsRead(run, t), k);
  }

  /** A connection, and a multiplexer, after some run from the start. */
  ghost predicate Sends(s: C.State, run: seq<C.Event>) {
    C.Allowed(C.INITIAL, run) && C.Run(C.INITIAL, run) == s
  }

  ghost predicate Runs(s: T.State, run: seq<T.Event>) {
    T.Allowed(T.INITIAL, run) && T.Run(T.INITIAL, run) == s
  }

  /** What was done for the stream is what its pump read, as far as it got. */
  lemma DoneIsRead(run: seq<C.Event>, sender: C.State, t: nat, coding: Coding, chunks: seq<Bytes>, es: seq<T.Event>)
    returns (segments: seq<Bytes>, ended: bool)
    requires Sends(sender, run) && t < |sender.tasks| && sender.tasks[t].Pump?
    requires Transported(sender.wire, coding, chunks) && ActedOn(es, sender.tasks[t].stream, chunks)
    ensures Done(es, sender.tasks[t].stream) == Script(sender.tasks[t].stream, segments, ended)
    ensures Concat(segments) <= BytesRead(run, t)
    ensures ended ==> C.PumpEnds(t) in run && Concat(segments) == BytesRead(run, t)
    ensures (&& C.PumpEnds(t) in run && !sender.tasks[t].phase.AtEnd?
             && AllActedOn(sender, sender.tasks[t].stream, coding, chunks, es)) ==> ended
  {
    SendsSoundly(sender, run);
    var k: nat;
    k, ended := DoneIsScript(sender, sender.tasks[t], coding, chunks, es);
    SentIsRead(run, sender, t, k);
    segments := sender.tasks[t].sent[..k];
    EndIsSent(sender.tasks[t].sent, k);
  }

  lemma SendsSoundly(s: C.State, run: seq<C.Event>)
    requires Sends(s, run)
    ensures C.Inv(s)
  {
    C.RunKeepsInv(C.INITIAL, run);
  }

  lemma EndIsSent(sent: seq<Bytes>, k: nat)
    requires k <= |sent|
    ensures k == |sent| ==> sent[..k] == sent
  {
  }

  /** One peer runs in any way from the start, and any first part of the bytes it wrote
      reaches the other, cut up in any way. There, after any run of the multiplexer, the
      stream of pump `t` is inserted, and then anything happens, of which the writes and the
      end of this stream are what was decoded for it, in order, as far as it got. Then the
      bytes accepted for the half are the first of those that came out of the pump's reads;
      so are the bytes written to it while no write to it failed, and some of them in
      order otherwise; and it is shut down only after the pump has read the end, and after
      all of them.

      If the pump has read the end and sent what it had to, all messages were written, all
      bytes have arrived and been acted on, and the tasks have settled, the half was shut
      down, once. */
  lemma StreamArrives(run: seq<C.Event>, sender: C.State, t: nat, coding: Coding, chunks: seq<Bytes>,
                      before: seq<T.Event>, s: T.State, w: T.Half, es: seq<T.Event>, receiver: T.State)
    requires Sends(sender, run) && t < |sender.tasks| && sender.tasks[t].Pump?
    requires Transported(sender.wire, coding, chunks) && ActedOn(es, sender.tasks[t].stream, chunks)
    requires Runs(s, before) && Receives(s, sender.tasks[t].stream, w, es, receiver)
    ensures var log, read := LogAfter(s, sender.tasks[t].stream, w, es), BytesRead(run, t);
            && log.accepted <= read
            && Subseq(log.delivered, log.accepted) && (!log.failed ==> log.delivered <= read)
            && log.shutdowns <= 1
            && (log.shutdowns == 1 ==> C.PumpEnds(t) in run && log.accepted == read)
            && (log.shutdowns == 1 && !log.failed ==> log.delivered == read)
            && (&& C.PumpEnds(t) in run && !sender.tasks[t].phase.AtEnd?
                && AllActedOn(sender, sender.tasks[t].stream, coding, chunks, es) && T.Settled(receiver)
                ==> log.shutdowns == 1)
  {
    T.RunKeepsInv(T.INITIAL, before);
    var segments, ended := DoneIsRead(run, sender, t, coding, chunks, es);
    ReceiverDelivers(s, sender.tasks[t].stream, w, es, receiver, segments, ended);
  }
}
