/**
 What the dispatcher makes of one incoming message: a reply at once, a reply
 later, streams and a reply later, or the completion of an outbound call.
 */
module Dispatch {
  import opened Seqs
  import opened Calls

  /** How a method was registered; a duplex method opens a fixed number of streams. */
  datatype Kind = SyncMethod | AsyncMethod | DuplexMethod(streams: nat)

  /** What the registered callback makes of the parameters. */
  datatype Handling = BadParams(message: string) | Returned(value: string) | Refused(message: string)

  /** `target` is the method named in the message; a response names none. */
  datatype Incoming = Incoming(id: Option<U32>, target: Option<string>, body: Body)

  datatype Reply = Success(id: U32, value: string) | Failure(id: U32, error: ResponseError)

  datatype Dto = Dto(request: U32, streams: seq<U32>)

  datatype Dispatched =
    | Sync(reply: Option<Reply>)
    | Future(reply: Option<Reply>)
    | Stream(dto: Option<Dto>, reply: Option<Reply>)
    | Panicked(reply: Option<Reply>)

  function ReplyTo(id: Option<U32>, h: Handling): Option<Reply> {
    match id
    case None => None
    case Some(i) => Some(match h
                         case BadParams(m) => Failure(i, ResponseError(0, m))
                         case Refused(m) => Failure(i, ResponseError(-1, m))
                         case Returned(v) => Success(i, v))
  }

  /** What is made of a message, and the call table after it. */
  function DispatchOf(methods: map<string, Kind>, s: State, m: Incoming, h: Handling): (State, Dispatched) {
    if m.target.None? then
      (Next(s, Respond(m.id, m.body)), if s.poisoned || m.id.None? then Panicked(None) else Sync(None))
    else if m.target.value !in methods then
      (s, Sync(ReplyTo(m.id, Refused("Method not found: " + m.target.value))))
    else
      match methods[m.target.value]
      case SyncMethod => (s, Sync(ReplyTo(m.id, h)))
      case AsyncMethod => (s, Future(ReplyTo(m.id, h)))
      case DuplexMethod(n) =>
        if h.BadParams? then (s, Stream(None, ReplyTo(m.id, h)))
        else
          var request := if m.id.Some? then m.id.value else 0;
          (Next(s, TakeStreamIds(n)), Stream(Some(Dto(request, FreshIds(s.issued, n))), ReplyTo(m.id, h)))
  }

  /** The next `n` ids of the counter. */
  function FreshIds(issued: nat, n: nat): (ids: seq<U32>)
    ensures |ids| == n && forall i :: 0 <= i < n ==> ids[i] == MessageId(issued + i)
  {
    if n == 0 then [] else FreshIds(issued, n - 1) + [MessageId(issued + n - 1)]
  }

  /** A request gets one reply, under its own id, if it carries one, and none otherwise;
      whether it succeeded is what the callback said; streams are opened by duplex
      methods with sound parameters only, under consecutive fresh ids. A response
      gets none, and one without an id panics. Requests leave the call table alone. */
  method DispatchWithPartial(table: CallTable, methods: map<string, Kind>, m: Incoming, h: Handling)
    returns (d: Dispatched)
    requires table.Valid()
    modifies table
    ensures table.Valid()
    ensures (table.View(), d) == DispatchOf(methods, old(table.View()), m, h)
    ensures m.target.Some? ==>
              && !d.Panicked?
              && (d.reply.Some? <==> m.id.Some?)
              && (d.reply.Some? ==> d.reply.value.id == m.id.value)
              && (d.reply.Some? ==> (d.reply.value.Success? <==> m.target.value in methods && h.Returned?))
    ensures m.target.Some? && d.reply.Some? && d.reply.value.Success? ==> d.reply.value.value == h.value
    ensures m.target.Some? && d.reply.Some? && d.reply.value.Failure? ==>
              d.reply.value.error ==
                if m.target.value !in methods then ResponseError(-1, "Method not found: " + m.target.value)
                else ResponseError(if h.BadParams? then 0 else -1, h.message)
    ensures d.Future? <==> m.target.Some? && m.target.value in methods && methods[m.target.value].AsyncMethod?
    ensures d.Stream? <==> m.target.Some? && m.target.value in methods && methods[m.target.value].DuplexMethod?
    ensures d.Stream? && d.dto.Some? <==>
              && m.target.Some? && m.target.value in methods
              && methods[m.target.value].DuplexMethod? && !h.BadParams?
    ensures d.Stream? && d.dto.Some? ==>
              && table.View() == Next(old(table.View()), TakeStreamIds(methods[m.target.value].streams))
              && |d.dto.value.streams| == methods[m.target.value].streams
              && (forall i :: 0 <= i < |d.dto.value.streams| ==>
                    d.dto.value.streams[i] == MessageId(old(table.issued) + i))
              && d.dto.value.request == (if m.id.Some? then m.id.value else 0)
    ensures m.target.Some? && !(d.Stream? && d.dto.Some?) ==> table.View() == old(table.View())
    ensures m.target.None? ==>
              && table.View() == Next(old(table.View()), Respond(m.id, m.body))
              && d.reply == None
              && (d.Panicked? <==> m.id.None? || old(table.poisoned))
  {
    if m.target.Some? {
      var name := m.target.value;
      if name !in methods {
        d := Sync(ReplyTo(m.id, Refused("Method not found: " + name)));
        return;
      }
      match methods[name] {
        case SyncMethod => d := Sync(ReplyTo(m.id, h));
        case AsyncMethod => d := Future(ReplyTo(m.id, h));
        case DuplexMethod(n) =>
          if h.BadParams? {
            d := Stream(None, ReplyTo(m.id, h));
          } else {
            var ids := table.TakeStreamIds(n);
            assert ids == FreshIds(old(table.issued), n);
            d := Stream(Some(Dto(if m.id.Some? then m.id.value else 0, ids)), ReplyTo(m.id, h));
          }
      }
    } else {
      var panics := table.poisoned || m.id.None?;
      table.Respond(m.id, m.body);
      d := if panics then Panicked(None) else Sync(None);
    }
  }

  // ----- many messages -----

  /** A message, what its callback makes of it, and the call table it meets. */
  datatype Message = Message(m: Incoming, h: Handling, table: State)

  function FrameOf(methods: map<string, Kind>, msg: Message): Dispatched {
    DispatchOf(methods, msg.table, msg.m, msg.h).1
  }

  function FramesOf(methods: map<string, Kind>, msgs: seq<Message>): (r: seq<Dispatched>)
    ensures |r| == |msgs| && forall i :: 0 <= i < |r| ==> r[i] == FrameOf(methods, msgs[i])
  {
    if msgs == [] then [] else [FrameOf(methods, msgs[0])] + FramesOf(methods, msgs[1..])
  }

  function One<T>(x: Option<T>): seq<T> {
    if x.Some? then [x.value] else []
  }

  /** The id of a request that wants a reply; responses and notifications have none. */
  function IdAsked(msg: Message): seq<U32> {
    if msg.m.target.Some? then One(msg.m.id) else []
  }

  function RequestIds(msgs: seq<Message>): seq<U32> {
    Collect(IdAsked, msgs)
  }

  function ReplyOwed(d: Dispatched): seq<Reply> {
    One(d.reply)
  }

  /** The replies that frames call for. */
  function RepliesOf(frames: seq<Dispatched>): seq<Reply> {
    Collect(ReplyOwed, frames)
  }

  function StreamsIn(d: Dispatched): seq<U32> {
    if d.Stream? && d.dto.Some? then d.dto.value.streams else []
  }

  /** The streams that frames open. */
  function StreamsOf(frames: seq<Dispatched>): seq<U32> {
    Collect(StreamsIn, frames)
  }

  function IdsOf(replies: seq<Reply>): (r: seq<U32>)
    ensures |r| == |replies| && forall i :: 0 <= i < |r| ==> r[i] == replies[i].id
  {
    if replies == [] then [] else [replies[0].id] + IdsOf(replies[1..])
  }

  lemma IdsOfAppend(a: seq<Reply>, b: seq<Reply>)
    ensures IdsOf(a + b) == IdsOf(a) + IdsOf(b)
  {
  }

  lemma ReplyIsAsked(methods: map<string, Kind>, msg: Message)
    ensures IdsOf(ReplyOwed(FrameOf(methods, msg))) == IdAsked(msg)
  {
  }

  /** The frames of any messages call for one reply for every request that carries an id,
      with that id and in that order, and for no other. */
  lemma {:induction false} OneReplyPerRequest(methods: map<string, Kind>, msgs: seq<Message>)
    ensures IdsOf(RepliesOf(FramesOf(methods, msgs))) == RequestIds(msgs)
  {
    if msgs != [] {
      OneReplyPerRequest(methods, msgs[1..]);
      ReplyIsAsked(methods, msgs[0]);
      FirstFrame(methods, msgs);
      IdsOfAppend(ReplyOwed(FrameOf(methods, msgs[0])), RepliesOf(FramesOf(methods, msgs[1..])));
    }
  }

  lemma FirstFrame(methods: map<string, Kind>, msgs: seq<Message>)
    requires msgs != []
    ensures RepliesOf(FramesOf(methods, msgs)) ==
              ReplyOwed(FrameOf(methods, msgs[0])) + RepliesOf(FramesOf(methods, msgs[1..]))
    ensures StreamsOf(FramesOf(methods, msgs)) ==
              StreamsIn(FrameOf(methods, msgs[0])) + StreamsOf(FramesOf(methods, msgs[1..]))
  {
    assert FramesOf(methods, msgs)[1..] == FramesOf(methods, msgs[1..]);
  }

  /** The tables are met one after another, and their ids are all within the id space. */
  predicate Consecutive(methods: map<string, Kind>, msgs: seq<Message>, issued: nat)
    decreases |msgs|
  {
    if msgs == [] then issued <= ID_SPACE
    else
      && issued <= msgs[0].table.issued
      && Consecutive(methods, msgs[1..], DispatchOf(methods, msgs[0].table, msgs[0].m, msgs[0].h).0.issued)
  }

  /** Then the streams of all of them have different ids. */
  lemma {:induction false} StreamsAreDistinct(methods: map<string, Kind>, msgs: seq<Message>, issued: nat)
    requires Consecutive(methods, msgs, issued)
    ensures issued <= ID_SPACE
    ensures NoDuplicates(StreamsOf(FramesOf(methods, msgs)))
    ensures forall id :: id in StreamsOf(FramesOf(methods, msgs)) ==> issued <= id
    decreases |msgs|
  {
    if msgs != [] {
      var msg := msgs[0];
      var after := DispatchOf(methods, msg.table, msg.m, msg.h).0.issued;
      StreamsAreDistinct(methods, msgs[1..], after);
      FirstFrame(methods, msgs);
      FrameStreams(methods, msg);
      NoDuplicatesAppend(StreamsIn(FrameOf(methods, msg)), StreamsOf(FramesOf(methods, msgs[1..])), after);
    }
  }

  lemma SmallMessageId(serial: nat)
    requires serial < ID_SPACE
    ensures MessageId(serial) == serial
  {
  }

  lemma FrameStreams(methods: map<string, Kind>, msg: Message)
    requires DispatchOf(methods, msg.table, msg.m, msg.h).0.issued <= ID_SPACE
    ensures var ids, after := StreamsIn(FrameOf(methods, msg)), DispatchOf(methods, msg.table, msg.m, msg.h).0.issued;
            && msg.table.issued <= after && NoDuplicates(ids)
            && forall id :: id in ids ==> msg.table.issued <= id < after
  {
    var ids, issued := StreamsIn(FrameOf(methods, msg)), msg.table.issued;
    FrameIds(methods, msg);
    FreshIdsAreSmall(issued, |ids|);
  }

  lemma FrameIds(methods: map<string, Kind>, msg: Message)
    ensures var ids, after := StreamsIn(FrameOf(methods, msg)), DispatchOf(methods, msg.table, msg.m, msg.h).0.issued;
            && ids == FreshIds(msg.table.issued, |ids|)
            && after == msg.table.issued + |ids|
  {
  }

  lemma FreshIdsAreSmall(issued: nat, n: nat)
    requires issued + n <= ID_SPACE
    ensures forall i :: 0 <= i < n ==> FreshIds(issued, n)[i] == issued + i
  {
    forall i | 0 <= i < n ensures FreshIds(issued, n)[i] == issued + i {
      SmallMessageId(issued + i);
    }
  }

  lemma NoDuplicatesAppend(a: seq<U32>, b: seq<U32>, n: nat)
    requires NoDuplicates(a) && NoDuplicates(b)
    requires (forall x :: x in a ==> x < n) && (forall x :: x in b ==> n <= x)
    ensures NoDuplicates(a + b)
  {
    forall i, j | 0 <= i < j < |a + b| ensures (a + b)[i] != (a + b)[j] {
      if i < |a| <= j {
        assert a[i] in a && b[j - |a|] in b;
      }
    }
  }
}
