/**
 Incremental framing: reads append to a buffer, and the decode loop takes
 complete messages off its front until it needs more bytes or meets an error,
 which ends the connection.
 */
module Framing {
  import opened Seqs
  import opened MsgPack

  /** `MsgPackDecoded`: the object, and the bytes it was decoded from. */
  datatype Frame = Frame(obj: Value, vec: Bytes)

  /** Where the decode loop stops: the frames it took, the bytes left, and whether on an error. */
  datatype Drained = Drained(frames: seq<Frame>, rest: Bytes, broken: bool)

  function Drain(buf: Bytes): Drained
    decreases |buf|
  {
    match Parse(buf)
    case NeedMore => Drained([], buf, false)
    case Bad => Drained([], buf, true)
    case Done(v, len) =>
      var d := Drain(buf[len..]);
      Drained([Frame(v, buf[..len])] + d.frames, d.rest, d.broken)
  }

  function Vecs(frames: seq<Frame>): seq<Bytes> {
    if frames == [] then [] else [frames[0].vec] + Vecs(frames[1..])
  }

  predicate HasOwnBytes(f: Frame) {
    Parse(f.vec) == Done(f.obj, |f.vec|)
  }

  predicate AllHaveOwnBytes(frames: seq<Frame>) {
    forall i {:trigger HasOwnBytes(frames[i])} :: 0 <= i < |frames| ==> HasOwnBytes(frames[i])
  }

  /** The loop takes exactly the complete values off the front, each with its own bytes; it
      stops where one is incomplete, or on an error exactly where no value can begin. */
  lemma {:induction false} DrainedIsParsed(buf: Bytes)
    ensures var d := Drain(buf);
            && buf == Concat(Vecs(d.frames)) + d.rest && AllHaveOwnBytes(d.frames)
            && (if d.broken then Parse(d.rest).Bad? else Parse(d.rest).NeedMore?)
    decreases |buf|
  {
    if Parse(buf).Done? {
      var len := Parse(buf).len;
      DrainedIsParsed(buf[len..]);
      FirstIsParsed(buf);
      var frame, d := Frame(Parse(buf).value, buf[..len]), Drain(buf[len..]);
      OneMoreFrame(frame, d.frames, d.rest);
      HeadIsFront(buf, len);
    } else {
      assert [] + buf == buf;
    }
  }

  lemma HeadIsFront(buf: Bytes, len: nat)
    requires len <= |buf|
    ensures buf[..len] + buf[len..] == buf
  {
  }

  lemma OneMoreFrame(frame: Frame, frames: seq<Frame>, rest: Bytes)
    requires HasOwnBytes(frame) && AllHaveOwnBytes(frames)
    ensures AllHaveOwnBytes([frame] + frames)
    ensures Concat(Vecs([frame] + frames)) + rest == frame.vec + (Concat(Vecs(frames)) + rest)
  {
    var all := [frame] + frames;
    assert all[1..] == frames;
    assert Vecs(all) == [frame.vec] + Vecs(frames);
    assert Vecs(all)[1..] == Vecs(frames);
    Assoc(frame.vec, Concat(Vecs(frames)), rest);
    forall i | 0 <= i < |all| ensures HasOwnBytes(all[i]) {
      if i > 0 {
        assert HasOwnBytes(frames[i - 1]);
      }
    }
  }

  lemma FirstIsParsed(buf: Bytes)
    requires Parse(buf).Done?
    ensures var len := Parse(buf).len; Parse(buf[..len]) == Done(Parse(buf).value, len)
  {
    ParsedIsThere(buf);
    var v, len := Parse(buf).value, Parse(buf).len;
    EncodedIsParsed(v, []);
    assert Encode(v) + [] == Encode(v) == buf[..len];
  }

  lemma {:induction false} BrokenStays(d: Drained, chunks: seq<Bytes>)
    requires d.broken
    ensures FeedAll(d, chunks) == d
    decreases |chunks|
  {
    if chunks != [] {
      BrokenStays(d, chunks[1..]);
    }
  }

  /** A broken connection reads no more. */
  function Feed(d: Drained, chunk: Bytes): Drained {
    if d.broken then d else
    var next := Drain(d.rest + chunk);
    Drained(d.frames + next.frames, next.rest, next.broken)
  }

  function FeedAll(d: Drained, chunks: seq<Bytes>): Drained
    decreases |chunks|
  {
    if chunks == [] then d else FeedAll(Feed(d, chunks[0]), chunks[1..])
  }

  const START := Drained([], [], false)

  /** The same frames and the same fate; the same bytes left, unless broken. */
  predicate Agree(a: Drained, b: Drained) {
    a.frames == b.frames && a.broken == b.broken && (!a.broken ==> a.rest == b.rest)
  }

  lemma {:induction false} DrainMore(buf: Bytes, x: Bytes)
    ensures Agree(Drain(buf + x), Feed(Drain(buf), x))
    decreases |buf|
  {
    match Parse(buf)
    case NeedMore => assert [] + Drain(buf + x).frames == Drain(buf + x).frames;
    case Bad => BadStaysBad(buf, x);
    case Done(v, len) =>
      DoneStaysDone(buf, x);
      assert (buf + x)[len..] == buf[len..] + x && (buf + x)[..len] == buf[..len];
      DrainMore(buf[len..], x);
      var d := Drain(buf[len..]);
      var frame := [Frame(v, buf[..len])];
      assert frame + (d.frames + Drain(d.rest + x).frames) == (frame + d.frames) + Drain(d.rest + x).frames;
  }

  lemma {:induction false} FeedAllDrains(buf: Bytes, chunks: seq<Bytes>)
    ensures Agree(FeedAll(Drain(buf), chunks), Drain(buf + Concat(chunks)))
    decreases |chunks|
  {
    if chunks == [] {
      assert buf + [] == buf;
    } else {
      DrainMore(buf, chunks[0]);
      FeedAllDrains(buf + chunks[0], chunks[1..]);
      AgreeLater(Feed(Drain(buf), chunks[0]), Drain(buf + chunks[0]), chunks[1..]);
      assert buf + Concat(chunks) == buf + chunks[0] + Concat(chunks[1..]);
    }
  }

  lemma {:induction false} AgreeLater(a: Drained, b: Drained, chunks: seq<Bytes>)
    requires Agree(a, b)
    ensures Agree(FeedAll(a, chunks), FeedAll(b, chunks))
    decreases |chunks|
  {
    if chunks != [] {
      AgreeLater(Feed(a, chunks[0]), Feed(b, chunks[0]), chunks[1..]);
    }
  }

  /** Chunk independence, for any bytes at all, sound or not: however they are cut
      into reads, the frames, the error and the bytes left over are the same. */
  lemma {:induction false} ChunkIndependence(chunks: seq<Bytes>, chunks': seq<Bytes>)
    requires Concat(chunks) == Concat(chunks')
    ensures Agree(FeedAll(START, chunks), FeedAll(START, chunks'))
  {
    assert Drain([]) == START;
    FeedAllDrains([], chunks);
    FeedAllDrains([], chunks');
  }

  function Messages(vs: seq<Value>): Bytes {
    if vs == [] then [] else Encode(vs[0]) + Messages(vs[1..])
  }

  function Frames(vs: seq<Value>): seq<Frame> {
    if vs == [] then [] else [Frame(vs[0], Encode(vs[0]))] + Frames(vs[1..])
  }

  /** Of `buf`, the first `k` messages are complete: they came out, each with its own
      bytes, and what is left is a strict prefix of the next message. */
  ghost predicate CutsAt(vs: seq<Value>, buf: Bytes, k: nat) {
    k <= |vs| && Cuts(vs, buf, Drain(buf), k)
  }

  ghost predicate Cuts(vs: seq<Value>, buf: Bytes, d: Drained, k: nat)
    requires k <= |vs|
  {
    && !d.broken && d.frames == Frames(vs[..k]) && buf == Messages(vs[..k]) + d.rest
    && if k < |vs| then d.rest < Encode(vs[k]) else d.rest == []
  }

  lemma {:induction false} FirstMessage(v: Value, more: Bytes)
    requires WellFormed(v)
    ensures Drain(Encode(v) + more) ==
              Drained([Frame(v, Encode(v))] + Drain(more).frames, Drain(more).rest, Drain(more).broken)
  {
    EncodedIsParsed(v, more);
    assert (Encode(v) + more)[|Encode(v)|..] == more;
  }

  lemma {:induction false} CutsOneLater(v: Value, vs: seq<Value>, more: Bytes, d: Drained, k: nat)
    requires k <= |vs| && Cuts(vs, more, d, k)
    ensures Cuts([v] + vs, Encode(v) + more, Drained([Frame(v, Encode(v))] + d.frames, d.rest, d.broken), k + 1)
  {
    var all := [v] + vs;
    assert all[..k + 1] == [v] + vs[..k];
    assert all[..k + 1][1..] == vs[..k];
    assert Encode(v) + (Messages(vs[..k]) + d.rest) == Encode(v) + Messages(vs[..k]) + d.rest;
    assert k < |vs| ==> all[k + 1] == vs[k];
  }

  lemma {:induction false} CutsBeforeFirst(vs: seq<Value>, buf: Bytes)
    requires vs != [] && WellFormed(vs[0]) && buf < Encode(vs[0])
    ensures CutsAt(vs, buf, 0)
  {
    PrefixNeedsMore(vs[0], buf);
    assert vs[..0] == [];
  }

  lemma {:induction false} CutsAfterFirst(vs: seq<Value>, more: Bytes, k: nat)
    requires vs != [] && WellFormed(vs[0]) && CutsAt(vs[1..], more, k)
    ensures CutsAt(vs, Encode(vs[0]) + more, k + 1)
  {
    FirstMessage(vs[0], more);
    CutsOneLater(vs[0], vs[1..], more, Drain(more), k);
    assert [vs[0]] + vs[1..] == vs;
  }

  /** At every point of a stream of messages the buffer cuts between two of them. */
  lemma {:induction false} DrainOfMessages(vs: seq<Value>, buf: Bytes) returns (k: nat)
    requires forall i :: 0 <= i < |vs| ==> WellFormed(vs[i])
    requires buf <= Messages(vs)
    ensures CutsAt(vs, buf, k)
    decreases |vs|
  {
    k := 0;
    if vs != [] {
      var first := Encode(vs[0]);
      if |buf| < |first| {
        assert buf < first;
        CutsBeforeFirst(vs, buf);
      } else {
        var more := buf[|first|..];
        assert buf == first + more && more <= Messages(vs[1..]);
        k := DrainOfMessages(vs[1..], more);
        CutsAfterFirst(vs, more, k);
        k := k + 1;
      }
    }
  }

  /** Whatever messages a peer sends, however much of them has arrived and however the
      transport cuts that up, the receiver has got exactly the first of those messages, in
      order, and is left with a part of the next: of all of them with nothing left if all
      bytes have arrived. */
  lemma {:induction false} FirstMessagesArrive(vs: seq<Value>, chunks: seq<Bytes>) returns (k: nat)
    requires forall i :: 0 <= i < |vs| ==> WellFormed(vs[i])
    requires Concat(chunks) <= Messages(vs)
    ensures k <= |vs| && Cuts(vs, Concat(chunks), FeedAll(START, chunks), k)
    ensures Concat(chunks) == Messages(vs) ==> k == |vs|
  {
    var buf := Concat(chunks);
    FeedAllDrains([], chunks);
    assert [] + buf == buf && Drain([]) == START;
    k := DrainOfMessages(vs, buf);
    if buf == Messages(vs) {
      ShortOfTheEnd(vs, buf, Drain(buf), k);
    }
  }

  /** Whatever messages a peer sends and however the transport cuts them up, the
      receiver gets exactly those messages, in order, and is left with nothing. */
  lemma {:induction false} MessagesArrive(vs: seq<Value>, chunks: seq<Bytes>)
    requires forall i :: 0 <= i < |vs| ==> WellFormed(vs[i])
    requires Concat(chunks) == Messages(vs)
    ensures FeedAll(START, chunks) == Drained(Frames(vs), [], false)
  {
    var k := FirstMessagesArrive(vs, chunks);
    assert vs[..|vs|] == vs;
  }

  lemma {:induction false} ShortOfTheEnd(vs: seq<Value>, buf: Bytes, d: Drained, k: nat)
    requires k <= |vs| && Cuts(vs, buf, d, k) && buf == Messages(vs)
    ensures k == |vs|
  {
    if k < |vs| {
      MessagesSplit(vs, k);
    }
  }

  lemma {:induction false} MessagesSplit(vs: seq<Value>, k: nat)
    requires k < |vs|
    ensures Messages(vs) == Messages(vs[..k]) + Encode(vs[k]) + Messages(vs[k + 1..])
  {
    if k > 0 {
      MessagesSplit(vs[1..], k - 1);
      assert vs[..k][1..] == vs[1..][..k - 1] && vs[1..][k..] == vs[k + 1..];
      var a, b, c := Messages(vs[1..][..k - 1]), Encode(vs[k]), Messages(vs[k + 1..]);
      Assoc(Encode(vs[0]), a, b);
      Assoc(Encode(vs[0]), a + b, c);
    }
  }

  /** The receive side of a connection. */
  class Receiver {
    var buf: Bytes
    var frames: seq<Frame>
    var broken: bool

    ghost function View(): Drained
      reads this
    {
      Drained(frames, buf, broken)
    }

    constructor ()
      ensures View() == START
    {
      buf, frames, broken := [], [], false;
    }

    /** `MsgPackCodec::decode`: at most one message off the front of the buffer. */
    method Decode() returns (frame: Option<Frame>)
      requires !broken
      modifies `buf, `broken
      ensures match Parse(old(buf))
              case Done(v, len) =>
                frame == Some(Frame(v, old(buf)[..len])) && buf == old(buf)[len..] && !broken
              case NeedMore => frame == None && buf == old(buf) && !broken
              case Bad => frame == None && buf == old(buf) && broken
    {
      match Parse(buf)
      case Bad =>
        broken := true;
        frame := None;
      case NeedMore =>
        frame := None;
      case Done(obj, len) =>
        frame := Some(Frame(obj, buf[..len]));
        buf := buf[len..];
    }

    /** One read: the bytes arrive, and the loop decodes until it needs more or fails. */
    method ReadBuf(chunk: Bytes)
      requires !broken
      modifies this
      ensures View() == Feed(old(View()), chunk)
    {
      buf := buf + chunk;
      ghost var goal := Feed(old(View()), chunk);
      var decoding := true;
      while decoding
        invariant decoding ==> !broken
        invariant decoding ==> goal == Drained(frames + Drain(buf).frames, Drain(buf).rest, Drain(buf).broken)
        invariant !decoding ==> View() == goal
        decreases |buf|, decoding
      {
        ghost var before := buf;
        var frame := Decode();
        if frame.Some? {
          assert frames + Drain(before).frames == frames + [frame.value] + Drain(buf).frames;
          frames := frames + [frame.value];
        } else {
          decoding := false;
        }
      }
    }
  }
}
