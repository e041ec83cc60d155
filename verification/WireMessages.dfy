/**
 The messages of a connection as objects of the wire, by the names of their fields, and
 what a peer does with one about a stream: `stream_data` writes to it and `stream_ended`
 removes it.
 */
module WireMessages {
  import opened Seqs
  import Calls
  import opened Dispatch
  import opened Serializer
  import C = Connection

  function Ascii(s: string): (b: Bytes)
    ensures |b| == |s| && forall i :: 0 <= i < |s| && s[i] < 0x80 as char ==> b[i] == s[i] as int
  {
    seq(|s|, i requires 0 <= i < |s| => s[i] as int % 0x100)
  }

  const ID := Ascii("id")
  const METHOD := Ascii("method")
  const PARAMS := Ascii("params")
  const RESULT := Ascii("result")
  const ERROR := Ascii("error")
  const CODE := Ascii("code")
  const MESSAGE := Ascii("message")
  const STREAM_IDS := Ascii("stream_ids")
  const FOR_REQUEST_ID := Ascii("for_request_id")
  const SEGMENT := Ascii("segment")
  const STREAM := Ascii("stream")
  const STREAMS_STARTED := Ascii("streams_started")
  const STREAM_DATA := Ascii("stream_data")
  const STREAM_ENDED := Ascii("stream_ended")

  /** How the values that callbacks return and the texts of their errors are written. */
  datatype Coding = Coding(result: string -> Object, utf8: string -> Bytes)

  ghost predicate Sound(coding: Coding) {
    && (forall v :: Fits(coding.result(v)))
    && (forall s :: |coding.utf8(s)| < TWO_32)
  }

  function Pair(key: Bytes, value: Object, rest: Objects): Objects {
    More(Text(key), More(value, rest))
  }

  function Integers(ids: seq<U32>): Objects {
    if ids == [] then Empty else More(Integer(ids[0]), Integers(ids[1..]))
  }

  function IdObject(id: Option<U32>): Object {
    if id.Some? then Integer(id.value) else Null
  }

  function RequestOf(id: Option<U32>, name: Bytes, params: Object): Object {
    Record(Pair(ID, IdObject(id), Pair(METHOD, Text(name), Pair(PARAMS, params, Empty))))
  }

  function ErrorObject(e: Calls.ResponseError, coding: Coding): Object {
    Record(Pair(CODE, Integer(e.code), Pair(MESSAGE, Text(coding.utf8(e.message)), Empty)))
  }

  function AnswerOf(reply: Reply, coding: Coding): Object {
    match reply
    case Success(id, v) => Record(Pair(ID, Integer(id), Pair(RESULT, coding.result(v), Empty)))
    case Failure(id, e) => Record(Pair(ID, Integer(id), Pair(ERROR, ErrorObject(e, coding), Empty)))
  }

  function ObjectOf(m: C.Msg, coding: Coding): Object {
    match m
    case Started(dto) =>
      RequestOf(None, STREAMS_STARTED, Record(Pair(FOR_REQUEST_ID, Integer(dto.request),
                                                   Pair(STREAM_IDS, List(Integers(dto.streams)), Empty))))
    case Data(x, segment) =>
      RequestOf(None, STREAM_DATA, Record(Pair(SEGMENT, Binary(segment), Pair(STREAM, Integer(x), Empty))))
    case Ended(x) => RequestOf(None, STREAM_ENDED, Record(Pair(STREAM, Integer(x), Empty)))
    case Answer(reply) => AnswerOf(reply, coding)
  }

  // ----- reading them -----

  /** What a message asks of the multiplexer. */
  datatype Op = Write(stream: U32, buf: Bytes) | Remove(stream: U32)

  /** The value of a key of a map. */
  function Lookup(pairs: Objects, key: Bytes): Option<Object> {
    match pairs
    case More(k, More(v, rest)) => if k == Text(key) then Some(v) else Lookup(rest, key)
    case _ => None
  }

  function LookupIn(o: Option<Object>, key: Bytes): Option<Object> {
    if o.Some? && o.value.Record? then Lookup(o.value.pairs, key) else None
  }

  function OpOf(o: Object): Option<Op> {
    var target := LookupIn(Some(o), METHOD);
    var params := LookupIn(Some(o), PARAMS);
    var segment := LookupIn(params, SEGMENT);
    match LookupIn(params, STREAM)
    case Some(Integer(x)) =>
      if !(0 <= x < TWO_32) then None
      else if target == Some(Text(STREAM_ENDED)) then Some(Remove(x))
      else if target == Some(Text(STREAM_DATA)) && segment.Some? && segment.value.Binary?
        then Some(Write(x, segment.value.bytes))
      else None
    case _ => None
  }

  lemma KeysDiffer()
    ensures METHOD != ID && PARAMS != ID && METHOD != PARAMS && METHOD != RESULT && METHOD != ERROR
    ensures ERROR != ID && ERROR != PARAMS && RESULT != ID && RESULT != ERROR && CODE != MESSAGE
    ensures FOR_REQUEST_ID != STREAM_IDS
    ensures SEGMENT != STREAM && STREAM_DATA != STREAM_ENDED
    ensures STREAMS_STARTED != STREAM_DATA && STREAMS_STARTED != STREAM_ENDED
  {
    assert METHOD[0] == 'm' as int && PARAMS[0] == 'p' as int && RESULT[0] == 'r' as int;
  }

  lemma LookupPair(key: Bytes, value: Object, rest: Objects, wanted: Bytes)
    ensures Lookup(Pair(key, value, rest), wanted) == if wanted == key then Some(value) else Lookup(rest, wanted)
  {
  }

  lemma OneIsRead(key: Bytes, value: Object, wanted: Bytes)
    ensures LookupIn(Some(Record(Pair(key, value, Empty))), wanted) == if wanted == key then Some(value) else None
  {
    LookupPair(key, value, Empty, wanted);
  }

  lemma TwoAreRead(key: Bytes, value: Object, key2: Bytes, value2: Object, wanted: Bytes)
    ensures LookupIn(Some(Record(Pair(key, value, Pair(key2, value2, Empty)))), wanted) ==
              if wanted == key then Some(value) else if wanted == key2 then Some(value2) else None
  {
    LookupPair(key, value, Pair(key2, value2, Empty), wanted);
    LookupPair(key2, value2, Empty, wanted);
  }

  lemma RequestIsRead(id: Option<U32>, name: Bytes, params: Object, wanted: Bytes)
    ensures LookupIn(Some(RequestOf(id, name, params)), wanted) ==
              if wanted == ID then Some(IdObject(id)) else if wanted == METHOD then Some(Text(name))
              else if wanted == PARAMS then Some(params) else None
  {
    var last := Pair(PARAMS, params, Empty);
    LookupPair(ID, IdObject(id), Pair(METHOD, Text(name), last), wanted);
    LookupPair(METHOD, Text(name), last, wanted);
    LookupPair(PARAMS, params, Empty, wanted);
  }

  lemma AnswerIsRead(reply: Reply, coding: Coding, wanted: Bytes)
    ensures LookupIn(Some(AnswerOf(reply, coding)), wanted) ==
              if wanted == ID then Some(Integer(reply.id))
              else if wanted == RESULT && reply.Success? then Some(coding.result(reply.value))
              else if wanted == ERROR && reply.Failure? then Some(ErrorObject(reply.error, coding))
              else None
  {
    match reply
    case Success(id, v) => TwoAreRead(ID, Integer(id), RESULT, coding.result(v), wanted);
    case Failure(id, e) => TwoAreRead(ID, Integer(id), ERROR, ErrorObject(e, coding), wanted);
  }

  /** A message is read by the names of its fields. */
  ghost predicate ReadsAs(o: Object, m: C.Msg, coding: Coding) {
    var target, params := LookupIn(Some(o), Ascii("method")), LookupIn(Some(o), Ascii("params"));
    match m
    case Started(dto) =>
      && target == Some(Text(Ascii("streams_started")))
      && LookupIn(params, Ascii("for_request_id")) == Some(Integer(dto.request))
      && LookupIn(params, Ascii("stream_ids")) == Some(List(Integers(dto.streams)))
    case Data(x, segment) =>
      && target == Some(Text(Ascii("stream_data")))
      && LookupIn(params, Ascii("segment")) == Some(Binary(segment))
      && LookupIn(params, Ascii("stream")) == Some(Integer(x))
    case Ended(x) =>
      target == Some(Text(Ascii("stream_ended"))) && LookupIn(params, Ascii("stream")) == Some(Integer(x))
    case Answer(reply) =>
      var error := LookupIn(Some(o), Ascii("error"));
      && target == None && LookupIn(Some(o), Ascii("id")) == Some(Integer(reply.id))
      && (reply.Success? ==>
            LookupIn(Some(o), Ascii("result")) == Some(coding.result(reply.value)) && error == None)
      && (reply.Failure? ==>
            && LookupIn(error, Ascii("code")) == Some(Integer(reply.error.code))
            && LookupIn(error, Ascii("message")) == Some(Text(coding.utf8(reply.error.message))))
  }

  lemma MessageReadsAsItself(m: C.Msg, coding: Coding)
    ensures ReadsAs(ObjectOf(m, coding), m, coding)
  {
    KeysDiffer();
    match m
    case Answer(reply) => AnswerReadsAsItself(reply, coding);
    case Started(dto) =>
      var ids := List(Integers(dto.streams));
      var params := Record(Pair(FOR_REQUEST_ID, Integer(dto.request), Pair(STREAM_IDS, ids, Empty)));
      RequestIsRead(None, STREAMS_STARTED, params, METHOD);
      RequestIsRead(None, STREAMS_STARTED, params, PARAMS);
      TwoAreRead(FOR_REQUEST_ID, Integer(dto.request), STREAM_IDS, ids, FOR_REQUEST_ID);
      TwoAreRead(FOR_REQUEST_ID, Integer(dto.request), STREAM_IDS, ids, STREAM_IDS);
    case Data(x, segment) => DataIsRead(x, segment);
    case Ended(x) => EndIsRead(x);
  }

  lemma AnswerReadsAsItself(reply: Reply, coding: Coding)
    ensures ReadsAs(AnswerOf(reply, coding), C.Answer(reply), coding)
  {
    KeysDiffer();
    AnswerIsRead(reply, coding, METHOD);
    AnswerIsRead(reply, coding, ID);
    AnswerIsRead(reply, coding, RESULT);
    AnswerIsRead(reply, coding, ERROR);
    if reply.Failure? {
      ErrorIsRead(reply.error, coding);
    }
  }

  lemma ErrorIsRead(e: Calls.ResponseError, coding: Coding)
    ensures LookupIn(Some(ErrorObject(e, coding)), CODE) == Some(Integer(e.code))
    ensures LookupIn(Some(ErrorObject(e, coding)), MESSAGE) == Some(Text(coding.utf8(e.message)))
  {
    KeysDiffer();
    TwoAreRead(CODE, Integer(e.code), MESSAGE, Text(coding.utf8(e.message)), CODE);
    TwoAreRead(CODE, Integer(e.code), MESSAGE, Text(coding.utf8(e.message)), MESSAGE);
  }

  lemma DataIsRead(x: U32, segment: Bytes)
    ensures var params := Record(Pair(SEGMENT, Binary(segment), Pair(STREAM, Integer(x), Empty)));
            var o := Some(RequestOf(None, STREAM_DATA, params));
            && LookupIn(o, METHOD) == Some(Text(STREAM_DATA)) && LookupIn(o, PARAMS) == Some(params)
            && LookupIn(Some(params), SEGMENT) == Some(Binary(segment))
            && LookupIn(Some(params), STREAM) == Some(Integer(x))
  {
    KeysDiffer();
    var params := Record(Pair(SEGMENT, Binary(segment), Pair(STREAM, Integer(x), Empty)));
    RequestIsRead(None, STREAM_DATA, params, METHOD);
    RequestIsRead(None, STREAM_DATA, params, PARAMS);
    TwoAreRead(SEGMENT, Binary(segment), STREAM, Integer(x), SEGMENT);
    TwoAreRead(SEGMENT, Binary(segment), STREAM, Integer(x), STREAM);
  }

  lemma EndIsRead(x: U32)
    ensures var params := Record(Pair(STREAM, Integer(x), Empty));
            var o := Some(RequestOf(None, STREAM_ENDED, params));
            && LookupIn(o, METHOD) == Some(Text(STREAM_ENDED)) && LookupIn(o, PARAMS) == Some(params)
            && LookupIn(Some(params), STREAM) == Some(Integer(x))
  {
    KeysDiffer();
    var params := Record(Pair(STREAM, Integer(x), Empty));
    RequestIsRead(None, STREAM_ENDED, params, METHOD);
    RequestIsRead(None, STREAM_ENDED, params, PARAMS);
    OneIsRead(STREAM, Integer(x), STREAM);
  }

  /** What a message asks of the multiplexer of the peer. */
  function OpAsked(m: C.Msg): Option<Op> {
    match m
    case Data(x, segment) => Some(Write(x, segment))
    case Ended(x) => Some(Remove(x))
    case _ => None
  }

  /** The peer understands each message about a stream as what it is, and no other as one. */
  lemma MessageIsUnderstood(m: C.Msg, coding: Coding)
    ensures OpOf(ObjectOf(m, coding)) == OpAsked(m)
  {
    KeysDiffer();
    MessageReadsAsItself(m, coding);
  }

  // ----- they can be written -----

  predicate Sendable(m: C.Msg) {
    match m
    case Started(dto) => |dto.streams| < TWO_32
    case Data(_, segment) => |segment| < TWO_32
    case _ => true
  }

  lemma {:induction false} IntegersFit(ids: seq<U32>)
    ensures Length(Integers(ids)) == |ids| && AllFit(Integers(ids))
  {
    if ids != [] {
      IntegersFit(ids[1..]);
    }
  }

  lemma PairFits(key: Bytes, value: Object, rest: Objects)
    requires |key| < TWO_32 && Fits(value) && AllFit(rest)
    ensures AllFit(Pair(key, value, rest)) && Length(Pair(key, value, rest)) == 2 + Length(rest)
  {
    assert AllFit(More(value, rest)) && Fits(Text(key));
  }

  lemma RecordFits(pairs: Objects)
    requires AllFit(pairs) && Length(pairs) <= 6 && Length(pairs) % 2 == 0
    ensures Fits(Record(pairs))
  {
  }

  lemma RequestFits(id: Option<U32>, name: Bytes, params: Object)
    requires |name| < TWO_32 && Fits(params)
    ensures Fits(RequestOf(id, name, params))
  {
    PairFits(PARAMS, params, Empty);
    PairFits(METHOD, Text(name), Pair(PARAMS, params, Empty));
    IdFits(id, Pair(METHOD, Text(name), Pair(PARAMS, params, Empty)));
  }

  lemma IdFits(id: Option<U32>, rest: Objects)
    requires AllFit(rest) && Length(rest) == 4
    ensures Fits(Record(Pair(ID, IdObject(id), rest)))
  {
    PairFits(ID, IdObject(id), rest);
    RecordFits(Pair(ID, IdObject(id), rest));
  }

  lemma MessageFits(m: C.Msg, coding: Coding)
    requires Sound(coding) && Sendable(m)
    ensures Fits(ObjectOf(m, coding))
  {
    match m
    case Started(dto) =>
      IntegersFit(dto.streams);
      TwoFit(FOR_REQUEST_ID, Integer(dto.request), STREAM_IDS, List(Integers(dto.streams)));
      RequestFits(None, STREAMS_STARTED, Record(Pair(FOR_REQUEST_ID, Integer(dto.request),
                                                     Pair(STREAM_IDS, List(Integers(dto.streams)), Empty))));
    case Data(x, segment) =>
      TwoFit(SEGMENT, Binary(segment), STREAM, Integer(x));
      RequestFits(None, STREAM_DATA, Record(Pair(SEGMENT, Binary(segment), Pair(STREAM, Integer(x), Empty))));
    case Ended(x) =>
      PairFits(STREAM, Integer(x), Empty);
      RecordFits(Pair(STREAM, Integer(x), Empty));
      RequestFits(None, STREAM_ENDED, Record(Pair(STREAM, Integer(x), Empty)));
    case Answer(reply) => AnswerFits(reply, coding);
  }

  lemma TwoFit(key: Bytes, value: Object, key2: Bytes, value2: Object)
    requires |key| < TWO_32 && |key2| < TWO_32 && Fits(value) && Fits(value2)
    ensures Fits(Record(Pair(key, value, Pair(key2, value2, Empty))))
  {
    PairFits(key2, value2, Empty);
    PairFits(key, value, Pair(key2, value2, Empty));
    RecordFits(Pair(key, value, Pair(key2, value2, Empty)));
  }

  lemma AnswerFits(reply: Reply, coding: Coding)
    requires Sound(coding)
    ensures Fits(AnswerOf(reply, coding))
  {
    match reply
    case Success(id, v) => TwoFit(ID, Integer(id), RESULT, coding.result(v));
    case Failure(id, e) =>
      TwoFit(CODE, Integer(e.code), MESSAGE, Text(coding.utf8(e.message)));
      TwoFit(ID, Integer(id), ERROR, ErrorObject(e, coding));
  }
}
