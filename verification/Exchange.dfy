/**
 A call from end to end: its request is written, read and dispatched at the other peer,
 and the answer to it is written, read and dispatched at the caller, whose call it completes.
 */
module Exchange {
  import opened Seqs
  import opened Calls
  import opened Dispatch
  import opened Serializer
  import opened WireMessages
  import MsgPack
  import Connection

  /** How a peer reads texts and, for the call or the method at hand, values; and what it
      says of a value it cannot read. */
  datatype Decoding = Decoding(
    result: Object -> Option<string>, text: Bytes -> Option<string>, reason: Object -> string)

  /** Texts that one peer writes the other reads. */
  ghost predicate Understands(decoding: Decoding, coding: Coding) {
    Sound(coding) && forall s :: decoding.text(coding.utf8(s)) == Some(s)
  }

  // ----- the shape every incoming message is read in: an id, a method and an error, if any -----

  /** A field that may be missing or nil; the outer option is whether it can be read. */
  function IdIn(o: Object): Option<Option<U32>> {
    match LookupIn(Some(o), ID)
    case None => Some(None)
    case Some(Null) => Some(None)
    case Some(Integer(n)) => if 0 <= n < TWO_32 then Some(Some(n)) else None
    case _ => None
  }

  function TextIn(o: Option<Object>, decoding: Decoding): Option<string> {
    match o
    case Some(Text(bytes)) => decoding.text(bytes)
    case _ => None
  }

  function TargetIn(o: Object, decoding: Decoding): Option<Option<string>> {
    var target := LookupIn(Some(o), METHOD);
    if target == None || target == Some(Null) then Some(None)
    else
      var name := TextIn(target, decoding);
      if name.None? then None else Some(name)
  }

  function ErrorIn(o: Object, decoding: Decoding): Option<Option<ResponseError>> {
    var error := LookupIn(Some(o), ERROR);
    if error == None || error == Some(Null) then Some(None)
    else
      var message := TextIn(LookupIn(error, MESSAGE), decoding);
      match LookupIn(error, CODE)
      case Some(Integer(n)) =>
        if -0x8000_0000 <= n < 0x8000_0000 && message.Some? then Some(Some(ResponseError(n, message.value))) else None
      case _ => None
  }

  /** What the caller makes of a response without an error. */
  function ResultIn(o: Object, decoding: Decoding): Body {
    match LookupIn(Some(o), RESULT)
    case None => Undecodable(decoding.reason(o))
    case Some(result) =>
      var v := decoding.result(result);
      if v.Some? then Decoded(v.value) else Undecodable(decoding.reason(o))
  }

  function IncomingOf(o: Object, decoding: Decoding): Option<Incoming> {
    var (id, target, error) := (IdIn(o), TargetIn(o, decoding), ErrorIn(o, decoding));
    if !o.Record? || id.None? || target.None? || error.None? then None
    else
      Some(Incoming(id.value, target.value,
                    if error.value.Some? then Failed(error.value.value) else ResultIn(o, decoding)))
  }

  /** What arrives of an object followed by anything. */
  function Received(bytes: Bytes, decoding: Decoding): Option<Incoming> {
    match MsgPack.Parse(bytes)
    case Done(v, _) =>
      (match Read(v)
       case Some(o) => IncomingOf(o, decoding)
       case None => None)
    case _ => None
  }

  function Written(o: Object): Bytes {
    MsgPack.Encode(Serializer.Write(o))
  }

  lemma WrittenIsReceived(o: Object, rest: Bytes, decoding: Decoding)
    requires Fits(o)
    ensures Received(Written(o) + rest, decoding) == IncomingOf(o, decoding)
  {
    SerializedIsDecoded(o, rest);
  }

  // ----- requests -----

  function RequestObject(id: Option<U32>, name: string, params: Object, coding: Coding): Object {
    RequestOf(id, coding.utf8(name), params)
  }

  /** A request arrives with its id and its method. */
  lemma RequestArrives(id: Option<U32>, name: string, params: Object, coding: Coding, decoding: Decoding, rest: Bytes)
    requires Understands(decoding, coding) && Fits(params)
    ensures var r := Received(Written(RequestObject(id, name, params, coding)) + rest, decoding);
            r.Some? && r.value.id == id && r.value.target == Some(name)
  {
    var o := RequestObject(id, name, params, coding);
    RequestFits(id, coding.utf8(name), params);
    WrittenIsReceived(o, rest, decoding);
    KeysDiffer();
    RequestIsRead(id, coding.utf8(name), params, ID);
    RequestIsRead(id, coding.utf8(name), params, METHOD);
    RequestIsRead(id, coding.utf8(name), params, ERROR);
  }

  // ----- answers -----

  /** An answer arrives as a response with its id: with its error, or with its value, if the
      caller can read that. */
  lemma AnswerArrives(reply: Reply, coding: Coding, decoding: Decoding, rest: Bytes)
    requires Understands(decoding, coding)
    ensures var r := Received(Written(AnswerOf(reply, coding)) + rest, decoding);
            && r.Some? && r.value.id == Some(reply.id) && r.value.target == None
            && match reply
               case Failure(_, e) => r.value.body == Failed(e)
               case Success(_, v) =>
                 match decoding.result(coding.result(v))
                 case Some(w) => r.value.body == Decoded(w)
                 case None => r.value.body == Undecodable(decoding.reason(AnswerOf(reply, coding)))
  {
    AnswerFits(reply, coding);
    WrittenIsReceived(AnswerOf(reply, coding), rest, decoding);
    KeysDiffer();
    AnswerIsRead(reply, coding, ID);
    AnswerIsRead(reply, coding, METHOD);
    AnswerIsRead(reply, coding, RESULT);
    AnswerIsRead(reply, coding, ERROR);
    if reply.Failure? {
      ErrorIsRead(reply.error, coding);
    }
  }

  // ----- the call they belong to -----

  /** Call `k` waits for a response. */
  ghost predicate Waits(s: State, k: nat) {
    Inv(s) && !s.poisoned && k < |s.made| && s.made[k].phase == Registered
  }

  /** Call `k` has ended in this way, and no other call has changed. */
  predicate Ends(s: State, s': State, k: nat, outcome: Outcome) {
    && |s'.made| == |s.made| && k < |s.made|
    && s'.made[k] == s.made[k].(phase := Completed(outcome, s.made[k].Id()))
    && (forall j :: 0 <= j < |s.made| && j != k ==> s'.made[j] == s.made[j])
    && s'.calls == s.calls - {s.made[k].Id()} && !s'.poisoned
  }

  lemma ResponseEnds(s: State, k: nat, m: Incoming, methods: map<string, Kind>, h: Handling)
    requires Waits(s, k) && m.target == None && m.id == Some(s.made[k].Id())
    ensures var s' := DispatchOf(methods, s, m, h).0;
            match m.body
            case Failed(e) => Ends(s, s', k, Err(e))
            case Decoded(v) => Ends(s, s', k, Ok(v))
            case Undecodable(text) => Ends(s, s', k, Err(ResponseError(0, text)))
  {
    assert CallOk(s, k);
  }

  /** An answer completes the call that waits under its id, and no other: an error with the
      same code and message, a success with the value, or with an error of code 0 if the
      caller cannot read that. */
  lemma AnswerCompletesCall(reply: Reply, coding: Coding, decoding: Decoding, rest: Bytes,
                            methods: map<string, Kind>, h: Handling, s: State, k: nat)
    requires Understands(decoding, coding) && Waits(s, k) && s.made[k].Id() == reply.id
    ensures var r := Received(Written(AnswerOf(reply, coding)) + rest, decoding);
            && r.Some?
            && var s' := DispatchOf(methods, s, r.value, h).0;
               match reply
               case Failure(_, e) => Ends(s, s', k, Err(ResponseError(e.code, e.message)))
               case Success(_, v) =>
                 match decoding.result(coding.result(v))
                 case Some(w) => Ends(s, s', k, Ok(w))
                 case None => Ends(s, s', k, Err(ResponseError(0, decoding.reason(AnswerOf(reply, coding)))))
  {
    AnswerArrives(reply, coding, decoding, rest);
    ResponseEnds(s, k, Received(Written(AnswerOf(reply, coding)) + rest, decoding).value, methods, h);
  }

  /** What the peer answers to a request, by what its callback makes of it. */
  lemma RequestIsAnswered(m: Incoming, methods: map<string, Kind>, h: Handling, table: State, id: U32, name: string)
    requires m.id == Some(id) && m.target == Some(name)
    ensures DispatchOf(methods, table, m, h).1.reply ==
              Some(if name !in methods then Failure(id, ResponseError(-1, "Method not found: " + name))
                   else match h
                        case BadParams(text) => Failure(id, ResponseError(0, text))
                        case Refused(text) => Failure(id, ResponseError(-1, text))
                        case Returned(v) => Success(id, v))
  {
  }

  /** The reply of a peer to the request of call `k` that arrives there. */
  function ReplyOfPeer(s: State, k: nat, name: string, params: Object, coding: Coding, peer: Decoding, rest: Bytes,
                       methods: map<string, Kind>, h: Handling, table: State): Option<Reply>
    requires k < |s.made|
  {
    var r := Received(Written(RequestObject(Some(s.made[k].Id()), name, params, coding)) + rest, peer);
    if r.Some? then DispatchOf(methods, table, r.value, h).1.reply else None
  }

  lemma PeerReplies(s: State, k: nat, name: string, params: Object, coding: Coding, peer: Decoding, rest: Bytes,
                    methods: map<string, Kind>, h: Handling, table: State)
    requires Understands(peer, coding) && Fits(params) && k < |s.made|
    ensures ReplyOfPeer(s, k, name, params, coding, peer, rest, methods, h, table) ==
              var id := s.made[k].Id();
              Some(if name !in methods then Failure(id, ResponseError(-1, "Method not found: " + name))
                   else match h
                        case BadParams(text) => Failure(id, ResponseError(0, text))
                        case Refused(text) => Failure(id, ResponseError(-1, text))
                        case Returned(v) => Success(id, v))
  {
    RequestArrives(Some(s.made[k].Id()), name, params, coding, peer, rest);
    var r := Received(Written(RequestObject(Some(s.made[k].Id()), name, params, coding)) + rest, peer);
    RequestIsAnswered(r.value, methods, h, table, s.made[k].Id(), name);
  }

  /** From end to end: a call of any method, written, read, dispatched, answered, and the
      answer written, read and dispatched, ends as the callback at the peer says: with the
      value it returned, with its message under code -1, with what was wrong with the
      parameters under code 0, or with the error for a method that is not registered. */
  lemma CallRoundTrip(s: State, k: nat, name: string, params: Object, coding: Coding, peer: Decoding, rest: Bytes,
                      methods: map<string, Kind>, h: Handling, table: State,
                      coding2: Coding, decoding: Decoding, rest2: Bytes, own: map<string, Kind>, h2: Handling)
    requires Waits(s, k) && Understands(peer, coding) && Understands(decoding, coding2) && Fits(params)
    requires forall v :: decoding.result(coding2.result(v)) == Some(v)
    ensures var reply := ReplyOfPeer(s, k, name, params, coding, peer, rest, methods, h, table);
            && reply.Some?
            && var r := Received(Written(AnswerOf(reply.value, coding2)) + rest2, decoding);
               && r.Some?
               && Ends(s, DispatchOf(own, s, r.value, h2).0, k,
                       if name !in methods then Err(ResponseError(-1, "Method not found: " + name))
                       else match h
                            case BadParams(text) => Err(ResponseError(0, text))
                            case Refused(text) => Err(ResponseError(-1, text))
                            case Returned(v) => Ok(v))
  {
    PeerReplies(s, k, name, params, coding, peer, rest, methods, h, table);
    var reply := ReplyOfPeer(s, k, name, params, coding, peer, rest, methods, h, table).value;
    AnswerCompletesCall(reply, coding2, decoding, rest2, own, h2, s, k);
  }
}
