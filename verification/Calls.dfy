/**
 Outbound calls: the id counter, the table of pending calls, and the responses
 that complete them.

 `RpcCaller::call` takes an id, sends the request, and only then registers the
 call; responses are dispatched concurrently, so sending and registering are
 two steps here.
 */
module Calls {
  import opened Seqs

  const ID_SPACE: nat := 0x1_0000_0000

  /** The id an atomic 32-bit counter hands out for the `serial`-th request for one. */
  function MessageId(serial: nat): U32 {
    serial % ID_SPACE
  }

  /** The counter wraps around. */
  lemma NextMessageId(serial: nat)
    ensures (MessageId(serial) + 1) % ID_SPACE == MessageId(serial + 1)
  {
  }

  type I32 = n: int | -0x8000_0000 <= n < 0x8000_0000

  datatype ResponseError = ResponseError(code: I32, message: string)

  /** A response as it arrives: an error, or a body that decodes or does not. */
  datatype Body = Failed(error: ResponseError) | Decoded(value: string) | Undecodable(message: string)

  datatype Outcome = Ok(value: string) | Err(error: ResponseError)

  /** What the receiver of a call sees of a response. */
  function Resolve(body: Body): Outcome {
    match body
    case Failed(e) => Err(e)
    case Decoded(v) => Ok(v)
    case Undecodable(m) => Err(ResponseError(0, m))
  }

  /** `Dropped`: the sending half is gone, the receiver gets nothing. */
  datatype Phase = Sent | Registered | Completed(outcome: Outcome, carried: U32) | Dropped

  /** One call; `serial` is the number of ids handed out before its own. */
  datatype Call = Call(serial: nat, phase: Phase) {
    function Id(): U32 { MessageId(serial) }
  }

  /** `calls` maps pending ids to call numbers. `issued` counts all ids handed out,
      to calls and to streams alike. A poisoned table panics whoever locks it. */
  datatype State = State(issued: nat, calls: map<U32, nat>, made: seq<Call>, poisoned: bool)

  const INITIAL := State(0, map[], [], false)

  datatype Event =
    | TakeStreamIds(n: nat)
    | Send(ok: bool)
    | Register(k: nat)
    | Respond(id: Option<U32>, body: Body)

  predicate Enabled(s: State, e: Event) {
    e.Register? ==> e.k < |s.made| && s.made[e.k].phase == Sent
  }

  function WithPhase(made: seq<Call>, k: nat, phase: Phase): seq<Call>
    requires k < |made|
  {
    made[k := made[k].(phase := phase)]
  }

  /** Inserting over a pending id drops the older call's sending half. */
  function DoRegister(s: State, k: nat): State
    requires k < |s.made|
  {
    var id := s.made[k].Id();
    var made := if id in s.calls && s.calls[id] < |s.made| then WithPhase(s.made, s.calls[id], Dropped) else s.made;
    s.(calls := s.calls[id := k], made := WithPhase(made, k, Registered))
  }

  /** A response without an id panics while it holds the lock. */
  function DoRespond(s: State, id: Option<U32>, body: Body): State {
    match id
    case None => s.(poisoned := true)
    case Some(i) =>
      if i in s.calls && s.calls[i] < |s.made|
      then s.(calls := s.calls - {i}, made := WithPhase(s.made, s.calls[i], Completed(Resolve(body), i)))
      else s
  }

  function Next(s: State, e: Event): State
    requires Enabled(s, e)
  {
    match e
    case TakeStreamIds(n) => s.(issued := s.issued + n)
    case Send(ok) => s.(issued := s.issued + 1, made := s.made + [Call(s.issued, if ok then Sent else Dropped)])
    case Register(k) => if s.poisoned then s.(made := WithPhase(s.made, k, Dropped)) else DoRegister(s, k)
    case Respond(id, body) => if s.poisoned then s else DoRespond(s, id, body)
  }

  /** The table holds exactly the registered calls, each under its own id;
      a completed call was completed by a response carrying that id. */
  ghost predicate Inv(s: State) {
    && (forall id {:trigger EntryOk(s, id)} :: id in s.calls ==> EntryOk(s, id))
    && (forall k {:trigger CallOk(s, k)} :: 0 <= k < |s.made| ==> CallOk(s, k))
    && (forall j, k :: 0 <= j < k < |s.made| ==> s.made[j].serial < s.made[k].serial)
  }

  ghost predicate EntryOk(s: State, id: U32)
    requires id in s.calls
  {
    s.calls[id] < |s.made| && s.made[s.calls[id]].Id() == id && s.made[s.calls[id]].phase == Registered
  }

  ghost predicate CallOk(s: State, k: nat)
    requires k < |s.made|
  {
    && s.made[k].serial < s.issued
    && (s.made[k].phase == Registered ==> s.made[k].Id() in s.calls && s.calls[s.made[k].Id()] == k)
    && (s.made[k].phase.Completed? ==> s.made[k].phase.carried == s.made[k].Id())
  }

  /** The entry a step removes or replaces is in order. */
  ghost predicate SiteOk(s: State, e: Event) {
    && (e.Respond? && e.id.Some? && e.id.value in s.calls ==> EntryOk(s, e.id.value))
    && (e.Register? && e.k < |s.made| && s.made[e.k].Id() in s.calls ==> EntryOk(s, s.made[e.k].Id()))
  }

  lemma EntryKept(s: State, e: Event, id: U32)
    requires Enabled(s, e) && SiteOk(s, e)
    requires id in Next(s, e).calls && (id in s.calls ==> EntryOk(s, id))
    ensures EntryOk(Next(s, e), id)
  {
  }

  lemma CallKept(s: State, e: Event, k: nat)
    requires Enabled(s, e) && SiteOk(s, e)
    requires k < |Next(s, e).made| && (k < |s.made| ==> CallOk(s, k))
    ensures CallOk(Next(s, e), k)
  {
  }

  lemma SerialsKept(s: State, e: Event, j: nat, k: nat)
    requires Enabled(s, e) && j < k < |Next(s, e).made| && CallOk(s, j)
    requires k < |s.made| ==> s.made[j].serial < s.made[k].serial
    ensures Next(s, e).made[j].serial < Next(s, e).made[k].serial
  {
  }

  lemma StepKeepsInv(s: State, e: Event)
    requires Inv(s) && Enabled(s, e)
    ensures Inv(Next(s, e))
  {
    var s' := Next(s, e);
    forall id | id in s'.calls ensures EntryOk(s', id) {
      EntryKept(s, e, id);
    }
    forall k | 0 <= k < |s'.made| ensures CallOk(s', k) {
      assert k < |s.made| ==> CallOk(s, k);
      CallKept(s, e, k);
    }
    forall j, k | 0 <= j < k < |s'.made| ensures s'.made[j].serial < s'.made[k].serial {
      assert j < |s.made| ==> CallOk(s, j);
      SerialsKept(s, e, j, k);
    }
  }

  /** No id has been handed out twice. */
  predicate WithinIdSpace(s: State) {
    s.issued <= ID_SPACE
  }

  lemma IdsAreUnique(s: State, j: nat, k: nat)
    requires Inv(s) && WithinIdSpace(s)
    requires j < |s.made| && k < |s.made|
    ensures s.made[j].Id() == s.made[k].Id() <==> j == k
  {
    assert CallOk(s, j) && CallOk(s, k);
    if j < k {
      assert s.made[j].serial < s.made[k].serial < ID_SPACE;
    } else if k < j {
      assert s.made[k].serial < s.made[j].serial < ID_SPACE;
    }
  }

  /** A response completes its call exactly when that call is registered by then: with the
      error it carries, with the value it decodes to, or with an error of code 0 if it does
      not decode; every other call is left as it was. */
  lemma ResponseCompletesItsCall(s: State, k: nat, body: Body)
    requires Inv(s) && WithinIdSpace(s) && !s.poisoned && k < |s.made|
    ensures var s' := Next(s, Respond(Some(s.made[k].Id()), body));
            && |s'.made| == |s.made|
            && s'.made[k].phase == (if s.made[k].phase != Registered then s.made[k].phase
                                    else match body
                                         case Failed(e) => Completed(Err(e), s.made[k].Id())
                                         case Decoded(v) => Completed(Ok(v), s.made[k].Id())
                                         case Undecodable(m) => Completed(Err(ResponseError(0, m)), s.made[k].Id()))
            && forall j :: 0 <= j < |s.made| && j != k ==> s'.made[j] == s.made[j]
  {
    var id := s.made[k].Id();
    assert CallOk(s, k);
    assert id in s.calls ==> EntryOk(s, id);
    forall j | 0 <= j < |s.made| && j != k
      ensures s.made[j].Id() != s.made[k].Id()
    {
      IdsAreUnique(s, j, k);
    }
  }

  // ----- whole runs -----

  ghost predicate Allowed(s: State, es: seq<Event>)
    decreases |es|
  {
    es == [] || (Enabled(s, es[0]) && Allowed(Next(s, es[0]), es[1..]))
  }

  ghost function Run(s: State, es: seq<Event>): State
    requires Allowed(s, es)
    decreases |es|
  {
    if es == [] then s else Run(Next(s, es[0]), es[1..])
  }

  lemma {:induction false} RunKeepsInv(s: State, es: seq<Event>)
    requires Inv(s) && Allowed(s, es)
    ensures Inv(Run(s, es))
    ensures s.issued <= Run(s, es).issued && |s.made| <= |Run(s, es).made|
    decreases |es|
  {
    if es != [] {
      StepKeepsInv(s, es[0]);
      RunKeepsInv(Next(s, es[0]), es[1..]);
    }
  }

  function IdsTaken(e: Event): nat {
    match e
    case TakeStreamIds(n) => n
    case Send(_) => 1
    case _ => 0
  }

  /** The serial numbers of the calls sent among `es`, when `issued` ids are out before. */
  function SerialsSent(es: seq<Event>, issued: nat): seq<nat>
    decreases |es|
  {
    if es == [] then []
    else (if es[0].Send? then [issued] else []) + SerialsSent(es[1..], issued + IdsTaken(es[0]))
  }

  function AllIdsTaken(es: seq<Event>): nat {
    if es == [] then 0 else IdsTaken(es[0]) + AllIdsTaken(es[1..])
  }

  function SerialsOf(made: seq<Call>): (r: seq<nat>)
    ensures |r| == |made| && forall k :: 0 <= k < |r| ==> r[k] == made[k].serial
  {
    seq(|made|, k requires 0 <= k < |made| => made[k].serial)
  }

  /** Every call, sent well or not, has its own id, the next one of the counter, and so has
      every stream; nothing else takes one. */
  lemma {:induction false} RunHandsOutIds(s: State, es: seq<Event>)
    requires Allowed(s, es)
    ensures Run(s, es).issued == s.issued + AllIdsTaken(es)
    ensures SerialsOf(Run(s, es).made) == SerialsOf(s.made) + SerialsSent(es, s.issued)
    decreases |es|
  {
    if es != [] {
      StepHandsOutIds(s, es[0]);
      RunHandsOutIds(Next(s, es[0]), es[1..]);
      Assoc(SerialsOf(s.made), if es[0].Send? then [s.issued] else [],
            SerialsSent(es[1..], s.issued + IdsTaken(es[0])));
    }
  }

  lemma StepHandsOutIds(s: State, e: Event)
    requires Enabled(s, e)
    ensures Next(s, e).issued == s.issued + IdsTaken(e)
    ensures SerialsOf(Next(s, e).made) == SerialsOf(s.made) + (if e.Send? then [s.issued] else [])
  {
  }

  /** The table is poisoned exactly by a response without an id. */
  lemma {:induction false} PoisonedIff(s: State, es: seq<Event>)
    requires Allowed(s, es)
    ensures Run(s, es).poisoned <==> s.poisoned || exists i :: 0 <= i < |es| && es[i].Respond? && es[i].id == None
    decreases |es|
  {
    if es != [] {
      PoisonedIff(Next(s, es[0]), es[1..]);
      assert forall i :: 1 <= i < |es| ==> es[i] == es[1..][i - 1];
    }
  }

  /** A call from its start: once sent it waits to be registered, whatever comes, and then is
      registered unless the table is poisoned; if it could not be sent it is dropped. */
  lemma {:induction false} CallUntilRegistered(s: State, ok: bool, es: seq<Event>, k: nat)
    requires Inv(s) && k == |s.made| && Allowed(Next(s, Send(ok)), es)
    requires forall i :: 0 <= i < |es| ==> es[i] != Register(k)
    ensures var s' := Run(Next(s, Send(ok)), es);
            && k < |s'.made| && s'.made[k].phase == (if ok then Sent else Dropped)
            && (ok ==> Enabled(s', Register(k))
                       && Next(s', Register(k)).made[k].phase == if s'.poisoned then Dropped else Registered)
  {
    StepKeepsInv(s, Send(ok));
    if ok {
      SentUntilRegistered(Next(s, Send(ok)), es, k);
    } else {
      Settled(Next(s, Send(ok)), es, k);
    }
  }

  lemma {:induction false} SentUntilRegistered(s: State, es: seq<Event>, k: nat)
    requires Inv(s) && Allowed(s, es) && k < |s.made| && s.made[k].phase == Sent
    requires forall i :: 0 <= i < |es| ==> es[i] != Register(k)
    ensures k < |Run(s, es).made| && Run(s, es).made[k].phase == Sent
    decreases |es|
  {
    if es != [] {
      assert es[0] != Register(k);
      SiteIsOk(s, es[0]);
      StepKeepsInv(s, es[0]);
      SentUntilRegistered(Next(s, es[0]), es[1..], k);
    }
  }

  lemma SiteIsOk(s: State, e: Event)
    requires Inv(s) && Enabled(s, e)
    ensures SiteOk(s, e)
  {
    if e.Respond? && e.id.Some? && e.id.value in s.calls {
      assert EntryOk(s, e.id.value);
    }
    if e.Register? && s.made[e.k].Id() in s.calls {
      assert EntryOk(s, s.made[e.k].Id());
    }
  }

  /** The first response among `es` that carries `id`, before any response without one. */
  ghost function FirstResponse(es: seq<Event>, id: U32): Option<Body> {
    if es == [] then None
    else if es[0].Respond? && es[0].id == None then None
    else if es[0].Respond? && es[0].id == Some(id) then Some(es[0].body)
    else FirstResponse(es[1..], id)
  }

  /** Another call with this id is registered among `es`, before the first response with
      it and before any response without one. */
  ghost predicate Displaced(s: State, es: seq<Event>, id: U32)
    requires Allowed(s, es)
    decreases |es|
  {
    if es == [] then false
    else if es[0].Respond? && (es[0].id == None || es[0].id == Some(id)) then false
    else if es[0].Register? && s.made[es[0].k].Id() == id then true
    else Displaced(Next(s, es[0]), es[1..], id)
  }

  ghost function Fate(s: State, es: seq<Event>, id: U32): Phase
    requires Allowed(s, es)
  {
    if Displaced(s, es, id) then Dropped
    else match FirstResponse(es, id)
         case None => Registered
         case Some(body) => Completed(Resolve(body), id)
  }

  /** What becomes of a registered call, in every run and for any number of ids: it is
      dropped exactly if another call takes its id before a response with that id comes,
      is completed by that response if it comes first, and stays pending otherwise. */
  lemma {:induction false} RegisteredCallHasItsFate(s: State, es: seq<Event>, k: nat)
    requires Inv(s) && Allowed(s, es) && !s.poisoned
    requires k < |s.made| && s.made[k].phase == Registered
    ensures k < |Run(s, es).made|
    ensures Run(s, es).made[k] == s.made[k].(phase := Fate(s, es, s.made[k].Id()))
    decreases |es|
  {
    if es != [] {
      var e, s', id := es[0], Next(s, es[0]), s.made[k].Id();
      assert CallOk(s, k) && EntryOk(s, id);
      StepKeepsInv(s, e);
      if (e.Respond? && (e.id == None || e.id == Some(id))) || (e.Register? && s.made[e.k].Id() == id) {
        Settled(s', es[1..], k);
      } else {
        OtherStepKeepsCall(s, e, k);
        RegisteredCallHasItsFate(s', es[1..], k);
      }
    }
  }

  lemma OtherStepKeepsCall(s: State, e: Event, k: nat)
    requires Inv(s) && Enabled(s, e) && !s.poisoned
    requires k < |s.made| && s.made[k].phase == Registered
    requires e.Respond? ==> e.id != None && e.id != Some(s.made[k].Id())
    requires e.Register? ==> s.made[e.k].Id() != s.made[k].Id()
    ensures k < |Next(s, e).made| && Next(s, e).made[k] == s.made[k] && !Next(s, e).poisoned
  {
    assert CallOk(s, k);
    if e.Register? && s.made[e.k].Id() in s.calls {
      assert EntryOk(s, s.made[e.k].Id());
    }
    if e.Respond? && e.id.value in s.calls {
      assert EntryOk(s, e.id.value);
    }
  }

  lemma {:induction false} NoneDisplacedWithinIdSpace(s: State, es: seq<Event>, k: nat)
    requires Inv(s) && Allowed(s, es) && WithinIdSpace(Run(s, es)) && !s.poisoned
    requires k < |s.made| && s.made[k].phase == Registered
    ensures !Displaced(s, es, s.made[k].Id())
    decreases |es|
  {
    if es != [] {
      var e, s' := es[0], Next(s, es[0]);
      StepKeepsInv(s, e);
      RunKeepsInv(s', es[1..]);
      if e.Register? {
        IdsAreUnique(s, e.k, k);
      }
      if !(e.Respond? && (e.id == None || e.id == Some(s.made[k].Id()))) {
        OtherStepKeepsCall(s, e, k);
        NoneDisplacedWithinIdSpace(s', es[1..], k);
      }
    }
  }

  /** So until 2^32 ids are out the first response with its id decides, and nothing else. */
  lemma RegisteredCallGetsFirstResponse(s: State, es: seq<Event>, k: nat)
    requires Inv(s) && Allowed(s, es) && WithinIdSpace(Run(s, es)) && !s.poisoned
    requires k < |s.made| && s.made[k].phase == Registered
    ensures k < |Run(s, es).made|
    ensures Run(s, es).made[k] ==
              match FirstResponse(es, s.made[k].Id())
              case None => s.made[k]
              case Some(body) => s.made[k].(phase := Completed(Resolve(body), s.made[k].Id()))
  {
    RegisteredCallHasItsFate(s, es, k);
    NoneDisplacedWithinIdSpace(s, es, k);
  }

  /** A completed or dropped call never changes again, and no call changes once the table
      is poisoned unless it was still to be registered. */
  lemma {:induction false} Settled(s: State, es: seq<Event>, k: nat)
    requires Inv(s) && Allowed(s, es) && k < |s.made|
    requires s.made[k].phase.Completed? || s.made[k].phase.Dropped? || (s.poisoned && s.made[k].phase != Sent)
    ensures k < |Run(s, es).made| && Run(s, es).made[k] == s.made[k]
    decreases |es|
  {
    if es != [] {
      StepKeepsInv(s, es[0]);
      SiteIsOk(s, es[0]);
      Settled(Next(s, es[0]), es[1..], k);
    }
  }

  /** A response that overtakes the registration of its call is lost: everything is
      as if it had never come. */
  lemma OvertakingResponseIsLost(s: State, k: nat, body: Body)
    requires Inv(s) && WithinIdSpace(s) && !s.poisoned
    requires k < |s.made| && s.made[k].phase == Sent
    ensures Next(s, Respond(Some(s.made[k].Id()), body)) == s
  {
    var id := s.made[k].Id();
    if id in s.calls {
      assert EntryOk(s, id);
      IdsAreUnique(s, s.calls[id], k);
    }
  }

  /** Registering a call drops a pending one exactly if a multiple of 2^32 ids lies
      between theirs; otherwise the pending one is left as it was. */
  lemma WrappedIdDropsPendingCall(s: State, j: nat, k: nat)
    requires Inv(s) && !s.poisoned
    requires k < |s.made| && s.made[k].phase == Registered
    requires j < |s.made| && s.made[j].phase == Sent
    ensures Next(s, Register(j)).made[k] ==
              if (s.made[j].serial - s.made[k].serial) % ID_SPACE == 0
              then s.made[k].(phase := Dropped) else s.made[k]
  {
    assert CallOk(s, k);
    SameIdIff(s.made[j].serial, s.made[k].serial);
    if s.made[j].Id() in s.calls {
      assert EntryOk(s, s.made[j].Id());
    }
  }

  lemma SameIdIff(a: nat, b: nat)
    ensures MessageId(a) == MessageId(b) <==> (a - b) % ID_SPACE == 0
  {
    assert a == ID_SPACE * (a / ID_SPACE) + a % ID_SPACE;
    assert b == ID_SPACE * (b / ID_SPACE) + b % ID_SPACE;
  }

  function Run2(s: State, e: Event, f: Event): State
    requires Enabled(s, e) && Enabled(Next(s, e), f)
  {
    Next(Next(s, e), f)
  }

  /** A run in which that happens: the second call gets the response, the first nothing. */
  lemma WrappedIdRun(value: string)
    ensures var es := [Send(true), Register(0), TakeStreamIds(ID_SPACE - 1), Send(true), Register(1),
                       Respond(Some(0), Decoded(value))];
            && Allowed(INITIAL, es)
            && var made := Run(INITIAL, es).made;
               |made| == 2 && made[0].phase == Dropped && made[1].phase == Completed(Ok(value), 0)
  {
    var es := [Send(true), Register(0), TakeStreamIds(ID_SPACE - 1), Send(true), Register(1),
               Respond(Some(0), Decoded(value))];
    var s2 := Next(Next(INITIAL, es[0]), es[1]);
    var s4 := Next(Next(s2, es[2]), es[3]);
    assert s4.made == [Call(0, Registered), Call(ID_SPACE, Sent)];
    var s6 := Next(Next(s4, es[4]), es[5]);
    assert s6.made == [Call(0, Dropped), Call(ID_SPACE, Completed(Ok(value), 0))];
    RunTwo(s4, es[4..]);
    RunTwo(s2, es[2..]);
    RunTwo(INITIAL, es);
  }

  lemma RunTwo(s: State, es: seq<Event>)
    requires |es| >= 2 && Enabled(s, es[0]) && Enabled(Next(s, es[0]), es[1])
    requires Allowed(Run2(s, es[0], es[1]), es[2..])
    ensures Allowed(s, es) && Run(s, es) == Run(Run2(s, es[0], es[1]), es[2..])
  {
    assert es[1..][1..] == es[2..];
  }

  /** The caller and the dispatcher around the shared table; each method is one step. */
  class CallTable {
    var counter: U32
    var calls: map<U32, nat>
    var made: seq<Call>
    var poisoned: bool
    var issued: nat  // history: how many ids the counter has handed out

    ghost predicate Valid()
      reads this
    {
      counter == MessageId(issued) && Inv(View())
    }

    ghost function View(): State
      reads this
    {
      State(issued, calls, made, poisoned)
    }

    constructor ()
      ensures Valid() && View() == INITIAL
    {
      counter, calls, made, poisoned, issued := 0, map[], [], false, 0;
    }

    /** Hands out ids to `n` new streams, one by one. */
    method TakeStreamIds(n: nat) returns (ids: seq<U32>)
      requires Valid()
      modifies this
      ensures Valid() && View() == Next(old(View()), Event.TakeStreamIds(n))
      ensures |ids| == n && forall i :: 0 <= i < n ==> ids[i] == MessageId(old(issued) + i)
    {
      ids := [];
      var before := View();
      for i := 0 to n
        invariant unchanged(`calls, `made, `poisoned)
        invariant issued == old(issued) + i && counter == MessageId(issued)
        invariant |ids| == i && forall j :: 0 <= j < i ==> ids[j] == MessageId(old(issued) + j)
      {
        ids := ids + [counter];
        NextMessageId(issued);
        counter := (counter + 1) % ID_SPACE;
        issued := issued + 1;
      }
      StepKeepsInv(before, Event.TakeStreamIds(n));
    }

    /** The first half of a call: takes an id and sends the request. */
    method Send(ok: bool) returns (k: nat)
      requires Valid()
      modifies this
      ensures Valid() && View() == Next(old(View()), Event.Send(ok))
      ensures k == |old(made)|
    {
      StepKeepsInv(View(), Event.Send(ok));
      NextMessageId(issued);
      k := |made|;
      made := made + [Call(issued, if ok then Sent else Dropped)];
      counter := (counter + 1) % ID_SPACE;
      issued := issued + 1;
    }

    /** The second half: puts the completion of call `k` into the table. */
    method Register(k: nat)
      requires Valid() && Enabled(View(), Event.Register(k))
      modifies this
      ensures Valid() && View() == Next(old(View()), Event.Register(k))
    {
      StepKeepsInv(View(), Event.Register(k));
      if poisoned {
        made := WithPhase(made, k, Dropped);
        return;
      }
      var id := made[k].Id();
      if id in calls && calls[id] < |made| {
        made := WithPhase(made, calls[id], Dropped);
      }
      calls := calls[id := k];
      made := WithPhase(made, k, Registered);
    }

    /** A response is dispatched. */
    method Respond(id: Option<U32>, body: Body)
      requires Valid()
      modifies this
      ensures Valid() && View() == Next(old(View()), Event.Respond(id, body))
    {
      StepKeepsInv(View(), Event.Respond(id, body));
      if poisoned {
        return;
      }
      if id.None? {
        poisoned := true;
      } else if id.value in calls && calls[id.value] < |made| {
        var k := calls[id.value];
        calls := calls - {id.value};
        made := WithPhase(made, k, Completed(Resolve(body), id.value));
      }
    }
  }
}
