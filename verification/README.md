# Verified models of the CLI protocol core and its neighbours

A Dafny project beside the repository: models of its stateful core, and proofs of what that
core is for. Each module follows one part of the source.

| module | models |
|---|---|
| `Streams` | the stream multiplexer: a locked map of stream records, and the write loops that own write halves in turn |
| `Calls`, `Dispatch` | ids, the pending-call table, and what the dispatcher makes of one message |
| `Connection`, `Progress` | the receive loop with its eight-slot queue, the futures and the stream pumps; when it gets stuck and what it has done when not |
| `MsgPack`, `Serializer`, `Framing` | the MessagePack wire format, what the serializer writes, and incremental framing |
| `WireMessages`, `EndToEnd`, `Exchange` | the messages of a connection as objects of the wire; a stream from the pump at one peer to the write half at the other; a call from its request to the answer that completes it |
| `Keyring`, `Persisted`, `Auth`, `TokenTiming` | credential storage in slots, the persisted-state container, the storage state machine, polling and refresh times |
| `DownloadCache` | the LRU list over cache directories |
| `LogPipe`, `Stringifier` | the wrapped output streams and the cycle-safe console stringifier |
| `Formatter`, `ImportLines`, `ImportMerge` | edit application, indentation, and import merging of the protocol sync script |
| `PolicyServer` | wiring and unwiring of `product.overrides.json` |
| `WorkerPool` | the parallel suite runner and its arguments |
| `Seqs`, `Text` | shared vocabulary |

## How the models are built

- A protocol is a state, a datatype of events, and a function `Next`. Every lock-protected
  region is one event, and so is every `await`ed write or send. Theorems are about every
  sequence of events, so about every interleaving. Fields marked as history are ghosts that
  the program does not keep.
- Where the source updates an object in place there is a class with the same fields. Each of
  its methods is proved to take the state exactly where `Next` (or another specification
  function) takes it; the theorems are then about that function.
- What the environment decides (failing writes, failing keyring slots, clocks, the grant
  endpoint, which suite ends first) is a parameter or an event, so the theorems hold for
  every choice.
- Theorems about runs speak of the events of the run: what was read, sent, stored or written
  is what the events say, and the history fields of a state are proved to say the same.

## What the proofs found

- A read whose synchronous replies and stream announcements need more slots than are free
  never ends, and nothing reaches the wire any more: the task that fills the queue is the
  only one that drains it. `Progress.ReadCanEndIff` gives the exact condition for some
  schedule to get through. The condition for every schedule, `Progress.ReadNeverBlocksIff`, is
  far stronger: one live stream pump and one synchronous request can block the connection
  for good (`Progress.LivePumpCanBlock`), and nine requests in the first read always do
  (`Progress.NineRequestsBlock`).
- A response that arrives between sending a call and registering it is lost
  (`Calls.OvertakingResponseIsLost`); a pending call is dropped exactly if a multiple of 2^32
  ids later another call takes its id (`Calls.WrappedIdDropsPendingCall`,
  `Calls.RegisteredCallHasItsFate`); a response without an id poisons the call table.
- Reusing a live stream id delivers one stream's bytes to the other
  (`Streams.ReusedIdMisdelivers`); insertion is sound exactly for ids that are not live.
- A secret survives the keyring for all stale contents exactly if it is cut at characters, its
  length is no multiple of the step and its last chunk does not end in the marker
  (`Keyring.RoundTripIff`). Clearing a keyring that holds no secret is an error
  (`Keyring.FreshClearIff`). A store that breaks off after its first slot destroys any older
  secret that does not begin with what was written, unless it reaches the file
  (`Auth.InterruptedStoreLosesOlder`), and so does a clear that breaks off; `Auth.StepStaysFreshIff` says exactly when.
- A clear of the keyring that broke off after deleting a slot cannot be made good by clearing again, and by storing
  only if the credential needs every slot that was deleted: the entry of a deleted slot stays
  cached, and deleting it again is an error (`Auth.BrokenClearLasts`,
  `Auth.ClearAfterStoreIff`). If slot 0 was deleted, the credential stays in memory and can be
  read from nowhere else (`Auth.ClearingAgainIsInVain`).
- A comment in `cli/src/auth.rs:870` promises a fallback of 60 seconds; the code, and so
  the model, uses ten.
- Wiring the policy server twice overwrites the backup, so unwiring leaves the overrides wired
  (`PolicyServer.SecondWiringLosesBackup`); an old backup without a file defeats the undo
  (`PolicyServer.UnwiringUndoesWiring`); and overrides that replaced the product's agent with a
  smaller one get the missing keys back (`PolicyServer.WiringKeepsWhatIsInForceIff`).
- Merging imports a second time changes something exactly when a line looks like a
  placeholder, or a module has the same type both as a type import and as an inline `type`
  among the values (`ImportMerge.MergeIsIdempotentIff`; `ImportMerge.MergedTwiceDiffers` is
  one). A line that looks like a placeholder is replaced by an import
  (`ImportMerge.MergeKeepsImports`) or makes the merge fail (`ImportMerge.ThrowsIff`).

## Model

| member | source | states |
|---|---|---|
| Streams.StepKeepsInv | cli/src/rpc.rs:531-631 | every step of `insert` of a fresh id, `write`, `remove`, the write loop and `shutdown` keeps custody (each half with its record, with one task, or shut down once) and conservation (delivered, batch and queue together are what was accepted, in order) |
| Streams.InsertKeepsInv | cli/src/rpc.rs:575-585 | inserting a stream is safe exactly if its id names no live stream |
| Streams.ShutDownIsFinal | cli/src/rpc.rs:556-562 | after the first shutdown nothing is accepted for a half or written to it, and it is not shut down again |
| Streams.RunKeepsInv | cli/src/rpc.rs:542-631 | the invariant holds after any interleaving of any number of streams |
| Streams.DeliveryInEveryRun | cli/src/rpc.rs:596-631 | in every interleaving, of the writes, write loops and shutdowns of the run alone: what was written to a half plus what is pending is exactly what was accepted for it while no write to it failed, an in-order subsequence otherwise; at most one shutdown, and only after all accepted bytes |
| Streams.RunIsRecorded | cli/src/rpc.rs:556-631 | the histories of a half are what the steps of the run did: the bytes accepted under its stream, the bytes each write put into it, whether one failed, and its shutdowns |
| Streams.CustodyInEveryRun | cli/src/rpc.rs:602-618 | a running loop always finds its record, with its half gone; no two loops serve one stream; a record without its half has a loop; a record with it has an empty queue and is not ended |
| Streams.UniqueIdsAreFresh | cli/src/rpc.rs:397-400 | ids inserted at most once never meet a live stream, in any interleaving |
| Streams.TaskStepsAreBounded | cli/src/rpc.rs:601-631 | once writes stop, all tasks together take at most as many steps as the batches, queues and tasks left |
| Streams.SettledMeansDone | cli/src/rpc.rs:601-631 | an unfinished task can always step; when all have finished, every record has its half back, no ended record is left and every accepted byte is out |
| Streams.EndedStreamCloses | cli/src/rpc.rs:543-562 | after a stream is removed, whatever is then inserted, written or removed under its id and all others: once the tasks settle, its record is gone and its half was shut down once, after every byte ever accepted for it |
| Streams.ReusedIdMisdelivers | cli/src/rpc.rs:575-585 | a concrete interleaving in which a reused live id delivers bytes to the wrong half |
| Streams.Multiplexer.Insert | cli/src/rpc.rs:575-585 | takes the shared map to the state after the insert step |
| Streams.Multiplexer.Write | cli/src/rpc.rs:564-573 | queues the buffer and starts a loop exactly if the record has its half |
| Streams.Multiplexer.Remove | cli/src/rpc.rs:543-562 | removes and closes a stream whose half is there; marks it ended otherwise |
| Streams.Multiplexer.TakeTurn | cli/src/rpc.rs:601-620 | the locked region of the loop: takes the queue, returns the half, or ends |
| Streams.Multiplexer.WriteAll | cli/src/rpc.rs:622-626 | one write of the batch; a failure drops the rest of the batch |
| Streams.Multiplexer.Shutdown | cli/src/rpc.rs:558-561 | one shutdown of a half, whoever holds it |
| Calls.StepKeepsInv | cli/src/rpc.rs:342-381 | the table holds exactly the registered calls, each under its own id, and a completed call was completed by a response with that id |
| Calls.IdsAreUnique | cli/src/rpc.rs:397-400 | among the first 2^32 ids no two calls share one |
| Calls.ResponseCompletesItsCall | cli/src/rpc.rs:361-378 | a response completes its call exactly if that is registered by then: with the error it carries, with the value it decodes to, or with an error of code 0 if it does not decode; and leaves every other call untouched |
| Calls.RunKeepsInv | cli/src/rpc.rs:342-381 | the table stays sound over any interleaving of sends, registrations and responses |
| Calls.RegisteredCallHasItsFate | cli/src/rpc.rs:361-378 | over every run and for any number of ids a registered call is dropped exactly if another call with its id is registered first, is completed by the first response with its id if that comes first, and stays pending otherwise |
| Calls.NoneDisplacedWithinIdSpace | cli/src/rpc.rs:397-400 | in a run that hands out at most 2^32 ids no pending call is displaced |
| Calls.RunHandsOutIds | cli/src/rpc.rs:397-400 | in every run each call and each stream takes the next id of the counter, and nothing else takes one |
| Calls.CallUntilRegistered | cli/src/rpc.rs:347-380 | from the start of a call: it is dropped if it could not be sent; else it waits to be registered whatever comes, and then is, unless the table is poisoned |
| Calls.PoisonedIff | cli/src/rpc.rs:439-449 | the table is poisoned exactly by a response without an id |
| Calls.RegisteredCallGetsFirstResponse | cli/src/rpc.rs:361-378 | so in such a run the first response with its id alone decides |
| Calls.Settled | cli/src/rpc.rs:361-378 | a completed or dropped call never changes again, so it is completed at most once |
| Calls.OvertakingResponseIsLost | cli/src/rpc.rs:356-361 | a response dispatched before its call is registered has no effect at all |
| Calls.WrappedIdDropsPendingCall | cli/src/rpc.rs:361-380 | registering a call drops a pending one exactly if a multiple of 2^32 ids lies between theirs, and otherwise leaves it as it was |
| Calls.WrappedIdRun | cli/src/rpc.rs:397-400 | a run of six steps in which that happens and the response goes to the second call |
| Calls.CallTable.TakeStreamIds | cli/src/rpc.rs:248-252 | hands out consecutive ids of the wrapping counter |
| Calls.CallTable.Send | cli/src/rpc.rs:347-359 | takes an id and sends; a failed send drops the call |
| Calls.CallTable.Register | cli/src/rpc.rs:361-380 | puts the call under its id and drops whatever was pending there |
| Calls.CallTable.Respond | cli/src/rpc.rs:439-449 | completes and forgets the call of the id; without an id it panics under the lock |
| Dispatch.DispatchWithPartial | cli/src/rpc.rs:420-449 | a sync or unknown method is answered at once, an async one later, a duplex one with streams and later; a request gets exactly one reply with its id if it carries one and none otherwise, successful exactly if the callback succeeded, with its value or the right error code and message; streams only for sound duplex calls, under fresh consecutive ids; requests leave the call table alone |
| Dispatch.OneReplyPerRequest | cli/src/rpc.rs:420-449 | the frames of any messages call for one reply for every request that carries an id, with that id and in that order, and for no other |
| Dispatch.StreamsAreDistinct | cli/src/rpc.rs:248-252 | the streams opened by any messages dispatched one after another have different ids while those fit the id space |
| Connection.StepKeepsInv | cli/src/msgpack_rpc.rs:66-105 | every step of the loop, the futures and the pumps keeps the queue within eight slots, streams named once, messages of each stream in order after its announcement, and replies accounted for |
| Connection.RunTakesWhatWasRead | cli/src/msgpack_rpc.rs:68-71 | in every run the frames taken and those still waiting are the frames of all reads, in order |
| Connection.PumpInEveryRun | cli/src/rpc.rs:480-521 | in every run the messages about a stream are exactly the segments its pump read, each whole, short of the one it holds, and then the end exactly if it has read the end and sent it |
| Connection.CallsInEveryRun | cli/src/msgpack_rpc.rs:78-95 | in every run each frame read that is answered later has, once taken, a task of its own, in their order, with its reply and its duplex call |
| Connection.StreamsInEveryRun | cli/src/rpc.rs:453-521 | in every interleaving each stream of a frame read has, once that is taken, one pump; its messages come after the announcement, are the non-empty segments of at most 4096 bytes that it sent, in order, and then one end; the call's answer comes after its announcement |
| Connection.RepliesInEveryRun | cli/src/msgpack_rpc.rs:71-95 | never a reply more than the frames read call for, and exactly those once no frame waits and no future runs |
| Connection.RepliesToRequests | cli/src/msgpack_rpc.rs:71-95 | for any messages, read in any batches: the ids answered in any run are ids of requests among them, none more often than asked for, and once no frame waits and no future runs exactly those of the requests that carry one |
| Progress.ImpassableReadNeverEnds | cli/src/msgpack_rpc.rs:59-75 | if a frame of a read panics, or the frames need more slots than are free, no interleaving finishes the read or writes anything |
| Progress.PassableReadCanEnd | cli/src/msgpack_rpc.rs:71-96 | otherwise the loop can get through the read |
| Progress.ReadCanEndIff | cli/src/msgpack_rpc.rs:59-99 | the exact condition for some schedule to get through one read |
| Progress.NineRequestsBlock | cli/src/msgpack_rpc.rs:59-75 | a connection that gets nine or more requests for synchronous or unknown methods in its first read never finishes the read nor writes anything, in any interleaving |
| Progress.EightRequestsAreAnswered | cli/src/msgpack_rpc.rs:59-101 | eight such requests are all answered, in every schedule that runs until nothing is left to do |
| Progress.ReadNeverBlocksIff | cli/src/msgpack_rpc.rs:59-99 | no schedule blocks the loop in a read exactly if at every frame it must send for there is a slot left by the queue, by everything the tasks may send, and by the frames before |
| Progress.FitNeverBlocks | cli/src/msgpack_rpc.rs:71-99 | under that condition no interleaving of loop, futures and pumps blocks |
| Progress.UnfitCanBlock | cli/src/msgpack_rpc.rs:71-99 | without it some interleaving does |
| Progress.LivePumpCanBlock | cli/src/msgpack_rpc.rs:71-99 | a stream with bytes still to read can block the loop at any frame it must send for |
| Progress.DeadlockLasts | cli/src/msgpack_rpc.rs:73-75 | once blocked, no step of anyone unblocks the loop or writes anything |
| Progress.InternalRunsAreBounded | cli/src/msgpack_rpc.rs:66-105 | without new reads and new stream data every schedule ends, within a bound |
| Progress.StuckIff | cli/src/msgpack_rpc.rs:66-105 | it ends exactly with everything handled, sent and written, or with all tasks waiting and the loop blocked or ended by a panic |
| Progress.QuietMeansAnswered | cli/src/msgpack_rpc.rs:71-101 | in the first case the wire has exactly the replies called for |
| Progress.FittingReadIsAnswered | cli/src/msgpack_rpc.rs:66-105 | so after any run, a read that fits and does not panic is answered in full by every schedule: the wire has exactly the replies that all frames read call for |
| Progress.FittingReadAnswersRequests | cli/src/msgpack_rpc.rs:66-105 | and of any messages, read in any batches, the ids answered are exactly those of the requests that carry one |
| Connection.Loop.ReadFrames | cli/src/msgpack_rpc.rs:68-71 | a read makes its frames available, whatever they are |
| Connection.Loop.RegisterStream | cli/src/rpc.rs:453-521 | announces the streams first, then spawns one pump each |
| Connection.Loop.HandleFrame | cli/src/msgpack_rpc.rs:71-95 | what the loop does with one dispatched frame |
| Connection.Loop.WriteOne | cli/src/msgpack_rpc.rs:99-101 | the oldest queued message goes to the wire |
| Connection.Loop.FinishFuture | cli/src/msgpack_rpc.rs:78-94 | a finished future sends its reply, if it has one |
| Connection.Loop.PumpRead | cli/src/rpc.rs:484-487 | a pump holds what it read, or is at the end |
| Connection.Loop.PumpSend | cli/src/rpc.rs:487-521 | a pump sends the segment it holds, or the end message |
| MsgPack.ParsedIsThere | cli/src/msgpack_rpc.rs:155-160 | what is decoded is well formed and is exactly the bytes consumed |
| MsgPack.EncodedIsParsed | cli/src/msgpack_rpc.rs:139-163 | a well-formed value is decoded as itself whatever bytes follow it |
| MsgPack.BadStaysBad | cli/src/msgpack_rpc.rs:151-154 | bytes that are an error stay one, whatever follows |
| MsgPack.DoneStaysDone | cli/src/msgpack_rpc.rs:155-160 | a decoded value is decoded the same whatever follows |
| MsgPack.PrefixNeedsMore | cli/src/msgpack_rpc.rs:144-150 | a strict prefix of a value is neither an error nor a value |
| MsgPack.UnusedIsBad | cli/src/msgpack_rpc.rs:151-154 | the marker the specification leaves unused is an error, whatever follows |
| MsgPack.BadHasUnused | cli/src/msgpack_rpc.rs:151-154 | and there is no error without it |
| MsgPack.BigEndianByValue | cli/src/msgpack_rpc.rs:139-163 | lengths and counts are read with the first byte counting most |
| Serializer.WrittenIsRead | cli/src/msgpack_rpc.rs:27-35 | every object the format can hold (nil, booleans, integers, floats by their bits, texts, binaries, extension values, lists and maps), written in its shortest form, reads back as itself |
| Serializer.SerializedIsDecoded | cli/src/msgpack_rpc.rs:27-35 | a serialized object followed by anything is decoded as itself from its own bytes |
| Serializer.MarkerIsWritten | cli/src/msgpack_rpc.rs:27-30 | every object is written under the marker the specification has for its kind and size, the shortest |
| Serializer.ObjectsArrive | cli/src/msgpack_rpc.rs:24-163 | objects serialized one after another and cut into reads in any way come out as those objects, in order, each with its own bytes |
| WireMessages.MessageIsUnderstood | cli/src/rpc.rs:637-716 | of every message a connection sends, written as a map of named fields, the peer makes the write or the removal it stands for, and of no other message one |
| WireMessages.MessageReadsAsItself | cli/src/rpc.rs:637-716 | every message has its method, parameters, id, result or error under the names of the protocol: ids of announced streams, segments, and code and message of errors |
| WireMessages.MessageFits | cli/src/rpc.rs:456-520 | every message of a connection is one the format can hold, given that answers are and that a call opens fewer than 2^32 streams |
| EndToEnd.SegmentIsBounded | cli/src/rpc.rs:480-501 | in every reachable state every data message queued or written has at most 4096 bytes, whatever stream it is about |
| EndToEnd.DecodedIsAsked | cli/src/msgpack_rpc.rs:66-163 | whatever first part of the bytes has arrived, cut up in any way, asks for a stream what the first messages ask, in order, and all of it once all has arrived |
| EndToEnd.RunAccepts | cli/src/rpc.rs:543-631 | whatever else happens at the receiver, a half accepts exactly the segments written to its stream, in order, and nothing after the end |
| EndToEnd.StreamArrives | cli/src/rpc.rs:276-631 | in every interleaving at both peers and for every cut of the bytes, by the events alone: what was accepted for the half of a stream is a first part of what came out of the reads of its pump; so is what was written to the half while no write failed; the half is shut down only after the pump has read the end and after all of it; and once everything sent has arrived and been acted on and the tasks settled, it was shut down, once |
| Exchange.RequestArrives | cli/src/rpc.rs:342-356 | a request, written, followed by anything and read, has its id and its method |
| Exchange.AnswerCompletesCall | cli/src/rpc.rs:361-378 | an answer, written, followed by anything, read and dispatched, completes the call that waits under its id and no other: a failure as an error of the same code and message, a success with the value, or as an error of code 0 if the caller cannot read that |
| Exchange.CallRoundTrip | cli/src/rpc.rs:342-449 | from end to end a call of any method ends as the callback at the peer says: with the value returned, its message under code -1, what was wrong with the parameters under code 0, or the error for a method that is not registered |
| Framing.DrainedIsParsed | cli/src/msgpack_rpc.rs:71-98 | for any bytes: the decode loop takes exactly the complete values off the front, each with its own bytes, and stops where one is incomplete or, on an error, exactly where none can begin |
| Framing.BrokenStays | cli/src/msgpack_rpc.rs:66-71 | after an error nothing more is read |
| Framing.ChunkIndependence | cli/src/msgpack_rpc.rs:68-71 | for any bytes, sound or not, frames, error and leftover do not depend on how they are cut into reads |
| Framing.DrainOfMessages | cli/src/msgpack_rpc.rs:139-163 | at every point of a stream of messages the complete ones came out, each with its own bytes, and the leftover is a strict prefix of the next |
| Framing.FirstMessagesArrive | cli/src/msgpack_rpc.rs:66-98 | of whatever first part of the bytes has arrived exactly the first messages come out, and what is left is a strict prefix of the next |
| Framing.MessagesArrive | cli/src/msgpack_rpc.rs:66-98 | however messages are cut up, exactly they arrive, in order, and nothing is left |
| Framing.Receiver.Decode | cli/src/msgpack_rpc.rs:139-163 | at most one message comes off the front of the buffer; an incomplete one leaves it untouched |
| Framing.Receiver.ReadBuf | cli/src/msgpack_rpc.rs:68-97 | one read and the decode loop after it |
| Keyring.RoundTripsByLength | cli/src/auth.rs:349-371 | the round-trip condition in terms of the length: cut at characters, no multiple of the step, and a last chunk that does not end in the marker |
| Keyring.SingleByteIsCuttable | cli/src/auth.rs:357-362 | single-byte text can be cut at every step |
| Keyring.BoundaryIff | cli/src/auth.rs:357-362 | a text in UTF-8 can be cut exactly where a character begins or the text ends |
| Keyring.StoreStaysWithin | cli/src/auth.rs:349-371 | a store touches only its own slots and keeps each within the entry limit |
| Keyring.BreakIsOutcome | cli/src/auth.rs:349-371 | how a store ends, stored, failed or panicked, is decided by where it breaks off |
| Keyring.BreakIff | cli/src/auth.rs:353-368 | a text that can be cut breaks off exactly at a slot it needs that cannot be written |
| Keyring.BreakExactly | cli/src/auth.rs:353-368 | any text breaks off at the first chunk that would end inside a character, in a panic, or at the slot that cannot be written, if it needs that before |
| Keyring.StoredChunk | cli/src/auth.rs:353-368 | slot j has chunk j: the bytes of its step followed by `<MORE>`, or what is left, for every chunk a store gets to write |
| Keyring.VisitedExactly | cli/src/auth.rs:327-347 | a read goes over the marked slots to the first that is missing, not marked or cannot be read, and fails exactly at one of the last kind |
| Keyring.ReadAfterStore | cli/src/auth.rs:327-371 | what is read after any store, whole or broken off, by the slots before it |
| Keyring.ReadBackIff | cli/src/auth.rs:327-371 | a store that is not broken off is read back exactly if the stale slots behind it complete it |
| Keyring.ReadAfterBreak | cli/src/auth.rs:327-371 | one that is broken off leaves the chunks written and, behind them, what the older slots go on with |
| Keyring.RoundTripIff | cli/src/auth.rs:327-371 | it is read back for all stale slots exactly under the round-trip condition |
| Keyring.DeletedSlots | cli/src/auth.rs:373-383 | what a clear deletes, and that it succeeds exactly if all its slots are there and can be deleted |
| Keyring.DeletedExactly | cli/src/auth.rs:373-383 | exactly the slots before the first that is missing or cannot be deleted go |
| Keyring.ClearForgets | cli/src/auth.rs:373-383 | a clear that deletes slot 0 leaves no secret to be read, whether it goes on or not; any other changes nothing |
| Keyring.StoredSlots | cli/src/auth.rs:349-371 | after a store the slots there are those before and those it tried, all of which it wrote if it did not break off |
| Keyring.VisitedAfterStore | cli/src/auth.rs:327-371 | a read after the whole store of a credential that round-trips looks at no other slots |
| Keyring.FreshClearIff | cli/src/auth.rs:373-383 | with no cached entries a clear succeeds exactly if there is a secret |
| Keyring.KeyringStorage.GetNextEntry | cli/src/auth.rs:312-324 | cached entry j always names slot j |
| Keyring.KeyringStorage.Read | cli/src/auth.rs:327-347 | the loop reads slots up to the first unmarked one, gives nothing if one is missing, and fails at one that cannot be read |
| Keyring.KeyringStorage.Store | cli/src/auth.rs:349-371 | the loop writes the chunks, stopping at a slot that fails and panicking at a cut inside a character |
| Keyring.KeyringStorage.Clear | cli/src/auth.rs:373-383 | deletes all slots a read found or the cache knew, stopping at the first failure |
| Persisted.SavedIsCurrent | cli/src/state.rs:46-85 | the container has what was saved last whatever the disk does; a fresh one loads it if it was written, the older value if the file was not opened, the default if the write was cut short |
| Persisted.LoadedStays | cli/src/state.rs:46-59 | what was loaded once is answered from then on, whatever becomes of the file, and loading does not touch it |
| Persisted.PersistedState.Load | cli/src/state.rs:46-59 | loads once, then answers from memory |
| Persisted.PersistedState.Save | cli/src/state.rs:61-85 | replaces the memory first, then truncates and writes the file |
| Auth.FirstUseDecides | cli/src/auth.rs:439-488 | over any run in which every operation first uses the storage, the first one decides on it, by what it meets, and no later one does again or changes what was read |
| Auth.ReadsSeeLastStore | cli/src/auth.rs:439-521 | over any run of uses, whatever the backends do, asking for the credential gives what the last store or successful clear left, or before any what the first use read, from the file if it was forced, present or the keyring unreadable then; unless a store panicked |
| Auth.PoisonedOnlyByCut | cli/src/auth.rs:357-362 | only a store of a text cut inside a character poisons the lock, and none where the keyring has its own thread |
| Auth.SwitchesOnce | cli/src/auth.rs:614-636 | over any run of uses the storage in use changes at most once, from keyring to file, and never back; a first use that decided on the file keeps it |
| Auth.SwitchIff | cli/src/auth.rs:614-636 | the keyring is given up exactly by a store that breaks off without panicking under the lock |
| Auth.BrokenClearLasts | cli/src/auth.rs:373-383 | after a clear of the keyring that broke off behind a slot, no later clear of it succeeds in any run whose stores are too short to need that slot |
| Auth.ClearingAgainIsInVain | cli/src/auth.rs:373-383 | in particular, when slot 0 was deleted, in every run without a store: every clear fails, the cached credential stays, and a fresh instance reads nothing |
| Auth.ClearAfterStoreIff | cli/src/auth.rs:349-383 | after the whole store of a credential that round-trips a clear succeeds exactly if every slot with a cached entry was there before or is needed by the credential, and every slot can be deleted |
| Auth.ClearAfterStoreDeletes | cli/src/auth.rs:373-383 | and then leaves no slot of the credential, nor any it had an entry for, whatever it could read |
| Auth.ClearStartsOver | cli/src/auth.rs:373-383 | after a clear that worked a whole store can be cleared again |
| Auth.OpenedIsFresh | cli/src/auth.rs:439-488 | the first use picks the file if it is forced, present, or the keyring cannot be read, else the keyring with the file to fall back to, and reads what is there |
| Auth.DurableIsLastReached | cli/src/auth.rs:439-521 | what should be durable after a run is what the last store or clear that reached the backend in use made it |
| Auth.StepStaysFreshIff | cli/src/auth.rs:439-521 | after any operation, however it goes, a fresh instance reads what last reached the backend in use exactly under a condition on the state before it: on the failing slot, the file, what is durable and the older slots |
| Auth.StoreStaysFreshIff | cli/src/auth.rs:614-636 | for credentials that round-trip: a store loses that exactly if the keyring breaks off at a slot it needs and the file is then cut short with something to lose, or not opened with something else to lose than the written chunks and the older slots give |
| Auth.AlwaysFreshIff | cli/src/auth.rs:439-521 | that holds at every point of a run exactly if every operation meets its condition |
| Auth.FreshInstanceReadsLast | cli/src/auth.rs:439-521 | over any run of uses a fresh instance reads at every point the last credential that reached the active backend exactly if every operation meets its condition, and at the end exactly if the last one does |
| Auth.InterruptedStoreLosesOlder | cli/src/auth.rs:349-371 | at the entry limit of every build, for an older credential in any slots: a store that breaks off after some chunks leaves those with what the older slots go on with if the file is not opened, nothing if it is cut short, and so loses any older credential that does not begin with the chunks written, unless it reaches the file |
| Auth.Auth.WithStorage | cli/src/auth.rs:439-488 | opens a storage once, the file if forced, present, or the keyring cannot be read; every later use leaves it as it is |
| Auth.Auth.GetCurrentCredential | cli/src/auth.rs:506-512 | uses the storage, takes the value out of its cell to copy it, puts it back, and answers with it; panics on a poisoned lock |
| Auth.Auth.ClearCredentials | cli/src/auth.rs:515-521 | uses the storage, and forgets the cached credential only if the backend cleared |
| Auth.Auth.StoreCredentials | cli/src/auth.rs:614-636 | uses the storage, stores, falls back at most once, and caches the credential in any case |
| TokenTiming.SlowDownByValue | cli/src/auth.rs:821-829 | exactly the error `slow_down` and the status 429 slow polling down |
| TokenTiming.PollForToken | cli/src/auth.rs:815-834 | the interval is five seconds and five more per slow-down answer; polling stops with the first grant or the expiry; all polls but the last fit, with their sleeps, in the life of the code |
| TokenTiming.PollsAreBounded | cli/src/auth.rs:815-817 | at most one poll per started five seconds of the code's life |
| TokenTiming.WaitedAtLeast | cli/src/auth.rs:815-829 | n polls take at least 5n seconds |
| TokenTiming.WaitsGrow | cli/src/auth.rs:821-829 | under constant slow-down answers n polls take 5n(n+1)/2 seconds |
| TokenTiming.WaitsStay | cli/src/auth.rs:815-829 | without such an answer all intervals are five seconds |
| TokenTiming.SleepByValue | cli/src/auth.rs:849-871 | ten seconds after an error; an hour without an expiry; two thirds of the remaining life from fifteen seconds on, and ten seconds below |
| TokenTiming.RefreshByValue | cli/src/auth.rs:873-886 | the statuses from 400 to 499 and a missing refresh token end it; any other failure is an error to sleep after |
| TokenTiming.SleepFitsIff | cli/src/auth.rs:849-871 | never less than ten seconds; within the remaining lifetime exactly if that is at least ten seconds; two thirds of it from fifteen seconds on |
| TokenTiming.KeepTokenAlive | cli/src/auth.rs:846-897 | each sleep is decided by the last error and the latest expiry; the loop ends at the first client error or missing refresh token and at nothing else |
| DownloadCache.RecentIsByLastUse | cli/src/download_cache.rs:119-139 | the recency specification: every name once, in order of its last use |
| DownloadCache.TakeCommutes | cli/src/download_cache.rs:119-139 | cutting the list to its limit before or after a use makes no difference |
| DownloadCache.ListIsBounded | cli/src/download_cache.rs:119-139 | no duplicates, and at most five entries and one per failed eviction |
| DownloadCache.ListIsPrefix | cli/src/download_cache.rs:119-139 | whatever evictions fail, the list is the most recently used names in order and without gaps, and all of them or at least five |
| DownloadCache.ListIsMostRecent | cli/src/download_cache.rs:119-139 | while evictions succeed the list is the five most recently used names |
| DownloadCache.RecentAreKept | cli/src/download_cache.rs:119-139 | over any trace of uses a directory that is removed is not among the five names used most recently by then; all of those were used after it |
| DownloadCache.StepKeepsTracked | cli/src/download_cache.rs:52-139 | every operation, failed or not, keeps each finished directory in the list in memory |
| DownloadCache.TrackedInEveryRun | cli/src/download_cache.rs:52-139 | so does every sequential run |
| DownloadCache.SyncInEveryRun | cli/src/state.rs:128-133 | if state writes succeed a fresh container loads the same list |
| DownloadCache.StepKeepsDistinct | cli/src/download_cache.rs:119-125 | no operation puts a name into the list twice |
| DownloadCache.CacheStaysSmall | cli/src/download_cache.rs:52-139 | in any sequential run in which directories can be removed there are never more than five finished directories |
| DownloadCache.ExistsExactly | cli/src/download_cache.rs:52-60 | an entry is found exactly if its directory is there; then it is first in the list, the others follow as they were, and no directory goes but the oldest of more than five |
| DownloadCache.DeleteExactly | cli/src/download_cache.rs:63-72 | a directory that cannot be removed leaves everything as it was; else neither directory nor list has the entry, and all others are as they were |
| DownloadCache.CreateExactly | cli/src/download_cache.rs:78-117 | what is on disk and in the list after a create, for every way it can go: the entry is there in the end exactly if its staging directory was made, filled, not evicted itself, and one of 21 renames succeeds |
| DownloadCache.CreatedOnce | cli/src/download_cache.rs:87-91 | an entry that is there is neither created nor used again |
| DownloadCache.OnlyOldestGoes | cli/src/download_cache.rs:119-139 | looking up and creating remove no directory but the oldest of more than five entries and a staging directory of their own |
| DownloadCache.Without | cli/src/download_cache.rs:121-123 | removes the first occurrence found by position |
| DownloadCache.RetryRename | cli/src/download_cache.rs:102-114 | renames succeed exactly if one of the attempts does |
| DownloadCache.DownloadCache.Touch | cli/src/download_cache.rs:119-139 | moves the name to the front and evicts the last entry beyond the limit if its directory is gone or can be removed |
| DownloadCache.DownloadCache.Exists | cli/src/download_cache.rs:52-60 | reports the directory, and uses it if it is there |
| DownloadCache.DownloadCache.Delete | cli/src/download_cache.rs:63-72 | removes directory and name, or neither if the directory cannot be removed |
| DownloadCache.DownloadCache.Create | cli/src/download_cache.rs:78-117 | stages, fills, lists and renames, with every way to fail |
| LogPipe.WriteByCases | src/bootstrap-fork.ts:126-134 | one write logs text of more than 1024 * 1024 characters whole, else up to the last newline if there is one, and keeps the rest |
| LogPipe.NothingIsLost | src/bootstrap-fork.ts:118-137 | for all writes the logged texts, each with the newline it lost unless it overflowed, and the buffer are everything written; the buffer has no newline and stays within the limit |
| LogPipe.LogsLines | src/bootstrap-fork.ts:127-132 | without overflow the logged lines and the buffer are the lines of the text |
| LogPipe.NoOverflowIff | src/bootstrap-fork.ts:127-132 | nothing overflows exactly if every chunk fits the limit together with what follows the last newline before it, and then the buffer is what follows the last newline |
| LogPipe.FittingLinesAreLogged | src/bootstrap-fork.ts:127-132 | of chunks that fit, the logged lines and the buffer are the lines of the text |
| LogPipe.LinesDoNotDependOnChunks | src/bootstrap-fork.ts:127-132 | so the lines do not depend on how the text was cut into writes |
| LogPipe.WrappedStream.Write | src/bootstrap-fork.ts:126-134 | one write of the wrapped stream |
| Stringifier.WalkSeesWhatItWrites | src/bootstrap-fork.ts:54-68 | what is newly seen is what is written out, in that order |
| Stringifier.WalkSeesOnce | src/bootstrap-fork.ts:58-63 | no object is seen twice |
| Stringifier.WalkSize | src/bootstrap-fork.ts:54-68 | one output node for the value and one per field of the objects written out |
| Stringifier.WalkWrites | src/bootstrap-fork.ts:54-68 | a leaf is written as it is, an object as circular or with all its fields in order |
| Stringifier.SeenIsReached | src/bootstrap-fork.ts:54-68 | what is seen can be reached |
| Stringifier.SeenIsFollowed | src/bootstrap-fork.ts:54-68 | every field of what is seen is seen |
| Stringifier.WalkExpandsReachable | src/bootstrap-fork.ts:54-68 | on every finite graph, cyclic or shared, the walk ends, writes out exactly the reachable objects, each once and with all fields, in output linear in objects and references |
| Stringifier.ArgIsWritten | src/bootstrap-fork.ts:24-51 | each argument is written in its place: a missing one as `undefined`, an error as its stack, or its message without one, any other value as it is |
| Stringifier.SafeStringifier.Replace | src/bootstrap-fork.ts:57-66 | the replacer answers circular exactly for what it has seen |
| Stringifier.SafeStringifier.Visit | src/bootstrap-fork.ts:54-68 | the traversal with the shared list of seen objects is the specified walk |
| Stringifier.SafeStringifier.VisitAll | src/bootstrap-fork.ts:54-68 | the same for the fields of an object |
| Stringifier.SafeToString | src/bootstrap-fork.ts:24-68 | the arguments, massaged one by one, are written in order, and exactly the objects reachable from them are written out |
| Formatter.ApplyEdits | scripts/sync-agent-host-protocol.ts:57-60 | applying sorted, disjoint, in-range edits from last to first is the simultaneous splice |
| Formatter.EditIsInPlace | scripts/sync-agent-host-protocol.ts:57-60 | in the splice each edit's text stands where the edits before it have moved it, followed by the text between it and the next |
| Formatter.SameTextIsKept | scripts/sync-agent-host-protocol.ts:57-60 | edits that replace text by itself change nothing |
| Formatter.SplicedSize | scripts/sync-agent-host-protocol.ts:57-60 | the result is longer by what the edits add |
| Formatter.LineKeepsIndent | scripts/sync-agent-host-protocol.ts:141-149 | a line keeps its width, a tab being two, and the text after it |
| Formatter.LineIsTabbed | scripts/sync-agent-host-protocol.ts:141-149 | every two leading spaces become a tab, a single one left over stays after them, and the rest of the line is as it was |
| Formatter.LineTwice | scripts/sync-agent-host-protocol.ts:141-149 | converting a line again changes nothing |
| Formatter.IndentationKeepsText | scripts/sync-agent-host-protocol.ts:139-151 | all lines are kept, with width and text, and the pass is idempotent |
| ImportLines.TrimIs | scripts/sync-agent-host-protocol.ts:182-182 | trimming takes the white space off both ends of a name and nothing else |
| ImportLines.NamesOfMore | scripts/sync-agent-host-protocol.ts:182-182 | names are what stands between commas, trimmed, and not empty |
| ImportLines.ListedIsRead | scripts/sync-agent-host-protocol.ts:182-182 | a list of names printed between braces is read back as those names |
| ImportLines.NamesAreClean | scripts/sync-agent-host-protocol.ts:182-182 | names read are trimmed, not empty, and free of commas and braces |
| ImportLines.WrittenLineIsRead | scripts/sync-agent-host-protocol.ts:174-175 | an import line printed by the merge is matched again with the same kind, names and module |
| ImportLines.ImportTextIsRead | scripts/sync-agent-host-protocol.ts:174-175 | any line with an import keyword, text without a closing brace between the braces and a module without a quote is matched, with that text's names |
| ImportLines.ReadImportWasText | scripts/sync-agent-host-protocol.ts:174-175 | and no other line is |
| ImportLines.ReadLineIsReadable | scripts/sync-agent-host-protocol.ts:174-175 | whatever a line is matched as could have been printed |
| ImportMerge.LineInOutline | scripts/sync-agent-host-protocol.ts:173-199 | a line that is no import keeps its place among the lines; an import leaves a place for its module if it is the first of it, and nothing otherwise |
| ImportMerge.UniqueIsByFirstPlace | scripts/sync-agent-host-protocol.ts:206-207 | the names of a module stand in the order of their first places |
| ImportMerge.MergeByName | scripts/sync-agent-host-protocol.ts:206-216 | a merged import has the values first, then the types, each marked as one if there are values |
| ImportMerge.RenderKeepsOutline | scripts/sync-agent-host-protocol.ts:202-219 | the second pass keeps other lines and places of modules |
| ImportMerge.MergedKeepsSpecifiers | scripts/sync-agent-host-protocol.ts:206-216 | for any lines the merge does not fail on, what is imported from a module, as types and as values, is the same set |
| ImportMerge.OneImportEachIff | scripts/sync-agent-host-protocol.ts:202-219 | one import per module is left exactly if no line looks like a placeholder |
| ImportMerge.MergeKeepsImports | scripts/sync-agent-host-protocol.ts:158-220 | for any lines the merge does not fail on: the same specifiers for every module; and exactly if no line looks like a placeholder, all other lines in order and one import per module, at its first place |
| ImportMerge.MergeTwiceIff | scripts/sync-agent-host-protocol.ts:206-216 | a module's import is stable under merging exactly without a clash of an inline and a type import |
| ImportMerge.MergeIsIdempotentIff | scripts/sync-agent-host-protocol.ts:158-220 | merging the text is idempotent exactly if no line looks like a placeholder and no module has such a clash |
| ImportMerge.MergedTwiceDiffers | scripts/sync-agent-host-protocol.ts:206-216 | two lines that import the same type of a module, inline and as a type, merge into one that names it twice, and merging that changes it |
| ImportMerge.PlainTextIsMerged | scripts/sync-agent-host-protocol.ts:203-208 | without lines that look like a placeholder the merge never fails and leaves none, so it can be repeated |
| ImportMerge.ThrowsIff | scripts/sync-agent-host-protocol.ts:203-208 | the second pass fails exactly on a line that starts like a placeholder of a module without imports |
| ImportMerge.CollectImports | scripts/sync-agent-host-protocol.ts:169-199 | the first loop collects every module's names in order and leaves a placeholder at its first import |
| ImportMerge.RenderImports | scripts/sync-agent-host-protocol.ts:202-219 | the second pass replaces placeholders by merged imports |
| ImportMerge.MergeDuplicateImports | scripts/sync-agent-host-protocol.ts:169-219 | both passes together are the specified merge |
| PolicyServer.UrlIsOfLast | scripts/mock-policy-server/server.ts:232-238 | every key points at the url of the last endpoint that has it |
| PolicyServer.IsWiredIff | scripts/mock-policy-server/server.ts:241-254 | wired means that the agent in the file has the url of the last endpoint for every endpoint key |
| PolicyServer.WiredByKey | scripts/mock-policy-server/server.ts:266-291 | what wiring puts in force, key by key: the endpoint's url, else what the overrides had, else what the product has; and all other overrides stay |
| PolicyServer.RunKeepsMeaning | scripts/mock-policy-server/server.ts:266-343 | over any run of wiring and unwiring the other overrides and the agent's keys that are no endpoint stay the same, in the file and in the backup |
| PolicyServer.RunFromNoBackup | scripts/mock-policy-server/server.ts:266-343 | the same from a parseable or absent file and no backup, an absent file counting as empty |
| PolicyServer.WiringTwice | scripts/mock-policy-server/server.ts:241-291 | wiring makes `isWired` true and is idempotent on the overrides |
| PolicyServer.UnwiringUndoesWiring | scripts/mock-policy-server/server.ts:266-343 | wiring then unwiring restores the file or its absence exactly unless there was a backup and no file |
| PolicyServer.SecondWiringLosesBackup | scripts/mock-policy-server/server.ts:270-274 | after wiring twice, unwiring leaves the wired file and no backup |
| PolicyServer.UnwiringRestoresEndpoints | scripts/mock-policy-server/server.ts:321-334 | unwiring without a backup puts every endpoint back to the product's value or absence |
| PolicyServer.UnwiringKeepsTheRest | scripts/mock-policy-server/server.ts:321-343 | and keeps all other keys in force and all other overrides |
| PolicyServer.UnwiringCleansUp | scripts/mock-policy-server/server.ts:305-343 | and leaves no agent that is the product's and no file without overrides; a file without an agent is not touched |
| PolicyServer.WiringKeepsWhatIsInForceIff | scripts/mock-policy-server/server.ts:256-288 | wiring keeps the keys in force besides the endpoints exactly if none of the product's was missing before |
| PolicyServer.ShallowEqual | scripts/mock-policy-server/server.ts:408-415 | true exactly for equal objects |
| PolicyServer.Server.OverrideUrls | scripts/mock-policy-server/server.ts:232-238 | every endpoint's key, the last endpoint winning |
| PolicyServer.Server.Wired | scripts/mock-policy-server/server.ts:241-254 | true exactly if every endpoint's key has its address |
| PolicyServer.Server.WireOverrides | scripts/mock-policy-server/server.ts:266-291 | backs up, overlays and writes |
| PolicyServer.Server.Revert | scripts/mock-policy-server/server.ts:321-328 | sets each endpoint's key back to the product's or removes it, and touches no other key |
| PolicyServer.Server.UnwireOverrides | scripts/mock-policy-server/server.ts:299-343 | restores a backup, or reverts and drops what is left over |
| WorkerPool.StepKeepsInv | scripts/test-agent-host-e2e.ts:77-83 | every claimed suite runs at exactly one worker or has its own result, unclaimed ones have neither, and at most `jobs` run |
| WorkerPool.RunsAreBounded | scripts/test-agent-host-e2e.ts:77-84 | any run is at most one step per worker and per suite, and is stuck exactly when all workers have returned |
| WorkerPool.EverySuiteHasItsResult | scripts/test-agent-host-e2e.ts:77-84 | at the end result i belongs to suite i for every suite, after exactly one step per worker and per suite |
| WorkerPool.ResultIsOwnOutcome | scripts/test-agent-host-e2e.ts:77-84 | the result of a suite is how its own run ended |
| WorkerPool.FailuresAreReported | scripts/test-agent-host-e2e.ts:86-86 | some result is a failure exactly if some suite failed, in any order of completion |
| WorkerPool.Runner.Begin | scripts/test-agent-host-e2e.ts:77-80 | a worker starts and claims, or returns |
| WorkerPool.Runner.End | scripts/test-agent-host-e2e.ts:78-82 | a result is stored at its suite's index before the next claim |
| WorkerPool.SpellingsAgree | scripts/test-agent-host-e2e.ts:115-121 | `--jobs n` and `--jobs=n` mean the same wherever they stand |
| WorkerPool.ScannedByPosition | scripts/test-agent-host-e2e.ts:110-124 | by position: the scan fails exactly if some `--jobs` has no value; else the last count given counts, and every argument that is neither a count nor asks for one is kept, in order |
| WorkerPool.ManagedByName | scripts/test-agent-host-e2e.ts:127-128 | the arguments the runner manages itself, by name |
| WorkerPool.ScanArguments | scripts/test-agent-host-e2e.ts:110-124 | the last worker count counts, everything else is passed on in order |
| WorkerPool.ParseArguments | scripts/test-agent-host-e2e.ts:109-139 | never more workers than suites, at least one, no managed argument passed on, and the error cases exactly |

## Left out

- TokenTiming.PollForToken: covers the life of one device code; the outer loop that asks for new codes without end is not part of this model.
- Connection.StreamsInEveryRun: takes stream ids to be distinct, which Dispatch.StreamsAreDistinct proves for the first 2^32 ids, and sends not to fail; after a panic has ended the loop the tasks only wait.
- Connection.Loop.HandleFrame: a frame that panics is never taken; unwinding and what the runtime does with the connection then are not part of this model.
- Connection.Loop.ReadFrames: frames come dispatched; decoding them is `Framing`, dispatching them `Dispatch`.
- Streams.Multiplexer.WriteAll: what the tasks read from the map between locked regions is nothing, so each task is its id, half and batch; Tokio's scheduling is any order of steps.
- Stringifier.SafeToString: leaves out getters, `toJSON`, proxies, the limit on the output length, and the text an error produces.
- DownloadCache.TrackedInEveryRun: sequential runs only; interleaved creates separate the list update from the rename.
- DownloadCache.DownloadCache.Create: a cache entry named like the state file `lru.json` is not modelled.
- ImportMerge.MergeKeepsImports: starts from lines: the CRLF replacement, the collapse of multi-line imports and the split and join at newlines are not part of this model.
- PolicyServer.RunKeepsMeaning: a file that parses is an object whose agent is missing, null or an object; other JSON makes the source throw. The order of keys is not modelled beyond the layout of a file.
- WorkerPool.RunsAreBounded: a suite that never ends, or whose process cannot be spawned, is not modelled; the reading of a number is a parameter.
- EndToEnd.StreamArrives: both peers run the code of `cli/src/rpc.rs`; how the receiver came to insert the stream, and what the pump's end of the stream is connected to, are not part of this model.
- Outbound messages of the caller (`msg_rx`), the shutdown barrier and flushing in the receive loop.
- Exchange.CallRoundTrip: how values and texts are written and read is a parameter, of which only is asked that the peers understand each other.
- Typed deserialization other than that of the messages of a connection, UTF-8 validity and the recursion limit of `rmp_serde`; the model decides where values end and what they say.
- Sealing and encryption: a credential is its sealed text, in UTF-8 bytes.
- Auth.Auth.StoreCredentials: a timeout of the keyring thread on Linux is a failing slot. There the thread keeps the keyring object for good, so every later use of it fails, and the thread may finish its writes later (`cli/src/auth.rs:249-280`); later use of such a keyring is not modelled.
- `cli/src/json_rpc.rs`, `cli/src/singleton.rs` and `cli/src/async_pipe.rs`: newline framing, constant retries and platform pipes.
- The TypeScript formatter itself, the header pass and the copying of files in the sync script.
- HTTP serving of the mock policy server, and the reporting and subprocess handling of the suite runner.
