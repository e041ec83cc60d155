/**
 Where credentials are kept: in the keyring, with a file to fall back to, or in
 the file from the start; and the last credential read or stored, which is
 what later reads see. A credential is its sealed text.
 */
module Auth {
  import opened Seqs
  import opened Keyring
  import opened Persisted

  datatype Backend = Native | File

  /** `active` is decided at the first use. `cached` counts the keyring entries the
      storage has at hand. On Linux the keyring is used from a thread of its own, and
      a panic there is a failure; elsewhere it poisons the lock, and every later use
      panics. `durable` is history: what a fresh instance should read. */
  datatype State = State(
    slots: Slots,
    cached: nat,
    file: Container<Option<Bytes>>,
    active: Option<Backend>,
    fallback: bool,
    lastRead: Option<Bytes>,
    threaded: bool,
    poisoned: bool,
    durable: Option<Bytes>)

  function Unopened(slots: Slots, disk: Disk<Option<Bytes>>, threaded: bool): State {
    State(slots, 0, Container(disk, None), None, false, None, threaded, false, FreshRead(slots, disk))
  }

  /** What a fresh instance reads that is not told to use the file. */
  function FreshRead(slots: Slots, disk: Disk<Option<Bytes>>): Option<Bytes> {
    if disk.Missing? then ReadFrom(slots, 0) else OnDisk(disk, None)
  }

  function Opened(s: State, forced: bool, unreadable: Option<nat>): State {
    if s.poisoned || s.active.Some? then s
    else if forced || !s.file.disk.Missing? || ReadFails(s.slots, 0, unreadable) then
      // the entries of a keyring that was tried stay behind with it
      var tried := !forced && s.file.disk.Missing?;
      var cached := if tried then Max(s.cached, Visited(s.slots, 0, unreadable)) else s.cached;
      s.(active := Some(File), fallback := false, cached := cached,
         file := Loaded(s.file, None), lastRead := Current(s.file, None))
    else
      s.(active := Some(Native), fallback := true, cached := Max(s.cached, Visited(s.slots, 0, unreadable)),
         lastRead := ReadFrom(s.slots, 0))
  }

  /** How the backends behave during one operation: the keyring slot that cannot be
      written or deleted, the one that cannot be read, and how a save of the file goes. */
  datatype Luck = Luck(failing: Option<nat>, unreadable: Option<nat>, fate: Fate)

  function DoStore(s: State, c: Bytes, step: nat, luck: Luck): State
    requires 0 < step
  {
    if s.poisoned then s
    else if s.active == Some(Native) then
      var (slots, outcome) := StoreFrom(s.slots, 0, c, step, luck.failing);
      var s1 := s.(slots := slots, cached := Max(s.cached, Tried(0, c, step, luck.failing)));
      if outcome.Panicked? && !s.threaded then s1.(poisoned := true)
      else if outcome.Stored? then s1.(lastRead := Some(c), durable := Some(c))
      else if s.fallback then
        s1.(active := Some(File), fallback := false, lastRead := Some(c),
            file := Saved(s.file, Some(c), luck.fate),
            durable := if luck.fate.Written? then Some(c) else s.durable)
      else s1.(lastRead := Some(c))
    else
      s.(file := Saved(s.file, Some(c), luck.fate), lastRead := Some(c),
         durable := if luck.fate.Written? then Some(c) else s.durable)
  }

  function ClearedSlots(s: State, luck: Luck): nat {
    Max(s.cached, Visited(s.slots, 0, luck.unreadable))
  }

  function DoClear(s: State, luck: Luck): (State, bool) {
    if s.poisoned then (s, false)
    else if s.active == Some(Native) then
      var n := ClearedSlots(s, luck);
      var (slots, ok) := DeleteFrom(s.slots, 0, n, luck.failing);
      var s1 := s.(slots := slots, cached := if ok then 0 else n);
      (if ok then s1.(lastRead := None, durable := None) else s1, ok)
    else
      var s1 := s.(file := Saved(s.file, None, luck.fate));
      if luck.fate.Written? then (s1.(lastRead := None, durable := None), true) else (s1, false)
  }

  /** What asking for the credential gives. */
  datatype Answer = Credential(c: Option<Bytes>) | Panics

  function Answered(s: State): Answer {
    if s.poisoned then Panics else Credential(s.lastRead)
  }

  datatype Event = Store(c: Bytes, luck: Luck) | Clear(luck: Luck) | Get

  function Next(s: State, e: Event, step: nat): State
    requires 0 < step
  {
    match e
    case Store(c, luck) => DoStore(s, c, step, luck)
    case Clear(luck) => DoClear(s, luck).0
    case Get => s
  }

  function Run(s: State, es: seq<Event>, step: nat): State
    requires 0 < step
    decreases |es|
  {
    if es == [] then s else Next(Run(s, es[..|es| - 1], step), es[|es| - 1], step)
  }

  // ----- the cached credential -----

  /** A clear that will succeed: all its slots are there and can be deleted, or the file
      can be written. */
  predicate Clears(s: State, luck: Luck) {
    && !s.poisoned
    && if s.active == Some(Native) then Deletable(s.slots, 0, ClearedSlots(s, luck), luck.failing)
       else luck.fate.Written?
  }

  /** A store that panics: the lock is poisoned, or will be by a cut inside a character. */
  predicate StorePanics(s: State, c: Bytes, step: nat, luck: Luck)
    requires 0 < step
  {
    || s.poisoned
    || (s.active == Some(Native) && !s.threaded && var b := BreakOf(0, c, step, luck.failing); b.After? && b.panics)
  }

  /** What the last store or successful clear among the events left to be read, if any. */
  function LastWord(s: State, es: seq<Event>, step: nat): Option<Option<Bytes>>
    requires 0 < step
    decreases |es|
  {
    if es == [] then None else
    var before, e := es[..|es| - 1], es[|es| - 1];
    match e
    case Store(c, luck) =>
      if StorePanics(Run(s, before, step), c, step, luck) then LastWord(s, before, step) else Some(Some(c))
    case Clear(luck) =>
      if Clears(Run(s, before, step), luck) then Some(None) else LastWord(s, before, step)
    case Get => LastWord(s, before, step)
  }

  lemma ClearsIff(s: State, luck: Luck)
    ensures DoClear(s, luck).1 <==> Clears(s, luck)
  {
    DeletedSlots(s.slots, 0, ClearedSlots(s, luck), luck.failing);
  }

  // ----- a clear that breaks off -----

  /** A slot the storage has an entry for is missing, if the keyring is in use. */
  predicate Blocked(s: State, j: nat) {
    s.active == Some(Native) ==> j < s.cached && j !in s.slots
  }

  lemma BlockedCannotClear(s: State, j: nat, luck: Luck)
    requires Blocked(s, j) && s.active == Some(Native)
    ensures !Clears(s, luck)
  {
  }

  /** Only a store that needs the slot writes it. */
  lemma StepKeepsBlocked(s: State, e: Event, step: nat, j: nat)
    requires 0 < step && Blocked(s, j) && (e.Store? ==> |e.c| <= j * step)
    ensures Blocked(Next(s, e, step), j)
  {
    match e
    case Get =>
    case Store(c, luck) =>
      StoredSlots(s.slots, 0, c, step, luck.failing);
      TriedIff(0, c, step, luck.failing, j);
    case Clear(luck) =>
      ClearsIff(s, luck);
      DeletedSlots(s.slots, 0, ClearedSlots(s, luck), luck.failing);
  }

  lemma {:induction false} RunKeepsBlocked(s: State, es: seq<Event>, step: nat, j: nat)
    requires 0 < step && Blocked(s, j)
    requires forall i :: 0 <= i < |es| && es[i].Store? ==> |es[i].c| <= j * step
    ensures Blocked(Run(s, es, step), j)
    decreases |es|
  {
    if es != [] {
      RunKeepsBlocked(s, es[..|es| - 1], step, j);
      StepKeepsBlocked(Run(s, es[..|es| - 1], step), es[|es| - 1], step, j);
    }
  }

  /** A clear of the keyring that breaks off behind slot `j`. */
  predicate BreaksOffBehind(s: State, luck: Luck, j: nat) {
    !s.poisoned && s.active == Some(Native) && !Clears(s, luck) && Deletable(s.slots, 0, j + 1, luck.failing)
  }

  lemma BrokenClearBlocks(s: State, luck: Luck, j: nat)
    requires BreaksOffBehind(s, luck, j)
    ensures Blocked(DoClear(s, luck).0, j) && DoClear(s, luck).0.active == Some(Native)
  {
    ClearsIff(s, luck);
    DeletedBefore(s.slots, 0, ClearedSlots(s, luck), luck.failing, j);
  }

  /** After a clear that broke off no later one succeeds on the keyring, whatever else is
      cleared or read and whatever is stored, as long as no store is long enough to need a
      slot that was deleted. */
  lemma BrokenClearLasts(s: State, luck: Luck, j: nat, es: seq<Event>, step: nat, later: Luck)
    requires 0 < step && BreaksOffBehind(s, luck, j)
    requires forall i :: 0 <= i < |es| && es[i].Store? ==> |es[i].c| <= j * step
    ensures var s' := Run(Next(s, Clear(luck), step), es, step);
            s'.active == Some(Native) ==> !DoClear(s', later).1
  {
    BrokenClearBlocks(s, luck, j);
    RunKeepsBlocked(Next(s, Clear(luck), step), es, step, j);
    var s' := Run(Next(s, Clear(luck), step), es, step);
    if s'.active == Some(Native) {
      BlockedCannotClear(s', j, later);
      ClearsIff(s', later);
    }
  }

  /** So clearing again never makes good a clear that broke off after its first slot: every
      later one fails, what is kept in memory stays, and there is nothing left to read. */
  lemma {:induction false} ClearingAgainIsInVain(s: State, luck: Luck, es: seq<Event>, step: nat, later: Luck)
    requires 0 < step && Shaped(s) && BreaksOffBehind(s, luck, 0)
    requires forall i :: 0 <= i < |es| ==> !es[i].Store?
    ensures var s' := Run(Next(s, Clear(luck), step), es, step);
            && s'.active == Some(Native) && !DoClear(s', later).1
            && Answered(s') == Answered(s) && FreshRead(s'.slots, s'.file.disk) == None
    decreases |es|
  {
    var s1 := Next(s, Clear(luck), step);
    ClearsIff(s, luck);
    BrokenClearBlocks(s, luck, 0);
    BrokenClearLasts(s, luck, 0, es, step, later);
    RunKeepsBlocked(s1, es, step, 0);
    if es != [] {
      ClearingAgainIsInVain(s, luck, es[..|es| - 1], step, later);
      var before, e := Run(s1, es[..|es| - 1], step), es[|es| - 1];
      if e.Clear? {
        BrokenClearLasts(s, luck, 0, es[..|es| - 1], step, e.luck);
      }
    }
  }

  /** What does: after a whole store of a credential that meets the round-trip condition, a
      clear succeeds exactly if it can delete every slot, and every slot below the entries
      at hand was there before or is needed by the credential. */
  lemma ClearAfterStoreIff(s: State, c: Bytes, step: nat, luck: Luck, later: Luck)
    requires 0 < step && !s.poisoned && s.active == Some(Native) && RoundTrips(c, step)
    requires BreakOf(0, c, step, luck.failing).Never?
    ensures var s' := DoStore(s, c, step, luck);
            DoClear(s', later).1 <==>
              && (forall j :: 0 <= j < s.cached ==> j in s.slots || j * step < |c|)
              && (forall j :: 0 <= j < s'.cached ==> later.failing != Some(j))
  {
    var s' := DoStore(s, c, step, luck);
    BreakIsOutcome(s.slots, 0, c, step, luck.failing);
    VisitedAfterStore(s.slots, 0, c, step, luck.failing, later.unreadable);
    StoredSlots(s.slots, 0, c, step, luck.failing);
    ClearsIff(s', later);
    forall j: nat | j < s.cached ensures j in s'.slots <==> j in s.slots || j * step < |c| {
      TriedIff(0, c, step, luck.failing, j);
    }
  }

  lemma StepSetsLastRead(s: State, e: Event, step: nat)
    requires 0 < step
    ensures e.Store? ==>
              Next(s, e, step).lastRead == if StorePanics(s, e.c, step, e.luck) then s.lastRead else Some(e.c)
    ensures e.Clear? ==> Next(s, e, step).lastRead == if Clears(s, e.luck) then None else s.lastRead
  {
    match e
    case Store(c, luck) => BreakIsOutcome(s.slots, 0, c, step, luck.failing);
    case Clear(luck) => ClearsIff(s, luck);
    case Get =>
  }

  lemma {:induction false} RunSetsLastRead(s: State, es: seq<Event>, step: nat)
    requires 0 < step
    ensures Run(s, es, step).lastRead == match LastWord(s, es, step) case None => s.lastRead case Some(c) => c
    decreases |es|
  {
    if es != [] {
      RunSetsLastRead(s, es[..|es| - 1], step);
      StepSetsLastRead(Run(s, es[..|es| - 1], step), es[|es| - 1], step);
    }
  }

  /** And then it leaves no slot of the credential, nor any it had an entry for, whatever it
      could read. */
  lemma ClearAfterStoreDeletes(s: State, c: Bytes, step: nat, luck: Luck, later: Luck, j: nat)
    requires 0 < step && !s.poisoned && s.active == Some(Native) && RoundTrips(c, step)
    requires BreakOf(0, c, step, luck.failing).Never? && DoClear(DoStore(s, c, step, luck), later).1
    requires j < s.cached || j * step < |c|
    ensures j !in DoClear(DoStore(s, c, step, luck), later).0.slots
  {
    var s' := DoStore(s, c, step, luck);
    BreakIsOutcome(s.slots, 0, c, step, luck.failing);
    TriedIff(0, c, step, luck.failing, j);
    DeletedSlots(s'.slots, 0, ClearedSlots(s', later), later.failing);
  }

  /** After a clear that worked everything starts over: a whole store can be cleared again. */
  lemma ClearStartsOver(s: State, luck: Luck, c: Bytes, step: nat, stored: Luck, later: Luck)
    requires 0 < step && !s.poisoned && s.active == Some(Native) && Clears(s, luck)
    requires RoundTrips(c, step) && BreakOf(0, c, step, stored.failing).Never? && later.failing == None
    ensures DoClear(DoStore(DoClear(s, luck).0, c, step, stored), later).1
  {
    ClearsIff(s, luck);
    ClearAfterStoreIff(DoClear(s, luck).0, c, step, stored, later);
  }

  // ----- every operation first uses the storage -----

  /** An operation, and what it meets if it is the first to use the storage: whether the file
      is forced, and the keyring slot that cannot be read. */
  datatype Use = Use(forced: bool, unreadable: Option<nat>, op: Event)

  function AfterUse(s: State, u: Use, step: nat): State
    requires 0 < step
  {
    Next(Opened(s, u.forced, u.unreadable), u.op, step)
  }

  function UseAll(s: State, us: seq<Use>, step: nat): State
    requires 0 < step
    decreases |us|
  {
    if us == [] then s else AfterUse(UseAll(s, us[..|us| - 1], step), us[|us| - 1], step)
  }

  function Ops(us: seq<Use>): (es: seq<Event>)
    ensures |es| == |us| && forall i :: 0 <= i < |us| ==> es[i] == us[i].op
  {
    seq(|us|, i requires 0 <= i < |us| => us[i].op)
  }

  lemma NextStaysOpen(s: State, e: Event, step: nat)
    requires 0 < step && s.active.Some?
    ensures Next(s, e, step).active.Some?
    ensures s.active == Some(File) ==> Next(s, e, step).active == Some(File)
  {
  }

  /** The first use decides on a storage, and no later one does again, whatever it meets. */
  lemma {:induction false} FirstUseDecides(s: State, us: seq<Use>, step: nat)
    requires 0 < step && us != [] && !s.poisoned && s.active.None?
    ensures UseAll(s, us, step) == Run(Opened(s, us[0].forced, us[0].unreadable), Ops(us), step)
    ensures UseAll(s, us, step).active.Some?
    decreases |us|
  {
    var before, last := us[..|us| - 1], us[|us| - 1];
    assert Ops(us)[..|us| - 1] == Ops(before);
    if before == [] {
      assert Ops(before) == [];
    } else {
      FirstUseDecides(s, before, step);
    }
    NextStaysOpen(Opened(UseAll(s, before, step), last.forced, last.unreadable), last.op, step);
  }

  /** Which storage that is. */
  predicate OpensFile(slots: Slots, disk: Disk<Option<Bytes>>, first: Use) {
    first.forced || !disk.Missing? || ReadFails(slots, 0, first.unreadable)
  }

  /** Over any run from the first use, whatever the backends do: asking for the credential
      gives what the last store or successful clear left, or before any what was there at
      the first use, unless a store has panicked. */
  lemma ReadsSeeLastStore(slots: Slots, disk: Disk<Option<Bytes>>, threaded: bool, us: seq<Use>, step: nat)
    requires 0 < step && us != []
    ensures var s := Opened(Unopened(slots, disk, threaded), us[0].forced, us[0].unreadable);
            var s' := UseAll(Unopened(slots, disk, threaded), us, step);
            Answered(s') ==
              if s'.poisoned then Panics
              else Credential(match LastWord(s, Ops(us), step)
                              case Some(c) => c
                              case None => if OpensFile(slots, disk, us[0]) then OnDisk(disk, None)
                                           else ReadFrom(slots, 0))
  {
    FirstUseDecides(Unopened(slots, disk, threaded), us, step);
    RunSetsLastRead(Opened(Unopened(slots, disk, threaded), us[0].forced, us[0].unreadable), Ops(us), step);
  }

  /** The lock is poisoned only by a store of a text that is cut inside a character, and
      never where the keyring has its thread. */
  lemma {:induction false} PoisonedOnlyByCut(s: State, es: seq<Event>, step: nat)
    requires 0 < step && !s.poisoned
    requires s.threaded || forall i :: 0 <= i < |es| && es[i].Store? ==> Cuttable(es[i].c, step)
    ensures !Run(s, es, step).poisoned && Run(s, es, step).threaded == s.threaded
    decreases |es|
  {
    if es != [] {
      var before, e := es[..|es| - 1], es[|es| - 1];
      PoisonedOnlyByCut(s, before, step);
      if e.Store? {
        BreakIsOutcome(Run(s, before, step).slots, 0, e.c, step, e.luck.failing);
        if !s.threaded {
          assert Cuttable(es[|es| - 1].c, step);
          BreakIff(0, e.c, step, e.luck.failing);
        }
      }
    }
  }

  /** The keyring is given up for the file exactly by a store that breaks off without
      panicking under the lock. */
  lemma SwitchIff(s: State, e: Event, step: nat)
    requires 0 < step && Shaped(s) && s.active == Some(Native) && !s.poisoned
    ensures Next(s, e, step).active == Some(File) <==>
              && e.Store?
              && var b := BreakOf(0, e.c, step, e.luck.failing); b.After? && (b.panics ==> s.threaded)
  {
    if e.Store? {
      BreakIsOutcome(s.slots, 0, e.c, step, e.luck.failing);
    }
  }

  lemma {:induction false} FileStays(s: State, us: seq<Use>, step: nat, i: nat)
    requires 0 < step && i <= |us| && UseAll(s, us[..i], step).active == Some(File)
    ensures UseAll(s, us, step).active == Some(File)
    decreases |us|
  {
    if i < |us| {
      assert us[..|us| - 1][..i] == us[..i];
      FileStays(s, us[..|us| - 1], step, i);
      NextStaysOpen(UseAll(s, us[..|us| - 1], step), us[|us| - 1].op, step);
    } else {
      assert us[..i] == us;
    }
  }

  /** After the first use a storage is in use, the file if it decided on that. */
  lemma UsedIsOpen(slots: Slots, disk: Disk<Option<Bytes>>, threaded: bool, us: seq<Use>, step: nat)
    requires 0 < step && us != []
    ensures var s' := UseAll(Unopened(slots, disk, threaded), us, step);
            s'.active.Some? && (OpensFile(slots, disk, us[0]) ==> s'.active == Some(File))
  {
    var s := Unopened(slots, disk, threaded);
    FirstUseDecides(s, us, step);
    if OpensFile(slots, disk, us[0]) {
      OpensFileStays(Opened(s, us[0].forced, us[0].unreadable), Ops(us), step);
    }
  }

  lemma {:induction false} OpensFileStays(s: State, es: seq<Event>, step: nat)
    requires 0 < step && s.active == Some(File)
    ensures Run(s, es, step).active == Some(File)
    decreases |es|
  {
    if es != [] {
      OpensFileStays(s, es[..|es| - 1], step);
      NextStaysOpen(Run(s, es[..|es| - 1], step), es[|es| - 1], step);
    }
  }

  /** From the first use on: the storage it decided on is in use until a switch; a switch is
      from the keyring to the file; and after one, and after a first use that decided on the
      file, the file stays in use for good. */
  lemma SwitchesOnce(slots: Slots, disk: Disk<Option<Bytes>>, threaded: bool, us: seq<Use>, step: nat, i: nat, j: nat)
    requires 0 < step && 0 < i <= j <= |us|
    ensures var s := Unopened(slots, disk, threaded);
            var before, after := UseAll(s, us[..i], step).active, UseAll(s, us[..j], step).active;
            && (before == after || (before == Some(Native) && after == Some(File)))
            && (OpensFile(slots, disk, us[0]) ==> before == Some(File))
  {
    var s := Unopened(slots, disk, threaded);
    assert us[..j][..i] == us[..i];
    UsedIsOpen(slots, disk, threaded, us[..i], step);
    UsedIsOpen(slots, disk, threaded, us[..j], step);
    match UseAll(s, us[..i], step).active.value
    case File => FileStays(s, us[..j], step, i);
    case Native =>
      match UseAll(s, us[..j], step).active.value
      case File =>
      case Native =>
  }

  // ----- what a fresh instance reads -----

  predicate Fresh(s: State) {
    FreshRead(s.slots, s.file.disk) == s.durable
  }

  /** The keyring is in use only without a file, and then with the file to fall back to. */
  predicate Shaped(s: State) {
    s.active.Some? && (s.active == Some(Native) ==> s.file.disk.Missing? && s.fallback)
  }

  /** The first use: the file is used if it is forced or there, or if the keyring cannot be
      read, and otherwise the keyring, with the file to fall back to; what is read is what is
      there. */
  lemma OpenedIsFresh(slots: Slots, disk: Disk<Option<Bytes>>, threaded: bool, first: Use)
    ensures var s := Opened(Unopened(slots, disk, threaded), first.forced, first.unreadable);
            && Shaped(s) && Fresh(s) && !s.poisoned && s.slots == slots && s.file.disk == disk
            && s.active == Some(if OpensFile(slots, disk, first) then File else Native)
            && (s.fallback <==> !OpensFile(slots, disk, first))
            && s.lastRead == (if OpensFile(slots, disk, first) then OnDisk(disk, None) else ReadFrom(slots, 0))
  {
  }

  /** What an operation makes the last thing to have reached the backend in use: a credential
      that is stored there whole, in the file if the keyring was given up, or nothing, after
      a clear that succeeds. */
  function Reached(s: State, e: Event, step: nat): Option<Option<Bytes>>
    requires 0 < step
  {
    match e
    case Get => None
    case Clear(luck) => if Clears(s, luck) then Some(None) else None
    case Store(c, luck) =>
      if s.poisoned then None
      else if s.active == Some(Native) then
        match BreakOf(0, c, step, luck.failing)
        case Never => Some(Some(c))
        case After(_, panics) =>
          if (panics && !s.threaded) || !s.fallback || !luck.fate.Written? then None else Some(Some(c))
      else if luck.fate.Written? then Some(Some(c)) else None
  }

  function LastReached(s: State, es: seq<Event>, step: nat): Option<Option<Bytes>>
    requires 0 < step
    decreases |es|
  {
    if es == [] then None
    else
      var r := Reached(Run(s, es[..|es| - 1], step), es[|es| - 1], step);
      if r.Some? then r else LastReached(s, es[..|es| - 1], step)
  }

  lemma StepSetsDurable(s: State, e: Event, step: nat)
    requires 0 < step
    ensures Next(s, e, step).durable == match Reached(s, e, step) case Some(c) => c case None => s.durable
  {
    match e
    case Get =>
    case Store(c, luck) => BreakIsOutcome(s.slots, 0, c, step, luck.failing);
    case Clear(luck) => ClearsIff(s, luck);
  }

  lemma {:induction false} DurableIsLastReached(s: State, es: seq<Event>, step: nat)
    requires 0 < step
    ensures Run(s, es, step).durable == match LastReached(s, es, step) case Some(c) => c case None => s.durable
    decreases |es|
  {
    if es != [] {
      DurableIsLastReached(s, es[..|es| - 1], step);
      StepSetsDurable(Run(s, es[..|es| - 1], step), es[|es| - 1], step);
    }
  }

  /** Before a save of the file: afterwards a fresh instance reads what it should. A save cut
      short leaves nothing to read; one that never begins leaves what was there. */
  predicate SaveStaysFresh(s: State, fate: Fate) {
    match fate
    case Written => true
    case NotOpened => Fresh(s)
    case NotWritten => s.durable == None
  }

  /** Before a store in the keyring. Whole, the credential must be complete with the stale
      slots behind it. Broken off, it must have reached the file; otherwise what was durable
      must be the chunks already written and what the older slots go on with. */
  predicate KeyringStoreStaysFresh(s: State, c: Bytes, step: nat, luck: Luck)
    requires 0 < step
  {
    match BreakOf(0, c, step, luck.failing)
    case Never => Completes(s.slots, 0, c, step)
    case After(j, panics) =>
      if (panics && !s.threaded) || luck.fate.NotOpened? then
        j * step <= |c| && s.durable == Prepend(c[..j * step], ReadFrom(s.slots, j))
      else luck.fate.Written? || s.durable == None
  }

  /** Before a clear of the keyring: it deletes all slots, or none, or there is nothing to lose. */
  predicate KeyringClearStaysFresh(s: State, luck: Luck) {
    if Deletable(s.slots, 0, ClearedSlots(s, luck), luck.failing) then true
    else if 0 !in s.slots || luck.failing == Some(0) then Fresh(s)
    else s.durable == None
  }

  /** What can be seen before an operation of whether a fresh instance will read what it should. */
  predicate StaysFresh(s: State, e: Event, step: nat)
    requires 0 < step
  {
    if s.poisoned || e.Get? then Fresh(s)
    else match e
      case Store(c, luck) =>
        if s.active == Some(Native) then KeyringStoreStaysFresh(s, c, step, luck) else SaveStaysFresh(s, luck.fate)
      case Clear(luck) =>
        if s.active == Some(Native) then KeyringClearStaysFresh(s, luck) else SaveStaysFresh(s, luck.fate)
  }

  lemma KeyringStoreFreshIff(s: State, c: Bytes, step: nat, luck: Luck)
    requires 0 < step && Shaped(s) && !s.poisoned && s.active == Some(Native)
    ensures Fresh(DoStore(s, c, step, luck)) <==> KeyringStoreStaysFresh(s, c, step, luck)
  {
    BreakIsOutcome(s.slots, 0, c, step, luck.failing);
    ReadAfterStore(s.slots, 0, c, step, luck.failing);
    if BreakOf(0, c, step, luck.failing).Never? {
      ReadBackIff(s.slots, 0, c, step, luck.failing);
    } else {
      ReadAfterBreak(s.slots, 0, c, step, luck.failing);
    }
  }

  /** After any operation, however it goes, a fresh instance reads what last reached the
      backend in use exactly if the state before it says so. */
  lemma StepStaysFreshIff(s: State, e: Event, step: nat)
    requires 0 < step && Shaped(s)
    ensures Shaped(Next(s, e, step))
    ensures Fresh(Next(s, e, step)) <==> StaysFresh(s, e, step)
  {
    match e
    case Get =>
    case Store(c, luck) =>
      if s.active == Some(Native) && !s.poisoned {
        KeyringStoreFreshIff(s, c, step, luck);
      }
    case Clear(luck) =>
      if s.active == Some(Native) && !s.poisoned {
        ClearsIff(s, luck);
        ClearForgets(s.slots, ClearedSlots(s, luck), luck.failing);
      }
  }

  /** For credentials that meet the round-trip condition, from a state in which a fresh
      instance reads what it should: a store loses that exactly if the keyring breaks off
      at a slot the credential needs, and then the file is cut short with something to
      lose, or is not opened with something else to lose than the chunks already written
      and the older slots give. */
  lemma StoreStaysFreshIff(s: State, c: Bytes, step: nat, luck: Luck)
    requires 0 < step && Shaped(s) && Fresh(s) && !s.poisoned && RoundTrips(c, step)
    ensures Fresh(DoStore(s, c, step, luck)) <==>
              if s.active == Some(Native) then
                luck.failing.Some? && luck.failing.value * step < |c| ==>
                  var j := luck.failing.value;
                  && (luck.fate.NotWritten? ==> s.durable == None)
                  && (luck.fate.NotOpened? ==> s.durable == Prepend(c[..j * step], ReadFrom(s.slots, j)))
              else luck.fate.NotWritten? ==> s.durable == None
  {
    StepStaysFreshIff(s, Store(c, luck), step);
    if s.active == Some(Native) {
      BreakIff(0, c, step, luck.failing);
      RoundTripsComplete(s.slots, 0, c, step);
      if luck.failing.Some? && luck.failing.value * step < |c| {
        assert BreakOf(0, c, step, luck.failing) == After(luck.failing.value, false);
      } else {
        assert luck.failing.Some? ==> (luck.failing.value - 0) * step == luck.failing.value * step;
        assert BreakOf(0, c, step, luck.failing) == Never;
      }
    }
  }

  lemma {:induction false} RunIsShaped(s: State, es: seq<Event>, step: nat)
    requires 0 < step && Shaped(s)
    ensures Shaped(Run(s, es, step))
    decreases |es|
  {
    if es != [] {
      RunIsShaped(s, es[..|es| - 1], step);
      StepStaysFreshIff(Run(s, es[..|es| - 1], step), es[|es| - 1], step);
    }
  }

  predicate AllStayFresh(s: State, es: seq<Event>, step: nat)
    requires 0 < step
    decreases |es|
  {
    || es == []
    || (AllStayFresh(s, es[..|es| - 1], step) && StaysFresh(Run(s, es[..|es| - 1], step), es[|es| - 1], step))
  }

  predicate FreshAt(s: State, es: seq<Event>, step: nat, i: nat)
    requires 0 < step && i <= |es|
  {
    Fresh(Run(s, es[..i], step))
  }

  /** At every point of a run. */
  ghost predicate AlwaysFresh(s: State, es: seq<Event>, step: nat)
    requires 0 < step
  {
    forall i: nat {:trigger FreshAt(s, es, step, i)} :: i <= |es| ==> FreshAt(s, es, step, i)
  }

  lemma FreshBefore(s: State, es: seq<Event>, step: nat, i: nat)
    requires 0 < step && i < |es|
    ensures FreshAt(s, es, step, i) <==> FreshAt(s, es[..|es| - 1], step, i)
    ensures FreshAt(s, es, step, |es|) <==> Fresh(Run(s, es, step))
  {
    assert es[..|es| - 1][..i] == es[..i] && es[..|es|] == es;
  }

  lemma AlwaysFreshSnoc(s: State, es: seq<Event>, step: nat)
    requires 0 < step && es != []
    ensures AlwaysFresh(s, es, step) <==> AlwaysFresh(s, es[..|es| - 1], step) && Fresh(Run(s, es, step))
  {
    var before := es[..|es| - 1];
    FreshBefore(s, es, step, 0);
    if AlwaysFresh(s, es, step) {
      assert FreshAt(s, es, step, |es|);
      forall i: nat | i <= |before| ensures FreshAt(s, before, step, i) {
        FreshBefore(s, es, step, i);
      }
    }
    if AlwaysFresh(s, before, step) && Fresh(Run(s, es, step)) {
      forall i: nat | i <= |es| ensures FreshAt(s, es, step, i) {
        if i < |es| {
          FreshBefore(s, es, step, i);
        }
      }
    }
  }

  lemma {:induction false} AlwaysFreshIff(s: State, es: seq<Event>, step: nat)
    requires 0 < step && Shaped(s) && Fresh(s)
    ensures AlwaysFresh(s, es, step) <==> AllStayFresh(s, es, step)
    decreases |es|
  {
    if es == [] {
      assert es[..0] == es;
      assert AlwaysFresh(s, es, step) by {
        forall i: nat | i <= |es| ensures FreshAt(s, es, step, i) {
        }
      }
    } else {
      AlwaysFreshSnoc(s, es, step);
      AlwaysFreshIff(s, es[..|es| - 1], step);
      RunIsShaped(s, es[..|es| - 1], step);
      StepStaysFreshIff(Run(s, es[..|es| - 1], step), es[|es| - 1], step);
    }
  }

  /** Over any run from the first use, a fresh instance over the same backends reads at
      every point the last credential that reached the backend in use, exactly if every
      operation meets the condition on the state before it. At the end it does exactly if
      the last operation does, whatever went wrong before. */
  lemma FreshInstanceReadsLast(slots: Slots, disk: Disk<Option<Bytes>>, threaded: bool, us: seq<Use>, step: nat)
    requires 0 < step && us != []
    ensures var s := Opened(Unopened(slots, disk, threaded), us[0].forced, us[0].unreadable);
            var es, s' := Ops(us), UseAll(Unopened(slots, disk, threaded), us, step);
            && (AlwaysFresh(s, es, step) <==> AllStayFresh(s, es, step))
            && (FreshRead(s'.slots, s'.file.disk)
                  == (match LastReached(s, es, step) case Some(c) => c case None => FreshRead(slots, disk))
                <==> StaysFresh(Run(s, es[..|es| - 1], step), es[|es| - 1], step))
  {
    var s := Opened(Unopened(slots, disk, threaded), us[0].forced, us[0].unreadable);
    var es := Ops(us);
    FirstUseDecides(Unopened(slots, disk, threaded), us, step);
    OpenedIsFresh(slots, disk, threaded, us[0]);
    AlwaysFreshIff(s, es, step);
    RunIsShaped(s, es[..|es| - 1], step);
    StepStaysFreshIff(Run(s, es[..|es| - 1], step), es[|es| - 1], step);
    DurableIsLastReached(s, es, step);
  }

  /** What a failing slot costs at the limits of every build, whatever slots hold the older
      credential: a store that breaks off after some chunks leaves those with what the older
      slots go on with, and nothing if there are none, unless it reaches the file. The older
      credential is lost in any case that does not begin with the chunks written. */
  lemma InterruptedStoreLosesOlder(slots: Slots, older: Bytes, c: Bytes, limit: nat, i: nat, threaded: bool,
                                   fate: Fate)
    requires limit == 1024 || limit == 128 * 1024
    requires 0 < i && BreakOf(0, c, limit - |MARKER|, Some(i)) == After(i, false)
    requires ReadFrom(slots, 0) == Some(older)
    ensures var step := limit - |MARKER|;
            var s := Opened(Unopened(slots, Missing, threaded), false, None);
            var s' := Next(s, Store(c, Luck(Some(i), None, fate)), step);
            var read := FreshRead(s'.slots, s'.file.disk);
            && s.lastRead == Some(older) && s'.lastRead == Some(c) && i * step < |c|
            && s'.durable == (if fate.Written? then Some(c) else Some(older))
            && (match fate
                case Written => read == Some(c)
                case NotOpened => read == Prepend(c[..i * step], ReadFrom(slots, i))
                case NotWritten => read == None)
            && (!fate.Written? && i !in slots ==> read == None)
            && (!fate.Written? && !(c[..i * step] <= older) ==> read != Some(older))
  {
    var step := limit - |MARKER|;
    NeverUnreadable(slots, 0);
    BrokenStore(slots, c, step, i);
  }

  lemma BrokenStore(slots: Slots, c: Bytes, step: nat, i: nat)
    requires 0 < step && BreakOf(0, c, step, Some(i)) == After(i, false)
    ensures StoreFrom(slots, 0, c, step, Some(i)).1.Failed? && i * step < |c|
    ensures ReadFrom(StoreFrom(slots, 0, c, step, Some(i)).0, 0) == Prepend(c[..i * step], ReadFrom(slots, i))
  {
    BreakIsOutcome(slots, 0, c, step, Some(i));
    ReadAfterStore(slots, 0, c, step, Some(i));
    ReadAfterBreak(slots, 0, c, step, Some(i));
  }

  /** `Auth` with the two storages it may use; the keyring is used while it is active. */
  class Auth {
    const keyring: KeyringStorage
    const file: PersistedState<Option<Bytes>>
    const threaded: bool
    var active: Option<Backend>
    var fallback: bool
    var lastRead: Option<Bytes>
    var poisoned: bool
    ghost var durable: Option<Bytes>

    ghost predicate Valid()
      reads this, keyring
    {
      keyring.Valid() && file.default == None
    }

    ghost function View(): State
      reads this, keyring, file
    {
      State(keyring.slots, |keyring.entries|, file.View(), active, fallback, lastRead, threaded, poisoned, durable)
    }

    constructor (keyring: KeyringStorage, file: PersistedState<Option<Bytes>>, threaded: bool)
      requires keyring.Valid() && keyring.entries == [] && file.state == None && file.default == None
      ensures Valid() && this.keyring == keyring && this.file == file
      ensures View() == Unopened(keyring.slots, file.disk, threaded)
    {
      this.keyring, this.file, this.threaded := keyring, file, threaded;
      active, fallback, lastRead, poisoned := None, false, None, false;
      durable := FreshRead(keyring.slots, file.disk);
    }

    /** Decides on a storage at the first use, by what can be read; every operation does
        this first. */
    method WithStorage(forced: bool, unreadable: Option<nat>)
      requires Valid()
      modifies this, keyring`entries, file`state
      ensures Valid() && View() == Opened(old(View()), forced, unreadable)
    {
      if poisoned || active.Some? {
        return;
      }
      var native := false;
      var v: Option<Bytes> := None;
      if !forced && file.disk.Missing? {
        native, v := keyring.Read(unreadable);
      }
      if native {
        active, fallback, lastRead := Some(Native), true, v;
      } else {
        lastRead := file.Load();
        active, fallback := Some(File), false;
      }
    }

    /** The value is taken out of its cell to be copied, and put back. */
    method GetCurrentCredential(forced: bool, unreadable: Option<nat>) returns (r: Answer)
      requires Valid()
      modifies this, keyring`entries, file`state
      ensures Valid() && View() == Opened(old(View()), forced, unreadable) && r == Answered(View())
    {
      WithStorage(forced, unreadable);
      if poisoned {
        return Panics;
      }
      var value := lastRead;
      lastRead := None;
      lastRead := value;
      r := Credential(value);
    }

    method ClearCredentials(forced: bool, unreadable: Option<nat>, luck: Luck) returns (ok: bool)
      requires Valid()
      modifies this, keyring, file
      ensures Valid() && (View(), ok) == DoClear(Opened(old(View()), forced, unreadable), luck)
    {
      WithStorage(forced, unreadable);
      if poisoned {
        return false;
      }
      if active == Some(Native) {
        ok := keyring.Clear(luck.unreadable, luck.failing);
      } else {
        ok := file.Save(None, luck.fate);
      }
      if ok {
        lastRead := None;
        durable := None;
      }
    }

    method StoreCredentials(forced: bool, unreadable: Option<nat>, creds: Bytes, luck: Luck)
      requires Valid()
      modifies this, keyring, file
      ensures Valid() && View() == DoStore(Opened(old(View()), forced, unreadable), creds, keyring.Step(), luck)
    {
      WithStorage(forced, unreadable);
      if poisoned {
        return;
      }
      var ok: bool;
      if active == Some(Native) {
        var outcome := keyring.Store(creds, luck.failing);
        if outcome.Panicked? && !threaded {
          poisoned := true;
          return;
        }
        ok := outcome.Stored?;
        if !ok && fallback {
          fallback := false;
          active := Some(File);
          ok := file.Save(Some(creds), luck.fate);
        }
      } else {
        ok := file.Save(Some(creds), luck.fate);
      }
      if ok {
        durable := Some(creds);
      }
      lastRead := Some(creds);
    }
  }
}
