/**
 State that is kept in memory once loaded and written to a file on every save.
 */
module Persisted {
  import opened Seqs

  /** The file; `Garbled` does not parse. */
  datatype Disk<+T> = Missing | Garbled | Holds(value: T)

  /** How a save goes: the file is opened and truncated before it is written. */
  datatype Fate = Written | NotOpened | NotWritten

  datatype Container<+T> = Container(disk: Disk<T>, state: Option<T>)

  function OnDisk<T>(disk: Disk<T>, default: T): T {
    if disk.Holds? then disk.value else default
  }

  function Current<T>(c: Container<T>, default: T): T {
    if c.state.Some? then c.state.value else OnDisk(c.disk, default)
  }

  function Loaded<T>(c: Container<T>, default: T): Container<T> {
    c.(state := Some(Current(c, default)))
  }

  function Saved<T>(c: Container<T>, v: T, fate: Fate): Container<T> {
    var disk := match fate
      case Written => Holds(v)
      case NotOpened => c.disk
      case NotWritten => Garbled;
    Container(disk, Some(v))
  }

  /** The container itself always has what was saved last; a fresh one loads it
      unless the write failed, and then the older value or the default. */
  lemma SavedIsCurrent<T>(c: Container<T>, v: T, fate: Fate, default: T)
    ensures Current(Saved(c, v, fate), default) == v
    ensures Current(Container(Saved(c, v, fate).disk, None), default) ==
              match fate
              case Written => v
              case NotOpened => OnDisk(c.disk, default)
              case NotWritten => default
  {
  }

  /** Loading does not touch the file, and what was loaded once is answered from then on,
      whatever becomes of the file. */
  lemma LoadedStays<T>(c: Container<T>, default: T, disk: Disk<T>, other: T)
    ensures Loaded(c, default).disk == c.disk
    ensures Current(Container(disk, Loaded(c, default).state), other) == Current(c, default)
  {
  }

  class PersistedState<T> {
    var disk: Disk<T>
    var state: Option<T>
    const default: T

    ghost function View(): Container<T>
      reads this
    {
      Container(disk, state)
    }

    constructor (disk: Disk<T>, default: T)
      ensures View() == Container(disk, None) && this.default == default
    {
      this.disk, state, this.default := disk, None, default;
    }

    method Load() returns (v: T)
      modifies this`state
      ensures v == Current(old(View()), default) && View() == Loaded(old(View()), default)
    {
      if state.Some? {
        return state.value;
      }
      v := if disk.Holds? then disk.value else default;
      state := Some(v);
    }

    method Save(v: T, fate: Fate) returns (ok: bool)
      modifies this
      ensures View() == Saved(old(View()), v, fate) && (ok <==> fate.Written?)
    {
      state := Some(v);
      match fate
      case NotOpened =>
        ok := false;
      case NotWritten =>
        disk := Garbled;
        ok := false;
      case Written =>
        disk := Holds(v);
        ok := true;
    }
  }
}
