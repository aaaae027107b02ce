/** The persisted per-file offsets: a nested map in memory, written out by atomic rename. */
module OffsetState {
  import opened Engrams

  /** A Go map of maps. None is a nil map, which can be read but not written; JSON `null` decodes to it. */
  type Offsets = Option<map<string, Option<map<string, int>>>>

  const NONE_YET: Offsets := Some(map[])

  /** What reading state.json yields. */
  datatype StateFile = Missing | Unreadable | Empty | NotAnObject | Decoded(data: Offsets)

  /** The recorded offset, 0 if there is none. */
  function Lookup(data: Offsets, surface: string, file: string): int {
    if data.Some? && surface in data.value && data.value[surface].Some? && file in data.value[surface].value
    then data.value[surface].value[file] else 0
  }

  ghost predicate SameOffsets(a: Offsets, b: Offsets) {
    forall surface, file :: Lookup(a, surface, file) == Lookup(b, surface, file)
  }

  /** No nil map anywhere. */
  ghost predicate Writable(data: Offsets) {
    data.Some? && forall surface | surface in data.value :: data.value[surface].Some?
  }

  method LoadState(content: StateFile) returns (state: Option<State>)
    ensures state == None <==> content == Unreadable || content == NotAnObject
    ensures state.Some? ==> fresh(state.value) && state.value.Valid() && !state.value.dirty && state.value.disk == content
    ensures state.Some? ==> state.value.data == if content.Decoded? then content.data else NONE_YET
  {
    match content {
      case Missing | Empty =>
        var s := new State(NONE_YET, content);
        return Some(s);
      case Unreadable | NotAnObject =>
        return None;
      case Decoded(data) =>
        var s := new State(data, content);
        return Some(s);
    }
  }

  class State {
    var data: Offsets
    var dirty: bool
    var disk: StateFile

    ghost function Durable(): Offsets
      reads this
    {
      if disk.Decoded? then disk.data else NONE_YET
    }

    /** A clean state agrees with the file, so a restart would resume where this process stands. */
    ghost predicate Valid()
      reads this
    {
      !dirty ==> SameOffsets(data, Durable())
    }

    constructor (data: Offsets, disk: StateFile)
      requires data == if disk.Decoded? then disk.data else NONE_YET
      ensures Valid() && !dirty && this.data == data && this.disk == disk
    {
      this.data := data;
      this.disk := disk;
      this.dirty := false;
    }

    method Get(surface: string, file: string) returns (offset: int)
      ensures offset == Lookup(data, surface, file)
    {
      if data.Some? && surface in data.value {
        var m := data.value[surface];
        return if m.Some? && file in m.value then m.value[file] else 0;
      }
      return 0;
    }

    /** Changes one offset and no other, and is dirty afterwards if it changed anything; or meets a nil map it
        would have to write to, which ends the process. */
    method Set(surface: string, file: string, offset: int) returns (panicked: bool)
      requires Valid()
      modifies this
      ensures Valid() && disk == old(disk)
      ensures panicked
         <==> old(data) == None || (offset != 0 && surface in old(data).value && old(data).value[surface] == None)
      ensures Writable(old(data)) ==> !panicked && Writable(data)
      ensures panicked ==> data == old(data) && dirty == old(dirty)
      ensures !panicked ==>
                && (forall s, f ::
                      Lookup(data, s, f) == if s == surface && f == file then offset else Lookup(old(data), s, f))
                && dirty == (old(dirty) || Lookup(old(data), surface, file) != offset)
    {
      if data == None {
        return true;
      }
      if surface !in data.value {
        data := Some(data.value[surface := Some(map[])]);
      }
      var m := data.value[surface];
      if (if m.Some? && file in m.value then m.value[file] else 0) == offset {
        return false;
      }
      if m == None {
        return true;
      }
      data := Some(data.value[surface := Some(m.value[file := offset])]);
      dirty := true;
      return false;
    }

    /** Writes everything or nothing: a failed write leaves the previous file in place. */
    method Save(writable: bool) returns (ok: bool)
      requires Valid()
      modifies this
      ensures Valid() && data == old(data)
      ensures disk == if old(dirty) && writable then Decoded(data) else old(disk)
      ensures ok == (!old(dirty) || writable)
      ensures ok ==> !dirty && SameOffsets(data, Durable())
      ensures !ok ==> dirty && disk == old(disk)
    {
      if !dirty {
        return true;
      }
      if !writable {
        return false;
      }
      disk := Decoded(data);
      dirty := false;
      return true;
    }
  }

  /** After a successful Save, loading the file gives back every offset; after a failed one, the offsets of
      the last successful Save. Files the daemon has written never bring in a nil map. */
  method SaveThenLoad(state: State, writable: bool) returns (again: Option<State>)
    requires state.Valid() && state.disk != Unreadable && state.disk != NotAnObject
    modifies state
    ensures again.Some?
    ensures writable || !old(state.dirty) ==> SameOffsets(again.value.data, old(state.data))
    ensures !writable && old(state.dirty) ==> SameOffsets(again.value.data, old(state.Durable()))
    ensures Writable(old(state.data)) && Writable(old(state.Durable())) ==> Writable(again.value.data)
  {
    var ok := state.Save(writable);
    again := LoadState(state.disk);
    assert again.value.data == state.Durable();
    assert forall s, f :: Lookup(again.value.data, s, f) == Lookup(state.Durable(), s, f);
  }
}
