/** One lease and its byte block, written in place. */
module LeaseCode {
  import opened Bytes
  import Crc
  import opened PoolMachine

  datatype LeaseError = Fine | InvalidState | OverCapacity | PayloadModified | DoubleReturn

  /** The pool's counters a lease reports to, and the audit registry's mark. */
  class Owner {
    var stateErrors: nat
    var useAfterPublish: nat
    ghost var marked: seq<nat>

    constructor ()
      ensures stateErrors == 0 && useAfterPublish == 0 && marked == []
    {
      stateErrors, useAfterPublish, marked := 0, 0, [];
    }

    method MarkMutated(id: nat)
      modifies this`useAfterPublish, this`marked
      ensures useAfterPublish == old(useAfterPublish) + 1 && marked == old(marked) + [id]
    {
      useAfterPublish := useAfterPublish + 1;
      marked := marked + [id];
    }
  }

  class Lease {
    const id: nat
    const owner: Owner
    const data: array<Byte>
    const tracked: bool
    var length: nat
    var state: State
    var checksum: nat
    var mutated: bool

    ghost predicate Valid()
      reads this, data
    {
      length <= data.Length
    }

    /** The committed bytes. */
    ghost function Bytes(): Record
      requires Valid()
      reads this, data
    {
      data[..length]
    }

    constructor (id: nat, owner: Owner, data: array<Byte>, tracked: bool)
      ensures Valid() && Bytes() == [] && state == Borrowed && !mutated
      ensures this.id == id && this.owner == owner && this.data == data && this.tracked == tracked
    {
      this.id, this.owner, this.data, this.tracked := id, owner, data, tracked;
      length, state, checksum, mutated := 0, Borrowed, 0, false;
    }

    /** Payload: the committed view, or nothing once returned. */
    method Payload() returns (view: Record)
      requires Valid()
      ensures view == if state.Returned? then [] else Bytes()
    {
      view := if state.Returned? then [] else data[..length];
    }

    method Resize(size: int) returns (err: LeaseError)
      requires Valid()
      modifies this`length
      ensures Valid()
      ensures err == if !state.Borrowed? then InvalidState else if size < 0 || size > data.Length then OverCapacity else Fine
      ensures err.Fine? ==> Bytes() == data[..size]
      ensures !err.Fine? ==> Bytes() == old(Bytes())
    {
      if !state.Borrowed? {
        return InvalidState;
      }
      if size < 0 || size > data.Length {
        return OverCapacity;
      }
      length := size;
      err := Fine;
    }

    method Append(more: Record) returns (err: LeaseError)
      requires Valid()
      modifies this`length, data
      ensures Valid()
      ensures err == if !state.Borrowed? then InvalidState else if |more| > data.Length - old(length) then OverCapacity else Fine
      ensures Bytes() == if err.Fine? then old(Bytes()) + more else old(Bytes())
      ensures !err.Fine? ==> data[..] == old(data[..])
    {
      if !state.Borrowed? {
        return InvalidState;
      }
      if |more| > data.Length - length {
        return OverCapacity;
      }
      CopyAt(length, more);
      length := length + |more|;
      err := Fine;
    }

    method SetBytes(all: Record) returns (err: LeaseError)
      requires Valid()
      modifies this`length, data
      ensures Valid()
      ensures err == if !state.Borrowed? then InvalidState else if |all| > data.Length then OverCapacity else Fine
      ensures Bytes() == if err.Fine? then all else old(Bytes())
      ensures !err.Fine? ==> data[..] == old(data[..])
    {
      if !state.Borrowed? {
        return InvalidState;
      }
      if |all| > data.Length {
        return OverCapacity;
      }
      CopyAt(0, all);
      length := |all|;
      err := Fine;
    }

    /** copy(block[at:], more). */
    method CopyAt(at: nat, more: Record)
      requires at + |more| <= data.Length
      modifies data
      ensures data[..at] == old(data[..at]) && data[at..at + |more|] == more && data[at + |more|..] == old(data[at + |more|..])
      ensures data[..at + |more|] == old(data[..at]) + more
    {
      var i := 0;
      while i < |more|
        invariant i <= |more|
        invariant forall k :: 0 <= k < i ==> data[at + k] == more[k]
        invariant forall k :: 0 <= k < data.Length && !(at <= k < at + i) ==> data[k] == old(data[k])
      {
        data[at + i] := more[i];
        i := i + 1;
      }
    }

    /** MarkQueued: the payload's checksum is taken at the hand-over. */
    method MarkQueued() returns (err: LeaseError)
      requires Valid()
      modifies this`state, this`checksum, owner`stateErrors
      ensures Valid() && Bytes() == old(Bytes()) && err == (if old(state).Borrowed? then Fine else InvalidState)
      ensures err.Fine? ==> state == Queued && owner.stateErrors == old(owner.stateErrors)
                            && (tracked ==> checksum == Crc.Checksum(Bytes()))
      ensures !err.Fine? ==> state == old(state) && checksum == old(checksum) && owner.stateErrors == old(owner.stateErrors) + 1
    {
      if !state.Borrowed? {
        owner.stateErrors := owner.stateErrors + 1;
        return InvalidState;
      }
      state := Queued;
      if tracked {
        checksum := Crc.Checksum(data[..length]);
      }
      err := Fine;
    }

    method RollbackQueued() returns (err: LeaseError)
      requires Valid()
      modifies this`state, owner`stateErrors
      ensures Valid() && Bytes() == old(Bytes()) && err == (if old(state).Queued? then Fine else InvalidState)
      ensures state == if err.Fine? then Borrowed else old(state)
      ensures owner.stateErrors == old(owner.stateErrors) + if err.Fine? then 0 else 1
    {
      if !state.Queued? {
        owner.stateErrors := owner.stateErrors + 1;
        return InvalidState;
      }
      state := Borrowed;
      err := Fine;
    }

    /** MarkInFlight: the transfer is refused only in the wrong state; a changed payload is reported,
        but the lease is in flight all the same. */
    method MarkInFlight() returns (err: LeaseError)
      requires Valid()
      modifies this`state, this`mutated, owner
      ensures Valid() && Bytes() == old(Bytes())
      ensures err.InvalidState? <==> !old(state).Queued?
      ensures err.PayloadModified? <==> old(state).Queued? && tracked && Crc.Checksum(Bytes()) != checksum
      ensures state == if old(state).Queued? then InFlight else old(state)
      ensures owner.stateErrors == old(owner.stateErrors) + if err.InvalidState? then 1 else 0
      ensures Latched(old(mutated), old(owner.useAfterPublish), old(owner.marked), err.PayloadModified?)
    {
      if !state.Queued? {
        owner.stateErrors := owner.stateErrors + 1;
        return InvalidState;
      }
      state := InFlight;
      var changed := DetectMutation();
      err := if changed then PayloadModified else Fine;
    }

    /** The latch: a lease is counted and marked at most once, however often it is found changed. */
    ghost predicate Latched(was: bool, count: nat, marks: seq<nat>, found: bool)
      reads this, owner
    {
      && mutated == (was || found)
      && owner.useAfterPublish == count + (if found && !was then 1 else 0)
      && owner.marked == if found && !was then marks + [id] else marks
    }

    /** detectMutation: true exactly if the bytes no longer have the checksum of the hand-over. */
    method DetectMutation() returns (changed: bool)
      requires Valid() && !state.Returned?
      modifies this`mutated, owner`useAfterPublish, owner`marked
      ensures Valid() && Bytes() == old(Bytes())
      ensures changed <==> tracked && Crc.Checksum(Bytes()) != checksum
      ensures Latched(old(mutated), old(owner.useAfterPublish), old(owner.marked), changed)
    {
      if !tracked || Crc.Checksum(data[..length]) == checksum {
        return false;
      }
      if !mutated {
        mutated := true;
        owner.MarkMutated(id);
      }
      changed := true;
    }

    /** pool.Release as its lease sees it, when nobody else holds the lease: a payload that changed in
        flight is noticed even now. */
    method Release() returns (err: LeaseError)
      requires Valid()
      modifies this`state, this`mutated, this`length, owner
      ensures Valid()
      ensures err == if old(state).Returned? then DoubleReturn else if old(state).Queued? then InvalidState else Fine
      ensures state == if err.Fine? then Returned else old(state)
      ensures length == if err.Fine? then 0 else old(length)
      ensures owner.stateErrors == old(owner.stateErrors) + if err.InvalidState? then 1 else 0
      ensures Latched(old(mutated), old(owner.useAfterPublish), old(owner.marked),
                      old(state).InFlight? && tracked && Crc.Checksum(old(Bytes())) != checksum)
    {
      if state.InFlight? {
        var changed := DetectMutation();
      }
      if state.Returned? {
        return DoubleReturn;
      }
      if state.Queued? {
        owner.stateErrors := owner.stateErrors + 1;
        return InvalidState;
      }
      state, length := Returned, 0;
      err := Fine;
    }

    /** The hand-over to the flusher of a payload nobody touched is never reported, and the flusher
        sees exactly the bytes the caller committed. */
    method HandOver() returns (view: Record)
      requires Valid() && state.Borrowed?
      modifies this`state, this`checksum, this`mutated, owner
      ensures Valid() && state.InFlight? && view == old(Bytes()) && mutated == old(mutated)
      ensures owner.useAfterPublish == old(owner.useAfterPublish) && owner.stateErrors == old(owner.stateErrors)
    {
      var queued := MarkQueued();
      var taken := MarkInFlight();
      view := Payload();
    }
  }
}
