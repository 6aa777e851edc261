/** The A/B slot layout as it runs (`pkg/agent/slots.go`). */
module Slots {
  import opened Hex
  import opened Device

  /** The device's durable state, shared by everything in the agent that writes to it. */
  class Storage {
    var disk: Disk
    const layout: Layout

    constructor (disk: Disk, layout: Layout)
      ensures this.disk == disk && this.layout == layout
    {
      this.disk, this.layout := disk, layout;
    }
  }

  datatype SlotError = NoExpectedHash | UnexpectedContent(actual: string)
  datatype SwapResult = Done | Refused(error: SlotError)

  class SlotManager {
    const storage: Storage
    const sha256: Bytes -> string

    constructor (storage: Storage, sha256: Bytes -> string)
      ensures this.storage == storage && this.sha256 == sha256
    {
      this.storage, this.sha256 := storage, sha256;
    }

    method ActiveSlot() returns (bin: Bytes, hash: string, name: Slot)
      ensures name == storage.disk.link && bin == storage.disk.Active() && hash == sha256(bin)
    {
      name := storage.disk.link;
      bin := storage.disk.files.At(name);
      hash := sha256(bin);
    }

    method InactiveSlot() returns (name: Slot)
      ensures name != storage.disk.link
    {
      name := A;
      if storage.disk.link == A { name := B; }
    }

    /** The active slot and the link are left alone; the other slot holds the whole of `bin`. `synced` is how the
        directory fsync after the write turns out. */
    method WriteToInactive(bin: Bytes, synced: bool)
      modifies storage
      ensures storage.disk.link == old(storage.disk.link) && storage.disk.Active() == old(storage.disk.Active())
      ensures storage.disk.Inactive() == bin
      ensures storage.disk == old(storage.disk).WroteSlots(storage.layout, old(storage.disk.files).Written(storage.disk.link.Other(), bin), synced)
    {
      var name := InactiveSlot();
      storage.disk := storage.disk.WroteSlots(storage.layout, storage.disk.files.Written(name, bin), synced);
    }

    /** A toggle: no slot changes, the other one becomes active. */
    method Swap(synced: bool)
      modifies storage
      ensures storage.disk == old(storage.disk).Linked(old(storage.disk).link.Other(), synced)
      ensures storage.disk.Active() == old(storage.disk).Inactive() && storage.disk.Inactive() == old(storage.disk).Active()
    {
      var name := InactiveSlot();
      storage.disk := storage.disk.Linked(name, synced);
    }

    /** The same toggle. */
    method Rollback(synced: bool)
      modifies storage
      ensures storage.disk == old(storage.disk).Linked(old(storage.disk).link.Other(), synced)
      ensures storage.disk.Active() == old(storage.disk).Inactive() && storage.disk.Inactive() == old(storage.disk).Active()
    {
      var name := InactiveSlot();
      storage.disk := storage.disk.Linked(name, synced);
    }

    /** The checked toggle: it happens exactly when the other slot has the expected digest. */
    method SwapTo(expected: string, synced: bool) returns (r: SwapResult)
      modifies storage
      ensures r.Done? <==> expected != "" && sha256(old(storage.disk).Inactive()) == expected
      ensures r.Done? ==> sha256(storage.disk.Active()) == expected && storage.disk == old(storage.disk).Linked(old(storage.disk).link.Other(), synced)
      ensures r.Refused? ==> storage.disk == old(storage.disk)
    {
      r := AssertInactiveHash(expected);
      if r.Refused? { return; }
      Swap(synced);
    }

    method RollbackTo(expected: string, synced: bool) returns (r: SwapResult)
      modifies storage
      ensures r.Done? <==> expected != "" && sha256(old(storage.disk).Inactive()) == expected
      ensures r.Done? ==> sha256(storage.disk.Active()) == expected && storage.disk == old(storage.disk).Linked(old(storage.disk).link.Other(), synced)
      ensures r.Refused? ==> storage.disk == old(storage.disk)
    {
      r := AssertInactiveHash(expected);
      if r.Refused? { return; }
      Rollback(synced);
    }

    method AssertInactiveHash(expected: string) returns (r: SwapResult)
      ensures r == if expected == "" then Refused(NoExpectedHash)
                   else if sha256(storage.disk.Inactive()) != expected then Refused(UnexpectedContent(sha256(storage.disk.Inactive())))
                   else Done
    {
      if expected == "" { return Refused(NoExpectedHash); }
      var name := InactiveSlot();
      var actual := sha256(storage.disk.files.At(name));
      r := if actual != expected then Refused(UnexpectedContent(actual)) else Done;
    }
  }
}
