/** The page-table cache and pool of drm/nouveau/nvkm/subdev/mmu/base.c as
    the source runs them: an Mmu object whose lists and counters the
    operations update in place. The methods for the gets and puts, and the
    steps CacheGet, TakeSlot and CacheRelease, are proved to leave the object
    in the state the function of the same name in PageTables describes, so
    every property proved there holds of the object. LookupClass, PtcFind and
    ReturnSlot are proved against IndexOfClass, CacheFind and KeepPool, Dump
    against PtcDump, and the remaining helpers state their effect on the
    fields directly. */
module MmuCaches {
  import opened Options
  import opened MemoryObjects
  import opened KernelBits
  import opened PageTables

  /** struct nvkm_mmu, as far as the two caches go. */
  class Mmu {
    /** mmu->ptc.list: the cache classes, most recently created first. */
    var classes: seq<CacheClass>
    /** mmu->ptp.list: ids of the pools with a free slot, head first. */
    var avail: seq<nat>
    /** The live pools, by id. */
    var pools: map<nat, Pool>
    /** The id the next pool gets, and the id the next memory object gets. */
    var nextPool: nat
    var nextMem: nat
    /** The memory objects nvkm_memory_unref() was called on, in order. */
    var released: seq<Memory>
    /** The page tables handed out and not yet put back. */
    ghost var inUse: set<PageTable>

    ghost function State(): MmuState
      reads this
    {
      MmuState(classes, avail, pools, nextPool, nextMem, inUse, released)
    }

    ghost predicate Valid()
      reads this
    {
      Inv(State())
    }

    /** nvkm_mmu_ptc_init: both lists empty. */
    constructor ()
      ensures State() == Empty && Valid()
    {
      classes, avail, pools := [], [], map[];
      nextPool, nextMem := 0, 0;
      released := [];
      inUse := {};
    }

    /** The walk of nvkm_mmu_ptc_find over the class list. */
    method LookupClass(size: nat) returns (i: int)
      ensures i == IndexOfClass(classes, size)
    {
      var k := 0;
      while k < |classes|
        invariant 0 <= k <= |classes|
        invariant forall j | 0 <= j < k :: classes[j].size != size
      {
        if classes[k].size == size {
          FirstClass(classes, size, k);
          return k;
        }
        k := k + 1;
      }
      FirstClass(classes, size, -1);
      return -1;
    }

    /** nvkm_mmu_ptc_find: the index of the class for `size`, creating it at the
        head of the list when there is none; -1 when creating it fails. */
    method PtcFind(size: nat, classRecord: bool) returns (i: int)
      modifies this
      ensures var f := CacheFind(old(classes), size, classRecord);
        && (f.None? ==> i == -1 && classes == old(classes))
        && (f.Some? ==> i == f.value.1 && classes == f.value.0)
      ensures avail == old(avail) && pools == old(pools) && nextPool == old(nextPool)
      ensures nextMem == old(nextMem) && released == old(released) && inUse == old(inUse)
    {
      i := LookupClass(size);
      if i >= 0 {
        return;
      }
      if !classRecord {
        return -1;
      }
      classes := [CacheClass(size, 0, [])] + classes;
      i := 0;
    }

    /** The cache path of nvkm_mmu_ptc_get. */
    method CacheGet(size: nat, a: Allocations) returns (pt: Option<PageTable>)
      requires Valid()
      modifies this
      ensures Got(State(), pt) == PageTables.CacheGet(old(State()), size, a)
    {
      var i := PtcFind(size, a.classRecord);
      if i < 0 {
        return None;
      }
      assert |classes[i].items| <= classes[i].refs by {
        if IndexOfClass(old(classes), size) >= 0 {
          assert ClassOk(classes[i], nextMem);
        }
      }
      var c := classes[i];
      if c.items != [] {
        pt := Some(c.items[0]);
        classes := classes[i := c.(items := c.items[1..], refs := c.refs - 1)];
        return;
      }
      if !a.blockRecord || !a.memory {
        return None;
      }
      var memory := Memory(nextMem, Inst, c.size, a.memoryAddr);
      nextMem := nextMem + 1;
      pt := Some(PageTable(ClassOf(c.size), memory, 0, memory.addr));
    }

    /** The end of nvkm_mmu_ptp_get: __ffs() picks the lowest free slot of pool
        `id`, its bit is cleared, and the pool leaves the availability list once
        it has no free slot left. */
    method TakeSlot(id: nat) returns (pt: Option<PageTable>)
      requires id in pools && pools[id].free != 0 && 8 <= pools[id].shift <= 12
      modifies this
      ensures Got(State(), pt) == PageTables.TakeSlot(old(State()), id)
    {
      var p := pools[id];
      var slot := LowestSetBit(p.free);
      TakenFree(p, slot);
      var free := p.free & !Bit(slot);
      pools := pools[id := p.(free := free)];
      if free == 0 {
        avail := Without(avail, id);
      }
      var base := Shl(slot, p.shift);
      var t := PageTable(PoolOf(id), p.parent.memory, base, p.parent.addr + base as nat);
      inUse := inUse + {t};
      pt := Some(t);
    }

    /** nvkm_mmu_ptp_get: a slot of the pool at the head of the availability
        list, or of a new pool over a block from the cache. */
    method PtpGet(size: nat, a: Allocations) returns (pt: Option<PageTable>)
      requires Valid() && size <= BlockSize && (avail == [] ==> 0x80 < size)
      modifies this
      ensures Got(State(), pt) == PageTables.PtpGet(old(State()), size, a) && Valid()
    {
      ghost var s := State();
      if !a.subRecord {
        pt := None;
      } else if avail != [] {
        pt := TakeSlot(avail[0]);
      } else if !a.poolRecord {
        pt := None;
      } else {
        CacheGetBlock(s, BlockSize, a);
        var parent := CacheGet(BlockSize, a);
        if parent.None? {
          pt := None;
        } else {
          var id := AddPool(parent.value, size);
          pt := TakeSlot(id);
        }
      }
      PtpGetInv(s, size, a);
    }

    /** A new pool over block `parent`, all of its slots free, linked at the
        head of the availability list. */
    method AddPool(parent: PageTable, size: nat) returns (id: nat)
      requires 0x80 < size <= BlockSize
      modifies this
      ensures id == old(nextPool) && nextPool == id + 1
      ensures pools == old(pools)[id := NewPool(parent, size)] && avail == [id] + old(avail)
      ensures classes == old(classes) && nextMem == old(nextMem)
      ensures released == old(released) && inUse == old(inUse)
    {
      id := nextPool;
      var shift := PoolShift(size);
      var mask := PoolMask(shift);
      pools := pools[id := Pool(parent, shift, mask, mask)];
      avail := [id] + avail;
      nextPool := id + 1;
    }

    /** nvkm_mmu_ptc_get. */
    method PtcGet(size: nat, align: nat, a: Allocations) returns (pt: Option<PageTable>)
      requires Valid() && (align < BlockSize && avail == [] ==> 0x80 < align)
      modifies this
      ensures Got(State(), pt) == PageTables.PtcGet(old(State()), size, align, a) && Valid()
    {
      PtcGetInv(State(), size, align, a);
      if align < BlockSize {
        pt := PtpGet(align, a);
        return;
      }
      pt := CacheGet(size, a);
      if pt.Some? {
        inUse := inUse + {pt.value};
      }
    }

    /** The cache path of nvkm_mmu_ptc_put: list_add_tail and refs++ while the
        class counts fewer than MaxIdle and the put is not forced, otherwise
        nvkm_memory_unref(). */
    method CacheRelease(force: bool, pt: PageTable)
      requires pt.owner.ClassOf? && IndexOfClass(classes, pt.owner.size) >= 0
      modifies this
      ensures State() == PageTables.CacheRelease(old(State()), force, pt)
    {
      var i := LookupClass(pt.owner.size);
      var c := classes[i];
      if c.refs < MaxIdle && !force {
        classes := classes[i := c.(items := c.items + [pt], refs := c.refs + 1)];
      } else {
        released := released + [pt.memory];
      }
    }

    /** nvkm_mmu_ptp_put. */
    method PtpPut(force: bool, pt: PageTable)
      requires Valid() && pt in inUse && pt.owner.PoolOf?
      modifies this
      ensures State() == PageTables.PtpPut(old(State()), force, pt) && Valid()
    {
      ghost var s := State();
      assert InUseOk(s, pt);
      var id := pt.owner.id;
      ReturnSlot(pt);
      if pools[id].free == pools[id].mask {
        var parent := pools[id].parent;
        ghost var k := State();
        assert IndexOfClass(classes, BlockSize) >= 0 by {
          assert PoolsOk(s) && s.pools != map[];
        }
        CacheRelease(force, parent);
        UnlinkPool(id);
        DropAfterKeep(s, pt);
        ReleaseBeforeUnlink(k, force, parent, Without(k.avail, id), k.pools - {id});
      }
      PtpPutInv(s, force, pt);
    }

    /** The first half of nvkm_mmu_ptp_put: a pool that had no free slot goes
        back at the head of the availability list, and the slot's bit is set. */
    method ReturnSlot(pt: PageTable)
      requires pt.owner.PoolOf? && pt.owner.id in pools
      requires 8 <= pools[pt.owner.id].shift <= 12 && Shr(pt.base, pools[pt.owner.id].shift) < 16
      modifies this
      ensures State() == KeepPool(old(State()), pt)
    {
      var id := pt.owner.id;
      var p := pools[id];
      var slot := Shr(pt.base, p.shift);
      if p.free == 0 {
        avail := [id] + avail;
      }
      pools := pools[id := p.(free := p.free | Bit(slot))];
      inUse := inUse - {pt};
    }

    /** list_del and kfree of a pool whose slots are all free again. */
    method UnlinkPool(id: nat)
      modifies this
      ensures avail == Without(old(avail), id) && pools == old(pools) - {id}
      ensures classes == old(classes) && nextPool == old(nextPool) && nextMem == old(nextMem)
      ensures released == old(released) && inUse == old(inUse)
    {
      avail := Without(avail, id);
      pools := pools - {id};
    }

    /** nvkm_mmu_ptc_put. */
    method PtcPut(force: bool, pt: Option<PageTable>)
      requires Valid() && (pt.Some? ==> pt.value in inUse)
      modifies this
      ensures State() == PageTables.PtcPut(old(State()), force, pt) && Valid()
    {
      PtcPutInv(State(), force, pt);
      if pt.None? {
        return;
      }
      var t := pt.value;
      if t.owner.PoolOf? {
        PtpPut(force, t);
        return;
      }
      assert InUseOk(State(), t);
      inUse := inUse - {t};
      CacheRelease(force, t);
    }

    /** nvkm_mmu_ptc_dump: every class in turn releases the memory of its idle
        blocks, oldest first, and is left with an empty idle list; its counter
        is not touched. */
    method Dump()
      requires Valid()
      modifies this
      ensures State() == PtcDump(old(State())) && Valid()
    {
      ghost var all := classes;
      var i := 0;
      while i < |classes|
        invariant 0 <= i <= |classes| == |all|
        invariant forall j | 0 <= j < i :: classes[j] == all[j].(items := [])
        invariant forall j | i <= j < |classes| :: classes[j] == all[j]
        invariant old(released) + IdleMemory(all) == released + IdleMemory(all[i..])
        invariant avail == old(avail) && pools == old(pools) && nextPool == old(nextPool)
        invariant nextMem == old(nextMem) && inUse == old(inUse)
      {
        assert IdleMemory(all[i..]) == Memories(all[i].items) + IdleMemory(all[i + 1..]) by {
          assert all[i..][1..] == all[i + 1..];
        }
        DrainClass(i);
        i := i + 1;
      }
      assert classes == Drained(old(classes));
      DumpInv(old(State()));
    }

    /** One class of nvkm_mmu_ptc_dump: its idle blocks released and its idle
        list emptied. */
    method DrainClass(i: nat)
      requires i < |classes|
      modifies this
      ensures classes == old(classes)[i := old(classes)[i].(items := [])]
      ensures released == old(released) + Memories(old(classes)[i].items)
      ensures avail == old(avail) && pools == old(pools)
      ensures nextPool == old(nextPool) && nextMem == old(nextMem) && inUse == old(inUse)
    {
      ReleaseIdle(classes[i].items);
      classes := classes[i := classes[i].(items := [])];
    }

    /** The inner walk of nvkm_mmu_ptc_dump: nvkm_memory_unref() on the memory
        of each idle block of a class, oldest first. */
    method ReleaseIdle(items: seq<PageTable>)
      modifies this
      ensures released == old(released) + Memories(items)
      ensures classes == old(classes) && avail == old(avail) && pools == old(pools)
      ensures nextPool == old(nextPool) && nextMem == old(nextMem) && inUse == old(inUse)
    {
      var rest := items;
      while rest != []
        invariant old(released) + Memories(items) == released + Memories(rest)
        invariant classes == old(classes) && avail == old(avail) && pools == old(pools)
        invariant nextPool == old(nextPool) && nextMem == old(nextMem) && inUse == old(inUse)
      {
        assert Memories(rest) == [rest[0].memory] + Memories(rest[1..]);
        released := released + [rest[0].memory];
        rest := rest[1..];
      }
    }

    /** nvkm_mmu_ptc_fini: every class is taken off the list and freed, with a
        warning for each class that still holds idle blocks. */
    method Fini() returns (warnings: nat)
      modifies this
      ensures warnings == Leaks(old(classes)) && classes == []
      ensures avail == old(avail) && pools == old(pools) && nextPool == old(nextPool)
      ensures nextMem == old(nextMem) && released == old(released) && inUse == old(inUse)
    {
      warnings := 0;
      while classes != []
        invariant warnings + Leaks(classes) == Leaks(old(classes))
        invariant avail == old(avail) && pools == old(pools) && nextPool == old(nextPool)
        invariant nextMem == old(nextMem) && released == old(released) && inUse == old(inUse)
      {
        if classes[0].items != [] {
          warnings := warnings + 1;
        }
        classes := classes[1..];
      }
    }
  }

  /** The index a front-to-back walk stopping at the first class for `size`
      finds is the one IndexOfClass names. */
  lemma {:induction false} FirstClass(classes: seq<CacheClass>, size: nat, k: int)
    requires -1 <= k < |classes|
    requires 0 <= k ==> classes[k].size == size
    requires forall j | 0 <= j < |classes| && (k < 0 || j < k) :: classes[j].size != size
    ensures IndexOfClass(classes, size) == k
  {
    if classes != [] && classes[0].size != size {
      FirstClass(classes[1..], size, if k < 0 then -1 else k - 1);
    }
  }

  /** Handing the parent to the cache before unlinking the pool, as the source
      does, reaches the state PageTables.PtpPut describes, which unlinks first:
      the release reads and writes only the class list and the released
      memory, the unlink only the availability list and the pool map. */
  lemma ReleaseBeforeUnlink(k: MmuState, force: bool, parent: PageTable, avail: seq<nat>, pools: map<nat, Pool>)
    requires parent.owner.ClassOf? && IndexOfClass(k.classes, parent.owner.size) >= 0
    ensures var r := PageTables.CacheRelease(k, force, parent);
      PageTables.CacheRelease(k.(avail := avail, pools := pools), force, parent) == r.(avail := avail, pools := pools)
  {
  }

  /** Discarding a pool is returning its slot and then unlinking it. */
  lemma DropAfterKeep(s: MmuState, pt: PageTable)
    requires pt.owner.PoolOf? && pt.owner.id in s.pools
    requires 8 <= s.pools[pt.owner.id].shift <= 12 && Shr(pt.base, s.pools[pt.owner.id].shift) < 16
    ensures var k := KeepPool(s, pt);
      DropPool(s, pt) == k.(avail := Without(k.avail, pt.owner.id), pools := k.pools - {pt.owner.id})
  {
    var k := KeepPool(s, pt);
    assert k.pools - {pt.owner.id} == s.pools - {pt.owner.id};
  }
}
