# nouveau MMU: page-table cache, page-table pool and legacy VM interface

A Dafny model of the core of `drm/nouveau/nvkm/subdev/mmu/base.c`, with proofs
of what it promises.

The file has three parts, and the model follows them.

- **Page-table cache (PTC).** `nvkm_mmu_ptc_find/get/put/dump/fini/init`.
  - Whole page-table blocks are kept per size in cache classes.
  - A put keeps a block as the newest idle block of its class while the class
    counts fewer than 8 and the put is not forced. Otherwise the block's
    memory is released.
  - A get reuses the oldest idle block, or allocates new `INST` memory.
- **Page-table pool (PTP).** `nvkm_mmu_ptp_get/put`.
  - Page tables smaller than 0x1000 are slots of a 0x1000-byte parent block
    taken from the cache.
  - Slots are 2^shift bytes, with `shift = order_base_2(align)`.
  - A 16-bit `free` mask records the free slots. `__ffs` picks the lowest one.
  - A pool sits on the availability list exactly while it has a free slot.
  - A pool whose last taken slot returns gives its parent back to the cache
    and is destroyed.
- **Legacy VM interface.** `nvkm_vm_get/put/map*/unmap*/ref/new/legacy/del`.
  - It reserves address ranges and their page tables.
  - It maps memory into them, with the per-chipset argument record for the
    VMM's `valid()` hook.
  - It unmaps them, and reference-counts address spaces.

## Files

- `options.dfy`: an `Option` type.
- `memory.dfy` (`MemoryObjects`): the memory objects page tables live in: an
  id, a target (`Inst`, `Vram`, `Host`, `Ncoh`), a size and an address.
- `bits.dfy` (`KernelBits`): the kernel helpers the pool uses, on 16-bit
  masks:
  - `BIT()`;
  - `__ffs()`, as a lowest-set-bit scan;
  - `order_base_2()`;
  - the slot shifts.
- `page_tables.dfy` (`PageTables`): both caches as values.
  - `MmuState` holds:
    - the class list;
    - the availability list;
    - the pools by id;
    - the page tables handed out;
    - the memory objects released.
  - Each operation is a function from one state to the next.
  - The invariant `Inv` says:
    - classes are distinct and well formed;
    - pools are well formed, with distinct parents;
    - the availability list holds exactly the pools with a free slot, each
      once;
    - every live pool has a taken slot;
    - every handed-out page table is a whole block of its class or a taken
      slot of its pool;
    - no block is owned twice.
  - Every get, put and dump is proved to keep `Inv`.
- `mmu_caches.dfy` (`MmuCaches`): the class `Mmu`.
  - Its fields are the lists and counters the source updates in place.
  - The methods for the operations (PtcGet, PtpGet, PtcPut, PtpPut) and the
    steps CacheGet, TakeSlot and CacheRelease are proved to leave the object
    in the state the function of the same name in `PageTables` describes;
    Dump is proved against PtcDump.
  - LookupClass, PtcFind and ReturnSlot are proved against IndexOfClass,
    CacheFind and KeepPool.
  - AddPool, UnlinkPool, DrainClass, ReleaseIdle and Fini state their effect
    on the fields directly.
  - It runs the source's loops: the class lookup, the dump of every class's
    idle list, and the fini walk.
- `legacy_vm.dfy` (`LegacyVm`): the classes `Vm` (an address space) and `Vma`
  (a range of one).
  - The range allocator, the page-table writers, the VMM constructor and its
    hooks, and the memory helpers are not in this file; their results are
    parameters.
  - Every call to them is appended to the address space's `log`, so the
    contracts state which calls are made, with which arguments and in which
    order.

### The 32-bit shifts of get, put and unmap_at

`nvkm_vm_get`, `nvkm_vm_put` and `nvkm_vm_unmap_at` compute a page-table range
as `vma->node->offset << 12` and `vma->node->length << 12`. These shift a u32
in 32 bits. `nvkm_vm_map_` widens to u64 first.

The model computes both as written:

- `Shl12` is the 32-bit shift.
- `MapRange` is the widened range.
- `UnmapRangeTruncated` exhibits a node at 4 GiB that map writes from 4 GiB
  but unmap clears from address 0.
- `UnmapRangeBelow4G` proves the two agree whenever offset and length are
  below 2^20 units.

The width of `struct nvkm_mm_node`'s fields comes from `nvkm/core/mm.h`, which
is not part of this model. They are taken to be u32, as the kernel declares
them.

## Model

| member | source | states |
|---|---|---|
| KernelBits.OrderBase2IsCeilingLog | drm/nouveau/nvkm/subdev/mmu/base.c:88 | order_base_2(n) is the least r with n <= 2^r |
| KernelBits.PoolShiftRange | drm/nouveau/nvkm/subdev/mmu/base.c:88 | an alignment in (0x80, 0x1000] gives a slot shift from 8 to 12 |
| KernelBits.LowestSetBit | drm/nouveau/nvkm/subdev/mmu/base.c:100 | __ffs of a non-zero 16-bit mask is a set bit with no set bit below it |
| KernelBits.BelowLowest | drm/nouveau/nvkm/subdev/mmu/base.c:100 | every bit below the one __ffs returns is clear |
| KernelBits.ShlShr | drm/nouveau/nvkm/subdev/mmu/base.c:106 | a slot index shifted to its offset shifts back to itself, which is what ptp_put relies on at line 43 |
| KernelBits.ClearedBitRestored | drm/nouveau/nvkm/subdev/mmu/base.c:101 | clearing a set bit and setting it again gives back the mask; the cleared bit is clear |
| PageTables.Without | drm/nouveau/nvkm/subdev/mmu/base.c:103 | list_del leaves exactly the other entries, and a list without duplicates stays so |
| PageTables.IndexOfClass | drm/nouveau/nvkm/subdev/mmu/base.c:123-126 | the index found is that of the first class of that size; -1 exactly when no class has it |
| PageTables.PoolShiftIsOrder | drm/nouveau/nvkm/subdev/mmu/base.c:88 | the pool's u8 shift is order_base_2(size) |
| PageTables.PoolMaskSlots | drm/nouveau/nvkm/subdev/mmu/base.c:89-90 | the mask has a bit for slot k if and only if k < 0x1000 >> shift |
| PageTables.FullMaskLowest | drm/nouveau/nvkm/subdev/mmu/base.c:91-100 | a pool with every slot free hands out slot 0 first |
| PageTables.FreeSlotLowest | drm/nouveau/nvkm/subdev/mmu/base.c:100 | the slot taken is free and every lower slot is taken |
| PageTables.TakenClearsSlot | drm/nouveau/nvkm/subdev/mmu/base.c:100-101 | taking a slot clears its bit and no other: setting it again restores free |
| PageTables.SlotTableOffset | drm/nouveau/nvkm/subdev/mmu/base.c:105-107 | the page table handed out shares the parent's memory at base slot << shift and address parent.addr + base |
| PageTables.SlotTableBits | drm/nouveau/nvkm/subdev/mmu/base.c:100-107 | the page table handed out is a taken slot of the pool that remains |
| PageTables.SlotTableIsNew | drm/nouveau/nvkm/subdev/mmu/base.c:100-107 | no slot already taken is handed out again |
| PageTables.TakeSlotFresh | drm/nouveau/nvkm/subdev/mmu/base.c:100-107 | the page table handed out is not one already handed out |
| PageTables.TakeSlotLowest | drm/nouveau/nvkm/subdev/mmu/base.c:100-103 | a get from a pool on the list hands out its lowest free slot, and the pool leaves the list if and only if no free slot remains |
| PageTables.TakeSlotInv | drm/nouveau/nvkm/subdev/mmu/base.c:94-108 | taking a slot restores the invariant and adds exactly the new page table to those handed out |
| PageTables.NewPoolReady | drm/nouveau/nvkm/subdev/mmu/base.c:74-93 | a new pool over an unowned block, linked at the head of the empty list, is ready for its first slot to be taken |
| PageTables.FreshPoolShape | drm/nouveau/nvkm/subdev/mmu/base.c:74-107 | with no pool on the list a get creates one whose shift is order_base_2(size), whose mask covers its slots, and which hands out slot 0 at the parent's own address |
| PageTables.PtpGetInv | drm/nouveau/nvkm/subdev/mmu/base.c:63-109 | ptp_get keeps the invariant; on success the page table is a new slot; on failure no pool is registered and nothing handed out changes |
| PageTables.PtpGetHeadInv | drm/nouveau/nvkm/subdev/mmu/base.c:73-108 | the same, for a get from the pool at the head of the list |
| PageTables.PtpGetNewPoolInv | drm/nouveau/nvkm/subdev/mmu/base.c:74-108 | the same, for a get that creates a pool over a block from the cache |
| PageTables.AddClassInv | drm/nouveau/nvkm/subdev/mmu/base.c:128-134 | a new empty class at the head of the list keeps the invariant and is the one found for its size |
| PageTables.TakeIdleInv | drm/nouveau/nvkm/subdev/mmu/base.c:189-194 | taking the oldest idle block keeps the invariant and leaves that block owned by nobody |
| PageTables.CacheTakeBlock | drm/nouveau/nvkm/subdev/mmu/base.c:188-215 | reuse or allocation from a class keeps the invariant and hands out a whole block of the class's size owned by nobody |
| PageTables.CacheGetBlock | drm/nouveau/nvkm/subdev/mmu/base.c:180-215 | the cache path keeps the invariant, keeps every class, and hands out an unowned whole block of the class for size |
| PageTables.CacheGetKeepsMemory | drm/nouveau/nvkm/subdev/mmu/base.c:180-215 | the cache path of ptc_get releases nothing; a block over existing memory was idle and exactly its memory leaves the idle lists; any other block is over new memory with the next unused id, and the idle memory is unchanged |
| PageTables.TakenBlockMemory | drm/nouveau/nvkm/subdev/mmu/base.c:189-195 | taking the oldest idle block of a class removes exactly its memory from the idle memory |
| PageTables.HandOutBlockInv | drm/nouveau/nvkm/subdev/mmu/base.c:213-215 | handing out an unowned block keeps the invariant |
| PageTables.PtcGetInv | drm/nouveau/nvkm/subdev/mmu/base.c:165-216 | ptc_get keeps the invariant; a page table it returns was not handed out before |
| PageTables.PtcPutGetRoundTrip | drm/nouveau/nvkm/subdev/mmu/base.c:139-197 | an unforced ptc_put of a block into an empty class under the bound, then a ptc_get of that size, hands the same block back and gives back the state before the put |
| PageTables.PtcGetRoute | drm/nouveau/nvkm/subdev/mmu/base.c:172-216 | alignments below 0x1000 get a pool slot; others get a whole block of the class for size, at offset 0 of memory of that size |
| PageTables.PutSlotTaken | drm/nouveau/nvkm/subdev/mmu/base.c:43 | the page table ptp_put is given is a taken slot of its pool |
| PageTables.ReturnedKeepsSlot | drm/nouveau/nvkm/subdev/mmu/base.c:51 | returning one slot leaves every other taken slot taken |
| PageTables.ReturnedPoolOk | drm/nouveau/nvkm/subdev/mmu/base.c:49-51 | a pool with a slot returned stays within its mask and has a free slot |
| PageTables.OtherSlotKeepsPool | drm/nouveau/nvkm/subdev/mmu/base.c:54 | while another slot is taken, a put does not make the pool entirely free |
| PageTables.SlotsDistinct | drm/nouveau/nvkm/subdev/mmu/base.c:106 | two different page tables of one pool start at different offsets |
| PageTables.PtpPutKeepsPool | drm/nouveau/nvkm/subdev/mmu/base.c:49-54 | while another page table of the same pool is still handed out, a put keeps the pool (its slot bits are never all free afterwards) |
| PageTables.TakeReturnPool | drm/nouveau/nvkm/subdev/mmu/base.c:43-51 | the slot a take hands out shifts back to the slot taken, and returning it gives back the pool as it was |
| PageTables.WithoutHead | drm/nouveau/nvkm/subdev/mmu/base.c:49-50 | list_del of the head of the availability list followed by list_add gives back the list |
| PageTables.KeepAfterTake | drm/nouveau/nvkm/subdev/mmu/base.c:40-51 | keeping the pool after a take from the head of the list gives back the state before the take |
| PageTables.PtpGetPutRoundTrip | drm/nouveau/nvkm/subdev/mmu/base.c:40-109 | a ptp_get served by the head pool followed by ptp_put of its page table gives back the state before the get |
| PageTables.PtpPutDropsPool | drm/nouveau/nvkm/subdev/mmu/base.c:54-58 | a put that frees the last slot removes the pool and hands its parent to the class for 0x1000, which keeps it unless it holds 8 or the put is forced, when the memory is released |
| PageTables.PutKeepPoolInv | drm/nouveau/nvkm/subdev/mmu/base.c:40-61 | a put that keeps the pool keeps the invariant |
| PageTables.DropPoolInv | drm/nouveau/nvkm/subdev/mmu/base.c:54-58 | destroying a pool keeps the invariant and leaves its parent an unowned block of the class for 0x1000 |
| PageTables.PtpPutInv | drm/nouveau/nvkm/subdev/mmu/base.c:40-61 | ptp_put keeps the invariant and the page table is no longer handed out |
| PageTables.CacheReleaseInv | drm/nouveau/nvkm/subdev/mmu/base.c:152-161 | keeping or releasing a block keeps the invariant |
| PageTables.PtcPutInv | drm/nouveau/nvkm/subdev/mmu/base.c:139-163 | ptc_put keeps the invariant and removes exactly the page table put from those handed out |
| PageTables.PtcPutKeepsMemory | drm/nouveau/nvkm/subdev/mmu/base.c:139-163 | ptc_put loses and makes no memory: a whole block's memory joins the idle blocks or the released memory; a slot adds nothing unless its pool is discarded (lines 54-58), whose parent's memory then does |
| PageTables.CacheReleaseKeepsMemory | drm/nouveau/nvkm/subdev/mmu/base.c:152-161 | caching or freeing a whole block moves exactly its memory into the idle blocks or the released memory |
| PageTables.KeptBlockMemory | drm/nouveau/nvkm/subdev/mmu/base.c:153-155 | a block added to the tail of its class's idle list adds its memory, and nothing else, to the idle memory |
| PageTables.CacheGetCountsIdle | drm/nouveau/nvkm/subdev/mmu/base.c:188-197 | the cache path keeps every class counting exactly its idle blocks |
| PageTables.PtcGetCountsIdle | drm/nouveau/nvkm/subdev/mmu/base.c:165-216 | ptc_get keeps every class counting exactly its idle blocks |
| PageTables.CacheReleaseCountsIdle | drm/nouveau/nvkm/subdev/mmu/base.c:154-156 | keeping a block increments the count together with the list |
| PageTables.PtcPutCountsIdle | drm/nouveau/nvkm/subdev/mmu/base.c:139-163 | ptc_put keeps every class counting exactly its idle blocks |
| PageTables.NoLeaks | drm/nouveau/nvkm/subdev/mmu/base.c:298-299 | fini warns about no class if and only if every idle list is empty |
| PageTables.IdleMemoryOfEveryBlock | drm/nouveau/nvkm/subdev/mmu/base.c:283-289 | the dump releases the memory of every idle block, one release per block |
| PageTables.DumpKeepsCounts | drm/nouveau/nvkm/subdev/mmu/base.c:279-291 | dump empties every idle list, releases one memory object per idle block, leaves the counters, so classes count their idle blocks after it only if none held any; fini then warns about none |
| PageTables.DumpInv | drm/nouveau/nvkm/subdev/mmu/base.c:279-291 | dump keeps the invariant |
| MmuCaches.Mmu.constructor | drm/nouveau/nvkm/subdev/mmu/base.c:305-312 | init leaves both lists empty, and the invariant holds |
| MmuCaches.Mmu.LookupClass | drm/nouveau/nvkm/subdev/mmu/base.c:123-126 | the list walk finds the index IndexOfClass names |
| MmuCaches.FirstClass | drm/nouveau/nvkm/subdev/mmu/base.c:123-126 | a walk stopping at the first class of the size finds IndexOfClass |
| MmuCaches.Mmu.PtcFind | drm/nouveau/nvkm/subdev/mmu/base.c:118-137 | the class list and index become those CacheFind gives, -1 on allocation failure, nothing else changes |
| MmuCaches.Mmu.CacheGet | drm/nouveau/nvkm/subdev/mmu/base.c:180-215 | the object and result are those of PageTables.CacheGet |
| MmuCaches.Mmu.TakeSlot | drm/nouveau/nvkm/subdev/mmu/base.c:94-108 | the object and result are those of PageTables.TakeSlot |
| MmuCaches.Mmu.AddPool | drm/nouveau/nvkm/subdev/mmu/base.c:88-92 | a new all-free pool under the next id, linked at the head of the list |
| MmuCaches.Mmu.PtpGet | drm/nouveau/nvkm/subdev/mmu/base.c:63-109 | the object and result are those of PageTables.PtpGet, and the invariant is kept |
| MmuCaches.Mmu.PtcGet | drm/nouveau/nvkm/subdev/mmu/base.c:165-216 | the object and result are those of PageTables.PtcGet, and the invariant is kept |
| MmuCaches.Mmu.CacheRelease | drm/nouveau/nvkm/subdev/mmu/base.c:152-161 | the object becomes PageTables.CacheRelease of its state |
| MmuCaches.Mmu.ReturnSlot | drm/nouveau/nvkm/subdev/mmu/base.c:43-51 | the object becomes KeepPool of its state |
| MmuCaches.Mmu.UnlinkPool | drm/nouveau/nvkm/subdev/mmu/base.c:56-57 | the pool leaves the list and the pool map, nothing else changes |
| MmuCaches.ReleaseBeforeUnlink | drm/nouveau/nvkm/subdev/mmu/base.c:54-57 | handing the parent to the cache before unlinking the pool, as the source does, reaches the state of unlinking first |
| MmuCaches.DropAfterKeep | drm/nouveau/nvkm/subdev/mmu/base.c:49-57 | destroying a pool is returning its slot and then unlinking it |
| MmuCaches.Mmu.PtpPut | drm/nouveau/nvkm/subdev/mmu/base.c:40-61 | the object becomes PageTables.PtpPut of its state, and the invariant is kept |
| MmuCaches.Mmu.PtcPut | drm/nouveau/nvkm/subdev/mmu/base.c:139-163 | the object becomes PageTables.PtcPut of its state, and the invariant is kept |
| MmuCaches.Mmu.ReleaseIdle | drm/nouveau/nvkm/subdev/mmu/base.c:285-289 | the memory of each block is released in list order, nothing else changes |
| MmuCaches.Mmu.DrainClass | drm/nouveau/nvkm/subdev/mmu/base.c:283-289 | one class's idle list is emptied and its memory released |
| MmuCaches.Mmu.Dump | drm/nouveau/nvkm/subdev/mmu/base.c:279-291 | the object becomes PtcDump of its state, and the invariant is kept |
| MmuCaches.Mmu.Fini | drm/nouveau/nvkm/subdev/mmu/base.c:293-303 | the class list is emptied with one warning per class still holding idle blocks |
| LegacyVm.MapArgsFor | drm/nouveau/nvkm/subdev/mmu/base.c:235-261 | an NV50 record exactly for NV50, a GF100 record exactly for Fermi to Pascal, none otherwise |
| LegacyVm.MapArgsKeepAccess | drm/nouveau/nvkm/subdev/mmu/base.c:239-253 | ro and priv carry exactly the WO and SYS bits of the access mask |
| LegacyVm.Nv50ArgsKeepMemtype | drm/nouveau/nvkm/subdev/mmu/base.c:241-242 | on NV50 kind and comp fit 7 and 2 bits and together are the low 9 bits of the memory type |
| LegacyVm.Gf100AgreesWithNv50 | drm/nouveau/nvkm/subdev/mmu/base.c:238-254 | the Fermi-to-Pascal record has NV50's ro and priv, and its kind is NV50's kind with the low bit of comp on top |
| LegacyVm.Gf100VolOfTarget | drm/nouveau/nvkm/subdev/mmu/base.c:251 | vol depends on the target alone, not on the access bits or the memory type |
| LegacyVm.UnitsExact | drm/nouveau/nvkm/subdev/mmu/base.c:397 | a page-aligned size below 2^44 is exactly msize units |
| LegacyVm.PageUnitsPower | drm/nouveau/nvkm/subdev/mmu/base.c:396 | for pages of 4 KiB or more the alignment is 2^(shift - 12) units, one page |
| LegacyVm.RangeAddr | drm/nouveau/nvkm/subdev/mmu/base.c:269 | without overflow the address is offset * 4096 + delta |
| LegacyVm.Shl12 | drm/nouveau/nvkm/subdev/mmu/base.c:413-414 | the 32-bit shift is exact below 2^20 units and page aligned always |
| LegacyVm.UnmapRangeTruncated | drm/nouveau/nvkm/subdev/mmu/base.c:376-377 | a node at 4 GiB is mapped from 4 GiB but unmapped from address 0 |
| LegacyVm.WideUnmapRange | drm/nouveau/nvkm/subdev/mmu/base.c:269-270 | the range with the shifts widened first is the range map writes |
| LegacyVm.UnmapRangeBelow4G | drm/nouveau/nvkm/subdev/mmu/base.c:376-377 | below 2^20 units the range unmap_at clears is the range map writes |
| LegacyVm.AllocatorLength | drm/nouveau/nvkm/subdev/mmu/base.c:472 | without overflow the allocator covers offset + length - mm_offset |
| LegacyVm.WriterFor | drm/nouveau/nvkm/subdev/mmu/base.c:358-364 | the sg writer exactly when there is a table, the dma writer exactly for a page list without one, the mem writer otherwise |
| LegacyVm.FindPage | drm/nouveau/nvkm/subdev/mmu/base.c:320-321 | the walk stops at the first page entry of the shift |
| LegacyVm.Vm.constructor | drm/nouveau/nvkm/subdev/mmu/base.c:496-498 | a constructed VMM holds one reference, no ranges and no calls |
| LegacyVm.Del | drm/nouveau/nvkm/subdev/mmu/base.c:516-525 | the allocator is torn down, then the VMM, and the space is marked deleted |
| LegacyVm.Ref | drm/nouveau/nvkm/subdev/mmu/base.c:527-548 | a failing join changes nothing and returns its error; otherwise ref gains one reference, ptr loses one (part first, with an instance), ptr is deleted exactly at zero, and the slot holds ref |
| LegacyVm.Get | drm/nouveau/nvkm/subdev/mmu/base.c:392-430 | a head failure returns its error; a page-table failure frees the range and returns its error; both leave the range's vm, memory, tags, offset and access as they were; success records the range with no memory, one more reference, the byte offset and the access |
| LegacyVm.Put | drm/nouveau/nvkm/subdev/mmu/base.c:432-460 | nothing without a range; else tags and memory go, then page tables, then the range, then the reference, deleting at zero; offset and access stay as they were |
| LegacyVm.FreeRange | drm/nouveau/nvkm/subdev/mmu/base.c:443-457 | tags and memory are released, then the page tables and the range, and the reference count, offset and access stay as they were |
| LegacyVm.MapEffectOutcome | drm/nouveau/nvkm/subdev/mmu/base.c:263-276 | a refused record leaves memory and tags and writes no page table; otherwise the range is written and ends holding the new memory |
| LegacyVm.MapInternal | drm/nouveau/nvkm/subdev/mmu/base.c:218-277 | the log, memory and tags become MapEffect of the old ones, nothing else changes |
| LegacyVm.MapAt | drm/nouveau/nvkm/subdev/mmu/base.c:314-325 | without an unmap function nothing happens; else map_ with the mem writer at the node's page size |
| LegacyVm.MapSgTable | drm/nouveau/nvkm/subdev/mmu/base.c:327-339 | the same with the sg writer |
| LegacyVm.MapSg | drm/nouveau/nvkm/subdev/mmu/base.c:341-353 | the same with the dma writer |
| LegacyVm.Map | drm/nouveau/nvkm/subdev/mmu/base.c:355-365 | map_ from offset 0 with the writer WriterFor picks |
| LegacyVm.UnmapAt | drm/nouveau/nvkm/subdev/mmu/base.c:367-381 | with an unmap function the node's range, shifted as written, is unmapped; nothing else changes |
| LegacyVm.Unmap | drm/nouveau/nvkm/subdev/mmu/base.c:383-390 | the range is unmapped, then the tags and memory released, and no memory is held |
| LegacyVm.Legacy | drm/nouveau/nvkm/subdev/mmu/base.c:468-486 | one reference, and the allocator is initialised over [mm_offset, offset + length) in 4 KiB units with the block cut to length |
| LegacyVm.New | drm/nouveau/nvkm/subdev/mmu/base.c:488-514 | -EINVAL without a constructor; otherwise the constructor's or the allocator's error with NULL and the made VMM torn down, or 0 with a one-reference VMM set up over the requested range |

## Left out

- Locking: the ptc and ptp mutexes and the VMM mutex are not modelled, nor is
  the atomicity of kref. Every operation runs alone.
- kmalloc/kzalloc and nvkm_memory_new failures are booleans in `Allocations`.
  The memory nvkm_memory_new returns is a fresh id with a given address.
- The `zero` argument and the `nvkm_fo64` clear of a reused block are not
  modelled. They change memory contents, which the model does not hold.
- The parent memory's size at line 89 is taken to be 0x1000, the size
  ptc_get was asked for.
- PageTables.PtcGet, MmuCaches.Mmu.PtcGet, PageTables.PtpGet and
  MmuCaches.Mmu.PtpGet require an alignment above 0x80 when the pool path
  finds the availability list empty. That is the case in which ptp_get may
  build a new pool and compute its shift (lines 88-90). A get served by the
  head pool computes no shift, so any alignment is admitted there. For a
  new pool with an alignment of 0x80 or less, order_base_2 gives a shift
  under 8 and `1 << slot` shifts a 32-bit int by 32 or more, which C leaves
  undefined. The requirement does not look at the allocation outcomes, so
  it also covers a get with an empty list whose allocations fail before the
  shift is computed.
- PageTables.PtpPut and PageTables.DropPool unlink the emptied pool before its
  parent goes back to the cache; the source does it the other way round.
  MmuCaches.Mmu.PtpPut runs the source's order, and MmuCaches.ReleaseBeforeUnlink
  proves that both orders reach the same state.
- __ffs is modelled by its meaning, the index of the lowest set bit.
- The range allocator (nvkm_mm_head, nvkm_mm_free, nvkm_mm_init,
  nvkm_mm_fini) is not modelled. Its results are parameters, and its calls go
  into the log.
- The page-table writers (nvkm_vmm_ptes_get, put, map, unmap) are not
  modelled. Their results are parameters, and their calls go into the log.
- The VMM constructor, dtor and the valid, join and part hooks are not
  modelled. Their results are parameters, and their calls go into the log.
- The memory tag and reference helpers are not modelled. Their calls go into
  the log, so the model states which calls are made and in what order, not
  what they do.
- The sparse `false` argument of nvkm_vmm_ptes_unmap is not recorded.
- Of `struct nvkm_vmm_map`, only the writer kind and the memory are kept;
  the mem, sgl and dma fields are not.
- The version fields of the argument records are not modelled. They are
  always 0.
- The values of NV_MEM_ACCESS_WO (2) and NV_MEM_ACCESS_SYS (4) come from a
  header that is not part of this model.
- The field widths of `struct nvkm_mm_node` (nvkm/core/mm.h) are taken to be
  u32; that header is not part of this model.
- LegacyVm.Get requires page_shift < 31, because `1 << page_shift` on an int
  is undefined from 31 on.
- LegacyVm.Get, LegacyVm.Put, LegacyVm.MapAt, LegacyVm.MapSgTable,
  LegacyVm.MapSg, LegacyVm.Map, LegacyVm.UnmapAt and LegacyVm.Unmap require
  the node's page shift to be among the VMM's page sizes when the VMM has an
  unmap function. The source's walk `while (page->shift != shift) page++`
  assumes it and would run off the table otherwise.
- LegacyVm.New: the VMM a constructor builds is taken to hold one reference,
  as kref_init leaves it. The constructor is not part of this model.
- `vm->func` is always set, so nvkm_vm_del always calls the VMM destructor.
- nvkm_vm_boot, and the subdev hooks (oneinit, init, dtor, ctor, new_), are
  outside the modelled core.
- The `length` arguments of map_sg_table, map_sg and unmap_at are unused by
  the source, and the model ignores them too.
