/** The page-table cache (PTC) and page-table pool (PTP) of
    drm/nouveau/nvkm/subdev/mmu/base.c, described on values. The state both
    caches share is an MmuState; each operation of the source is a function from
    the state before to the state after, and the lemmas below state what the
    operations promise. The class Mmu (module MmuCaches) performs the same steps
    in place and is proved against these functions. */
module PageTables {
  import opened Options
  import opened MemoryObjects
  import opened KernelBits

  /** Size and alignment of the block a pool divides into slots. */
  const BlockSize: nat := 0x1000
  /** The heuristic bound on the idle blocks a cache class keeps. */
  const MaxIdle: nat := 8

  /** Where a page table came from: a whole block of the cache class for `size`
      (pt->ptc, pt->sub false), or a slot of the pool `id` (pt->ptp, pt->sub true). */
  datatype Owner = ClassOf(size: nat) | PoolOf(id: nat)

  /** struct nvkm_mmu_pt: `base` is the offset inside the backing memory, `addr`
      the address of the page table. */
  datatype PageTable = PageTable(owner: Owner, memory: Memory, base: bv16, addr: nat)

  /** struct nvkm_mmu_ptc: the idle blocks of one size, oldest first, and the
      counter the cache bound is checked against. */
  datatype CacheClass = CacheClass(size: nat, refs: nat, items: seq<PageTable>)

  /** struct nvkm_mmu_ptp: a parent block cut into 2^shift-byte slots; a set bit
      of `free` is a free slot and `mask` has a bit for every slot. */
  datatype Pool = Pool(parent: PageTable, shift: bv8, mask: bv16, free: bv16)

  /** The state of both caches: the class list and the pool availability list
      (head first), the live pools by id, the next fresh pool and memory ids, and
      two records the source keeps only implicitly: the page tables handed out
      and not yet put back, and the memory objects released so far. */
  datatype MmuState = MmuState(
    classes: seq<CacheClass>,
    avail: seq<nat>,
    pools: map<nat, Pool>,
    nextPool: nat,
    nextMem: nat,
    inUse: set<PageTable>,
    released: seq<Memory>)

  /** Outcomes of the allocations a get may make, which the caches do not decide:
      the pool path's page-table record, a pool record, a new cache class, the
      cache path's page-table record, and nvkm_memory_new() with the address of
      the memory it returns. */
  datatype Allocations = Allocations(
    subRecord: bool,
    poolRecord: bool,
    classRecord: bool,
    blockRecord: bool,
    memory: bool,
    memoryAddr: nat)

  /** The state after a get and the page table it returned (None for NULL). */
  datatype Got = Got(state: MmuState, pt: Option<PageTable>)

  const Empty: MmuState := MmuState([], [], map[], 0, 0, {}, [])

  // ---------------------------------------------------------------- lists

  predicate NoDuplicates(s: seq<nat>)
  {
    forall k, l | 0 <= k < l < |s| :: s[k] != s[l]
  }

  /** list_del on the availability list: the list without `x`. */
  function Without(s: seq<nat>, x: nat): (r: seq<nat>)
    ensures forall y :: y in r <==> y in s && y != x
    ensures NoDuplicates(s) ==> NoDuplicates(r)
  {
    if s == [] then []
    else if s[0] == x then Without(s[1..], x)
    else
      var r := [s[0]] + Without(s[1..], x);
      assert NoDuplicates(s) ==> s[0] !in s[1..];
      r
  }

  /** The walk of nvkm_mmu_ptc_find over the class list: the index of the first
      class for `size`, or -1. */
  function IndexOfClass(classes: seq<CacheClass>, size: nat): (i: int)
    ensures -1 <= i < |classes|
    ensures 0 <= i ==> classes[i].size == size
    ensures forall j | 0 <= j < |classes| && (i < 0 || j < i) :: classes[j].size != size
  {
    if classes == [] then -1
    else if classes[0].size == size then 0
    else
      var i := IndexOfClass(classes[1..], size);
      if i < 0 then -1 else i + 1
  }

  // ---------------------------------------------------------------- invariant

  /** A whole block of the class for `size`, as the cache path of ptc_get makes it. */
  predicate IsBlock(pt: PageTable, size: nat, nextMem: nat)
  {
    && pt.owner == ClassOf(size)
    && pt.base == 0
    && pt.addr == pt.memory.addr
    && pt.memory.target == Inst
    && pt.memory.size == size
    && pt.memory.id < nextMem
  }

  predicate ClassOk(c: CacheClass, nextMem: nat)
  {
    && |c.items| <= c.refs <= MaxIdle
    && (forall k | 0 <= k < |c.items| :: IsBlock(c.items[k], c.size, nextMem))
    && (forall k, l | 0 <= k < l < |c.items| :: c.items[k] != c.items[l])
  }

  /** The slot width of a pool for page tables of `size` bytes: order_base_2(size)
      as the u8 the pool stores. */
  function PoolShift(size: nat): (shift: bv8)
    requires 0x80 < size <= BlockSize
    ensures 8 <= shift <= 12
  {
    PoolShiftRange(size);
    var n := OrderBase2(size);
    if n == 8 then 8 else if n == 9 then 9 else if n == 10 then 10 else if n == 11 then 11 else 12
  }

  /** (1 << slots) - 1 in 16 bits, slots being the number of 2^shift-byte slots
      in a BlockSize parent: a bit for every slot of the pool. */
  function PoolMask(shift: bv8): (mask: bv16)
    requires 8 <= shift <= 12
    ensures mask & Bit(0) != 0
  {
    var slots := Shr(0x1000, shift);
    if slots >= 16 then 0xFFFF else BitsBelow(slots)
  }

  predicate PoolOk(p: Pool, nextMem: nat)
  {
    && IsBlock(p.parent, BlockSize, nextMem)
    && 8 <= p.shift <= 12
    && p.mask == PoolMask(p.shift)
    && p.free & !p.mask == 0
  }

  /** `base` starts a slot of 2^shift bytes whose bit is in `mask` and clear in `free`. */
  predicate TakenSlot(base: bv16, shift: bv8, mask: bv16, free: bv16)
  {
    8 <= shift <= 12 &&
    var slot := Shr(base, shift);
    && slot < 16
    && base == Shl(slot, shift)
    && mask & Bit(slot) != 0
    && free & Bit(slot) == 0
  }

  /** pt is a taken slot of pool p: it shares the parent's memory at offset pt.base. */
  predicate IsSlotOf(pt: PageTable, p: Pool)
  {
    && TakenSlot(pt.base, p.shift, p.mask, p.free)
    && pt.memory == p.parent.memory
    && pt.addr == p.parent.addr + pt.base as nat
  }

  predicate ClassesOk(s: MmuState)
  {
    && (forall i, j | 0 <= i < j < |s.classes| :: s.classes[i].size != s.classes[j].size)
    && (forall i | 0 <= i < |s.classes| :: ClassOk(s.classes[i], s.nextMem))
  }

  /** The availability list holds each pool with a free slot, exactly once. */
  predicate AvailOk(avail: seq<nat>, pools: map<nat, Pool>)
  {
    && NoDuplicates(avail)
    && (forall id | id in avail :: id in pools && pools[id].free != 0)
    && (forall id | id in pools && pools[id].free != 0 :: id in avail)
  }

  /** Pools are well formed, their parents are distinct, and the availability
      list is right. */
  predicate PoolsOk(s: MmuState)
  {
    && (forall id | id in s.pools :: id < s.nextPool && PoolOk(s.pools[id], s.nextMem))
    && (s.pools != map[] ==> IndexOfClass(s.classes, BlockSize) >= 0)
    && (forall a, b | a in s.pools && b in s.pools && a != b :: s.pools[a].parent != s.pools[b].parent)
    && AvailOk(s.avail, s.pools)
  }

  /** A live pool always has a taken slot: it is destroyed when its last slot returns. */
  predicate PoolsInUse(s: MmuState)
  {
    forall id | id in s.pools :: s.pools[id].free != s.pools[id].mask
  }

  predicate InUseOk(s: MmuState, pt: PageTable)
  {
    match pt.owner
    case ClassOf(size) => IsBlock(pt, size, s.nextMem) && IndexOfClass(s.classes, size) >= 0
    case PoolOf(id) => id in s.pools && IsSlotOf(pt, s.pools[id])
  }

  /** Every page table handed out is valid where it came from. */
  predicate InUseValid(s: MmuState)
  {
    forall pt | pt in s.inUse :: InUseOk(s, pt)
  }

  /** No page table is owned twice: a block handed out is not idle in a class,
      and no pool's parent is handed out or idle. */
  predicate Disjoint(s: MmuState)
  {
    && (forall i, k | 0 <= i < |s.classes| && 0 <= k < |s.classes[i].items| :: s.classes[i].items[k] !in s.inUse)
    && (forall id | id in s.pools :: s.pools[id].parent !in s.inUse)
    && (forall id, i, k | id in s.pools && 0 <= i < |s.classes| && 0 <= k < |s.classes[i].items|
          :: s.classes[i].items[k] != s.pools[id].parent)
  }

  predicate Inv(s: MmuState)
  {
    ClassesOk(s) && PoolsOk(s) && PoolsInUse(s) && InUseValid(s) && Disjoint(s)
  }

  /** pt belongs to nobody in s: not handed out, not idle, not a pool's parent. */
  predicate Unowned(s: MmuState, pt: PageTable)
  {
    && pt !in s.inUse
    && (forall i, k | 0 <= i < |s.classes| && 0 <= k < |s.classes[i].items| :: s.classes[i].items[k] != pt)
    && (forall id | id in s.pools :: s.pools[id].parent != pt)
  }

  // ---------------------------------------------------------------- operations

  /** nvkm_mmu_ptc_find: the class list and the index of the class for `size`,
      created at the head of the list when there is none; None when creating it fails. */
  function CacheFind(classes: seq<CacheClass>, size: nat, classRecord: bool): Option<(seq<CacheClass>, nat)>
  {
    var i := IndexOfClass(classes, size);
    if 0 <= i then Some((classes, i))
    else if classRecord then Some(([CacheClass(size, 0, [])] + classes, 0))
    else None
  }

  /** The cache path of nvkm_mmu_ptc_get: reuse the oldest idle block of the
      class for `size`, or allocate a fresh one at offset 0. The block is not
      yet recorded as handed out. */
  function CacheGet(s: MmuState, size: nat, a: Allocations): Got
    requires ClassesOk(s)
  {
    match CacheFind(s.classes, size, a.classRecord)
    case None => Got(s, None)
    case Some((classes, i)) => CacheTake(s.(classes := classes), i, a)
  }

  /** A block from the class at index i: its oldest idle block, or a fresh
      one over new memory of the class's size. */
  function CacheTake(s: MmuState, i: nat, a: Allocations): Got
    requires i < |s.classes| && |s.classes[i].items| <= s.classes[i].refs
  {
    var c := s.classes[i];
    if c.items != [] then
      Got(s.(classes := WithoutOldest(s.classes, i)), Some(c.items[0]))
    else if !a.blockRecord || !a.memory then
      Got(s, None)
    else
      var m := Memory(s.nextMem, Inst, c.size, a.memoryAddr);
      Got(s.(nextMem := s.nextMem + 1), Some(PageTable(ClassOf(c.size), m, 0, m.addr)))
  }

  /** The lowest free slot of pool p, which __ffs() picks. */
  function FreeSlot(p: Pool): (slot: bv16)
    requires p.free != 0
    ensures slot < 16
  {
    LowestSetBit(p.free)
  }

  /** Pool p once its lowest free slot is taken. */
  function Taken(p: Pool): Pool
    requires p.free != 0
  {
    p.(free := p.free & !Bit(FreeSlot(p)))
  }

  /** The page table for the lowest free slot of pool `id`: it shares the
      parent's memory, at the slot's offset. */
  function SlotTable(p: Pool, id: nat): PageTable
    requires p.free != 0 && 8 <= p.shift <= 12
  {
    var base := Shl(FreeSlot(p), p.shift);
    PageTable(PoolOf(id), p.parent.memory, base, p.parent.addr + base as nat)
  }

  /** The end of nvkm_mmu_ptp_get: take the lowest free slot of pool `id`, and
      take the pool off the availability list once it has no free slot left. */
  function TakeSlot(s: MmuState, id: nat): Got
    requires id in s.pools && s.pools[id].free != 0 && 8 <= s.pools[id].shift <= 12
  {
    var p := s.pools[id];
    var pt := SlotTable(p, id);
    Got(s.(pools := s.pools[id := Taken(p)],
           avail := if Taken(p).free == 0 then Without(s.avail, id) else s.avail,
           inUse := s.inUse + {pt}),
        Some(pt))
  }

  /** The pool a fresh parent block becomes: order_base_2(size)-bit slots, all free. */
  function NewPool(parent: PageTable, size: nat): Pool
    requires 0x80 < size <= BlockSize
  {
    var shift := PoolShift(size);
    Pool(parent, shift, PoolMask(shift), PoolMask(shift))
  }

  /** nvkm_mmu_ptp_get: a slot from the pool at the head of the availability
      list, or from a new pool over a block the cache provides. */
  function PtpGet(s: MmuState, size: nat, a: Allocations): Got
    requires Inv(s) && size <= BlockSize && (s.avail == [] ==> 0x80 < size)
  {
    if !a.subRecord then Got(s, None)
    else if s.avail != [] then TakeSlot(s, s.avail[0])
    else if !a.poolRecord then Got(s, None)
    else
      var g := CacheGet(s, BlockSize, a);
      if g.pt.None? then Got(g.state, None)
      else
        CacheGetBlock(s, BlockSize, a);
        TakeSlot(WithPool(g.state, g.pt.value, size), g.state.nextPool)
  }

  /** The state once a new pool over block `parent` is registered under the
      next pool id and linked at the head of the availability list. */
  function WithPool(s: MmuState, parent: PageTable, size: nat): (t: MmuState)
    requires 0x80 < size <= BlockSize
    ensures s.nextPool in t.pools && 8 <= t.pools[s.nextPool].shift <= 12
    ensures t.pools[s.nextPool].free != 0
  {
    var id := s.nextPool;
    s.(pools := s.pools[id := NewPool(parent, size)], avail := [id] + s.avail, nextPool := id + 1)
  }

  /** nvkm_mmu_ptc_get: alignments below a block go to the pool; anything
      else comes from the cache class for `size`. */
  function PtcGet(s: MmuState, size: nat, align: nat, a: Allocations): Got
    requires Inv(s) && (align < BlockSize && s.avail == [] ==> 0x80 < align)
  {
    if align < BlockSize then PtpGet(s, align, a)
    else
      var g := CacheGet(s, size, a);
      if g.pt.Some? then Got(g.state.(inUse := g.state.inUse + {g.pt.value}), g.pt) else g
  }

  /** The cache path of nvkm_mmu_ptc_put: keep the block as the newest idle
      block of its class while the class holds fewer than MaxIdle and the put
      is not forced; otherwise release its memory. */
  function CacheRelease(s: MmuState, force: bool, pt: PageTable): MmuState
    requires pt.owner.ClassOf? && IndexOfClass(s.classes, pt.owner.size) >= 0
  {
    var i := IndexOfClass(s.classes, pt.owner.size);
    var c := s.classes[i];
    if c.refs < MaxIdle && !force then
      s.(classes := WithIdle(s.classes, i, pt))
    else
      s.(released := s.released + [pt.memory])
  }

  /** nvkm_mmu_ptp_put: free the slot; a pool that had no free slot goes back at
      the head of the availability list; a pool whose slots are all free again
      gives its parent back to the cache and is discarded. */
  function PtpPut(s: MmuState, force: bool, pt: PageTable): MmuState
    requires Inv(s) && pt in s.inUse && pt.owner.PoolOf?
  {
    var p := s.pools[pt.owner.id];
    if Returned(p, pt.base).free == p.mask then CacheRelease(DropPool(s, pt), force, p.parent)
    else KeepPool(s, pt)
  }

  /** The state once a slot of pool `id` is returned and the pool stays. */
  function KeepPool(s: MmuState, pt: PageTable): MmuState
    requires pt.owner.PoolOf? && pt.owner.id in s.pools
    requires 8 <= s.pools[pt.owner.id].shift <= 12 && Shr(pt.base, s.pools[pt.owner.id].shift) < 16
  {
    var id := pt.owner.id;
    var avail := if s.pools[id].free == 0 then [id] + s.avail else s.avail;
    s.(inUse := s.inUse - {pt}, pools := s.pools[id := Returned(s.pools[id], pt.base)], avail := avail)
  }
  /** The state once the last taken slot of pool `id` is returned and the pool
      is discarded, before its parent goes back to the cache. */
  function DropPool(s: MmuState, pt: PageTable): MmuState
    requires pt.owner.PoolOf? && pt.owner.id in s.pools
  {
    var id := pt.owner.id;
    var avail := if s.pools[id].free == 0 then [id] + s.avail else s.avail;
    s.(inUse := s.inUse - {pt}, avail := Without(avail, id), pools := s.pools - {id})
  }
  /** Pool p once the slot starting at `base` is free again. */
  function Returned(p: Pool, base: bv16): Pool
    requires 8 <= p.shift <= 12 && Shr(base, p.shift) < 16
  {
    p.(free := p.free | Bit(Shr(base, p.shift)))
  }

  /** nvkm_mmu_ptc_put: nothing for NULL, the pool for a sub-allocated page
      table, the cache class otherwise. */
  function PtcPut(s: MmuState, force: bool, pt: Option<PageTable>): MmuState
    requires Inv(s) && (pt.Some? ==> pt.value in s.inUse)
  {
    match pt
    case None => s
    case Some(t) =>
      if t.owner.PoolOf? then PtpPut(s, force, t)
      else CacheRelease(s.(inUse := s.inUse - {t}), force, t)
  }

  /** The memory of a list of page tables, in list order. */
  function Memories(items: seq<PageTable>): (r: seq<Memory>)
    ensures |r| == |items| && forall k | 0 <= k < |items| :: r[k] == items[k].memory
  {
    seq(|items|, k requires 0 <= k < |items| => items[k].memory)
  }

  /** The memory of every idle block, class by class in list order. */
  function IdleMemory(classes: seq<CacheClass>): seq<Memory>
  {
    if classes == [] then [] else Memories(classes[0].items) + IdleMemory(classes[1..])
  }

  /** Every class with its idle list emptied and its counter left as it was. */
  function Drained(classes: seq<CacheClass>): (r: seq<CacheClass>)
    ensures |r| == |classes|
    ensures forall i | 0 <= i < |classes| :: r[i] == classes[i].(items := [])
  {
    seq(|classes|, i requires 0 <= i < |classes| => classes[i].(items := []))
  }

  /** nvkm_mmu_ptc_dump: release the memory of every idle block. */
  function PtcDump(s: MmuState): MmuState
  {
    s.(classes := Drained(s.classes), released := s.released + IdleMemory(s.classes))
  }

  /** The number of classes nvkm_mmu_ptc_fini warns about: those still holding idle blocks. */
  function Leaks(classes: seq<CacheClass>): nat
  {
    if classes == [] then 0 else (if classes[0].items != [] then 1 else 0) + Leaks(classes[1..])
  }

  // ---------------------------------------------------------------- lemmas

  /** The class lookup only looks at sizes. */
  lemma IndexOfClassBySize(a: seq<CacheClass>, b: seq<CacheClass>, size: nat)
    requires |a| == |b| && forall i | 0 <= i < |a| :: a[i].size == b[i].size
    ensures IndexOfClass(a, size) == IndexOfClass(b, size)
  {
  }

  /** A class found before is still found once a class is added at the head. */
  lemma IndexOfClassPrepend(c: CacheClass, a: seq<CacheClass>, size: nat)
    requires IndexOfClass(a, size) >= 0
    ensures IndexOfClass([c] + a, size) >= 0
  {
    assert ([c] + a)[1..] == a;
  }

  /** The classes of t offer every size the classes of s offer. */
  ghost predicate KeepsClasses(s: MmuState, t: MmuState)
  {
    forall sz: nat | IndexOfClass(s.classes, sz) >= 0 :: IndexOfClass(t.classes, sz) >= 0
  }

  /** The pool invariant only depends on the pools, the availability list and
      the class for BlockSize. */
  lemma PoolsFrame(s: MmuState, t: MmuState)
    requires PoolsOk(s) && PoolsInUse(s)
    requires t.pools == s.pools && t.avail == s.avail && t.nextPool == s.nextPool
    requires s.nextMem <= t.nextMem && KeepsClasses(s, t)
    ensures PoolsOk(t) && PoolsInUse(t)
  {
    if s.pools != map[] {
      assert IndexOfClass(s.classes, BlockSize) >= 0;
    }
  }

  /** The page tables handed out stay valid while their pools stay and their classes remain. */
  lemma InUseFrame(s: MmuState, t: MmuState)
    requires InUseValid(s)
    requires t.inUse <= s.inUse && t.pools == s.pools && s.nextMem <= t.nextMem && KeepsClasses(s, t)
    ensures InUseValid(t)
  {
    forall pt | pt in t.inUse ensures InUseOk(t, pt) {
      assert InUseOk(s, pt);
      if pt.owner.ClassOf? {
        assert IndexOfClass(s.classes, pt.owner.size) >= 0;
      }
    }
  }

  /** Adding an empty class for a size not yet cached keeps the invariant. */
  lemma AddClassInv(s: MmuState, size: nat)
    requires Inv(s) && IndexOfClass(s.classes, size) < 0
    ensures var t := s.(classes := [CacheClass(size, 0, [])] + s.classes);
      Inv(t) && KeepsClasses(s, t) && IndexOfClass(t.classes, size) == 0
  {
    var t := s.(classes := [CacheClass(size, 0, [])] + s.classes);
    AddClassKeeps(s, t, size);
    AddClassSizes(s, t, size);
    PoolsFrame(s, t);
    InUseFrame(s, t);
    AddClassDisjoint(s, t, size);
  }

  lemma AddClassKeeps(s: MmuState, t: MmuState, size: nat)
    requires t.classes == [CacheClass(size, 0, [])] + s.classes
    ensures KeepsClasses(s, t) && IndexOfClass(t.classes, size) == 0
  {
    forall sz: nat | IndexOfClass(s.classes, sz) >= 0 ensures IndexOfClass(t.classes, sz) >= 0 {
      IndexOfClassPrepend(CacheClass(size, 0, []), s.classes, sz);
    }
  }

  lemma AddClassSizes(s: MmuState, t: MmuState, size: nat)
    requires ClassesOk(s) && IndexOfClass(s.classes, size) < 0
    requires t.classes == [CacheClass(size, 0, [])] + s.classes && t.nextMem == s.nextMem
    ensures ClassesOk(t)
  {
    assert forall j | 1 <= j < |t.classes| :: t.classes[j] == s.classes[j - 1];
    forall i, j | 0 <= i < j < |t.classes| ensures t.classes[i].size != t.classes[j].size {
      if i > 0 {
        assert s.classes[i - 1].size != s.classes[j - 1].size;
      }
    }
  }

  lemma AddClassDisjoint(s: MmuState, t: MmuState, size: nat)
    requires Disjoint(s)
    requires t.classes == [CacheClass(size, 0, [])] + s.classes && t.pools == s.pools && t.inUse == s.inUse
    ensures Disjoint(t)
  {
    forall i, k | 0 <= i < |t.classes| && 0 <= k < |t.classes[i].items|
      ensures t.classes[i].items[k] !in t.inUse
      ensures forall id | id in t.pools :: t.classes[i].items[k] != t.pools[id].parent
    {
      assert t.classes[i].items[k] == s.classes[i - 1].items[k];
    }
  }

  /** The classes after the oldest idle block of class i is taken. */
  function WithoutOldest(classes: seq<CacheClass>, i: nat): (r: seq<CacheClass>)
    requires i < |classes| && classes[i].items != [] && |classes[i].items| <= classes[i].refs
    ensures |r| == |classes| && r[i].items == classes[i].items[1..]
  {
    classes[i := classes[i].(items := classes[i].items[1..], refs := classes[i].refs - 1)]
  }

  lemma TakeIdleClasses(s: MmuState, i: nat)
    requires ClassesOk(s) && i < |s.classes| && s.classes[i].items != []
    ensures ClassesOk(s.(classes := WithoutOldest(s.classes, i)))
  {
    var t := s.(classes := WithoutOldest(s.classes, i));
    var c := s.classes[i];
    assert ClassOk(t.classes[i], t.nextMem) by {
      assert forall k | 0 <= k < |t.classes[i].items| :: t.classes[i].items[k] == c.items[k + 1];
    }
  }

  lemma TakeIdleDisjoint(s: MmuState, i: nat)
    requires ClassesOk(s) && Disjoint(s) && i < |s.classes| && s.classes[i].items != []
    ensures Disjoint(s.(classes := WithoutOldest(s.classes, i)))
  {
    var t := s.(classes := WithoutOldest(s.classes, i));
    forall j, k | 0 <= j < |t.classes| && 0 <= k < |t.classes[j].items|
      ensures t.classes[j].items[k] !in t.inUse
      ensures forall id | id in t.pools :: t.classes[j].items[k] != t.pools[id].parent
    {
      if j == i {
        assert t.classes[j].items[k] == s.classes[i].items[k + 1];
      }
    }
  }

  lemma TakeIdleUnowned(s: MmuState, i: nat)
    requires ClassesOk(s) && Disjoint(s) && i < |s.classes| && s.classes[i].items != []
    ensures Unowned(s.(classes := WithoutOldest(s.classes, i)), s.classes[i].items[0])
  {
    var t := s.(classes := WithoutOldest(s.classes, i));
    var c := s.classes[i];
    forall j, k | 0 <= j < |t.classes| && 0 <= k < |t.classes[j].items|
      ensures t.classes[j].items[k] != c.items[0]
    {
      if j == i {
        assert t.classes[j].items[k] == c.items[k + 1];
      } else {
        assert t.classes[j].items[k].owner == ClassOf(t.classes[j].size);
      }
    }
  }

  /** Taking the oldest idle block of class i keeps the invariant, and the block
      is then owned by nobody. */
  lemma TakeIdleInv(s: MmuState, i: nat)
    requires Inv(s) && i < |s.classes| && s.classes[i].items != []
    ensures var t := s.(classes := WithoutOldest(s.classes, i));
      && Inv(t) && KeepsClasses(s, t)
      && IsBlock(s.classes[i].items[0], s.classes[i].size, t.nextMem) && Unowned(t, s.classes[i].items[0])
  {
    var t := s.(classes := WithoutOldest(s.classes, i));
    forall sz: nat ensures IndexOfClass(t.classes, sz) == IndexOfClass(s.classes, sz) {
      IndexOfClassBySize(t.classes, s.classes, sz);
    }
    TakeIdleClasses(s, i);
    PoolsFrame(s, t);
    InUseFrame(s, t);
    TakeIdleDisjoint(s, i);
    TakeIdleUnowned(s, i);
  }

  /** Recording a fresh memory object keeps the invariant, and a block over it
      is owned by nobody. */
  lemma FreshBlockInv(s: MmuState, size: nat, addr: nat)
    requires Inv(s)
    ensures var m := Memory(s.nextMem, Inst, size, addr);
      var t := s.(nextMem := s.nextMem + 1);
      && Inv(t) && Unowned(t, PageTable(ClassOf(size), m, 0, addr))
  {
    var t := s.(nextMem := s.nextMem + 1);
    var pt := PageTable(ClassOf(size), Memory(s.nextMem, Inst, size, addr), 0, addr);
    assert ClassesOk(t) by {
      forall i | 0 <= i < |t.classes| ensures ClassOk(t.classes[i], t.nextMem) {
        assert ClassOk(s.classes[i], s.nextMem);
      }
    }
    PoolsFrame(s, t);
    InUseFrame(s, t);
  }

  lemma CacheTakeBlock(s: MmuState, i: nat, a: Allocations)
    requires Inv(s) && i < |s.classes|
    ensures var g := CacheTake(s, i, a);
      && Inv(g.state) && KeepsClasses(s, g.state)
      && g.state.inUse == s.inUse && g.state.pools == s.pools && g.state.avail == s.avail
      && g.state.nextPool == s.nextPool && g.state.released == s.released
      && |g.state.classes| == |s.classes| && g.state.classes[i].size == s.classes[i].size
      && (g.pt.Some? ==> IsBlock(g.pt.value, s.classes[i].size, g.state.nextMem) && Unowned(g.state, g.pt.value))
  {
    var c := s.classes[i];
    if c.items != [] {
      TakeIdleInv(s, i);
      var t := s.(classes := WithoutOldest(s.classes, i));
      assert CacheTake(s, i, a) == Got(t, Some(c.items[0]));
    } else if a.blockRecord && a.memory {
      FreshBlockInv(s, c.size, a.memoryAddr);
      var m := Memory(s.nextMem, Inst, c.size, a.memoryAddr);
      var t := s.(nextMem := s.nextMem + 1);
      assert CacheTake(s, i, a) == Got(t, Some(PageTable(ClassOf(c.size), m, 0, m.addr)));
      assert KeepsClasses(s, t);
    } else {
      assert CacheTake(s, i, a) == Got(s, None);
    }
  }

  /** The cache path of a get keeps the invariant and hands out a block of
      `size` owned by nobody; it touches neither the pools nor the page tables
      handed out. */
  lemma CacheGetBlock(s: MmuState, size: nat, a: Allocations)
    requires Inv(s)
    ensures var g := CacheGet(s, size, a);
      && Inv(g.state) && KeepsClasses(s, g.state)
      && g.state.inUse == s.inUse && g.state.pools == s.pools && g.state.avail == s.avail
      && g.state.nextPool == s.nextPool && g.state.released == s.released
      && (g.pt.Some? ==> IsBlock(g.pt.value, size, g.state.nextMem) && Unowned(g.state, g.pt.value)
                         && IndexOfClass(g.state.classes, size) >= 0)
  {
    var f := CacheFind(s.classes, size, a.classRecord);
    if f.Some? {
      var (classes, i) := f.value;
      var t := s.(classes := classes);
      if IndexOfClass(s.classes, size) < 0 {
        AddClassInv(s, size);
      }
      assert Inv(t) && KeepsClasses(s, t) && IndexOfClass(classes, size) == i;
      CacheTakeBlock(t, i, a);
      var u := CacheTake(t, i, a).state;
      assert KeepsClasses(t, u);
      assert IndexOfClass(u.classes, size) >= 0 by {
        assert u.classes[i].size == size;
      }
    }
  }

  // ---------------------------------------------------------------- pools

  /** A slot taken under one free mask stays taken under a mask with fewer free slots. */
  lemma SlotOfFewerFree(pt: PageTable, p: Pool, free: bv16)
    requires IsSlotOf(pt, p) && free & !p.free == 0
    ensures IsSlotOf(pt, p.(free := free))
  {
    FewerFree(pt.base, p.shift, p.mask, p.free, free);
  }

  lemma FewerFree(base: bv16, shift: bv8, mask: bv16, old_free: bv16, free: bv16)
    requires TakenSlot(base, shift, mask, old_free) && free & !old_free == 0
    ensures TakenSlot(base, shift, mask, free)
  {
    ClearStaysClear(old_free, free, Bit(Shr(base, shift)));
  }

  lemma ClearStaysClear(old_free: bv16, free: bv16, bit: bv16)
    requires free & !old_free == 0 && old_free & bit == 0
    ensures free & bit == 0
  {
  }

  /** The lowest slot of a pool with every slot free is slot 0. */
  lemma FullMaskLowest(shift: bv8)
    requires 8 <= shift <= 12
    ensures LowestSetBit(PoolMask(shift)) == 0
  {
    assert PoolMask(shift) & Bit(0) != 0;
  }

  /** Taking a slot only clears bits of `free`. */
  lemma TakenFewerFree(p: Pool)
    requires p.free != 0
    ensures Taken(p).free & !p.free == 0
  {
  }

  /** A pool with a slot taken is not entirely free. */
  lemma TakenNotFull(p: Pool)
    requires p.free != 0 && p.free & !p.mask == 0
    ensures Taken(p).free & !p.mask == 0 && Taken(p).free != p.mask
  {
  }

  /** The slot handed out is a taken slot of the pool that remains. */
  lemma SlotTableBits(p: Pool, id: nat)
    requires p.free != 0 && 8 <= p.shift <= 12 && p.free & !p.mask == 0
    ensures IsSlotOf(SlotTable(p, id), Taken(p))
  {
    TakenFree(p, FreeSlot(p));
  }

  /** A slot still taken in p is not the free slot that is handed out. */
  lemma SlotTableIsNew(p: Pool, id: nat, pt: PageTable)
    requires p.free != 0 && 8 <= p.shift <= 12 && IsSlotOf(pt, p)
    ensures pt != SlotTable(p, id)
  {
    if pt == SlotTable(p, id) {
      assert false;
    }
  }

  /** The state before a slot is taken from pool `id`: the invariant, except
      that pool `id` may be entirely free (as a pool just created is). */
  predicate InvBeforeTake(s: MmuState, id: nat)
  {
    && ClassesOk(s) && PoolsOk(s) && InUseValid(s) && Disjoint(s)
    && id in s.pools && s.pools[id].free != 0
    && forall other | other in s.pools && other != id :: s.pools[other].free != s.pools[other].mask
  }

  /** Changing the free slots of pool `id`: the list stays right when the pool
      leaves it on losing its last free slot and joins it at the head on gaining
      its first. */
  lemma AvailUpdate(avail: seq<nat>, pools: map<nat, Pool>, id: nat, q: Pool)
    requires AvailOk(avail, pools) && id in pools
    ensures var free := pools[id].free;
      var next := if q.free == 0 then Without(avail, id)
                  else if free == 0 then [id] + avail
                  else avail;
      AvailOk(next, pools[id := q])
  {
    if pools[id].free == 0 {
      assert id !in avail;
    }
  }

  lemma TakenPoolOk(p: Pool, nextMem: nat)
    requires PoolOk(p, nextMem) && p.free != 0
    ensures PoolOk(Taken(p), nextMem) && Taken(p).free != Taken(p).mask
  {
    TakenNotFull(p);
  }

  lemma TakeSlotPools(s: MmuState, id: nat)
    requires PoolsOk(s) && id in s.pools && s.pools[id].free != 0
    requires forall other | other in s.pools && other != id :: s.pools[other].free != s.pools[other].mask
    ensures PoolsOk(TakeSlot(s, id).state) && PoolsInUse(TakeSlot(s, id).state)
  {
    var p := s.pools[id];
    var q := Taken(p);
    assert PoolOk(q, s.nextMem) && q.free != q.mask by { TakenPoolOk(p, s.nextMem); }
    var t := TakeSlot(s, id).state;
    assert t.pools == s.pools[id := q] && q.parent == p.parent;
    assert t.avail == if q.free == 0 then Without(s.avail, id) else s.avail;
    assert AvailOk(t.avail, t.pools) by { AvailUpdate(s.avail, s.pools, id, q); }
  }

  /** Replacing pool `id` by q keeps a page table valid when it is not a
      slot of `id`, or is a slot of q. */
  lemma InUseOkPoolUpdate(s: MmuState, t: MmuState, id: nat, q: Pool, u: PageTable)
    requires InUseOk(s, u) && id in s.pools
    requires t.pools == s.pools[id := q] && t.classes == s.classes && t.nextMem == s.nextMem
    requires u.owner == PoolOf(id) ==> IsSlotOf(u, q)
    ensures InUseOk(t, u)
  {
    if u.owner.PoolOf? && u.owner.id != id {
      assert t.pools[u.owner.id] == s.pools[u.owner.id];
    }
  }

  /** A page table handed out before a slot is taken stays valid. */
  lemma InUseAfterTake(s: MmuState, id: nat, u: PageTable)
    requires id in s.pools && s.pools[id].free != 0 && 8 <= s.pools[id].shift <= 12 && InUseOk(s, u)
    requires s.pools[id].free & !s.pools[id].mask == 0
    ensures InUseOk(TakeSlot(s, id).state, u)
  {
    var p := s.pools[id];
    if u.owner == PoolOf(id) {
      assert Taken(p).free & !p.free == 0 by { TakenFewerFree(p); }
      SlotOfFewerFree(u, p, Taken(p).free);
    }
    InUseOkPoolUpdate(s, TakeSlot(s, id).state, id, Taken(p), u);
  }

  /** The slot handed out was not handed out before. */
  lemma TakeSlotFresh(s: MmuState, id: nat)
    requires InUseValid(s) && id in s.pools && s.pools[id].free != 0 && 8 <= s.pools[id].shift <= 12
    ensures SlotTable(s.pools[id], id) !in s.inUse
  {
    var pt := SlotTable(s.pools[id], id);
    if pt in s.inUse {
      assert InUseOk(s, pt);
      SlotTableIsNew(s.pools[id], id, pt);
    }
  }

  lemma TakeSlotInUse(s: MmuState, id: nat)
    requires PoolsOk(s) && InUseValid(s) && id in s.pools && s.pools[id].free != 0
    ensures var g := TakeSlot(s, id);
      InUseValid(g.state) && g.pt.Some? && g.pt.value !in s.inUse
  {
    TakeSlotFresh(s, id);
    TakeSlotValid(s, id);
  }

  lemma TakeSlotValid(s: MmuState, id: nat)
    requires PoolsOk(s) && InUseValid(s) && id in s.pools && s.pools[id].free != 0
    ensures InUseValid(TakeSlot(s, id).state)
  {
    var p := s.pools[id];
    var t := TakeSlot(s, id).state;
    forall u | u in t.inUse ensures InUseOk(t, u) {
      if u == SlotTable(p, id) {
        NewSlotOk(s, id);
      } else {
        InUseAfterTake(s, id, u);
      }
    }
  }

  /** The page table handed out is a valid slot of the pool that remains. */
  lemma NewSlotOk(s: MmuState, id: nat)
    requires PoolsOk(s) && id in s.pools && s.pools[id].free != 0
    ensures InUseOk(TakeSlot(s, id).state, SlotTable(s.pools[id], id))
  {
    SlotTableBits(s.pools[id], id);
  }

  lemma TakeSlotDisjoint(s: MmuState, id: nat)
    requires ClassesOk(s) && PoolsOk(s) && Disjoint(s) && id in s.pools && s.pools[id].free != 0
    ensures Disjoint(TakeSlot(s, id).state)
  {
    SlotInUseDisjoint(s, TakeSlot(s, id).state, id, Taken(s.pools[id]), SlotTable(s.pools[id], id));
  }

  /** Handing out a slot of a pool, and changing that pool's free slots, keeps
      ownership disjoint. */
  lemma SlotInUseDisjoint(s: MmuState, t: MmuState, id: nat, q: Pool, pt: PageTable)
    requires ClassesOk(s) && PoolsOk(s) && Disjoint(s) && id in s.pools && q.parent == s.pools[id].parent
    requires pt.owner.PoolOf?
    requires t.classes == s.classes && t.pools == s.pools[id := q] && t.inUse == s.inUse + {pt}
    ensures Disjoint(t)
  {
  }

  /** Taking a slot restores the invariant, and the page table handed out is
      a new slot of pool `id`. */
  lemma TakeSlotInv(s: MmuState, id: nat)
    requires InvBeforeTake(s, id)
    ensures var g := TakeSlot(s, id);
      && Inv(g.state) && g.pt.Some? && g.pt.value !in s.inUse
      && g.state.classes == s.classes && g.state.nextMem == s.nextMem && g.state.released == s.released
      && g.state.nextPool == s.nextPool && g.state.inUse == s.inUse + {g.pt.value}
  {
    TakeSlotPools(s, id);
    TakeSlotInUse(s, id);
    TakeSlotDisjoint(s, id);
  }

  /** A block handed to a new pool, with the availability list empty, leaves
      the state ready for the pool's first slot to be taken. */
  lemma NewPoolReady(s: MmuState, parent: PageTable, size: nat)
    requires Inv(s) && s.avail == [] && 0x80 < size <= BlockSize
    requires IsBlock(parent, BlockSize, s.nextMem) && Unowned(s, parent)
    requires IndexOfClass(s.classes, BlockSize) >= 0
    ensures InvBeforeTake(WithPool(s, parent, size), s.nextPool)
  {
    var id := s.nextPool;
    var t := WithPool(s, parent, size);
    assert id !in s.pools;
    assert PoolOk(NewPool(parent, size), t.nextMem);
    assert PoolsOk(t) by {
      assert t.avail == [id];
      forall a, b | a in t.pools && b in t.pools && a != b ensures t.pools[a].parent != t.pools[b].parent {
        if a != id && b != id {
          assert s.pools[a].parent != s.pools[b].parent;
        }
      }
    }
    assert InUseValid(t) by {
      forall u | u in t.inUse ensures InUseOk(t, u) {
        assert InUseOk(s, u);
        if u.owner.PoolOf? {
          assert t.pools[u.owner.id] == s.pools[u.owner.id];
        }
      }
    }
  }

  /** What a get through the pool path promises: the invariant holds after it;
      on success the page table handed out is a new slot; on failure nothing a
      caller can observe has changed, and no pool has been registered. */
  ghost predicate PoolGetOk(s: MmuState, g: Got)
  {
    && Inv(g.state) && KeepsClasses(s, g.state)
    && (g.pt.Some? ==> g.pt.value.owner.PoolOf? && g.pt.value !in s.inUse
                       && g.state.inUse == s.inUse + {g.pt.value})
    && (g.pt.None? ==> g.state.inUse == s.inUse && g.state.pools == s.pools && g.state.avail == s.avail)
  }

  /** The pool path of a get keeps the invariant (see PoolGetOk). */
  lemma PtpGetInv(s: MmuState, size: nat, a: Allocations)
    requires Inv(s) && size <= BlockSize && (s.avail == [] ==> 0x80 < size)
    ensures PoolGetOk(s, PtpGet(s, size, a))
  {
    if !a.subRecord {
    } else if s.avail != [] {
      PtpGetHeadInv(s, size, a);
    } else if !a.poolRecord {
    } else {
      PtpGetNewPoolInv(s, size, a);
    }
  }

  /** A get from the pool at the head of the availability list. */
  lemma PtpGetHeadInv(s: MmuState, size: nat, a: Allocations)
    requires Inv(s) && size <= BlockSize && a.subRecord && s.avail != []
    ensures PoolGetOk(s, PtpGet(s, size, a))
  {
    TakeSlotInv(s, s.avail[0]);
  }

  /** A get that creates a new pool over a block from the cache. */
  lemma PtpGetNewPoolInv(s: MmuState, size: nat, a: Allocations)
    requires Inv(s) && 0x80 < size <= BlockSize && a.subRecord && s.avail == [] && a.poolRecord
    ensures PoolGetOk(s, PtpGet(s, size, a))
  {
    CacheGetBlock(s, BlockSize, a);
    var g := CacheGet(s, BlockSize, a);
    if g.pt.Some? {
      NewPoolReady(g.state, g.pt.value, size);
      TakeSlotInv(WithPool(g.state, g.pt.value, size), g.state.nextPool);
      assert g.pt.value !in s.inUse;
    }
  }

  /** Recording a block nobody owns as handed out keeps the invariant. */
  lemma HandOutBlockInv(s: MmuState, pt: PageTable, size: nat)
    requires Inv(s) && IsBlock(pt, size, s.nextMem) && Unowned(s, pt) && IndexOfClass(s.classes, size) >= 0
    ensures Inv(s.(inUse := s.inUse + {pt}))
  {
    var t := s.(inUse := s.inUse + {pt});
    assert InUseValid(t) by {
      forall u | u in t.inUse ensures InUseOk(t, u) {
        if u != pt {
          assert InUseOk(s, u);
        }
      }
    }
    assert Disjoint(t) by {
      forall i, k | 0 <= i < |t.classes| && 0 <= k < |t.classes[i].items|
        ensures t.classes[i].items[k] !in t.inUse
      {
        assert s.classes[i].items[k] != pt;
      }
    }
  }

  /** A get keeps the invariant and hands out a page table nobody held. */
  lemma PtcGetInv(s: MmuState, size: nat, align: nat, a: Allocations)
    requires Inv(s) && (align < BlockSize && s.avail == [] ==> 0x80 < align)
    ensures var g := PtcGet(s, size, align, a);
      && Inv(g.state)
      && (g.pt.Some? ==> g.pt.value !in s.inUse && g.state.inUse == s.inUse + {g.pt.value})
      && (g.pt.None? ==> g.state.inUse == s.inUse && g.state.pools == s.pools)
  {
    if align < BlockSize {
      PtpGetInv(s, align, a);
    } else {
      CacheGetBlock(s, size, a);
      var g := CacheGet(s, size, a);
      if g.pt.Some? {
        HandOutBlockInv(g.state, g.pt.value, size);
      }
    }
  }

  // ---------------------------------------------------------------- puts

  /** Returning a taken slot leaves the pool within its mask and with a free slot. */
  lemma ReturnedBits(p: Pool, base: bv16)
    requires TakenSlot(base, p.shift, p.mask, p.free) && p.free & !p.mask == 0
    ensures Returned(p, base).free & !p.mask == 0 && Returned(p, base).free != 0
  {
    ReturnedSlotBits(p, base, Shr(base, p.shift));
  }

  /** A pool with a slot returned is still well formed, and has a free slot. */
  lemma ReturnedPoolOk(p: Pool, base: bv16, nextMem: nat)
    requires PoolOk(p, nextMem) && TakenSlot(base, p.shift, p.mask, p.free)
    ensures PoolOk(Returned(p, base), nextMem) && Returned(p, base).free != 0
  {
    ReturnedBits(p, base);
  }

  lemma ReturnedSlotBits(p: Pool, base: bv16, k: bv16)
    requires 8 <= p.shift <= 12 && k == Shr(base, p.shift) && k < 16
    requires p.mask & Bit(k) != 0 && p.free & !p.mask == 0
    ensures Returned(p, base).free & !p.mask == 0 && Returned(p, base).free != 0
  {
    SetBitWithin(p.free, p.mask, k);
  }

  /** Returning one slot leaves every other taken slot taken. */
  lemma ReturnedKeepsSlot(p: Pool, base: bv16, other: bv16)
    requires TakenSlot(base, p.shift, p.mask, p.free) && TakenSlot(other, p.shift, p.mask, p.free)
    requires base != other
    ensures TakenSlot(other, p.shift, p.mask, Returned(p, base).free)
  {
    SlotBitKept(base, other, p.shift, p.mask, p.free);
  }

  lemma SlotBitKept(base: bv16, other: bv16, shift: bv8, mask: bv16, free: bv16)
    requires TakenSlot(base, shift, mask, free) && TakenSlot(other, shift, mask, free) && base != other
    ensures TakenSlot(other, shift, mask, free | Bit(Shr(base, shift)))
  {
  }

  /** Two page tables handed out from the same pool start at different offsets. */
  lemma SlotsDistinct(p: Pool, u: PageTable, v: PageTable)
    requires IsSlotOf(u, p) && IsSlotOf(v, p) && u.owner == v.owner && u != v
    ensures u.base != v.base
  {
  }

  /** Taking a page table out of the handed-out set keeps every conjunct but
      the validity of the page tables of `id`'s pool, which the caller restores. */
  lemma ReturnBlockInv(s: MmuState, pt: PageTable)
    requires Inv(s) && pt in s.inUse && pt.owner.ClassOf?
    ensures var t := s.(inUse := s.inUse - {pt});
      && Inv(t) && Unowned(t, pt) && IsBlock(pt, pt.owner.size, t.nextMem)
      && IndexOfClass(t.classes, pt.owner.size) >= 0
  {
    assert InUseOk(s, pt);
  }

  /** The classes after `pt` joins the idle list of class i. */
  function WithIdle(classes: seq<CacheClass>, i: nat, pt: PageTable): (r: seq<CacheClass>)
    requires i < |classes|
    ensures |r| == |classes| && r[i].items == classes[i].items + [pt]
  {
    classes[i := classes[i].(items := classes[i].items + [pt], refs := classes[i].refs + 1)]
  }

  lemma AppendIdleClasses(s: MmuState, i: nat, pt: PageTable)
    requires ClassesOk(s) && i < |s.classes| && s.classes[i].refs < MaxIdle
    requires IsBlock(pt, s.classes[i].size, s.nextMem) && Unowned(s, pt)
    ensures ClassesOk(s.(classes := WithIdle(s.classes, i, pt)))
  {
    var c := s.classes[i];
    var d := WithIdle(s.classes, i, pt)[i];
    assert ClassOk(d, s.nextMem) by {
      forall k, l | 0 <= k < l < |d.items| ensures d.items[k] != d.items[l] {
        if l == |c.items| {
          assert d.items[k] == s.classes[i].items[k];
        }
      }
    }
  }

  lemma AppendIdleDisjoint(s: MmuState, i: nat, pt: PageTable)
    requires Disjoint(s) && i < |s.classes| && Unowned(s, pt)
    ensures Disjoint(s.(classes := WithIdle(s.classes, i, pt)))
  {
    var t := s.(classes := WithIdle(s.classes, i, pt));
    forall j, k | 0 <= j < |t.classes| && 0 <= k < |t.classes[j].items|
      ensures t.classes[j].items[k] !in t.inUse
      ensures forall id | id in t.pools :: t.classes[j].items[k] != t.pools[id].parent
    {
      if j == i && k < |s.classes[i].items| {
        assert t.classes[j].items[k] == s.classes[i].items[k];
      }
    }
  }

  /** Keeping or releasing a block nobody owns keeps the invariant. */
  lemma CacheReleaseInv(s: MmuState, force: bool, pt: PageTable)
    requires Inv(s) && pt.owner.ClassOf? && IsBlock(pt, pt.owner.size, s.nextMem) && Unowned(s, pt)
    requires IndexOfClass(s.classes, pt.owner.size) >= 0
    ensures var t := CacheRelease(s, force, pt);
      && Inv(t) && KeepsClasses(s, t) && t.inUse == s.inUse && t.pools == s.pools && t.avail == s.avail
  {
    var i := IndexOfClass(s.classes, pt.owner.size);
    var c := s.classes[i];
    if c.refs < MaxIdle && !force {
      var t := s.(classes := WithIdle(s.classes, i, pt));
      assert CacheRelease(s, force, pt) == t;
      forall sz: nat ensures IndexOfClass(t.classes, sz) == IndexOfClass(s.classes, sz) {
        IndexOfClassBySize(t.classes, s.classes, sz);
      }
      AppendIdleClasses(s, i, pt);
      PoolsFrame(s, t);
      InUseFrame(s, t);
      AppendIdleDisjoint(s, i, pt);
    }
  }


  /** While another slot of the pool is still taken, returning one slot does
      not make the pool entirely free. */
  lemma OtherSlotKeepsPool(p: Pool, base: bv16, other: bv16)
    requires TakenSlot(base, p.shift, p.mask, p.free) && TakenSlot(other, p.shift, p.mask, p.free)
    requires base != other
    ensures Returned(p, base).free != p.mask
  {
    SlotBitKept(base, other, p.shift, p.mask, p.free);
  }



  /** A page table still handed out stays a taken slot once another slot returns. */
  lemma KeepPoolInUse(s: MmuState, pt: PageTable, u: PageTable)
    requires Inv(s) && pt in s.inUse && pt.owner.PoolOf? && u in s.inUse && u != pt
    requires IsSlotOf(pt, s.pools[pt.owner.id])
    ensures InUseOk(KeepPool(s, pt), u)
  {
    var id := pt.owner.id;
    var p := s.pools[id];
    assert InUseOk(s, u);
    if u.owner == PoolOf(id) {
      SlotsDistinct(p, u, pt);
      ReturnedKeepsSlot(p, pt.base, u.base);
    }
    InUseOkPoolUpdate(s, KeepPool(s, pt), id, Returned(p, pt.base), u);
  }

  lemma KeepPoolPools(s: MmuState, pt: PageTable)
    requires PoolsOk(s) && pt.owner.PoolOf? && pt.owner.id in s.pools
    requires 8 <= s.pools[pt.owner.id].shift <= 12 && Shr(pt.base, s.pools[pt.owner.id].shift) < 16
    requires var q := Returned(s.pools[pt.owner.id], pt.base); PoolOk(q, s.nextMem) && q.free != 0
    ensures PoolsOk(KeepPool(s, pt))
  {
    var id := pt.owner.id;
    var p := s.pools[id];
    var t := KeepPool(s, pt);
    assert AvailOk(t.avail, t.pools) by { AvailUpdate(s.avail, s.pools, id, Returned(p, pt.base)); }
  }

  lemma KeepPoolRest(s: MmuState, pt: PageTable)
    requires ClassesOk(s) && PoolsInUse(s) && Disjoint(s) && pt.owner.PoolOf? && pt.owner.id in s.pools
    requires 8 <= s.pools[pt.owner.id].shift <= 12 && Shr(pt.base, s.pools[pt.owner.id].shift) < 16
    requires Returned(s.pools[pt.owner.id], pt.base).free != s.pools[pt.owner.id].mask
    ensures var t := KeepPool(s, pt); ClassesOk(t) && PoolsInUse(t) && Disjoint(t)
  {
  }

  /** Returning a slot of a pool that keeps other slots taken keeps the invariant. */
  lemma PutKeepPoolInv(s: MmuState, pt: PageTable)
    requires Inv(s) && pt in s.inUse && pt.owner.PoolOf?
    requires IsSlotOf(pt, s.pools[pt.owner.id])
    requires Returned(s.pools[pt.owner.id], pt.base).free != s.pools[pt.owner.id].mask
    ensures Inv(KeepPool(s, pt))
  {
    KeepPoolOk(s, pt);
    KeepPoolRest(s, pt);
    KeepPoolValid(s, pt);
  }

  lemma KeepPoolOk(s: MmuState, pt: PageTable)
    requires Inv(s) && pt in s.inUse && pt.owner.PoolOf?
    requires IsSlotOf(pt, s.pools[pt.owner.id])
    ensures PoolsOk(KeepPool(s, pt))
  {
    ReturnedPoolOk(s.pools[pt.owner.id], pt.base, s.nextMem);
    KeepPoolPools(s, pt);
  }

  lemma KeepPoolValid(s: MmuState, pt: PageTable)
    requires Inv(s) && pt in s.inUse && pt.owner.PoolOf?
    requires IsSlotOf(pt, s.pools[pt.owner.id])
    ensures InUseValid(KeepPool(s, pt))
  {
    var t := KeepPool(s, pt);
    forall u | u in t.inUse ensures InUseOk(t, u) {
      KeepPoolInUse(s, pt, u);
    }
  }

  /** Discarding a pool whose last slot returns keeps the invariant and leaves
      its parent a block of BlockSize owned by nobody. */
  lemma DropPoolInv(s: MmuState, pt: PageTable)
    requires Inv(s) && pt in s.inUse && pt.owner.PoolOf?
    requires Returned(s.pools[pt.owner.id], pt.base).free == s.pools[pt.owner.id].mask
    ensures var t := DropPool(s, pt);
      var parent := s.pools[pt.owner.id].parent;
      && Inv(t) && Unowned(t, parent) && IsBlock(parent, BlockSize, t.nextMem)
      && IndexOfClass(t.classes, BlockSize) >= 0 && parent.owner == ClassOf(BlockSize)
  {
    var id := pt.owner.id;
    var p := s.pools[id];
    assert InUseOk(s, pt);
    var t := DropPool(s, pt);
    assert PoolsOk(t);
    assert InUseValid(t) by {
      forall u | u in t.inUse ensures InUseOk(t, u) {
        assert InUseOk(s, u);
        if u.owner == PoolOf(id) {
          SlotsDistinct(p, u, pt);
          OtherSlotKeepsPool(p, pt.base, u.base);
          assert false;
        }
        if u.owner.PoolOf? {
          assert t.pools[u.owner.id] == s.pools[u.owner.id];
        }
      }
    }
  }

  /** The pool path of a put keeps the invariant. */
  lemma PtpPutInv(s: MmuState, force: bool, pt: PageTable)
    requires Inv(s) && pt in s.inUse && pt.owner.PoolOf?
    ensures var t := PtpPut(s, force, pt);
      Inv(t) && t.inUse == s.inUse - {pt}
  {
    var id := pt.owner.id;
    var p := s.pools[id];
    assert InUseOk(s, pt);
    if Returned(p, pt.base).free == p.mask {
      DropPoolInv(s, pt);
      CacheReleaseInv(DropPool(s, pt), force, p.parent);
    } else {
      PutKeepPoolInv(s, pt);
    }
  }

  /** A put keeps the invariant and takes the page table out of the handed-out set. */
  lemma PtcPutInv(s: MmuState, force: bool, pt: Option<PageTable>)
    requires Inv(s) && (pt.Some? ==> pt.value in s.inUse)
    ensures var t := PtcPut(s, force, pt);
      Inv(t) && t.inUse == s.inUse - (if pt.Some? then {pt.value} else {})
  {
    if pt.Some? {
      var u := pt.value;
      if u.owner.PoolOf? {
        PtpPutInv(s, force, u);
      } else {
        ReturnBlockInv(s, u);
        CacheReleaseInv(s.(inUse := s.inUse - {u}), force, u);
      }
    }
  }

  // ---------------------------------------------------------------- behaviour

  /** The shift a pool stores is order_base_2 of the requested size. */
  lemma PoolShiftIsOrder(size: nat)
    requires 0x80 < size <= BlockSize
    ensures PoolShift(size) as nat == OrderBase2(size)
  {
    PoolShiftRange(size);
  }

  /** The mask has a bit for each of the 0x1000 >> shift slots of the parent, and no other. */
  lemma PoolMaskSlots(shift: bv8, k: bv16)
    requires 8 <= shift <= 12 && k < 16
    ensures PoolMask(shift) & Bit(k) != 0 <==> k < Shr(0x1000, shift)
  {
  }

  /** The page table a pool hands out for slot FreeSlot(p) sits at that slot's
      offset in the parent and shares the parent's memory. */
  lemma SlotTableOffset(p: Pool, id: nat)
    requires p.free != 0 && 8 <= p.shift <= 12
    ensures var pt := SlotTable(p, id);
      && Shr(pt.base, p.shift) == FreeSlot(p) && pt.base == Shl(FreeSlot(p), p.shift)
      && pt.owner == PoolOf(id) && pt.memory == p.parent.memory && pt.addr == p.parent.addr + pt.base as nat
  {
    ShlShr(FreeSlot(p), p.shift);
  }

  /** The slot taken is the lowest free one: it was free and every lower slot was taken. */
  lemma FreeSlotLowest(p: Pool, slot: bv16)
    requires p.free != 0 && slot == FreeSlot(p)
    ensures p.free & Bit(slot) != 0 && forall j: bv16 | j < slot :: p.free & Bit(j) == 0
  {
    forall j: bv16 | j < slot ensures p.free & Bit(j) == 0 {
      BelowLowest(p.free, j);
    }
  }

  /** Taken(p) clears the bit of the lowest free slot. */
  lemma TakenFree(p: Pool, slot: bv16)
    requires p.free != 0 && slot == FreeSlot(p)
    ensures Taken(p) == p.(free := p.free & !Bit(slot))
  {
  }

  /** Taking the lowest free slot clears its bit and no other: the slot was
      free, and setting its bit again gives back the old mask. */
  lemma TakenClearsSlot(p: Pool, slot: bv16)
    requires p.free != 0 && slot == FreeSlot(p)
    ensures p.free & Bit(slot) != 0
    ensures (p.free & !Bit(slot)) & Bit(slot) == 0 && (p.free & !Bit(slot)) | Bit(slot) == p.free
  {
    ClearedBitRestored(p.free, slot);
  }

  /** A get from pool `id` takes its lowest free slot (see FreeSlotLowest), and
      the pool leaves the availability list exactly when no free slot remains. */
  lemma TakeSlotLowest(s: MmuState, id: nat)
    requires Inv(s) && id in s.avail
    ensures var g := TakeSlot(s, id);
      && g.pt == Some(SlotTable(s.pools[id], id))
      && g.state.pools == s.pools[id := Taken(s.pools[id])]
      && (id in g.state.avail <==> Taken(s.pools[id]).free != 0)
  {
    assert PoolsOk(TakeSlot(s, id).state) by { TakeSlotPools(s, id); }
  }

  /** A get that finds no pool with a free slot creates one over a fresh block:
      its shift is order_base_2(size), its mask has a bit per slot, and the page
      table handed out is its slot 0, at the parent's own address. */
  lemma FreshPoolShape(s: MmuState, size: nat, a: Allocations)
    requires Inv(s) && 0x80 < size <= BlockSize && s.avail == []
    requires PtpGet(s, size, a).pt.Some?
    ensures var g := PtpGet(s, size, a);
      var id := s.nextPool;
      var p := g.state.pools[id];
      var pt := g.pt.value;
      && id !in s.pools && g.state.pools.Keys == s.pools.Keys + {id}
      && p.shift as nat == OrderBase2(size)
      && p.mask == PoolMask(p.shift)
      && p.free | Bit(0) == p.mask && p.free & Bit(0) == 0
      && pt.owner == PoolOf(id) && pt.base == 0 && pt.memory == p.parent.memory && pt.addr == p.parent.addr
      && p.parent.memory.size == BlockSize
  {
    CacheGetBlock(s, BlockSize, a);
    var g := CacheGet(s, BlockSize, a);
    var id := g.state.nextPool;
    var np := NewPool(g.pt.value, size);
    PoolShiftIsOrder(size);
    assert id !in s.pools;
    assert FreeSlot(np) == 0 by {
      FullMaskLowest(np.shift);
    }
    assert Taken(np).free | Bit(0) == np.mask by {
      ClearedBitRestored(np.mask, 0);
    }
  }

  /** The page table a put returns is a taken slot of its pool. */
  lemma PutSlotTaken(s: MmuState, pt: PageTable)
    requires Inv(s) && pt in s.inUse && pt.owner.PoolOf?
    ensures pt.owner.id in s.pools
    ensures var p := s.pools[pt.owner.id];
      var slot := Shr(pt.base, p.shift);
      8 <= p.shift <= 12 && slot < 16 && p.mask & Bit(slot) != 0 && p.free & Bit(slot) == 0
  {
    assert InUseOk(s, pt);
  }

  /** A put of a slot while another page table of the same pool is still
      handed out keeps the pool: its slot is returned and nothing is freed. */
  lemma PtpPutKeepsPool(s: MmuState, force: bool, pt: PageTable)
    requires Inv(s) && pt in s.inUse && pt.owner.PoolOf?
    requires exists u :: u in s.inUse && u != pt && u.owner == pt.owner
    ensures pt.owner.id in s.pools && 8 <= s.pools[pt.owner.id].shift <= 12
    ensures Shr(pt.base, s.pools[pt.owner.id].shift) < 16
    ensures PtpPut(s, force, pt) == KeepPool(s, pt)
  {
    var u :| u in s.inUse && u != pt && u.owner == pt.owner;
    assert InUseOk(s, pt) && InUseOk(s, u);
    var p := s.pools[pt.owner.id];
    SlotsDistinct(p, pt, u);
    OtherSlotKeepsPool(p, pt.base, u.base);
  }

  /** Returning the slot a take handed out gives back the pool as it was. */
  lemma TakeReturnPool(p: Pool, id: nat)
    requires p.free != 0 && 8 <= p.shift <= 12
    ensures Shr(SlotTable(p, id).base, p.shift) == FreeSlot(p)
    ensures Returned(Taken(p), SlotTable(p, id).base) == p
  {
    var slot := FreeSlot(p);
    ShlShr(slot, p.shift);
    TakenClearsSlot(p, slot);
  }

  /** A list without `x` is the list itself when `x` is not in it. */
  lemma {:induction false} WithoutAbsent(s: seq<nat>, x: nat)
    requires x !in s
    ensures Without(s, x) == s
  {
    if s != [] {
      WithoutAbsent(s[1..], x);
      assert s == [s[0]] + s[1..];
    }
  }

  /** Unlinking the head of a list without duplicates and linking it back at
      the head gives back the list. */
  lemma WithoutHead(s: seq<nat>)
    requires s != [] && NoDuplicates(s)
    ensures [s[0]] + Without(s, s[0]) == s
  {
    assert s[0] !in s[1..];
    WithoutAbsent(s[1..], s[0]);
  }

  /** Keeping the pool after a take from the head of the availability list
      gives back the state before the take. */
  lemma KeepAfterTake(s: MmuState, id: nat)
    requires id in s.pools && s.pools[id].free != 0 && 8 <= s.pools[id].shift <= 12
    requires s.avail != [] && s.avail[0] == id && NoDuplicates(s.avail)
    requires SlotTable(s.pools[id], id) !in s.inUse
    ensures Shr(SlotTable(s.pools[id], id).base, s.pools[id].shift) < 16
    ensures KeepPool(TakeSlot(s, id).state, SlotTable(s.pools[id], id)) == s
  {
    var p := s.pools[id];
    TakeReturnPool(p, id);
    if Taken(p).free == 0 {
      WithoutHead(s.avail);
    }
    KeepRestores(s, TakeSlot(s, id).state, SlotTable(p, id));
  }

  /** Keeping the pool gives back s from any state t that differs from s only
      by a slot of the pool taken, with the list adjusted as keeping undoes. */
  lemma KeepRestores(s: MmuState, t: MmuState, pt: PageTable)
    requires pt.owner.PoolOf? && pt.owner.id in s.pools && pt.owner.id in t.pools
    requires 8 <= t.pools[pt.owner.id].shift <= 12 && Shr(pt.base, t.pools[pt.owner.id].shift) < 16
    requires Returned(t.pools[pt.owner.id], pt.base) == s.pools[pt.owner.id]
    requires t.pools == s.pools[pt.owner.id := t.pools[pt.owner.id]]
    requires (if t.pools[pt.owner.id].free == 0 then [pt.owner.id] + t.avail else t.avail) == s.avail
    requires pt !in s.inUse && t.inUse == s.inUse + {pt}
    requires t == s.(pools := t.pools, avail := t.avail, inUse := t.inUse)
    ensures KeepPool(t, pt) == s
  {
    assert KeepPool(t, pt).pools == s.pools;
  }

  /** A get served by the pool at the head of the availability list, followed
      by the put of the page table it handed out, gives back the state before
      the get: the slot is free again, the pool is back at the head of the
      list if it had left it, and the page table is no longer handed out. */
  lemma PtpGetPutRoundTrip(s: MmuState, size: nat, force: bool, a: Allocations)
    requires Inv(s) && size <= BlockSize && a.subRecord && s.avail != []
    ensures var g := PtpGet(s, size, a);
      g.pt.Some? && g.pt.value.owner.PoolOf? && Inv(g.state) && g.pt.value in g.state.inUse
    ensures var g := PtpGet(s, size, a);
      PtpPut(g.state, force, g.pt.value) == s
  {
    PtpGetHeadInv(s, size, a);
    var id := s.avail[0];
    var p := s.pools[id];
    TakeSlotFresh(s, id);
    KeepAfterTake(s, id);
    TakeReturnPool(p, id);
    assert p.free != p.mask;
  }

  /** A put that frees the last taken slot of a pool discards the pool and
      hands its parent to the cache class for BlockSize, which keeps it as its
      newest idle block unless it already counts MaxIdle or the put is forced,
      in which case the parent's memory is released. */
  lemma PtpPutDropsPool(s: MmuState, force: bool, pt: PageTable)
    requires Inv(s) && pt in s.inUse && pt.owner.PoolOf?
    ensures pt.owner.id in s.pools && 8 <= s.pools[pt.owner.id].shift <= 12
    ensures var id := pt.owner.id;
      var p := s.pools[id];
      var slot := Shr(pt.base, p.shift);
      var t := PtpPut(s, force, pt);
      var i := IndexOfClass(s.classes, BlockSize);
      p.free | Bit(slot) == p.mask ==>
        && id !in t.pools && t.pools == s.pools - {id} && id !in t.avail
        && 0 <= i && p.parent.owner == ClassOf(BlockSize)
        && var c := s.classes[i];
        && (c.refs < MaxIdle && !force ==>
              t.classes == s.classes[i := c.(items := c.items + [p.parent], refs := c.refs + 1)]
              && t.released == s.released)
        && (!(c.refs < MaxIdle && !force) ==>
              t.classes == s.classes && t.released == s.released + [p.parent.memory])
  {
    var id := pt.owner.id;
    var p := s.pools[id];
    assert InUseOk(s, pt);
    if Returned(p, pt.base).free == p.mask {
      assert IsBlock(p.parent, BlockSize, s.nextMem);
      var d := DropPool(s, pt);
      assert d.classes == s.classes && d.pools == s.pools - {id};
      assert id !in d.avail;
    }
  }

  /** The memory of a list of page tables with one appended. */
  lemma MemoriesAppend(items: seq<PageTable>, pt: PageTable)
    ensures Memories(items + [pt]) == Memories(items) + [pt.memory]
  {
    assert forall k | 0 <= k < |items| :: (items + [pt])[k] == items[k];
  }

  /** The memory of a non-empty list of page tables, first one first. */
  lemma MemoriesFirst(items: seq<PageTable>)
    requires items != []
    ensures Memories(items) == [items[0].memory] + Memories(items[1..])
  {
    assert forall k | 0 < k < |items| :: items[1..][k - 1] == items[k];
  }

  /** Replacing the class at index i changes the idle memory by exactly the
      difference between the idle lists of the old and the new class. */
  lemma {:induction false} IdleMemoryUpdate(classes: seq<CacheClass>, i: nat, c: CacheClass)
    requires i < |classes|
    ensures multiset(IdleMemory(classes[i := c])) + multiset(Memories(classes[i].items))
         == multiset(IdleMemory(classes)) + multiset(Memories(c.items))
  {
    var d := classes[i := c];
    var rest := classes[1..];
    assert IdleMemory(classes) == Memories(classes[0].items) + IdleMemory(rest);
    if i == 0 {
      assert d[1..] == rest;
      assert IdleMemory(d) == Memories(c.items) + IdleMemory(rest);
    } else {
      assert d[1..] == rest[i - 1 := c] && rest[i - 1] == classes[i] && d[0] == classes[0];
      IdleMemoryUpdate(rest, i - 1, c);
      assert IdleMemory(d) == Memories(classes[0].items) + IdleMemory(rest[i - 1 := c]);
      AddToBothSides(multiset(Memories(classes[0].items)), multiset(IdleMemory(rest[i - 1 := c])),
                     multiset(IdleMemory(rest)), multiset(Memories(classes[i].items)), multiset(Memories(c.items)));
    }
  }

  lemma AddToBothSides(head: multiset<Memory>, after: multiset<Memory>, before: multiset<Memory>,
                       out: multiset<Memory>, into: multiset<Memory>)
    requires after + out == before + into
    ensures (head + after) + out == (head + before) + into
  {
    assert forall x :: ((head + after) + out)[x] == head[x] + (after + out)[x];
  }

  lemma CancelAppended(after: multiset<Memory>, before: multiset<Memory>, kept: multiset<Memory>, added: multiset<Memory>)
    requires after + kept == before + (kept + added)
    ensures after == before + added
  {
    forall x ensures after[x] == (before + added)[x] {
      assert (after + kept)[x] == (before + (kept + added))[x];
    }
  }

  lemma CancelFirst(after: multiset<Memory>, before: multiset<Memory>, kept: multiset<Memory>, taken: multiset<Memory>)
    requires after + (taken + kept) == before + kept
    ensures after + taken == before
  {
    forall x ensures (after + taken)[x] == before[x] {
      assert (after + (taken + kept))[x] == (before + kept)[x];
    }
  }

  /** The cache path of ptc_put loses no memory and makes none: the block's
      memory joins the idle blocks or the memory released. */
  lemma CacheReleaseKeepsMemory(s: MmuState, force: bool, pt: PageTable)
    requires pt.owner.ClassOf? && IndexOfClass(s.classes, pt.owner.size) >= 0
    ensures var t := CacheRelease(s, force, pt);
      multiset(IdleMemory(t.classes)) + multiset(t.released)
        == multiset(IdleMemory(s.classes)) + multiset(s.released) + multiset{pt.memory}
  {
    var i := IndexOfClass(s.classes, pt.owner.size);
    var t := CacheRelease(s, force, pt);
    if s.classes[i].refs < MaxIdle && !force {
      KeptBlockMemory(s.classes, i, pt);
      AddReleased(multiset(IdleMemory(t.classes)), multiset(IdleMemory(s.classes)), multiset(s.released), multiset{pt.memory});
    } else {
      assert multiset(t.released) == multiset(s.released) + multiset{pt.memory};
    }
  }

  /** A block kept as the newest idle block of class i adds its memory, and
      nothing else, to the idle memory. */
  lemma KeptBlockMemory(classes: seq<CacheClass>, i: nat, pt: PageTable)
    requires i < |classes|
    ensures multiset(IdleMemory(WithIdle(classes, i, pt))) == multiset(IdleMemory(classes)) + multiset{pt.memory}
  {
    var w := WithIdle(classes, i, pt);
    UpdatedIdleMemory(classes, i, w[i], pt);
    assert w == classes[i := w[i]];
  }

  /** A class that gains one block at the end adds that block's memory to the idle memory. */
  lemma UpdatedIdleMemory(classes: seq<CacheClass>, i: nat, d: CacheClass, pt: PageTable)
    requires i < |classes| && d.items == classes[i].items + [pt]
    ensures multiset(IdleMemory(classes[i := d])) == multiset(IdleMemory(classes)) + multiset{pt.memory}
  {
    AppendedMemory(classes[i].items, pt);
    IdleMemoryUpdate(classes, i, d);
    CancelAppended(multiset(IdleMemory(classes[i := d])), multiset(IdleMemory(classes)),
                   multiset(Memories(classes[i].items)), multiset{pt.memory});
  }

  /** Appending a page table adds its memory to the memory of the list. */
  lemma AppendedMemory(items: seq<PageTable>, pt: PageTable)
    ensures multiset(Memories(items + [pt])) == multiset(Memories(items)) + multiset{pt.memory}
  {
    MemoriesAppend(items, pt);
  }

  lemma AddReleased(after: multiset<Memory>, before: multiset<Memory>, released: multiset<Memory>, added: multiset<Memory>)
    requires after == before + added
    ensures after + released == before + released + added
  {
    forall x ensures (after + released)[x] == (before + released + added)[x] {
    }
  }

  /** ptc_put loses no memory and makes none. A whole block's memory joins the
      idle blocks or the memory released; a slot's put adds nothing there
      unless it discards its pool, whose parent's memory then does. */
  lemma PtcPutKeepsMemory(s: MmuState, force: bool, pt: PageTable)
    requires Inv(s) && pt in s.inUse
    ensures pt.owner.PoolOf? ==> pt.owner.id in s.pools
    ensures var t := PtcPut(s, force, Some(pt));
      var added := if pt.owner.ClassOf? then multiset{pt.memory}
                   else if pt.owner.id in t.pools then multiset{}
                   else multiset{s.pools[pt.owner.id].parent.memory};
      multiset(IdleMemory(t.classes)) + multiset(t.released)
        == multiset(IdleMemory(s.classes)) + multiset(s.released) + added
  {
    assert InUseOk(s, pt);
    if pt.owner.ClassOf? {
      CacheReleaseKeepsMemory(s.(inUse := s.inUse - {pt}), force, pt);
    } else {
      var p := s.pools[pt.owner.id];
      if Returned(p, pt.base).free == p.mask {
        assert PoolsOk(s) && s.pools != map[];
        assert IsBlock(p.parent, BlockSize, s.nextMem);
        CacheReleaseKeepsMemory(DropPool(s, pt), force, p.parent);
      }
    }
  }

  /** ptc_get with an alignment below a block hands out a slot of a pool; with
      any other alignment, a whole block of the class for `size`, at offset 0
      of memory of that size. */
  lemma PtcGetRoute(s: MmuState, size: nat, align: nat, a: Allocations)
    requires Inv(s) && (align < BlockSize && s.avail == [] ==> 0x80 < align)
    ensures var g := PtcGet(s, size, align, a);
      g.pt.Some? ==>
        && (align < BlockSize ==> g.pt.value.owner.PoolOf?)
        && (align >= BlockSize ==> g.pt.value.owner == ClassOf(size) && g.pt.value.base == 0
                                   && g.pt.value.memory.size == size && g.pt.value.addr == g.pt.value.memory.addr)
  {
    if align < BlockSize {
      PtpGetInv(s, align, a);
    } else {
      CacheGetBlock(s, size, a);
    }
  }

  /** A whole block put back, unforced, into a class that holds no idle block
      and counts fewer than MaxIdle is the very block the next ptc_get of that
      size hands out, whatever the allocations would give, and that get gives
      back the state before the put. */
  lemma PtcPutGetRoundTrip(s: MmuState, pt: PageTable, align: nat, a: Allocations)
    requires Inv(s) && pt in s.inUse && pt.owner.ClassOf? && BlockSize <= align
    requires IndexOfClass(s.classes, pt.owner.size) >= 0
    requires var c := s.classes[IndexOfClass(s.classes, pt.owner.size)]; c.refs < MaxIdle && c.items == []
    ensures Inv(PtcPut(s, false, Some(pt)))
    ensures PtcGet(PtcPut(s, false, Some(pt)), pt.owner.size, align, a) == Got(s, Some(pt))
  {
    PtcPutInv(s, false, Some(pt));
    var i := IndexOfClass(s.classes, pt.owner.size);
    var t := PtcPut(s, false, Some(pt));
    assert t.classes == WithIdle(s.classes, i, pt);
    IndexOfClassBySize(s.classes, t.classes, pt.owner.size);
    assert WithoutOldest(t.classes, i) == s.classes;
  }

  /** The cache path of ptc_get loses no memory and releases none. A block it
      hands out over existing memory was idle, and its memory leaves the idle
      lists; any other block is over new memory, whose id was never used. */
  lemma CacheGetKeepsMemory(s: MmuState, size: nat, a: Allocations)
    requires ClassesOk(s)
    ensures var g := CacheGet(s, size, a);
      && g.state.released == s.released
      && (g.pt.Some? && g.pt.value.memory.id < s.nextMem ==>
            multiset(IdleMemory(g.state.classes)) + multiset{g.pt.value.memory} == multiset(IdleMemory(s.classes)))
      && (g.pt.Some? && g.pt.value.memory.id >= s.nextMem ==>
            && g.pt.value.memory.id == s.nextMem && g.state.nextMem == s.nextMem + 1
            && multiset(IdleMemory(g.state.classes)) == multiset(IdleMemory(s.classes)))
      && (g.pt.None? ==> multiset(IdleMemory(g.state.classes)) == multiset(IdleMemory(s.classes)))
  {
    var i := IndexOfClass(s.classes, size);
    if 0 <= i {
      var c := s.classes[i];
      if c.items != [] {
        assert ClassOk(c, s.nextMem) && IsBlock(c.items[0], c.size, s.nextMem);
        TakenBlockMemory(s.classes, i);
      }
    } else if a.classRecord {
      var classes := [CacheClass(size, 0, [])] + s.classes;
      assert classes[1..] == s.classes;
      assert IdleMemory(classes) == IdleMemory(s.classes);
    }
  }

  /** Taking the oldest idle block of a class takes exactly its memory out of the idle memory. */
  lemma TakenBlockMemory(classes: seq<CacheClass>, i: nat)
    requires i < |classes| && classes[i].items != [] && |classes[i].items| <= classes[i].refs
    ensures multiset(IdleMemory(WithoutOldest(classes, i))) + multiset{classes[i].items[0].memory}
         == multiset(IdleMemory(classes))
  {
    var w := WithoutOldest(classes, i);
    IdleMemoryUpdate(classes, i, w[i]);
    MemoriesFirst(classes[i].items);
    assert w == classes[i := w[i]];
    CancelFirst(multiset(IdleMemory(w)), multiset(IdleMemory(classes)),
                multiset(Memories(w[i].items)), multiset{classes[i].items[0].memory});
  }

  // ---------------------------------------------------------------- counting idle blocks

  /** Every class counts exactly its idle blocks. */
  predicate RefsCountIdle(classes: seq<CacheClass>)
  {
    forall i | 0 <= i < |classes| :: classes[i].refs == |classes[i].items|
  }

  /** The cache path of a get keeps every class counting its idle blocks. */
  lemma CacheGetCountsIdle(s: MmuState, size: nat, a: Allocations)
    requires ClassesOk(s) && RefsCountIdle(s.classes)
    ensures RefsCountIdle(CacheGet(s, size, a).state.classes)
  {
    var f := CacheFind(s.classes, size, a.classRecord);
    if f.Some? {
      var (classes, i) := f.value;
      assert RefsCountIdle(classes) by {
        if IndexOfClass(s.classes, size) < 0 {
          assert forall j | 1 <= j < |classes| :: classes[j] == s.classes[j - 1];
        }
      }
    }
  }

  /** ptc_get keeps every class counting its idle blocks. */
  lemma PtcGetCountsIdle(s: MmuState, size: nat, align: nat, a: Allocations)
    requires Inv(s) && RefsCountIdle(s.classes) && (align < BlockSize && s.avail == [] ==> 0x80 < align)
    ensures RefsCountIdle(PtcGet(s, size, align, a).state.classes)
  {
    if align < BlockSize {
      if a.subRecord && s.avail == [] && a.poolRecord {
        CacheGetCountsIdle(s, BlockSize, a);
      }
    } else {
      CacheGetCountsIdle(s, size, a);
    }
  }

  /** The cache path of a put keeps every class counting its idle blocks. */
  lemma CacheReleaseCountsIdle(s: MmuState, force: bool, pt: PageTable)
    requires RefsCountIdle(s.classes) && pt.owner.ClassOf? && IndexOfClass(s.classes, pt.owner.size) >= 0
    ensures RefsCountIdle(CacheRelease(s, force, pt).classes)
  {
  }

  /** ptc_put keeps every class counting its idle blocks, so across gets and
      puts no class counts more than MaxIdle idle blocks. */
  lemma PtcPutCountsIdle(s: MmuState, force: bool, pt: Option<PageTable>)
    requires Inv(s) && RefsCountIdle(s.classes) && (pt.Some? ==> pt.value in s.inUse)
    ensures RefsCountIdle(PtcPut(s, force, pt).classes)
  {
    if pt.Some? {
      var u := pt.value;
      if u.owner.PoolOf? {
        var p := s.pools[u.owner.id];
        assert InUseOk(s, u);
        if Returned(p, u.base).free == p.mask {
          DropPoolInv(s, u);
          CacheReleaseCountsIdle(DropPool(s, u), force, p.parent);
        }
      } else {
        assert InUseOk(s, u);
        CacheReleaseCountsIdle(s.(inUse := s.inUse - {u}), force, u);
      }
    }
  }

  /** Leaks counts the classes holding idle blocks: none exactly when every
      idle list is empty. */
  lemma {:induction false} NoLeaks(classes: seq<CacheClass>)
    ensures Leaks(classes) == 0 <==> forall i | 0 <= i < |classes| :: classes[i].items == []
  {
    if classes != [] {
      NoLeaks(classes[1..]);
      if Leaks(classes) == 0 {
        forall i | 0 <= i < |classes| ensures classes[i].items == [] {
          if i > 0 {
            assert classes[i] == classes[1..][i - 1];
          }
        }
      } else if classes[0].items == [] {
        var i :| 0 <= i < |classes[1..]| && classes[1..][i].items != [];
        assert classes[i + 1].items != [];
      }
    }
  }

  /** The memory dump releases is that of every idle block, each once. */
  lemma {:induction false} IdleMemoryOfEveryBlock(classes: seq<CacheClass>)
    ensures forall i, k | 0 <= i < |classes| && 0 <= k < |classes[i].items| :: classes[i].items[k].memory in IdleMemory(classes)
    ensures |IdleMemory(classes)| == IdleCount(classes)
  {
    if classes != [] {
      IdleMemoryOfEveryBlock(classes[1..]);
      forall i, k | 0 <= i < |classes| && 0 <= k < |classes[i].items|
        ensures classes[i].items[k].memory in IdleMemory(classes)
      {
        if i == 0 {
          assert Memories(classes[0].items)[k] == classes[i].items[k].memory;
        } else {
          assert classes[i] == classes[1..][i - 1];
        }
      }
    }
  }

  /** The number of idle blocks over all classes. */
  function IdleCount(classes: seq<CacheClass>): nat
  {
    if classes == [] then 0 else |classes[0].items| + IdleCount(classes[1..])
  }

  /** ptc_dump empties every idle list and releases the memory of its blocks,
      but leaves each class's counter as it was: once a class that counted its
      idle blocks held any, it no longer counts them. A fini that follows warns
      about no class. */
  lemma DumpKeepsCounts(s: MmuState)
    requires RefsCountIdle(s.classes)
    ensures var t := PtcDump(s);
      && |t.classes| == |s.classes|
      && (forall i | 0 <= i < |s.classes| :: t.classes[i].items == [] && t.classes[i].refs == s.classes[i].refs
                                             && t.classes[i].size == s.classes[i].size)
      && |t.released| == |s.released| + IdleCount(s.classes)
      && (RefsCountIdle(t.classes) <==> Leaks(s.classes) == 0)
      && Leaks(t.classes) == 0
  {
    var t := PtcDump(s);
    NoLeaks(s.classes);
    NoLeaks(t.classes);
    IdleMemoryOfEveryBlock(s.classes);
    if !RefsCountIdle(t.classes) {
      var i :| 0 <= i < |t.classes| && t.classes[i].refs != |t.classes[i].items|;
      assert s.classes[i].items != [];
    }
  }

  /** ptc_dump keeps the invariant. */
  lemma DumpInv(s: MmuState)
    requires Inv(s)
    ensures Inv(PtcDump(s))
  {
    var t := PtcDump(s);
    forall sz: nat ensures IndexOfClass(t.classes, sz) == IndexOfClass(s.classes, sz) {
      IndexOfClassBySize(t.classes, s.classes, sz);
    }
    assert ClassesOk(t) by {
      forall i | 0 <= i < |t.classes| ensures ClassOk(t.classes[i], t.nextMem) {
        assert ClassOk(s.classes[i], s.nextMem);
      }
    }
    PoolsFrame(s, t);
    InUseFrame(s, t);
  }
}
