/** The legacy virtual-memory interface of drm/nouveau/nvkm/subdev/mmu/base.c
    (the nvkm_vm_* functions): reserving an address range and its page tables,
    mapping memory into it, unmapping, releasing, and the reference counting
    of address spaces.

    The range allocator (nvkm_mm_*), the page-table writers (nvkm_vmm_ptes_*),
    the VMM constructor and hooks and the memory-object helpers are not part of
    this model: their results are parameters, and each call to them is
    recorded, with its arguments, in the log of the address space it is made
    for, so that the order of the calls is part of what the contracts state. */
module LegacyVm {
  import opened Options
  import opened MemoryObjects
  import opened KernelBits

  type u32 = x: nat | x < 0x1_0000_0000
  type u64 = x: nat | x < 0x1_0000_0000_0000_0000

  /** Addresses are kept by the range allocator in units of 4 KiB (<< 12). */
  const UnitSize: nat := 0x1000

  /** -EINVAL */
  const EInval: int := -22

  /** NV_MEM_ACCESS_WO and NV_MEM_ACCESS_SYS, the access bits the map arguments read. */
  const AccessWO: bv32 := 2
  const AccessSYS: bv32 := 4

  /** device->card_type, as far as the map arguments distinguish it. */
  datatype CardType = Nv04 | Nv10 | Nv20 | Nv30 | Nv40 | Nv50 | NvC0 | NvE0 | Gm100 | Gp100 | Gv100

  /** The argument record nvkm_vm_map_ hands to the valid() hook: NV50's
      nv50_vmm_map_v0, the gf100_vmm_map_v0 of Fermi up to Pascal, or none
      (argv NULL, argc 0). Every record has version 0. */
  datatype MapArgs =
    | NoArgs
    | Nv50Args(ro: bool, priv: bool, kind: bv8, comp: bv8)
    | Gf100Args(vol: bool, ro: bool, priv: bool, kind: bv8)

  /** The argument record built for a mapping with access bits `access` of
      memory with type `memtype` and target `target`. */
  function MapArgsFor(card: CardType, access: bv32, memtype: bv32, target: Target): (args: MapArgs)
    ensures args.Nv50Args? <==> card == Nv50
    ensures args.Gf100Args? <==> card == NvC0 || card == NvE0 || card == Gm100 || card == Gp100
  {
    match card
    case Nv50 =>
      Nv50Args(access & AccessWO == 0, access & AccessSYS != 0,
               (memtype & 0x7f) as bv8, ((memtype & 0x180) >> 7) as bv8)
    case NvC0 | NvE0 | Gm100 | Gp100 =>
      Gf100Args(target != Vram, access & AccessWO == 0, access & AccessSYS != 0,
                (memtype & 0xff) as bv8)
    case _ => NoArgs
  }

  /** The access bits an argument record carries, read back from ro and priv. */
  function AccessOf(args: MapArgs): bv32
    requires !args.NoArgs?
  {
    (if args.ro then 0 else AccessWO) | (if args.priv then AccessSYS else 0)
  }

  /** The record loses nothing of the WO and SYS access bits, and nothing else of
      the access mask reaches it. */
  lemma MapArgsKeepAccess(card: CardType, access: bv32, memtype: bv32, target: Target)
    requires !MapArgsFor(card, access, memtype, target).NoArgs?
    ensures AccessOf(MapArgsFor(card, access, memtype, target)) == access & (AccessWO | AccessSYS)
  {
    var args := MapArgsFor(card, access, memtype, target);
    assert args.ro <==> access & AccessWO == 0;
    assert args.priv <==> access & AccessSYS != 0;
    AccessBitsSplit(access);
  }

  lemma AccessBitsSplit(access: bv32)
    ensures access & (AccessWO | AccessSYS)
         == (if access & AccessWO == 0 then 0 else AccessWO) | (if access & AccessSYS != 0 then AccessSYS else 0)
  {
    SingleBit(access, AccessWO);
    SingleBit(access, AccessSYS);
    assert access & (AccessWO | AccessSYS) == (access & AccessWO) | (access & AccessSYS);
  }

  lemma SingleBit(access: bv32, b: bv32)
    requires b == AccessWO || b == AccessSYS
    ensures access & b == 0 || access & b == b
  {
  }

  /** On NV50 kind and comp together are the low nine bits of the memory type:
      kind its low seven, comp the two above. */
  lemma Nv50ArgsKeepMemtype(access: bv32, memtype: bv32, target: Target)
    ensures var args := MapArgsFor(Nv50, access, memtype, target);
      && args.kind < 0x80 && args.comp < 4
      && ((args.comp as bv32) << 7) | (args.kind as bv32) == memtype & 0x1ff
  {
    var kind := memtype & 0x7f;
    var comp := (memtype & 0x180) >> 7;
    var args := MapArgsFor(Nv50, access, memtype, target);
    assert args.kind == kind as bv8 && args.comp == comp as bv8;
    KindCompSplit(memtype);
    assert args.kind as bv32 == kind;
    assert args.comp as bv32 == comp;
  }

  lemma KindCompSplit(memtype: bv32)
    ensures memtype & 0x7f < 0x80 && (memtype & 0x180) >> 7 < 4
    ensures (((memtype & 0x180) >> 7) << 7) | (memtype & 0x7f) == memtype & 0x1ff
  {
    assert ((memtype & 0x180) >> 7) << 7 == memtype & 0x180;
  }

  /** From Fermi to Pascal the record carries what the NV50 record does: the
      same ro and priv, and a kind whose low seven bits are NV50's kind and
      whose top bit is the low bit of NV50's comp. */
  lemma Gf100AgreesWithNv50(card: CardType, access: bv32, memtype: bv32, target: Target)
    requires card == NvC0 || card == NvE0 || card == Gm100 || card == Gp100
    ensures var gf := MapArgsFor(card, access, memtype, target);
      var nv := MapArgsFor(Nv50, access, memtype, target);
      gf.ro == nv.ro && gf.priv == nv.priv
    ensures var gf := MapArgsFor(card, access, memtype, target);
      var nv := MapArgsFor(Nv50, access, memtype, target);
      gf.kind & 0x7f == nv.kind && gf.kind >> 7 == nv.comp & 1
  {
    var gf := MapArgsFor(card, access, memtype, target);
    var nv := MapArgsFor(Nv50, access, memtype, target);
    Gf100KindBits(memtype, gf.kind, nv.kind, nv.comp);
  }

  /** The one field the Fermi-to-Pascal record adds, vol, depends on the
      target alone: neither the access bits nor the memory type change it. */
  lemma Gf100VolOfTarget(card: CardType, access: bv32, memtype: bv32, target: Target)
    requires card == NvC0 || card == NvE0 || card == Gm100 || card == Gp100
    ensures forall access', memtype' ::
      MapArgsFor(card, access', memtype', target).vol == MapArgsFor(card, access, memtype, target).vol
  {
  }

  lemma Gf100KindBits(memtype: bv32, kind: bv8, nvKind: bv8, nvComp: bv8)
    requires kind == (memtype & 0xff) as bv8
    requires nvKind == (memtype & 0x7f) as bv8 && nvComp == ((memtype & 0x180) >> 7) as bv8
    ensures kind & 0x7f == nvKind && kind >> 7 == nvComp & 1
  {
  }

  // ---------------------------------------------------------------- units

  /** msize in nvkm_vm_get: the size in 4 KiB units, as the u32 it is stored in. */
  function Units(size: u64): u32
  {
    (size / UnitSize) % 0x1_0000_0000
  }

  /** A page-aligned size below 2^44 bytes is exactly msize units; above it the
      unit count wraps. */
  lemma UnitsExact(size: u64)
    requires size % UnitSize == 0 && size < 0x1000_0000_0000
    ensures Units(size) * UnitSize == size
  {
  }

  /** align in nvkm_vm_get: a page of 2^pageShift bytes in 4 KiB units. */
  function PageUnits(pageShift: nat): (align: nat)
    requires pageShift < 31
  {
    Pow2(pageShift) / UnitSize
  }

  /** For pages of at least 4 KiB the alignment is 2^(pageShift - 12) units. */
  lemma {:induction false} PageUnitsPower(pageShift: nat)
    requires 12 <= pageShift < 31
    ensures PageUnits(pageShift) == Pow2(pageShift - 12)
    ensures PageUnits(pageShift) * UnitSize == Pow2(pageShift)
  {
    Pow2Split(12, pageShift - 12);
  }

  lemma {:induction false} Pow2Split(m: nat, n: nat)
    ensures Pow2(m + n) == Pow2(m) * Pow2(n)
  {
    if m > 0 {
      Pow2Split(m - 1, n);
    }
  }

  /** ((u64)offset << 12) + delta: the address of byte `delta` of a range that
      starts at unit `offset`, in 64-bit arithmetic. */
  function RangeAddr(offset: u32, delta: u64): (addr: u64)
    ensures offset * UnitSize + delta < 0x1_0000_0000_0000_0000 ==> addr == offset * UnitSize + delta
  {
    (offset * UnitSize + delta) % 0x1_0000_0000_0000_0000
  }

  /** x << 12 on a u32 as C computes it, in 32 bits: nvkm_vm_get, nvkm_vm_put
      and nvkm_vm_unmap_at shift the node's offset and length this way, where
      nvkm_vm_map_ widens them to 64 bits first. */
  function Shl12(x: u32): (r: u32)
    ensures x < 0x10_0000 ==> r == x * UnitSize
    ensures r % UnitSize == 0
  {
    (x * UnitSize) % 0x1_0000_0000
  }

  /** The byte range nvkm_vm_unmap_at clears for a node: its start
      (offset << 12) + delta and its length length << 12, as written. */
  function UnmapRange(node: Node, delta: u64): (u64, u32)
  {
    ((Shl12(node.offset) + delta) % 0x1_0000_0000_0000_0000, Shl12(node.length))
  }

  /** The byte range nvkm_vm_map_ writes for a node, in 64-bit arithmetic. */
  function MapRange(node: Node, delta: u64): (u64, nat)
  {
    (RangeAddr(node.offset, delta), node.length * UnitSize)
  }

  /** A node starting at 4 GiB: map writes from 4 GiB, but unmap clears from
      address 0, since the offset loses its high bits in the 32-bit shift. */
  lemma UnmapRangeTruncated()
    ensures var node := Node(0x10_0000, 1, 12);
      MapRange(node, 0).0 == 0x1_0000_0000 && UnmapRange(node, 0).0 == 0
  {
  }

  /** The range unmap evidently means to clear: the one map writes, which
      is what the shifts as written compute for nodes below 4 GiB. */
  function WideUnmapRange(node: Node, delta: u64): (r: (u64, nat))
    ensures r == MapRange(node, delta)
  {
    ((Widened(node.offset) + delta) % 0x1_0000_0000_0000_0000, Widened(node.length))
  }

  /** (u64)x << 12: a u32 widened before the shift, which loses nothing. */
  function Widened(x: u32): u64
  {
    x * UnitSize
  }

  lemma UnmapRangeBelow4G(node: Node, delta: u64)
    requires node.offset < 0x10_0000 && node.length < 0x10_0000
    ensures UnmapRange(node, delta).0 == WideUnmapRange(node, delta).0
    ensures UnmapRange(node, delta).1 as nat == WideUnmapRange(node, delta).1
  {
    assert Shl12(node.offset) == node.offset * UnitSize;
    assert Shl12(node.length) == node.length * UnitSize;
  }

  // ---------------------------------------------------------------- address spaces

  /** The page-table writer nvkm_vm_map_ is handed: flat memory (func->mem),
      a scatter-gather table (func->sgl) or a page list (func->dma). */
  datatype PteWriter = MemWriter | SglWriter | DmaWriter

  /** A call made for an address space, with the arguments the model keeps;
      page sizes are given by their shift and addresses and sizes in bytes. */
  datatype Call =
    | MmHead(pageShift: nat, units: nat, align: nat)
    | MmFree(node: Node)
    | MmInit(offset: nat, length: nat, block: nat)
    | MmFini
    | VmmDtor
    | PtesGet(page: nat, addr: nat, size: nat)
    | PtesPut(page: nat, addr: nat, size: nat)
    | PtesMap(page: nat, addr: nat, size: nat, writer: PteWriter, memory: Memory)
    | PtesUnmap(page: nat, addr: nat, size: nat)
    | Validate(args: MapArgs)
    | TagsPut(held: Option<Memory>)
    | MemoryUnref(held: Option<Memory>)
    | MemoryRef(memory: Memory)
    | Join(inst: Memory)
    | Part(inst: Memory)

  /** struct nvkm_mm_node: a reserved range of `length` units at unit `offset`,
      for pages of 2^type bytes. */
  datatype Node = Node(offset: u32, length: u32, pageType: nat)

  /** The parts of vmm->func the legacy operations consult: the page sizes in
      table order, whether the first page size's descriptor has an unmap
      function, whether the hooks valid, join and part are set, and page_block. */
  datatype VmmFunc = VmmFunc(pages: seq<nat>, unmap: bool, valid: bool, join: bool, part: bool, pageBlock: u32)

  /** struct nvkm_mem: the memory to map, its memory type, and whether it
      comes with a scatter-gather table or a page list. */
  datatype MemNode = MemNode(memory: Memory, memtype: bv32, sg: bool, pages: bool, size: nat)

  /** struct nvkm_vm: an address space. */
  class Vm {
    const func: VmmFunc
    /** The address and size the VMM was constructed to cover. */
    const addr: nat
    const size: nat
    /** vm->refcount, and whether nvkm_vm_del has run. */
    var refcount: nat
    var deleted: bool
    /** The ranges reserved in vm->mm. */
    var nodes: multiset<Node>
    /** The calls made for this address space, in order. */
    var log: seq<Call>

    /** A VMM as its constructor returns it, holding one reference. */
    constructor (func: VmmFunc, addr: nat, size: nat)
      ensures this.func == func && this.addr == addr && this.size == size
      ensures refcount == 1 && !deleted && nodes == multiset{} && log == []
    {
      this.func, this.addr, this.size := func, addr, size;
      refcount, deleted := 1, false;
      nodes, log := multiset{}, [];
    }

    /** An address space is torn down exactly when its last reference goes. */
    ghost predicate Valid()
      reads this
    {
      deleted <==> refcount == 0
    }
  }

  /** struct nvkm_vma: a range of an address space and what is mapped into it. */
  class Vma {
    var node: Option<Node>
    var vm: Vm?
    var memory: Option<Memory>
    var tags: Option<nat>
    var offset: nat
    var access: bv32

    constructor ()
      ensures node == None && vm == null && memory == None && tags == None && offset == 0 && access == 0
    {
      node, vm, memory, tags, offset, access := None, null, None, None, 0, 0;
    }
  }

  /** The walk `while (page->shift != shift) page++` over the page sizes of a
      VMM: the first entry for `shift`. */
  method FindPage(pages: seq<nat>, shift: nat) returns (i: nat)
    requires shift in pages
    ensures i < |pages| && pages[i] == shift
    ensures forall j | 0 <= j < i :: pages[j] != shift
  {
    i := 0;
    while pages[i] != shift
      invariant i < |pages| && shift in pages[i..]
      invariant forall j | 0 <= j < i :: pages[j] != shift
      decreases |pages| - i
    {
      assert pages[i..] == [pages[i]] + pages[i + 1..];
      i := i + 1;
    }
  }

  /** nvkm_vm_del: the range allocator is torn down, then the VMM. */
  method Del(vm: Vm)
    requires vm.refcount == 0 && !vm.deleted
    modifies vm
    ensures vm.deleted && vm.refcount == 0 && vm.nodes == old(vm.nodes)
    ensures vm.log == old(vm.log) + [MmFini, VmmDtor]
  {
    vm.log := vm.log + [MmFini, VmmDtor];
    vm.deleted := true;
  }

  /** The calls join and part make when nvkm_vm_ref is given an instance block. */
  function JoinCalls(vm: Vm, inst: Option<Memory>): seq<Call>
    reads vm
  {
    if vm.func.join && inst.Some? then [Join(inst.value)] else []
  }

  function PartCalls(vm: Vm, inst: Option<Memory>): seq<Call>
    reads vm
  {
    if vm.func.part && inst.Some? then [Part(inst.value)] else []
  }

  /** nvkm_vm_ref: point the slot holding `ptr` at `ref`. A join hook that
      fails leaves everything as it was; otherwise `ref` gains a reference
      before `ptr` loses one, part runs for `ptr` only with an instance block,
      and `ptr` is deleted when its last reference goes. `slot` is the value
      the slot holds afterwards. */
  method Ref(ref: Vm?, ptr: Vm?, inst: Option<Memory>, joinResult: int) returns (ret: int, slot: Vm?)
    requires ref != null ==> ref.Valid() && !ref.deleted
    requires ptr != null ==> ptr.Valid() && !ptr.deleted
    modifies ref, ptr
    ensures ref != null ==> ref.Valid()
    ensures ptr != null ==> ptr.Valid()
    ensures ref != null && ref.func.join && inst.Some? && joinResult != 0 ==>
      && ret == joinResult && slot == ptr
      && ref.refcount == old(ref.refcount) && ref.log == old(ref.log) + [Join(inst.value)]
      && (ptr != null && ptr != ref ==> ptr.refcount == old(ptr.refcount) && ptr.log == old(ptr.log))
    ensures !(ref != null && ref.func.join && inst.Some? && joinResult != 0) ==>
      && ret == 0 && slot == ref
      && (ref != null && ref != ptr ==>
            ref.refcount == old(ref.refcount) + 1 && !ref.deleted && ref.log == old(ref.log) + JoinCalls(ref, inst))
      && (ptr != null && ptr != ref ==>
            && ptr.refcount == old(ptr.refcount) - 1
            && ptr.log == old(ptr.log) + PartCalls(ptr, inst) + (if ptr.refcount == 0 then [MmFini, VmmDtor] else []))
      && (ref != null && ref == ptr ==>
            ref.refcount == old(ref.refcount) && ref.log == old(ref.log) + JoinCalls(ref, inst) + PartCalls(ref, inst))
    ensures ref != null ==> ref.nodes == old(ref.nodes)
    ensures ptr != null ==> ptr.nodes == old(ptr.nodes)
  {
    if ref != null {
      if ref.func.join && inst.Some? {
        ref.log := ref.log + [Join(inst.value)];
        if joinResult != 0 {
          return joinResult, ptr;
        }
      }
      ref.refcount := ref.refcount + 1;
    }
    if ptr != null {
      if ptr.func.part && inst.Some? {
        ptr.log := ptr.log + [Part(inst.value)];
      }
      ptr.refcount := ptr.refcount - 1;
      if ptr.refcount == 0 {
        Del(ptr);
      }
    }
    return 0, ref;
  }

  /** nvkm_vm_get: reserve size >> 12 units aligned to a page of 2^pageShift
      bytes, and the page tables behind them. When the page tables cannot be
      had the range is freed again. On success the range holds no memory and
      one reference to the address space. */
  method Get(vm: Vm, size: u64, pageShift: nat, access: bv32, vma: Vma,
             headResult: int, headOffset: u32, ptesResult: int) returns (ret: int)
    requires vm.Valid() && !vm.deleted && pageShift < 31
    requires vm.func.unmap ==> pageShift in vm.func.pages
    modifies vm, vma
    ensures vm.Valid() && !vm.deleted
    ensures var node := Node(headOffset, Units(size), pageShift);
      var head := [MmHead(pageShift, Units(size), PageUnits(pageShift))];
      var ptes := if vm.func.unmap then [PtesGet(pageShift, Shl12(headOffset), Shl12(Units(size)))] else [];
      && (headResult != 0 ==>
            && ret == headResult && vm.log == old(vm.log) + head
            && vm.nodes == old(vm.nodes) && vm.refcount == old(vm.refcount) && vma.node == old(vma.node)
            && vma.vm == old(vma.vm) && vma.memory == old(vma.memory) && vma.tags == old(vma.tags)
            && vma.offset == old(vma.offset) && vma.access == old(vma.access))
      && (headResult == 0 && vm.func.unmap && ptesResult != 0 ==>
            && ret == ptesResult && vm.log == old(vm.log) + head + ptes + [MmFree(node)]
            && vm.nodes == old(vm.nodes) && vm.refcount == old(vm.refcount) && vma.node == None
            && vma.vm == old(vma.vm) && vma.memory == old(vma.memory) && vma.tags == old(vma.tags)
            && vma.offset == old(vma.offset) && vma.access == old(vma.access))
      && (headResult == 0 && (!vm.func.unmap || ptesResult == 0) ==>
            && ret == 0 && vm.log == old(vm.log) + head + ptes
            && vm.nodes == old(vm.nodes) + multiset{node} && vm.refcount == old(vm.refcount) + 1
            && vma.node == Some(node) && vma.vm == vm && vma.memory == None && vma.tags == None
            && vma.offset == headOffset * UnitSize && vma.access == access)
  {
    var align := PageUnits(pageShift);
    var msize := Units(size);
    vm.log := vm.log + [MmHead(pageShift, msize, align)];
    if headResult != 0 {
      return headResult;
    }
    var node := Node(headOffset, msize, pageShift);
    vma.node := Some(node);
    vm.nodes := vm.nodes + multiset{node};
    if vm.func.unmap {
      var i := FindPage(vm.func.pages, pageShift);
      vm.log := vm.log + [PtesGet(vm.func.pages[i], Shl12(node.offset), Shl12(node.length))];
      if ptesResult != 0 {
        vm.nodes := vm.nodes - multiset{node};
        vm.log := vm.log + [MmFree(node)];
        vma.node := None;
        return ptesResult;
      }
    }
    vma.memory := None;
    vma.tags := None;
    vma.vm := null;
    var _, slot := Ref(vm, vma.vm, None, 0);
    vma.vm := slot;
    vma.offset := node.offset * UnitSize;
    vma.access := access;
    return 0;
  }

  /** nvkm_vm_put: nothing for a range never reserved. Otherwise the tags and
      the memory go first, then the page tables, then the range, and last the
      range's reference to its address space. */
  method Put(vma: Vma)
    requires vma.node.Some? ==> vma.vm != null && vma.vm.Valid() && !vma.vm.deleted
    requires vma.node.Some? && vma.vm.func.unmap ==> vma.node.value.pageType in vma.vm.func.pages
    modifies vma, vma.vm
    ensures old(vma.node).None? ==> unchanged(vma) && (vma.vm != null ==> unchanged(vma.vm))
    ensures old(vma.node).Some? ==>
      var vm := old(vma.vm);
      var node := old(vma.node).value;
      var ptes := if vm.func.unmap then [PtesPut(node.pageType, Shl12(node.offset), Shl12(node.length))] else [];
      && vm.log == old(vm.log) + [TagsPut(old(vma.memory)), MemoryUnref(old(vma.memory))] + ptes + [MmFree(node)]
                    + (if vm.refcount == 0 then [MmFini, VmmDtor] else [])
      && vm.nodes == old(vm.nodes) - multiset{node}
      && vm.refcount == old(vm.refcount) - 1 && vm.Valid()
      && vma.node == None && vma.vm == null && vma.memory == None && vma.tags == None
      && vma.offset == old(vma.offset) && vma.access == old(vma.access)
  {
    if vma.node == None {
      return;
    }
    var vm := vma.vm;
    FreeRange(vm, vma);
    var _, slot := Ref(null, vm, None, 0);
    vma.vm := slot;
  }

  /** The body of nvkm_vm_put before the reference goes: the tags and the
      memory are released, then the page tables, then the range. */
  method FreeRange(vm: Vm, vma: Vma)
    requires vma.vm == vm && vma.node.Some?
    requires vm.func.unmap ==> vma.node.value.pageType in vm.func.pages
    modifies vm, vma
    ensures var node := old(vma.node).value;
      var ptes := if vm.func.unmap then [PtesPut(node.pageType, Shl12(node.offset), Shl12(node.length))] else [];
      && vm.log == old(vm.log) + [TagsPut(old(vma.memory)), MemoryUnref(old(vma.memory))] + ptes + [MmFree(node)]
      && vm.nodes == old(vm.nodes) - multiset{node}
    ensures vm.refcount == old(vm.refcount) && vm.deleted == old(vm.deleted)
    ensures vma.node == None && vma.memory == None && vma.tags == None
    ensures vma.vm == vm && vma.offset == old(vma.offset) && vma.access == old(vma.access)
  {
    var node := vma.node.value;
    vm.log := vm.log + [TagsPut(vma.memory), MemoryUnref(vma.memory)];
    vma.tags := None;
    vma.memory := None;
    if vm.func.unmap {
      var i := FindPage(vm.func.pages, node.pageType);
      vm.log := vm.log + [PtesPut(vm.func.pages[i], Shl12(node.offset), Shl12(node.length))];
    }
    vm.nodes := vm.nodes - multiset{node};
    vm.log := vm.log + [MmFree(node)];
    vma.node := None;
  }

  /** What nvkm_vm_map_ does to the log, the memory and the tags of a range:
      with a valid() hook the argument record is checked first, and a record
      it refuses stops the map with nothing written. Otherwise the page tables
      are written, the old tags and memory are released and the new memory is
      referenced. */
  function MapEffect(func: VmmFunc, log: seq<Call>, memory: Option<Memory>, tags: Option<nat>,
                     page: nat, node: Node, access: bv32, delta: u64, mem: MemNode, writer: PteWriter,
                     card: CardType, validResult: int, validTags: Option<nat>): (seq<Call>, Option<Memory>, Option<nat>)
  {
    var check := if func.valid then [Validate(MapArgsFor(card, access, mem.memtype, mem.memory.target))] else [];
    if func.valid && validResult != 0 then (log + check, memory, tags)
    else
      (log + check + [PtesMap(page, RangeAddr(node.offset, delta), node.length * UnitSize, writer, mem.memory),
                      TagsPut(memory), MemoryUnref(memory), MemoryRef(mem.memory)],
       Some(mem.memory),
       if func.valid then validTags else None)
  }

  /** A refused map leaves the range as it was; a map that goes ahead leaves
      the new memory bound, whatever was bound before. */
  lemma MapEffectOutcome(func: VmmFunc, log: seq<Call>, memory: Option<Memory>, tags: Option<nat>,
                         page: nat, node: Node, access: bv32, delta: u64, mem: MemNode, writer: PteWriter,
                         card: CardType, validResult: int, validTags: Option<nat>)
    ensures var (log', memory', tags') := MapEffect(func, log, memory, tags, page, node, access, delta, mem, writer,
                                                    card, validResult, validTags);
      && |log| <= |log'| && log'[..|log|] == log
      && (func.valid && validResult != 0 ==>
            memory' == memory && tags' == tags && forall k | |log| <= k < |log'| :: !log'[k].PtesMap?)
      && (!(func.valid && validResult != 0) ==>
            memory' == Some(mem.memory)
            && log'[|log'| - 4] == PtesMap(page, RangeAddr(node.offset, delta), node.length * UnitSize, writer, mem.memory))
  {
  }

  /** nvkm_vm_map_: map `mem` into the range with the page-table writer `writer`. */
  method MapInternal(page: nat, vma: Vma, delta: u64, mem: MemNode, writer: PteWriter,
                     card: CardType, validResult: int, validTags: Option<nat>)
    requires vma.vm != null && vma.node.Some?
    modifies vma, vma.vm
    ensures vma.vm == old(vma.vm) && vma.node == old(vma.node) && vma.offset == old(vma.offset) && vma.access == old(vma.access)
    ensures vma.vm.refcount == old(vma.vm.refcount) && vma.vm.deleted == old(vma.vm.deleted) && vma.vm.nodes == old(vma.vm.nodes)
    ensures (vma.vm.log, vma.memory, vma.tags)
         == MapEffect(vma.vm.func, old(vma.vm.log), old(vma.memory), old(vma.tags), page, vma.node.value,
                      vma.access, delta, mem, writer, card, validResult, validTags)
  {
    var vm := vma.vm;
    ghost var check := if vm.func.valid then [Validate(MapArgsFor(card, vma.access, mem.memtype, mem.memory.target))] else [];
    var mapTags: Option<nat> := None;
    if vm.func.valid {
      var args := MapArgsFor(card, vma.access, mem.memtype, mem.memory.target);
      vm.log := vm.log + [Validate(args)];
      if validResult != 0 {
        return;
      }
      mapTags := validTags;
    }
    assert vm.log == old(vm.log) + check;
    var node := vma.node.value;
    vm.log := vm.log + [PtesMap(page, RangeAddr(node.offset, delta), node.length * UnitSize, writer, mem.memory),
                        TagsPut(vma.memory), MemoryUnref(vma.memory), MemoryRef(mem.memory)];
    vma.memory := Some(mem.memory);
    vma.tags := mapTags;
  }

  /** nvkm_vm_map_at: map flat memory at byte `delta` of the range. */
  method MapAt(vma: Vma, delta: u64, mem: MemNode, card: CardType, validResult: int, validTags: Option<nat>)
    requires vma.vm != null && vma.node.Some?
    requires vma.vm.func.unmap ==> vma.node.value.pageType in vma.vm.func.pages
    modifies vma, vma.vm
    ensures vma.vm == old(vma.vm) && vma.node == old(vma.node) && vma.offset == old(vma.offset) && vma.access == old(vma.access)
    ensures vma.vm.refcount == old(vma.vm.refcount) && vma.vm.deleted == old(vma.vm.deleted) && vma.vm.nodes == old(vma.vm.nodes)
    ensures !vma.vm.func.unmap ==> vma.vm.log == old(vma.vm.log) && vma.memory == old(vma.memory) && vma.tags == old(vma.tags)
    ensures vma.vm.func.unmap ==>
      (vma.vm.log, vma.memory, vma.tags)
        == MapEffect(vma.vm.func, old(vma.vm.log), old(vma.memory), old(vma.tags), vma.node.value.pageType, vma.node.value,
                     vma.access, delta, mem, MemWriter, card, validResult, validTags)
  {
    var func := vma.vm.func;
    if func.unmap {
      var i := FindPage(func.pages, vma.node.value.pageType);
      MapInternal(func.pages[i], vma, delta, mem, MemWriter, card, validResult, validTags);
    }
  }

  /** nvkm_vm_map_sg_table: map a scatter-gather table at byte `delta`. The
      length argument is not used: the whole range is written. */
  method MapSgTable(vma: Vma, delta: u64, length: u64, mem: MemNode, card: CardType, validResult: int, validTags: Option<nat>)
    requires vma.vm != null && vma.node.Some?
    requires vma.vm.func.unmap ==> vma.node.value.pageType in vma.vm.func.pages
    modifies vma, vma.vm
    ensures vma.vm == old(vma.vm) && vma.node == old(vma.node) && vma.offset == old(vma.offset) && vma.access == old(vma.access)
    ensures vma.vm.refcount == old(vma.vm.refcount) && vma.vm.deleted == old(vma.vm.deleted) && vma.vm.nodes == old(vma.vm.nodes)
    ensures !vma.vm.func.unmap ==> vma.vm.log == old(vma.vm.log) && vma.memory == old(vma.memory) && vma.tags == old(vma.tags)
    ensures vma.vm.func.unmap ==>
      (vma.vm.log, vma.memory, vma.tags)
        == MapEffect(vma.vm.func, old(vma.vm.log), old(vma.memory), old(vma.tags), vma.node.value.pageType, vma.node.value,
                     vma.access, delta, mem, SglWriter, card, validResult, validTags)
  {
    var func := vma.vm.func;
    if func.unmap {
      var i := FindPage(func.pages, vma.node.value.pageType);
      MapInternal(func.pages[i], vma, delta, mem, SglWriter, card, validResult, validTags);
    }
  }

  /** nvkm_vm_map_sg: map a page list at byte `delta`. The length argument is
      not used: the whole range is written. */
  method MapSg(vma: Vma, delta: u64, length: u64, mem: MemNode, card: CardType, validResult: int, validTags: Option<nat>)
    requires vma.vm != null && vma.node.Some?
    requires vma.vm.func.unmap ==> vma.node.value.pageType in vma.vm.func.pages
    modifies vma, vma.vm
    ensures vma.vm == old(vma.vm) && vma.node == old(vma.node) && vma.offset == old(vma.offset) && vma.access == old(vma.access)
    ensures vma.vm.refcount == old(vma.vm.refcount) && vma.vm.deleted == old(vma.vm.deleted) && vma.vm.nodes == old(vma.vm.nodes)
    ensures !vma.vm.func.unmap ==> vma.vm.log == old(vma.vm.log) && vma.memory == old(vma.memory) && vma.tags == old(vma.tags)
    ensures vma.vm.func.unmap ==>
      (vma.vm.log, vma.memory, vma.tags)
        == MapEffect(vma.vm.func, old(vma.vm.log), old(vma.memory), old(vma.tags), vma.node.value.pageType, vma.node.value,
                     vma.access, delta, mem, DmaWriter, card, validResult, validTags)
  {
    var func := vma.vm.func;
    if func.unmap {
      var i := FindPage(func.pages, vma.node.value.pageType);
      MapInternal(func.pages[i], vma, delta, mem, DmaWriter, card, validResult, validTags);
    }
  }

  /** The page-table writer nvkm_vm_map picks: a scatter-gather table first,
      then a page list, then flat memory. */
  function WriterFor(mem: MemNode): (writer: PteWriter)
    ensures writer == SglWriter <==> mem.sg
    ensures writer == DmaWriter <==> !mem.sg && mem.pages
    ensures writer == MemWriter <==> !mem.sg && !mem.pages
  {
    if mem.sg then SglWriter else if mem.pages then DmaWriter else MemWriter
  }

  /** nvkm_vm_map: map `mem` from the start of the range. */
  method Map(vma: Vma, mem: MemNode, card: CardType, validResult: int, validTags: Option<nat>)
    requires vma.vm != null && vma.node.Some?
    requires vma.vm.func.unmap ==> vma.node.value.pageType in vma.vm.func.pages
    modifies vma, vma.vm
    ensures vma.vm == old(vma.vm) && vma.node == old(vma.node) && vma.offset == old(vma.offset) && vma.access == old(vma.access)
    ensures vma.vm.refcount == old(vma.vm.refcount) && vma.vm.deleted == old(vma.vm.deleted) && vma.vm.nodes == old(vma.vm.nodes)
    ensures !vma.vm.func.unmap ==> vma.vm.log == old(vma.vm.log) && vma.memory == old(vma.memory) && vma.tags == old(vma.tags)
    ensures vma.vm.func.unmap ==>
      (vma.vm.log, vma.memory, vma.tags)
        == MapEffect(vma.vm.func, old(vma.vm.log), old(vma.memory), old(vma.tags), vma.node.value.pageType, vma.node.value,
                     vma.access, 0, mem, WriterFor(mem), card, validResult, validTags)
  {
    var length := (mem.size * UnitSize) % 0x1_0000_0000_0000_0000;
    if mem.sg {
      MapSgTable(vma, 0, length, mem, card, validResult, validTags);
    } else if mem.pages {
      MapSg(vma, 0, length, mem, card, validResult, validTags);
    } else {
      MapAt(vma, 0, mem, card, validResult, validTags);
    }
  }

  /** nvkm_vm_unmap_at: clear the page tables of the range from byte `delta`.
      The length argument is not used: the whole range's length is passed. */
  method UnmapAt(vma: Vma, delta: u64, length: u64)
    requires vma.vm != null && vma.node.Some?
    requires vma.vm.func.unmap ==> vma.node.value.pageType in vma.vm.func.pages
    modifies vma.vm
    ensures vma.vm.refcount == old(vma.vm.refcount) && vma.vm.deleted == old(vma.vm.deleted) && vma.vm.nodes == old(vma.vm.nodes)
    ensures var node := vma.node.value;
      vma.vm.log == old(vma.vm.log)
        + if vma.vm.func.unmap then [PtesUnmap(node.pageType, UnmapRange(node, delta).0, UnmapRange(node, delta).1)] else []
  {
    var vm := vma.vm;
    if vm.func.unmap {
      var node := vma.node.value;
      var i := FindPage(vm.func.pages, node.pageType);
      vm.log := vm.log + [PtesUnmap(vm.func.pages[i], UnmapRange(node, delta).0, UnmapRange(node, delta).1)];
    }
  }

  /** nvkm_vm_unmap: clear the whole range, then release its tags and memory;
      the range holds no memory afterwards. */
  method Unmap(vma: Vma)
    requires vma.vm != null && vma.node.Some?
    requires vma.vm.func.unmap ==> vma.node.value.pageType in vma.vm.func.pages
    modifies vma, vma.vm
    ensures vma.vm == old(vma.vm) && vma.node == old(vma.node) && vma.offset == old(vma.offset) && vma.access == old(vma.access)
    ensures vma.vm.refcount == old(vma.vm.refcount) && vma.vm.deleted == old(vma.vm.deleted) && vma.vm.nodes == old(vma.vm.nodes)
    ensures var node := vma.node.value;
      && vma.vm.log == old(vma.vm.log)
           + (if vma.vm.func.unmap then [PtesUnmap(node.pageType, UnmapRange(node, 0).0, UnmapRange(node, 0).1)] else [])
           + [TagsPut(old(vma.memory)), MemoryUnref(old(vma.memory))]
      && vma.memory == None && vma.tags == None
  {
    UnmapAt(vma, 0, vma.node.value.length * UnitSize);
    var vm := vma.vm;
    vm.log := vm.log + [TagsPut(vma.memory), MemoryUnref(vma.memory)];
    vma.tags := None;
    vma.memory := None;
  }

  /** (offset + length) - mmOffset in 64-bit arithmetic. */
  function AllocatorLength(offset: u64, length: u64, mmOffset: u64): (r: u64)
    ensures mmOffset <= offset + length < 0x1_0000_0000_0000_0000 ==> r == offset + length - mmOffset
  {
    ((offset + length) % 0x1_0000_0000_0000_0000 - mmOffset) % 0x1_0000_0000_0000_0000
  }

  /** nvkm_vm_legacy: one reference, and a range allocator over
      [mmOffset, offset + length) in 4 KiB units with blocks of `block`
      bytes, at most `length`. */
  method Legacy(vm: Vm, offset: u64, length: u64, mmOffset: u64, block: u32, initResult: int) returns (ret: int)
    requires !vm.deleted
    modifies vm
    ensures ret == initResult && vm.refcount == 1 && !vm.deleted && vm.nodes == old(vm.nodes)
    ensures var b := if block > length then length else block;
      vm.log == old(vm.log) + [MmInit(mmOffset / UnitSize, AllocatorLength(offset, length, mmOffset) / UnitSize, b / UnitSize)]
  {
    var mmLength := AllocatorLength(offset, length, mmOffset);
    vm.refcount := 1;
    var b := block;
    if b > length {
      b := length;
    }
    vm.log := vm.log + [MmInit(mmOffset / UnitSize, mmLength / UnitSize, b / UnitSize)];
    return initResult;
  }

  /** nvkm_vm_new: -EINVAL without a VMM constructor; otherwise the
      constructor's error, or the error of the allocator set-up, or 0 with a
      new address space holding one reference. A VMM the constructor made is
      torn down on either failure, and the result is NULL on every failure.
      `made` is what the constructor builds, if anything. */
  method New(hasCtor: bool, offset: u64, length: u64, mmOffset: u64,
             ctorResult: int, made: Option<VmmFunc>, initResult: int)
    returns (ret: int, pvm: Vm?, ghost built: Vm?)
    requires hasCtor && ctorResult == 0 ==> made.Some?
    ensures !hasCtor ==> ret == EInval && pvm == null
    ensures hasCtor ==> ret == (if ctorResult != 0 then ctorResult else initResult)
    ensures ret != 0 ==> pvm == null
    ensures built != null ==> fresh(built) && built.Valid()
    ensures hasCtor && made.Some? <==> built != null
    ensures ret == 0 ==>
      && pvm == built && pvm != null && pvm.refcount == 1 && !pvm.deleted && pvm.func == made.value
      && pvm.addr == mmOffset && pvm.size == AllocatorLength(offset, length, mmOffset)
      && pvm.log == [MmInit(mmOffset / UnitSize, AllocatorLength(offset, length, mmOffset) / UnitSize,
                            BlockFor(made.value, length) / UnitSize)]
    ensures ret != 0 && built != null ==> built.deleted && built.refcount == 0
  {
    pvm := null;
    built := null;
    if !hasCtor {
      return EInval, null, built;
    }
    if made.Some? {
      pvm := new Vm(made.value, mmOffset, AllocatorLength(offset, length, mmOffset));
      built := pvm;
    }
    if ctorResult != 0 {
      var _, slot := Ref(null, pvm, None, 0);
      return ctorResult, slot, built;
    }
    var block := if pvm.func.pageBlock != 0 then pvm.func.pageBlock else 4096;
    ret := Legacy(pvm, offset, length, mmOffset, block, initResult);
    if ret != 0 {
      var _, slot := Ref(null, pvm, None, 0);
      pvm := slot;
    }
  }

  /** The allocator block size nvkm_vm_new asks for: page_block, or 4096 when
      that is 0, cut down to the length of the address space. */
  function BlockFor(func: VmmFunc, length: u64): nat
  {
    var block := if func.pageBlock != 0 then func.pageBlock else 4096;
    if block > length then length else block
  }
}
