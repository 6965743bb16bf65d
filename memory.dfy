/** The memory objects that page tables and mappings refer to (include/nvkm/core/memory.h).
    Only the target is needed by the core; size and address stand for what
    nvkm_memory_size() and nvkm_memory_addr() report. */
module MemoryObjects {

  /** enum nvkm_memory_target */
  datatype Target =
    | Inst  // instance memory
    | Vram  // video memory
    | Host  // coherent system memory
    | Ncoh  // non-coherent system memory

  /** A backing memory object, identified by `id`; its contents are not modelled. */
  datatype Memory = Memory(id: nat, target: Target, size: nat, addr: nat)
}
