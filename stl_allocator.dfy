/** `STLAllocator<T>`: the allocator a standard container is given so that its
    storage comes from the stomp allocator. Its own copy of `StompAllocator`
    is the same arithmetic as the one modelled in module StompAllocator, which
    this module reuses. */
module STLAllocator {
  import opened Words
  import opened StompAllocator

  /** `static_cast<int>(count * sizeof(T))`: the product is computed in
      `size_t` (modulo 2^64) and then narrowed to `int`. */
  function RequestBytes(count: nat, elemSize: nat): (size: int)
    ensures IsInt32(size)
    ensures count * elemSize <= INT32_MAX ==> size == count * elemSize
  {
    ToInt32((count * elemSize) % TWO_64)
  }

  /** `allocate(count)`, given the base `VirtualAlloc` returned: a stomp
      allocation of `count * sizeof(T)` bytes that ends at the end of its
      reservation. */
  function Allocate(count: nat, elemSize: nat, base: Address): (ptr: int)
    ensures 0 < count * elemSize <= MAX_STOMP_SIZE ==>
              base <= ptr && ptr + count * elemSize == base + ReserveBytes(count * elemSize)
  {
    Alloc(RequestBytes(count, elemSize), base)
  }

  /** `deallocate(ptr, count)`: `count` is not used; the reservation is found
      from the pointer alone. */
  function Deallocate(ptr: Address, count: nat): (base: int)
    ensures PageAligned(base) && base <= ptr < base + PAGE_SIZE
  {
    Release(ptr)
  }

  /** Deallocating what `allocate` returned frees the reservation it made,
      whatever element count is passed back. */
  lemma AllocateDeallocate(count: nat, elemSize: nat, base: Address, anyCount: nat)
    requires 0 < count * elemSize <= MAX_STOMP_SIZE && PageAligned(base)
    ensures Allocate(count, elemSize, base) >= 0
    ensures Deallocate(Allocate(count, elemSize, base), anyCount) == base
  {
    ReleaseRecoversBase(count * elemSize, base);
  }
}
