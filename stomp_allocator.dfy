/** The stomp allocator: every allocation gets whole pages of its own, and the
    returned block is pushed to the end of its last page so that running off
    the end of the block touches memory that is not committed.

    `VirtualAlloc` is a foreign call; the model receives the address it
    returned as the parameter `base`, and the round-trip lemmas assume what the
    operating system guarantees of it: a page-aligned address (NULL included). */
module StompAllocator {
  import opened Words

  const PAGE_SIZE: int := 0x1000

  /** Largest request for which `size + PAGE_SIZE - 1` does not overflow `int`. */
  const MAX_STOMP_SIZE: int := INT32_MAX - (PAGE_SIZE - 1)

  /** A process address, as the `__int64` the allocator reinterprets it as. */
  type Address = nat

  predicate PageAligned(a: int) {
    a % PAGE_SIZE == 0
  }

  /** A request the page arithmetic handles without overflow or a zero-page reservation. */
  predicate ValidRequest(size: int) {
    0 < size <= MAX_STOMP_SIZE
  }

  /** `pageCount = (size + PAGE_SIZE - 1) / PAGE_SIZE`, evaluated in `int`
      (wrapping on overflow) and with C++'s truncating division.
      For a valid request it is the number of pages needed to hold `size` bytes. */
  function PageCount(size: int): (n: int)
    requires IsInt32(size)
    ensures ValidRequest(size) ==> n > 0 && (n - 1) * PAGE_SIZE < size <= n * PAGE_SIZE
  {
    CDiv(ToInt32(size + PAGE_SIZE - 1), PAGE_SIZE)
  }

  /** The number of bytes reserved with `VirtualAlloc`: whole pages. */
  function ReserveBytes(size: int): (bytes: int)
    requires IsInt32(size)
    ensures ValidRequest(size) ==> PageAligned(bytes) && size <= bytes < size + PAGE_SIZE
  {
    PageCount(size) * PAGE_SIZE
  }

  /** `dataOffset = pageCount * PAGE_SIZE - size`: the slack left in front of
      the block. For a valid request it is less than one page. */
  function DataOffset(size: int): (offset: int)
    requires IsInt32(size)
    ensures ValidRequest(size) ==> 0 <= offset < PAGE_SIZE
    ensures ValidRequest(size) ==> offset + size == ReserveBytes(size)
  {
    PageCount(size) * PAGE_SIZE - size
  }

  /** `Alloc(size)` given that `VirtualAlloc` returned `base`: the block starts
      `dataOffset` bytes into the reservation, so it ends exactly where the
      reservation ends. */
  function Alloc(size: int, base: Address): (ptr: int)
    requires IsInt32(size)
    ensures ValidRequest(size) ==> base <= ptr < base + PAGE_SIZE
    ensures ValidRequest(size) ==> ptr + size == base + ReserveBytes(size)
  {
    base + DataOffset(size)
  }

  /** `Release(ptr)`: the base address handed to `VirtualFree`, the start of
      the page that holds `ptr` (`address - address % PAGE_SIZE`). */
  function Release(ptr: Address): (base: int)
    ensures PageAligned(base)
    ensures base <= ptr < base + PAGE_SIZE
  {
    ptr - CRem(ptr, PAGE_SIZE)
  }

  /** Releasing the pointer that `Alloc` returned frees exactly the
      reservation that `Alloc` made. */
  lemma ReleaseRecoversBase(size: int, base: Address)
    requires ValidRequest(size) && PageAligned(base)
    ensures Alloc(size, base) >= 0
    ensures Release(Alloc(size, base)) == base
  {
    var ptr := Alloc(size, base);
    var r := Release(ptr);
    AlignedNeighbours(r, base, ptr);
  }

  /** Two page-aligned addresses less than a page away from the same address
      are equal. */
  lemma AlignedNeighbours(a: int, b: int, p: int)
    requires PageAligned(a) && PageAligned(b)
    requires a <= p < a + PAGE_SIZE && b <= p < b + PAGE_SIZE
    ensures a == b
  {
    var qa, qb := a / PAGE_SIZE, b / PAGE_SIZE;
    assert a == qa * PAGE_SIZE && b == qb * PAGE_SIZE;
  }

  /** `xnew<Type>(args...)`: a stomp allocation of exactly `sizeof(Type)`
      bytes, in which the object is then constructed in place. */
  function XNew(typeSize: nat, base: Address): (obj: int)
    ensures 0 < typeSize <= MAX_STOMP_SIZE ==> obj + typeSize == base + ReserveBytes(typeSize)
  {
    Alloc(ToInt32(typeSize), base)
  }

  /** `xdelete(obj)`: after the destructor has run, the stomp release of the
      object's own address. */
  function XDelete(obj: Address): (base: int)
    ensures PageAligned(base) && base <= obj < base + PAGE_SIZE
  {
    Release(obj)
  }

  /** `xdelete` of the object `xnew` returned releases the very reservation
      `xnew` made, and that reservation holds the whole object. */
  lemma XNewXDelete(typeSize: nat, base: Address)
    requires 0 < typeSize <= MAX_STOMP_SIZE && PageAligned(base)
    ensures XNew(typeSize, base) >= 0
    ensures XDelete(XNew(typeSize, base)) == base
    ensures base <= XNew(typeSize, base)
    ensures XNew(typeSize, base) + typeSize == base + ReserveBytes(typeSize)
  {
    ReleaseRecoversBase(typeSize, base);
  }
}
