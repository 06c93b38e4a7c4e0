/** The pieces of the pooled allocator in 22_MemoryPool1.cpp below the lookup
    table: the size header written in front of every block, and one pool, a
    FIFO free list of returned blocks with a count of blocks handed out.

    Addresses are natural numbers; 0 is `nullptr`. `malloc` and `free` are
    foreign calls: the block `malloc` returned is a parameter of the method
    that calls it, and `free` is recorded by handing the freed blocks back to
    the caller. */
module MemoryPool {

  type Addr = nat

  const NULL: Addr := 0

  /** `sizeof(MemoryHeader)`: one `__int32`. */
  const HEADER_SIZE: int := 4

  /** The header stored at the start of every block. */
  datatype MemoryHeader = MemoryHeader(allocSize: int)

  /** The memory words that hold headers: the header each header address
      currently stores. */
  class HeaderMemory {
    var headers: map<Addr, MemoryHeader>

    constructor ()
      ensures headers == map[]
    {
      headers := map[];
    }
  }

  /** `MemoryHeader::DetachHeader(ptr)`: the header lies immediately in front
      of the user pointer. */
  function DetachHeader(ptr: Addr): (header: int)
    ensures header + HEADER_SIZE == ptr
  {
    ptr - HEADER_SIZE
  }

  /** `MemoryHeader::AttachHeader(header, size)`: constructs a header holding
      `size` in place at `header` and returns the address just past it, which
      `DetachHeader` maps back to `header`. */
  method AttachHeader(mem: HeaderMemory, header: Addr, size: int) returns (ptr: Addr)
    modifies mem
    ensures mem.headers == old(mem.headers)[header := MemoryHeader(size)]
    ensures DetachHeader(ptr) == header
    ensures mem.headers[DetachHeader(ptr)].allocSize == size
  {
    mem.headers := mem.headers[header := MemoryHeader(size)];
    ptr := header + HEADER_SIZE;
  }

  /** The block `Pop` hands out: the front of the queue, unless the queue
      is empty or its front is null, in which case `malloc` is called. */
  function Popped(q: seq<Addr>, newBlock: Addr): (header: Addr)
    ensures q != [] && q[0] != NULL ==> header == q[0]
    ensures q == [] || q[0] == NULL ==> header == newBlock
  {
    if q != [] && q[0] != NULL then q[0] else newBlock
  }

  /** `MemoryPool`: the free list of blocks of one size class. */
  class MemoryPool {
    /** The block size this pool allocates with `malloc`. */
    const allocSize: int
    /** Blocks handed out minus blocks given back over the pool's life. */
    var allocCount: int
    /** Returned blocks, oldest first (`std::queue`). */
    var queue: seq<Addr>

    constructor (allocSize: int)
      ensures this.allocSize == allocSize
      ensures allocCount == 0 && queue == []
    {
      this.allocSize := allocSize;
      allocCount := 0;
      queue := [];
    }

    /** `Push`: returns a block to the pool, at the back of the queue. */
    method Push(ptr: Addr)
      modifies this
      ensures queue == old(queue) + [ptr]
      ensures allocCount == old(allocCount) - 1
    {
      queue := queue + [ptr];
      allocCount := allocCount - 1;
    }

    /** `Pop`: takes the oldest returned block, or a new block of
        `allocSize` bytes (`newBlock`, the result of `malloc(allocSize)`) when
        there is none. Either way one more block is out. */
    method Pop(newBlock: Addr) returns (header: Addr)
      modifies this
      ensures header == Popped(old(queue), newBlock)
      ensures queue == if old(queue) == [] then [] else old(queue)[1..]
      ensures allocCount == old(allocCount) + 1
    {
      header := NULL;
      if queue != [] {
        header := queue[0];
        queue := queue[1..];
      }
      if header == NULL {
        header := newBlock;
      }
      allocCount := allocCount + 1;
    }

    /** `~MemoryPool`: pops and frees every queued block, front first, until
        the queue is empty. `freed` lists the blocks passed to `free`, in
        order: each held block exactly once. */
    method Drain() returns (freed: seq<Addr>)
      modifies this
      ensures freed == old(queue)
      ensures queue == []
      ensures allocCount == old(allocCount)
    {
      freed := [];
      while queue != []
        invariant freed + queue == old(queue)
        invariant allocCount == old(allocCount)
        decreases |queue|
      {
        var header := queue[0];
        queue := queue[1..];
        freed := freed + [header];
      }
    }
  }

  /** Blocks come back out of a pool in the order they were returned, and a
      pool with nothing queued falls back to `malloc`. */
  method FifoReuse(a: Addr, b: Addr, newBlock: Addr) returns (first: Addr, second: Addr, third: Addr, outstanding: int)
    requires a != NULL && b != NULL
    ensures first == a && second == b && third == newBlock
    ensures outstanding == 1
  {
    var pool := new MemoryPool(32);
    pool.Push(a);
    pool.Push(b);
    first := pool.Pop(newBlock);
    second := pool.Pop(newBlock);
    third := pool.Pop(newBlock);
    outstanding := pool.allocCount;
  }
}
