/** `Memory` in 22_MemoryPool1.cpp: the pools of every size class, and a table
    from request size (header included) to the pool that serves it.
    Requests larger than MAX_ALLOC_SIZE go to `malloc`/`free` directly.

    A table entry the constructor never assigns is `null` here; in the C++
    object it is left uninitialised. */
module PoolMemory {
  import opened Words
  import opened MemoryPool
  import opened SizeClasses

  /** What `Memory::Allocate` does with a request. */
  datatype AllocResult =
    | Block(ptr: Addr)
      /** `poolTable[allocSize]` with a negative `allocSize`: out of bounds. */
    | OutsideTable(allocSize: int)
      /** `poolTable[allocSize]` is an entry the constructor never assigned. */
    | UnassignedEntry(allocSize: int)

  /** `const __int32 allocSize = size + sizeof(MemoryHeader)`: computed in
      `size_t` and narrowed back to `__int32`, so it wraps. */
  function AllocSizeOf(size: int): (a: int)
    requires IsInt32(size)
    ensures IsInt32(a)
    ensures size <= INT32_MAX - HEADER_SIZE ==> a == size + HEADER_SIZE
    ensures size > INT32_MAX - HEADER_SIZE ==> a < 0
  {
    ToInt32(size + HEADER_SIZE)
  }

  /** The queue of each pool, in the order of `ps`. */
  function Queues(ps: seq<MemoryPool>): (qs: seq<seq<Addr>>)
    reads ps
    ensures |qs| == |ps| && forall k :: 0 <= k < |ps| ==> qs[k] == ps[k].queue
  {
    seq(|ps|, k requires 0 <= k < |ps| reads ps => ps[k].queue)
  }

  /** The queues one after the other, first queue first. */
  function Flatten(qs: seq<seq<Addr>>): seq<Addr>
  {
    if qs == [] then [] else Flatten(qs[..|qs| - 1]) + qs[|qs| - 1]
  }

  /** The three loops of the constructor, each continuing from where the
      previous one left `size`, add up to AsWrittenClasses(). */
  lemma AsWrittenFromBands(c1: seq<int>, s1: int, c2: seq<int>, s2: int, c3: seq<int>)
    requires c1 == [] + Band(32, 1024, 32) && s1 == BandEnd(32, 1024, 32)
    requires c2 == c1 + Band(s1, 2048, 128) && s2 == BandEnd(s1, 2048, 128)
    requires c3 == c2 + Band(s2, 4096, 256)
    ensures c3 == AsWrittenClasses()
  {
    assert c1 == Band(32, 1024, 32);
  }

  /** The corrected loops add up to IntendedClasses(). */
  lemma IntendedFromBands(c1: seq<int>, c2: seq<int>, c3: seq<int>)
    requires c1 == [] + Band(32, 1024, 32)
    requires c2 == c1 + Band(1024 + 128, 2048, 128)
    requires c3 == c2 + Band(2048 + 256, 4096, 256)
    ensures c3 == IntendedClasses()
  {
    assert c1 == Band(32, 1024, 32);
  }

  class Memory {
    /** `std::vector<MemoryPool*> pools`, in creation order. */
    var pools: seq<MemoryPool>
    /** `MemoryPool* poolTable[MAX_ALLOC_SIZE + 1]`. */
    var poolTable: array<MemoryPool?>
    /** The block size of each pool, in the order of `pools`. */
    ghost var classes: seq<int>

    ghost predicate PoolsValid()
      reads this, poolTable
    {
      && poolTable.Length == MAX_ALLOC_SIZE + 1
      && |classes| == |pools|
      && (forall k :: 0 <= k < |pools| ==> pools[k].allocSize == classes[k])
      && (forall j, k :: 0 <= j < k < |pools| ==> pools[j] != pools[k])
      && StrictlyIncreasing(classes)
      && 0 <= TableEnd(classes) <= MAX_ALLOC_SIZE + 1
    }

    /** Entries below `n` hold the smallest pool whose blocks are big enough;
        entries from `n` on are unassigned. */
    ghost predicate FilledUpTo(n: int)
      reads this, poolTable
    {
      forall i :: 0 <= i < poolTable.Length ==>
        && (i < n ==> FirstFit(classes, i) < |pools| && poolTable[i] == pools[FirstFit(classes, i)])
        && (i >= n ==> poolTable[i] == null)
    }

    ghost predicate Valid()
      reads this, poolTable
    {
      PoolsValid() && FilledUpTo(TableEnd(classes))
    }

    /** No pool holds a block or has handed one out. */
    ghost predicate Pristine()
      reads this, set p | p in pools
    {
      forall p :: p in pools ==> p.queue == [] && p.allocCount == 0
    }

    /** `Memory()` as written: three bands, each loop continuing from the
        value `size` had when the previous one stopped (AsWrittenEntry says
        what table that leaves). */
    constructor ()
      ensures Valid() && fresh(poolTable)
      ensures classes == AsWrittenClasses()
      ensures Pristine()
      ensures forall k :: 0 <= k < |pools| ==> fresh(pools[k])
    {
      pools := [];
      poolTable := new MemoryPool?[MAX_ALLOC_SIZE + 1](_ => null);
      classes := [];
      new;
      var size := 32;
      var tableIndex := 0;
      size, tableIndex := AddBand(size, 1024, 32, tableIndex);
      ghost var c1, s1 := classes, size;
      size, tableIndex := AddBand(size, 2048, 128, tableIndex);
      ghost var c2, s2 := classes, size;
      size, tableIndex := AddBand(size, 4096, 256, tableIndex);
      AsWrittenFromBands(c1, s1, c2, s2, classes);
    }

    /** The constructor with the bands the constants describe, 1152 to 2048
        step 128 and 2304 to 4096 step 256 (CorrectedEntry says what table
        that gives). */
    constructor Corrected()
      ensures Valid() && fresh(poolTable)
      ensures classes == IntendedClasses()
      ensures Pristine()
      ensures forall k :: 0 <= k < |pools| ==> fresh(pools[k])
    {
      pools := [];
      poolTable := new MemoryPool?[MAX_ALLOC_SIZE + 1](_ => null);
      classes := [];
      new;
      var size, tableIndex := AddBand(32, 1024, 32, 0);
      ghost var c1 := classes;
      BandCount(32, 1024, 32);
      size, tableIndex := AddBand(1024 + 128, 2048, 128, tableIndex);
      ghost var c2 := classes;
      BandCount(1024 + 128, 2048, 128);
      size, tableIndex := AddBand(2048 + 256, 4096, 256, tableIndex);
      IntendedFromBands(c1, c2, classes);
    }

    /** What a valid table says about entry `i`: it is assigned exactly when
        `i` is below TableEnd(classes), and then it holds one of the pools,
        with blocks big enough for a request of `i` bytes. */
    lemma EntryFacts(i: int)
      requires Valid() && 0 <= i <= MAX_ALLOC_SIZE
      ensures poolTable[i] != null <==> i < TableEnd(classes)
      ensures poolTable[i] != null ==> poolTable[i] in pools && i <= poolTable[i].allocSize
    {
    }

    /** The table the constructor builds as written: POOL_COUNT pools, every
        entry up to 3872 served by a pool large enough, and the entries from
        3873 to MAX_ALLOC_SIZE never assigned. */
    lemma AsWrittenEntry(i: int)
      requires Valid() && classes == AsWrittenClasses() && 0 <= i <= MAX_ALLOC_SIZE
      ensures |pools| == POOL_COUNT
      ensures i <= 3872 ==> poolTable[i] != null && i <= poolTable[i].allocSize
      ensures i >= 3873 ==> poolTable[i] == null
    {
      AsWrittenShape();
      EntryFacts(i);
    }

    /** The corrected table: POOL_COUNT pools, and every entry from 0 to
        MAX_ALLOC_SIZE served by a pool large enough. */
    lemma CorrectedEntry(i: int)
      requires Valid() && classes == IntendedClasses() && 0 <= i <= MAX_ALLOC_SIZE
      ensures |pools| == POOL_COUNT
      ensures poolTable[i] != null && i <= poolTable[i].allocSize
    {
      IntendedShape();
      EntryFacts(i);
    }

    /** One `for (; size <= limit; size += step)` loop of the constructor:
        a pool per visited size, each followed by its table entries. */
    method AddBand(start: int, limit: int, step: int, tableIndex0: int) returns (size: int, tableIndex: int)
      requires Valid() && Pristine()
      requires step > 0 && TableEnd(classes) <= start && limit <= MAX_ALLOC_SIZE
      requires tableIndex0 == TableEnd(classes)
      modifies this, poolTable
      ensures Valid()
      ensures poolTable == old(poolTable)
      ensures classes == old(classes) + Band(start, limit, step)
      ensures forall p :: p in old(pools) ==> p in pools
      ensures |old(pools)| <= |pools| && pools[..|old(pools)|] == old(pools)
      ensures forall k :: |old(pools)| <= k < |pools| ==> fresh(pools[k])
      ensures Pristine()
      ensures size == BandEnd(start, limit, step) && TableEnd(classes) <= size
      ensures tableIndex == TableEnd(classes)
    {
      size := start;
      tableIndex := tableIndex0;
      while size <= limit
        invariant Valid() && tableIndex == TableEnd(classes)
        invariant poolTable == old(poolTable)
        invariant TableEnd(classes) <= size
        invariant classes + Band(size, limit, step) == old(classes) + Band(start, limit, step)
        invariant BandEnd(size, limit, step) == BandEnd(start, limit, step)
        invariant forall p :: p in old(pools) ==> p in pools
        invariant |old(pools)| <= |pools| && pools[..|old(pools)|] == old(pools)
        invariant forall k :: |old(pools)| <= k < |pools| ==> fresh(pools[k])
        invariant Pristine()
        decreases limit - size
      {
        ghost var before := classes;
        tableIndex := AddPool(size, tableIndex);
        assert Band(size, limit, step) == [size] + Band(size + step, limit, step);
        assert classes + Band(size + step, limit, step) == before + Band(size, limit, step);
        size := size + step;
      }
    }

    /** One iteration of a constructor loop: `new MemoryPool(size)` is
        appended to `pools`, and the entries from the previous largest class
        up to `size` are pointed at it. */
    method AddPool(size: int, tableIndex0: int) returns (tableIndex: int)
      requires Valid() && Pristine()
      requires TableEnd(classes) <= size <= MAX_ALLOC_SIZE && tableIndex0 == TableEnd(classes)
      modifies this, poolTable
      ensures Valid() && poolTable == old(poolTable)
      ensures classes == old(classes) + [size]
      ensures |pools| == |old(pools)| + 1 && pools[..|old(pools)|] == old(pools)
      ensures fresh(pools[|pools| - 1])
      ensures Pristine()
      ensures tableIndex == size + 1
    {
      var pool := new MemoryPool(size);
      ghost var before, poolsBefore := classes, pools;
      pools := pools + [pool];
      classes := classes + [size];
      assert StrictlyIncreasing(classes) by {
        if before != [] {
          assert Last(before) < size;
        }
        ConcatIncreasing(before, [size]);
      }
      forall i | 0 <= i < tableIndex0
        ensures FirstFit(classes, i) == FirstFit(before, i) < |poolsBefore|
        ensures pools[FirstFit(classes, i)] == poolsBefore[FirstFit(before, i)]
      {
        FirstFitExtend(before, size, i);
        FirstFitFound(before, i);
      }
      forall i | tableIndex0 <= i <= size
        ensures FirstFit(classes, i) == |poolsBefore|
      {
        FirstFitExtend(before, size, i);
      }
      tableIndex := PointEntries(pool, size, tableIndex0);
    }

    /** The inner `while (tableIndex <= size)` loop: entries `tableIndex0`
        to `size` get the newest pool, the one `size` now names. */
    method PointEntries(pool: MemoryPool, size: int, tableIndex0: int) returns (tableIndex: int)
      requires PoolsValid() && pools != [] && pool == pools[|pools| - 1] && size == Last(classes)
      requires 0 <= tableIndex0 <= size + 1 && FilledUpTo(tableIndex0)
      requires forall i :: tableIndex0 <= i <= size ==> FirstFit(classes, i) == |pools| - 1
      modifies poolTable
      ensures Valid()
      ensures tableIndex == size + 1
    {
      tableIndex := tableIndex0;
      while tableIndex <= size
        invariant tableIndex0 <= tableIndex <= size + 1
        invariant PoolsValid() && FilledUpTo(tableIndex)
        decreases size + 1 - tableIndex
      {
        poolTable[tableIndex] := pool;
        tableIndex := tableIndex + 1;
      }
    }

    /** The header of a block `Allocate` could have written: either a heap
        block, or a pooled size whose table entry is assigned. */
    ghost predicate Routable(allocSize: int)
      reads this, poolTable
    {
      allocSize > MAX_ALLOC_SIZE
      || (0 <= allocSize <= MAX_ALLOC_SIZE < poolTable.Length && poolTable[allocSize] != null)
    }

    /** `Allocate(size)`. `newBlock` is what `malloc` returns if it is called
        (for a large request, or by a pool with nothing to reuse). The block
        gets a header recording `allocSize`, and the caller gets the address
        just past it. */
    method Allocate(size: int, mem: HeaderMemory, newBlock: Addr) returns (r: AllocResult)
      requires Valid() && IsInt32(size)
      modifies mem, set p | p in pools
      ensures Valid()
      ensures var a := AllocSizeOf(size);
        a > MAX_ALLOC_SIZE ==>
          && r == Block(newBlock + HEADER_SIZE)
          && mem.headers == old(mem.headers)[newBlock := MemoryHeader(a)]
          && (forall k :: 0 <= k < |pools| ==>
                pools[k].queue == old(pools[k].queue) && pools[k].allocCount == old(pools[k].allocCount))
      ensures var a := AllocSizeOf(size);
        a < 0 ==>
          && r == OutsideTable(a)
          && mem.headers == old(mem.headers)
          && (forall k :: 0 <= k < |pools| ==>
                pools[k].queue == old(pools[k].queue) && pools[k].allocCount == old(pools[k].allocCount))
      ensures var a := AllocSizeOf(size);
        0 <= a <= MAX_ALLOC_SIZE && poolTable[a] == null ==>
          && a >= TableEnd(classes)
          && r == UnassignedEntry(a)
          && mem.headers == old(mem.headers)
          && (forall k :: 0 <= k < |pools| ==>
                pools[k].queue == old(pools[k].queue) && pools[k].allocCount == old(pools[k].allocCount))
      ensures var a := AllocSizeOf(size);
        0 <= a <= MAX_ALLOC_SIZE && poolTable[a] != null ==>
          var p := poolTable[a];
          var header := Popped(old(p.queue), newBlock);
          && a < TableEnd(classes)
          && a <= p.allocSize
          && r == Block(header + HEADER_SIZE)
          && p.queue == (if old(p.queue) == [] then [] else old(p.queue)[1..])
          && p.allocCount == old(p.allocCount) + 1
          && mem.headers == old(mem.headers)[header := MemoryHeader(a)]
          && (forall k :: 0 <= k < |pools| && pools[k] != p ==>
                pools[k].queue == old(pools[k].queue) && pools[k].allocCount == old(pools[k].allocCount))
    {
      var allocSize := AllocSizeOf(size);
      var header: Addr;
      if allocSize > MAX_ALLOC_SIZE {
        header := newBlock;
      } else if allocSize < 0 {
        return OutsideTable(allocSize);
      } else if poolTable[allocSize] == null {
        EntryFacts(allocSize);
        return UnassignedEntry(allocSize);
      } else {
        EntryFacts(allocSize);
        header := poolTable[allocSize].Pop(newBlock);
      }
      var ptr := AttachHeader(mem, header, allocSize);
      r := Block(ptr);
    }

    /** `Release(ptr)` of a pointer `Allocate` returned: the header in front
        of it gives `allocSize`; a large block goes back to `free` (listed in
        `freed`), a pooled one to the back of the queue of
        `poolTable[allocSize]`, the pool `Allocate` took it from. */
    method Release(ptr: Addr, mem: HeaderMemory) returns (freed: seq<Addr>)
      requires Valid()
      requires ptr >= HEADER_SIZE && DetachHeader(ptr) in mem.headers
      requires Routable(mem.headers[DetachHeader(ptr)].allocSize)
      modifies set p | p in pools
      ensures Valid()
      ensures var header := DetachHeader(ptr); var a := mem.headers[header].allocSize;
        a > MAX_ALLOC_SIZE ==>
          && freed == [header]
          && (forall k :: 0 <= k < |pools| ==>
                pools[k].queue == old(pools[k].queue) && pools[k].allocCount == old(pools[k].allocCount))
      ensures var header := DetachHeader(ptr); var a := mem.headers[header].allocSize;
        a <= MAX_ALLOC_SIZE ==>
          var p := poolTable[a];
          && freed == []
          && p.queue == old(p.queue) + [header]
          && p.allocCount == old(p.allocCount) - 1
          && (forall k :: 0 <= k < |pools| && pools[k] != p ==>
                pools[k].queue == old(pools[k].queue) && pools[k].allocCount == old(pools[k].allocCount))
    {
      var header: Addr := DetachHeader(ptr);
      var allocSize := mem.headers[header].allocSize;
      if allocSize > MAX_ALLOC_SIZE {
        freed := [header];
      } else {
        EntryFacts(allocSize);
        poolTable[allocSize].Push(header);
        freed := [];
      }
    }

    /** `~Memory`: deletes every pool, each of which frees the blocks it
        holds, then clears `pools`. `freed` lists what is passed to `free`. */
    method Destroy() returns (freed: seq<Addr>)
      requires Valid()
      modifies this, set p | p in pools
      ensures freed == Flatten(old(Queues(pools)))
      ensures forall k :: 0 <= k < |old(pools)| ==> old(pools)[k].queue == []
      ensures pools == []
    {
      freed := [];
      ghost var qs := Queues(pools);
      var i := 0;
      while i < |pools|
        invariant 0 <= i <= |pools| == |qs| && pools == old(pools)
        invariant forall j, k :: 0 <= j < k < |pools| ==> pools[j] != pools[k]
        invariant freed == Flatten(qs[..i])
        invariant forall k :: i <= k < |pools| ==> pools[k].queue == qs[k]
        invariant forall k :: 0 <= k < i ==> pools[k].queue == []
        decreases |pools| - i
      {
        var drained := pools[i].Drain();
        assert qs[..i + 1][..i] == qs[..i];
        freed := freed + drained;
        i := i + 1;
      }
      assert qs[..i] == qs;
      pools := [];
    }
  }

  /** As written, a request of 4000 bytes (4004 with its header) is in the
      pooled range but meets a table entry no loop assigned. */
  method AsWrittenAllocate4000(newBlock: Addr) returns (r: AllocResult)
    ensures r == UnassignedEntry(4004)
  {
    var memory := new Memory();
    var mem := new HeaderMemory();
    memory.AsWrittenEntry(4004);
    r := memory.Allocate(4000, mem, newBlock);
  }

  /** With the corrected table fresh from its constructor, a block given
      back with `Release` is the block the next request of the same size
      gets. */
  method ReleaseThenReuse(size: int, first: Addr, second: Addr) returns (p: AllocResult, q: AllocResult)
    requires 0 <= size <= MAX_ALLOC_SIZE - HEADER_SIZE
    requires first != NULL
    ensures p == Block(first + HEADER_SIZE)
    ensures q == p
  {
    var memory := new Memory.Corrected();
    var mem := new HeaderMemory();
    p, q := AllocateReleaseAllocate(memory, mem, size, first, second);
  }

  /** On a corrected table whose pools are untouched, allocating, releasing
      and allocating again for one size hands out the same block twice. */
  method AllocateReleaseAllocate(memory: Memory, mem: HeaderMemory, size: int, first: Addr, second: Addr)
    returns (p: AllocResult, q: AllocResult)
    requires memory.Valid() && memory.classes == IntendedClasses() && memory.Pristine()
    requires 0 <= size <= MAX_ALLOC_SIZE - HEADER_SIZE
    requires first != NULL
    modifies mem, set p | p in memory.pools
    ensures p == Block(first + HEADER_SIZE)
    ensures q == p
  {
    var a := size + HEADER_SIZE;
    IntendedShape();
    memory.EntryFacts(a);
    p := memory.Allocate(size, mem, first);
    q := ReleaseAndReallocate(memory, mem, size, first, second);
  }

  /** Releasing a pooled block whose pool is otherwise empty and then
      asking for the same size hands the block straight back. */
  method ReleaseAndReallocate(memory: Memory, mem: HeaderMemory, size: int, header: Addr, second: Addr)
    returns (q: AllocResult)
    requires memory.Valid() && 0 <= size <= MAX_ALLOC_SIZE - HEADER_SIZE && header != NULL
    requires memory.poolTable[size + HEADER_SIZE] != null
    requires memory.poolTable[size + HEADER_SIZE].queue == []
    requires header in mem.headers && mem.headers[header] == MemoryHeader(size + HEADER_SIZE)
    modifies mem, set p | p in memory.pools
    ensures q == Block(header + HEADER_SIZE)
  {
    var pool := memory.poolTable[size + HEADER_SIZE];
    var freed := memory.Release(header + HEADER_SIZE, mem);
    assert pool.queue == [header];
    q := memory.Allocate(size, mem, second);
  }
}
