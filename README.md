# Memory management in ServerPractice, modelled in Dafny

This project models the memory-management part of the ServerPractice C++
teaching repository and proves properties of the model. The model covers:

- the page-granular **stomp allocator** and the STL allocator built on it
  (`20_StompAllocator.cpp`, `21_STLAllocator.cpp`);
- the **size-class memory pool** (`22_MemoryPool1.cpp`). This is a
  `MemoryHeader` in front of every block, a `MemoryPool` per size class
  with a FIFO queue of returned blocks, and a `Memory` object. `Memory`
  builds a table from request size to pool and sends each request to a pool
  or straight to the heap;
- the **intrusive LIFO list** of `23_MemoryPool2.cpp`, in two forms:
  - the plain single-threaded header (lines 58-81);
  - the tagged 128-bit header that the file's macros select (lines
    193-321). Its bit fields are `depth`, `sequence` and the shifted `next`
    pointer;
- **intrusive reference counting** (`17_RefCounting.cpp`): `RefCountable`
  and the `TSharedPtr` wrapper.

Modules, one concept each:

| module | file | form |
|---|---|---|
| `Words` | `words.dfy` | 32-bit wrap-around and C++ truncating `/` and `%` |
| `StompAllocator` | `stomp_allocator.dfy` | pure functions and round-trip lemmas |
| `STLAllocator` | `stl_allocator.dfy` | pure functions over `StompAllocator` |
| `SizeClasses` | `size_classes.dfy` | the size classes and the size-to-pool lookup, as values |
| `MemoryPool` | `memory_pool.dfy` | the header, and the `MemoryPool` class over a `seq` queue |
| `PoolMemory` | `pool_memory.dfy` | the `Memory` class over a `seq` of pools and an `array` table |
| `SList` | `slist.dfy` | linked `SListEntry` objects and a header class |
| `TaggedSList` | `tagged_slist.dfy` | the two-word header class, the bit-field view, and the retry loops |
| `RefCounting` | `ref_counting.dfy` | the `RefCountable` and `SharedPtr` classes |

The functions that matter receive the foreign calls' results as
parameters:

- `VirtualAlloc` gives a page-aligned `base`;
- `malloc` gives a `newBlock`;
- the blocks passed to `free` are returned as a `freed` sequence.

Addresses are natural numbers; 0 is `nullptr`. Where the model includes a
narrowing conversion of the C++ (`__int32` sizes, `int` byte counts), it
writes it out with `Words.ToInt32`; the header bit fields wrap with `%` at
their widths. Wraps the model does not include are listed under "Left out".

The pool's comments
describe size classes that reach 4096, but the constructor's loops do not;
the model follows the code (see "Findings").

## Model

| member | source | states |
|---|---|---|
| Words.ToInt32 | ServerPractice/22_MemoryPool1.cpp:193 | the narrowed value is a 32-bit integer congruent to the input modulo 2^32, and equal to it when the input already fits |
| Words.CDiv | ServerPractice/20_StompAllocator.cpp:86 | C++ integer division truncates toward zero: the remainder lies strictly within one divisor of zero and has the dividend's sign |
| Words.CRem | ServerPractice/20_StompAllocator.cpp:96 | C++ `%`: equals Euclidean `%` for a non-negative dividend, and lies in (-b, 0] for a negative one |
| StompAllocator.PageCount | ServerPractice/20_StompAllocator.cpp:86 | for a request of 1 to INT32_MAX-4095 bytes, the page count is the ceiling of size/4096: positive, (n-1)*4096 < size <= n*4096 |
| StompAllocator.ReserveBytes | ServerPractice/20_StompAllocator.cpp:89 | the reservation is page-aligned, at least the request, and less than one page more |
| StompAllocator.DataOffset | ServerPractice/20_StompAllocator.cpp:87 | the offset lies in [0, PAGE_SIZE), and offset + size equals the reservation |
| StompAllocator.Alloc | ServerPractice/20_StompAllocator.cpp:83-91 | the returned pointer lies in the first page of the reservation, and the block ends exactly at the reservation's end |
| StompAllocator.Release | ServerPractice/20_StompAllocator.cpp:93-98 | the address passed to `VirtualFree` is the page-aligned start of the page holding `ptr` |
| StompAllocator.ReleaseRecoversBase | ServerPractice/20_StompAllocator.cpp:83-98 | for a page-aligned base, releasing the pointer `Alloc` returned frees exactly the base `Alloc` reserved |
| StompAllocator.XNew | ServerPractice/20_StompAllocator.cpp:106-114 | `xnew` asks for exactly `sizeof(Type)` bytes, so the object ends at the end of its reservation |
| StompAllocator.XDelete | ServerPractice/20_StompAllocator.cpp:116-121 | `xdelete` releases the page-aligned page start of the object's own address |
| StompAllocator.XNewXDelete | ServerPractice/20_StompAllocator.cpp:106-121 | `xdelete` of the object `xnew` made releases the reservation `xnew` made, and that reservation holds the whole object |
| STLAllocator.RequestBytes | ServerPractice/21_STLAllocator.cpp:49 | `static_cast<int>(count * sizeof(T))` is a 32-bit value, and equals the product when the product fits |
| STLAllocator.Allocate | ServerPractice/21_STLAllocator.cpp:47-51 | `allocate(count)` returns a stomp block of count*sizeof(T) bytes that ends at the end of its reservation |
| STLAllocator.Deallocate | ServerPractice/21_STLAllocator.cpp:53-56 | `deallocate` ignores `count` and releases the page start of the pointer |
| STLAllocator.AllocateDeallocate | ServerPractice/21_STLAllocator.cpp:19-56 | deallocating what `allocate` returned frees the reservation it made, whatever count is passed back (the file's copy of the page arithmetic at lines 19-34 is the one in module StompAllocator) |
| SizeClasses.BandCount | ServerPractice/22_MemoryPool1.cpp:147-156 | one `for (; size <= limit; size += step)` loop visits the longest run start, start+step, ... within `limit`, and leaves `size` one step past it |
| SizeClasses.BandAt | ServerPractice/22_MemoryPool1.cpp:147-156 | the k-th size such a loop visits is start + k*step |
| SizeClasses.BandIncreasing | ServerPractice/22_MemoryPool1.cpp:147-156 | the sizes one loop visits strictly increase and never fall below its start |
| SizeClasses.FirstFit | ServerPractice/22_MemoryPool1.cpp:151-155 | the pool index for a request is the first class that holds it; every earlier class is too small |
| SizeClasses.FirstFitFound | ServerPractice/22_MemoryPool1.cpp:147-178 | in increasing classes, a request has a pool exactly when it is below one past the largest class |
| SizeClasses.FirstFitExtend | ServerPractice/22_MemoryPool1.cpp:149-155 | adding a larger pool keeps every earlier request's pool, and gives the new pool exactly the requests from one past the old largest class up to its own size |
| SizeClasses.ConcatIncreasing | ServerPractice/22_MemoryPool1.cpp:145-178 | consecutive loops whose sizes keep rising give one strictly increasing list of classes |
| SizeClasses.BandsIncreasing | ServerPractice/22_MemoryPool1.cpp:145-178 | three loops, each starting above the limit of the one before, visit strictly increasing sizes |
| SizeClasses.AsWrittenIncreasing | ServerPractice/22_MemoryPool1.cpp:145-178 | the classes the constructor creates as written strictly increase |
| SizeClasses.AsWrittenShape | ServerPractice/22_MemoryPool1.cpp:136-178 | as written: 32 + 8 + 8 = POOL_COUNT pools, the second band starts at 1056 and the third at 2080, the last class is 3872, and the table ends at 3873 |
| SizeClasses.IntendedIncreasing | ServerPractice/22_MemoryPool1.cpp:133-137 | the intended classes (step 32 to 1024, 128 to 2048, 256 to 4096) strictly increase |
| SizeClasses.IntendedShape | ServerPractice/22_MemoryPool1.cpp:133-137 | the intended classes are POOL_COUNT strictly increasing pools, with the band boundaries 1024/1152 and 2048/2304, whose last class is MAX_ALLOC_SIZE, so the table ends at 4097 and no entry up to MAX_ALLOC_SIZE is left unassigned |
| SizeClasses.AsWrittenLeavesGap | ServerPractice/22_MemoryPool1.cpp:158-178 | as written, every request from 3873 to 4096 is in the pooled range, yet no pool holds it |
| SizeClasses.IntendedCoversAll | ServerPractice/22_MemoryPool1.cpp:133-137 | with the intended classes, every request from 0 to 4096 has a pool whose blocks are big enough, while the next smaller pool's are not |
| MemoryPool.DetachHeader | ServerPractice/22_MemoryPool1.cpp:35-39 | the header lies one `MemoryHeader` (4 bytes) in front of the user pointer |
| MemoryPool.AttachHeader | ServerPractice/22_MemoryPool1.cpp:29-39 | writes a header holding `size` at `header`, changing no other header; returns the address `DetachHeader` maps back to `header`, so the header `Release` reads is the one `Allocate` wrote |
| MemoryPool.Popped | ServerPractice/22_MemoryPool1.cpp:84-95 | the block `Pop` hands out is the queue front when there is a non-null one, and a `malloc` result otherwise |
| MemoryPool.MemoryPool.constructor | ServerPractice/22_MemoryPool1.cpp:47-50 | a new pool has the given block size, an empty queue and a count of 0 |
| MemoryPool.MemoryPool.Push | ServerPractice/22_MemoryPool1.cpp:63-72 | the block goes to the back of the queue, and `allocCount` drops by exactly 1 |
| MemoryPool.MemoryPool.Pop | ServerPractice/22_MemoryPool1.cpp:75-107 | returns the front block and removes it, or a fresh `malloc` block when the queue is empty or its front is null; `allocCount` rises by exactly 1 either way |
| MemoryPool.MemoryPool.Drain | ServerPractice/22_MemoryPool1.cpp:51-59 | `~MemoryPool` frees every queued block exactly once, front first, and leaves the queue empty |
| MemoryPool.FifoReuse | ServerPractice/22_MemoryPool1.cpp:63-107 | two blocks pushed come back out in push order, then `malloc` is used; one block is left outstanding |
| PoolMemory.AllocSizeOf | ServerPractice/22_MemoryPool1.cpp:193 | `size + sizeof(MemoryHeader)` narrowed to `__int32`: exactly size + 4 without overflow, negative when it overflows |
| PoolMemory.AsWrittenFromBands | ServerPractice/22_MemoryPool1.cpp:145-178 | the three loops as written, each starting from the `size` the previous one left, produce AsWrittenClasses: POOL_COUNT pools, table end 3873 |
| PoolMemory.IntendedFromBands | ServerPractice/22_MemoryPool1.cpp:133-137 | three loops restarting at 1152 and 2304 produce IntendedClasses, whose table reaches MAX_ALLOC_SIZE |
| PoolMemory.Memory.constructor | ServerPractice/22_MemoryPool1.cpp:141-179 | the constructor as written leaves a valid table with the as-written classes and untouched, newly allocated pools: each assigned entry holds the smallest pool that fits, and every entry from one past the largest class on is unassigned |
| PoolMemory.Memory.Corrected | ServerPractice/22_MemoryPool1.cpp:141-179 | the constructor with the intended loop starts leaves a valid table with the intended classes and untouched, newly allocated pools |
| PoolMemory.Memory.EntryFacts | ServerPractice/22_MemoryPool1.cpp:147-178 | in a valid table an entry is assigned exactly when it is below one past the largest class, and an assigned entry is one of the pools with blocks big enough for that request |
| PoolMemory.Memory.AsWrittenEntry | ServerPractice/22_MemoryPool1.cpp:147-178 | the as-written table has POOL_COUNT pools, serves entries 0 to 3872 with a big-enough pool, and leaves entries 3873 to 4096 unassigned |
| PoolMemory.Memory.CorrectedEntry | ServerPractice/22_MemoryPool1.cpp:147-178 | the corrected table has POOL_COUNT pools and serves every entry from 0 to 4096 with a big-enough pool |
| PoolMemory.Memory.AddBand | ServerPractice/22_MemoryPool1.cpp:147-156 | one constructor loop appends a newly allocated pool per visited size, keeping the earlier pools as a prefix; it keeps the table valid and the new pools untouched, and leaves `size` and `tableIndex` where the C++ does |
| PoolMemory.Memory.AddPool | ServerPractice/22_MemoryPool1.cpp:149-155 | `new MemoryPool(size)`: exactly one newly allocated pool is appended after the unchanged earlier pools, its class is `size`, and the table stays valid, now filled up to `size` |
| PoolMemory.Memory.PointEntries | ServerPractice/22_MemoryPool1.cpp:151-155 | the inner `while (tableIndex <= size)` loop points the entries up to `size` at the newest pool, leaving a valid table and `tableIndex == size + 1` |
| PoolMemory.Memory.Allocate | ServerPractice/22_MemoryPool1.cpp:189-207 | a large request gets its own `malloc` block. A pooled one pops from `poolTable[allocSize]`, a pool big enough, whose count rises by 1 while the other pools are unchanged. The header records `allocSize`. A negative `allocSize` or an unassigned entry is reported as such, with nothing changed |
| PoolMemory.Memory.Release | ServerPractice/22_MemoryPool1.cpp:208-223 | the header's `allocSize` decides: a large block is freed; a pooled one goes to the back of `poolTable[allocSize]`, whose count drops by 1 while every other pool is unchanged |
| PoolMemory.Memory.Destroy | ServerPractice/22_MemoryPool1.cpp:181-187 | `~Memory` frees every block queued in any pool exactly once, pool by pool and front first, empties every queue and clears `pools` |
| PoolMemory.AsWrittenAllocate4000 | ServerPractice/22_MemoryPool1.cpp:189-207 | on a `Memory` built by the as-written constructor, `Allocate(4000)` meets the unassigned entry 4004 |
| PoolMemory.ReleaseThenReuse | ServerPractice/22_MemoryPool1.cpp:189-223 | on a `Memory` built by the corrected constructor, a pooled block that is allocated, released and requested again comes back as the same block |
| PoolMemory.AllocateReleaseAllocate | ServerPractice/22_MemoryPool1.cpp:189-223 | on any valid corrected table with untouched pools, allocate, release and allocate of one size hand out the same block twice |
| PoolMemory.ReleaseAndReallocate | ServerPractice/22_MemoryPool1.cpp:189-223 | releasing a pooled block into an otherwise empty pool and then allocating the same size returns that block |
| SList.SListEntry.constructor | ServerPractice/23_MemoryPool2.cpp:25-28 | a value-initialised entry (`new Data()`) links to nothing; the struct declares no constructor, so a default-initialised one would hold an indeterminate `next` |
| SList.SListHeader.constructor | ServerPractice/23_MemoryPool2.cpp:51-54 | a new header is `nullptr` and heads the empty list |
| SList.InitializeHead | ServerPractice/23_MemoryPool2.cpp:58-61 | the header becomes `nullptr` and heads the empty list |
| SList.PushEntryList | ServerPractice/23_MemoryPool2.cpp:63-72 | the entry becomes the header's `next`, its own `next` is the old first entry, and the list gains it at the front |
| SList.PopEntryList | ServerPractice/23_MemoryPool2.cpp:74-81 | on an empty list returns `nullptr` and changes nothing; otherwise returns the first entry and the header moves on to that entry's `next` |
| SList.PushThenPop | ServerPractice/23_MemoryPool2.cpp:63-81 | push then pop returns the pushed entry and restores the header and the list |
| SList.LifoOrder | ServerPractice/23_MemoryPool2.cpp:58-81 | three entries pushed come back in reverse order, and then the list is empty |
| TaggedSList.Alignment | ServerPractice/23_MemoryPool2.cpp:239-246 | packing `depth` and `sequence` gives one 64-bit word |
| TaggedSList.Region | ServerPractice/23_MemoryPool2.cpp:240-248 | packing `reserved` and `next` gives one 64-bit word |
| TaggedSList.FromWords | ServerPractice/23_MemoryPool2.cpp:235-250 | reading the bit fields out of two words gives in-range fields that pack back to the same words |
| TaggedSList.FieldsRoundTrip | ServerPractice/23_MemoryPool2.cpp:235-250 | the two views of the union agree: fields packed and read back are unchanged |
| TaggedSList.CounterStep | ServerPractice/23_MemoryPool2.cpp:275-276 | adding or removing one in a 16-bit or 48-bit field is counting modulo its width |
| TaggedSList.EncodeNext | ServerPractice/23_MemoryPool2.cpp:267 | `entry >> 4` fits the 60-bit `next` field |
| TaggedSList.DecodeNext | ServerPractice/23_MemoryPool2.cpp:274 | `next << 4` is a 64-bit address |
| TaggedSList.EncodeDecode | ServerPractice/23_MemoryPool2.cpp:264-274 | decoding an encoded address clears its low 4 bits, so it is exact for 16-byte-aligned entries; `nullptr` encodes to 0 and back |
| TaggedSList.SListHeader.constructor | ServerPractice/23_MemoryPool2.cpp:228-232 | a new header has both words zero and heads the empty list |
| TaggedSList.SListHeader.View | ServerPractice/23_MemoryPool2.cpp:243-249 | the `HeaderX64` view of the header has every field within its bit width |
| TaggedSList.InitializeHead | ServerPractice/23_MemoryPool2.cpp:253-257 | both words become zero, so depth, sequence and next are 0 and the list is empty |
| TaggedSList.InterlockedCompareExchange128 | ServerPractice/23_MemoryPool2.cpp:280 | the header's words are replaced by the proposed ones exactly when they equal the comparand; the original words are returned |
| TaggedSList.PushEntryList | ServerPractice/23_MemoryPool2.cpp:259-283 | the entry goes in front, linked to the old first entry; `depth` and `sequence` each rise by 1 within their widths, and `next` decodes to the entry |
| TaggedSList.TryPush | ServerPractice/23_MemoryPool2.cpp:269-281 | one pass of the push loop: with no other writer the exchange succeeds and leaves the pushed state |
| TaggedSList.PushLinks | ServerPractice/23_MemoryPool2.cpp:274 | writing the entry's `next` word and putting it in front keeps a well-formed chain |
| TaggedSList.PopEntryList | ServerPractice/23_MemoryPool2.cpp:285-321 | on an empty list returns `nullptr` and changes nothing. Otherwise returns the first entry, `next` decodes to its successor, `depth` falls by 1 and `sequence` rises by 1 |
| TaggedSList.TryPop | ServerPractice/23_MemoryPool2.cpp:291-317 | one pass of the pop loop: stops on `nullptr`; otherwise the exchange succeeds and leaves the popped state |
| TaggedSList.PopLinks | ServerPractice/23_MemoryPool2.cpp:311 | dropping the first entry keeps the chain, and the new first entry is the old first entry's `next` |
| TaggedSList.PushThenPop | ServerPractice/23_MemoryPool2.cpp:259-321 | push then pop returns the entry and restores the list, `depth` and `next`; `sequence` has moved on by 2 |
| TaggedSList.RestoredHeader | ServerPractice/23_MemoryPool2.cpp:245-248 | two valid headers over the same list agree in `depth` and `next` |
| TaggedSList.PushTwo | ServerPractice/23_MemoryPool2.cpp:259-283 | two pushes put the second entry in front of the first, keep the header valid, and count two operations in `sequence` |
| TaggedSList.PopTwo | ServerPractice/23_MemoryPool2.cpp:285-321 | two pops on a list of at least two entries return its first two entries in list order, keep the header valid, and count two operations |
| TaggedSList.LifoOrder | ServerPractice/23_MemoryPool2.cpp:253-321 | from `InitializeHead`, two entries pushed come back in reverse order, then `nullptr`; `depth` is 0 again and `sequence` counts the 4 operations that moved an entry |
| RefCounting.RefCountable.constructor | ServerPractice/17_RefCounting.cpp:27 | a new object has a count of 1 and is alive |
| RefCounting.RefCountable.GetRef | ServerPractice/17_RefCounting.cpp:30 | returns the current count |
| RefCounting.RefCountable.AddRef | ServerPractice/17_RefCounting.cpp:31 | the count rises by 1 and the new count is returned |
| RefCounting.RefCountable.ReleaseRef | ServerPractice/17_RefCounting.cpp:33-40 | the count falls by 1 and the new count is returned; the object is destroyed exactly when that count is 0 |
| RefCounting.SharedPtr.Default | ServerPractice/17_RefCounting.cpp:99 | as written, `ptr` holds whatever indeterminate value was there |
| RefCounting.SharedPtr.Null | ServerPractice/17_RefCounting.cpp:99 | as intended, a default-constructed pointer is empty |
| RefCounting.SharedPtr.FromRaw | ServerPractice/17_RefCounting.cpp:100 | takes the object and adds exactly one reference to it; `nullptr` touches no count |
| RefCounting.SharedPtr.Copy | ServerPractice/17_RefCounting.cpp:103 | shares `rhs`'s object and adds exactly one reference to it (also the converting copy at line 110) |
| RefCounting.SharedPtr.Move | ServerPractice/17_RefCounting.cpp:106 | takes over `rhs`'s object, empties `rhs`, and changes no count |
| RefCounting.SharedPtr.Set | ServerPractice/17_RefCounting.cpp:147-152 | points at the object and adds one reference if there is one |
| RefCounting.SharedPtr.Release | ServerPractice/17_RefCounting.cpp:154-161 | drops exactly one reference if it holds an object, destroying it when that was the last one, and becomes empty |
| RefCounting.SharedPtr.Destroy | ServerPractice/17_RefCounting.cpp:112 | `~TSharedPtr` is `Release` |
| RefCounting.SharedPtr.Assign | ServerPractice/17_RefCounting.cpp:116-124 | assigning a pointer to the same object changes no count; otherwise the old object loses one reference and the new one gains one |
| RefCounting.SharedPtr.IsNull | ServerPractice/17_RefCounting.cpp:135 | true exactly when `ptr` is `nullptr` |
| RefCounting.MainScenario | ServerPractice/17_RefCounting.cpp:187-197 | in `main` both objects are destroyed, each exactly when its last reference goes, and both counts end at 0 |
| RefCounting.DoubleRelease | ServerPractice/17_RefCounting.cpp:154-161 | releasing a wrapper twice gives back one reference only: the object lives on with its creator's reference |
| RefCounting.SelfAssignKeepsObject | ServerPractice/17_RefCounting.cpp:116-124 | self-assignment of the last reference does not destroy the object |
| RefCounting.MoveKeepsCount | ServerPractice/17_RefCounting.cpp:106 | moving a wrapper keeps the count, and destroying the emptied source changes nothing |
| RefCounting.DefaultThenDestroyAsWritten | ServerPractice/17_RefCounting.cpp:99-112 | as written, destroying a default-constructed wrapper whose indeterminate `ptr` holds a live object destroys that object |
| RefCounting.DefaultThenDestroyCorrected | ServerPractice/17_RefCounting.cpp:99-112 | with `ptr` starting as `nullptr`, destroying a default-constructed wrapper touches no object |

## Left out

- Lock-free stacks (`14_LockFree_Stack_1.cpp`, `15_LockFree_Stack_2.cpp`)
  and the threading demos (files 03-13): their behaviour is concurrent
  (CAS retry races, reclamation between threads, blocking waits) and has no
  sequential core beyond the LIFO list modelled here.
- The ABA-prone branch of `23_MemoryPool2.cpp` (lines 100-192): it is
  compiled out by the macros at lines 12-13. The single-threaded branch
  (lines 14-99) is compiled out too, but its list operations are modelled
  as the reference behaviour.
- Concurrency in general: `std::atomic` counters are plain integers,
  `WRITE_LOCK` is absent in the source as well, and
  `InterlockedCompareExchange128` is modelled for one thread. So the retry
  loops in TaggedSList run once, and ABA is not modelled.
- TaggedSList.TryPush: ensures success of the exchange, which holds only
  because no other thread writes the header; the same holds for
  TaggedSList.TryPop.
- `VirtualAlloc`, `VirtualFree`, `malloc`, `free` and the printing
  `operator new`/`delete` overloads (`20_StompAllocator.cpp:48-72`) are
  foreign calls. Their results are parameters (`base`, `newBlock`), and the
  blocks given to `free` are returned in `freed`. Allocation failure
  (`nullptr` from `malloc`) is not modelled.
- StompAllocator.PageCount: for `size <= 0` or `size > INT32_MAX - 4095`
  the function computes the wrapped C++ values, but the contract states
  nothing about them. Zero or negative requests, and overflowing ones, are
  outside what the allocator evidently supports.
- MemoryPool.MemoryPool.Push: `allocCount` is an unbounded integer; the
  32-bit wrap of the atomic `__int32` is not modelled. The same goes for
  MemoryPool.MemoryPool.Pop.
- RefCounting.RefCountable.AddRef: `refCount` is an unbounded integer; the
  32-bit wrap is not modelled.
- PoolMemory.Memory.Allocate: in C++, an index outside the table
  (negative `allocSize`, after `size + 4` wraps) is undefined behaviour. So
  is a call through an entry the constructor never assigned, which holds an
  indeterminate pointer. The model reports both as error results
  (`OutsideTable`, `UnassignedEntry`) and changes nothing. Unassigned
  entries are `null` in the model.
- PoolMemory.Memory.Release: requires a header that `Allocate` could have
  written (pooled with an assigned entry, or above MAX_ALLOC_SIZE). Other
  pointers are undefined behaviour in C++.
- SList.PushEntryList: requires that the entry is not already on the
  list. The C++ accepts such an entry, and pushing it again links the list
  into a cycle. The only caller in `23_MemoryPool2.cpp` pushes a freshly
  allocated `Data`, so it meets the requirement. The same holds for
  TaggedSList.PushEntryList.
- Block contents other than the headers are not modelled. Addresses are
  unbounded naturals, except in the tagged list, which works on explicit
  64-bit words.
- `delete this` and the virtual destructor of `RefCountable` are the
  `destroyed` flag; using an object after it was destroyed is a
  precondition violation, not modelled behaviour.
- The `TSharedPtr` "move assignment" (`17_RefCounting.cpp:127-133`)
  repeats the copy assignment's signature and writes through a `const`
  reference, so it does not compile and has no behaviour to model. The
  `using MarineRef` before the template (line 47) is an ordering error of
  the same kind.
- `Marine`, `Bullet` (`SetTarget`, `Update`) and the commented-out `main`
  of `17_RefCounting.cpp`: game objects used only by the demo.
- The `TSharedPtr` comparison and conversion operators (lines 137-144) only
  compare or return `ptr`.
- The `main` functions of files 20-23 and the `Data` payload class of
  `23_MemoryPool2.cpp`: test drivers.

## Findings

| source | as written | input that shows it | evidently intended | confidence | as-written member | corrected member |
|---|---|---|---|---|---|---|
| ServerPractice/22_MemoryPool1.cpp:158-178 | the second and third loops continue from the `size` the previous loop left (1056, then 2080), so the classes are 1056..1952 and 2080..3872 and table entries 3873..4096 are never assigned | `Allocate(4000)`: allocSize 4004 is at most MAX_ALLOC_SIZE, so `poolTable[4004]->Pop()` is called through an indeterminate pointer | bands 1152..2048 step 128 and 2304..4096 step 256, as the enum's POOL_COUNT and comments describe, covering every entry up to 4096 | not executed | SizeClasses.AsWrittenLeavesGap, PoolMemory.Memory.AsWrittenEntry, PoolMemory.AsWrittenAllocate4000 | SizeClasses.IntendedCoversAll, PoolMemory.Memory.Corrected, PoolMemory.Memory.CorrectedEntry, PoolMemory.ReleaseThenReuse |
| ServerPractice/17_RefCounting.cpp:99 | `TSharedPtr() {}` leaves `ptr` uninitialised, and the destructor releases whatever it holds | a default-constructed wrapper whose indeterminate `ptr` happens to point at a live object with count 1: its destructor destroys that object | `ptr` starts as `nullptr`, so an empty wrapper releases nothing | not executed | RefCounting.SharedPtr.Default, RefCounting.DefaultThenDestroyAsWritten | RefCounting.SharedPtr.Null, RefCounting.DefaultThenDestroyCorrected |
