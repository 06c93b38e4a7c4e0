/** The size classes of the pooled allocator in 22_MemoryPool1.cpp and the
    request-size-to-pool lookup they induce, as values. Module PoolMemory
    builds the real table with loops and proves it equal to what is defined
    here. */
module SizeClasses {

  /** Requests (header included) above this size bypass the pools. */
  const MAX_ALLOC_SIZE: int := 4096

  /** `1024 / 32 + 1024 / 128 + 2048 / 256`: the number of pools the design
      calls for. */
  const POOL_COUNT: int := 1024 / 32 + 1024 / 128 + 2048 / 256

  ghost predicate StrictlyIncreasing(s: seq<int>) {
    forall i, j :: 0 <= i < j < |s| ==> s[i] < s[j]
  }

  function Last(s: seq<int>): int
    requires s != []
  {
    s[|s| - 1]
  }

  /** The sizes the loop `for (; size <= limit; size += step)` visits when
      `size` starts at `start`. */
  function Band(start: int, limit: int, step: int): (b: seq<int>)
    requires step > 0
    decreases limit - start
  {
    if start > limit then [] else [start] + Band(start + step, limit, step)
  }

  /** The value `size` holds when that loop exits. */
  function BandEnd(start: int, limit: int, step: int): (e: int)
    requires step > 0
    decreases limit - start
  {
    if start > limit then start else BandEnd(start + step, limit, step)
  }

  /** How many sizes a band visits, and where `size` stops: the band is
      the longest run `start, start + step, ...` that stays within `limit`. */
  lemma {:induction false} BandCount(start: int, limit: int, step: int)
    requires step > 0
    ensures var n := |Band(start, limit, step)|;
      && (n == 0 <==> start > limit)
      && (n > 0 ==> start + (n - 1) * step <= limit)
      && limit < start + n * step
      && BandEnd(start, limit, step) == start + n * step
    decreases limit - start
  {
    if start <= limit {
      BandCount(start + step, limit, step);
      var n := |Band(start, limit, step)|;
      assert n - 1 == |Band(start + step, limit, step)|;
      assert start + step + (n - 2) * step == start + (n - 1) * step;
      assert start + step + (n - 1) * step == start + n * step;
    }
  }

  /** The k-th size a band visits is `start + k * step`. */
  lemma {:induction false} BandAt(start: int, limit: int, step: int, k: nat)
    requires step > 0 && k < |Band(start, limit, step)|
    ensures Band(start, limit, step)[k] == start + k * step
    decreases k
  {
    if k > 0 {
      BandAt(start + step, limit, step, k - 1);
      assert Band(start, limit, step)[k] == Band(start + step, limit, step)[k - 1];
      assert start + step + (k - 1) * step == start + k * step;
    }
  }

  /** A band is strictly increasing and never goes below its start. */
  lemma {:induction false} BandIncreasing(start: int, limit: int, step: int)
    requires step > 0
    ensures StrictlyIncreasing(Band(start, limit, step))
    ensures forall k :: 0 <= k < |Band(start, limit, step)| ==> start <= Band(start, limit, step)[k] <= limit
    decreases limit - start
  {
    if start <= limit {
      BandIncreasing(start + step, limit, step);
      var rest := Band(start + step, limit, step);
      var b := [start] + rest;
      assert Band(start, limit, step) == b;
      forall i, j | 0 <= i < j < |b| ensures b[i] < b[j] {
        assert b[j] == rest[j - 1];
        if i > 0 {
          assert b[i] == rest[i - 1];
        }
      }
      forall k | 0 <= k < |b| ensures start <= b[k] <= limit {
        if k > 0 {
          assert b[k] == rest[k - 1];
        }
      }
    }
  }

  /** The three bands the `Memory` constructor generates AS WRITTEN: the
      second and third loops start from the value `size` has when the
      previous loop exits, that is 1056 and 2080. */
  function AsWrittenClasses(): seq<int> {
    var end1 := BandEnd(32, 1024, 32);
    var end2 := BandEnd(end1, 2048, 128);
    Band(32, 1024, 32) + Band(end1, 2048, 128) + Band(end2, 4096, 256)
  }

  /** The bands the constants and comments describe: step 32 up to 1024,
      step 128 up to 2048, step 256 up to 4096. */
  function IntendedClasses(): seq<int> {
    Band(32, 1024, 32) + Band(1024 + 128, 2048, 128) + Band(2048 + 256, 4096, 256)
  }

  /** The index of the pool that serves a request of `request` bytes: the
      first (so, in an increasing list, the smallest) class that holds it,
      or `|classes|` when none does. */
  function FirstFit(classes: seq<int>, request: int): (k: nat)
    ensures k <= |classes|
    ensures k < |classes| ==> request <= classes[k]
    ensures forall j :: 0 <= j < k ==> classes[j] < request
  {
    if classes == [] then 0
    else if request <= classes[0] then 0
    else 1 + FirstFit(classes[1..], request)
  }

  /** One past the last table index the constructor assigns. */
  function TableEnd(classes: seq<int>): int {
    if classes == [] then 0 else Last(classes) + 1
  }

  /** In an increasing list, a request is served by some pool exactly when it
      does not exceed the largest class. */
  lemma FirstFitFound(classes: seq<int>, request: int)
    requires StrictlyIncreasing(classes) && 0 <= request
    ensures FirstFit(classes, request) < |classes| <==> request < TableEnd(classes)
  {
    var k := FirstFit(classes, request);
    if classes != [] && k == |classes| {
      assert classes[|classes| - 1] < request;
    }
    if k < |classes| - 1 {
      assert classes[k] < classes[|classes| - 1];
    }
  }

  /** Appending a larger class leaves the pool of every request the old
      classes already served unchanged, and gives the new class every request
      above the old largest class up to its own size. */
  lemma FirstFitExtend(classes: seq<int>, size: int, request: int)
    requires StrictlyIncreasing(classes + [size]) && 0 <= request
    ensures request < TableEnd(classes) ==> FirstFit(classes + [size], request) == FirstFit(classes, request)
    ensures TableEnd(classes) <= request <= size ==> FirstFit(classes + [size], request) == |classes|
  {
    var ext := classes + [size];
    assert StrictlyIncreasing(classes) by {
      forall i, j | 0 <= i < j < |classes| ensures classes[i] < classes[j] {
        assert ext[i] == classes[i] && ext[j] == classes[j];
      }
    }
    FirstFitFound(classes, request);
    var k' := FirstFit(ext, request);
    if request < TableEnd(classes) {
      var k := FirstFit(classes, request);
      assert ext[k] == classes[k];
      assert k' <= k;
      assert ext[k'] == classes[k'];
    } else if request <= size {
      forall j | 0 <= j < |classes| ensures ext[j] < request {
        assert ext[j] == classes[j];
        if j < |classes| - 1 {
          assert classes[j] < classes[|classes| - 1];
        }
      }
      assert ext[|classes|] == size;
    }
  }

  /** Two increasing lists one after the other, the second starting above
      the end of the first, form an increasing list. */
  lemma ConcatIncreasing(a: seq<int>, b: seq<int>)
    requires StrictlyIncreasing(a) && StrictlyIncreasing(b)
    requires a != [] && b != [] ==> Last(a) < b[0]
    ensures StrictlyIncreasing(a + b)
  {
    var c := a + b;
    forall i, j | 0 <= i < j < |c| ensures c[i] < c[j] {
      if i < |a| && j >= |a| {
        assert c[i] == a[i] && c[j] == b[j - |a|];
        assert a[i] <= Last(a) && b[0] <= b[j - |a|];
      }
    }
  }

  /** Three loops, each starting above the limit of the one before, visit
      strictly increasing sizes. */
  lemma BandsIncreasing(s1: int, l1: int, t1: int, s2: int, l2: int, t2: int, s3: int, l3: int, t3: int)
    requires t1 > 0 && t2 > 0 && t3 > 0
    requires l1 < s2 <= l2 < s3
    ensures StrictlyIncreasing(Band(s1, l1, t1) + Band(s2, l2, t2) + Band(s3, l3, t3))
  {
    var b1, b2, b3 := Band(s1, l1, t1), Band(s2, l2, t2), Band(s3, l3, t3);
    BandIncreasing(s1, l1, t1);
    BandIncreasing(s2, l2, t2);
    BandIncreasing(s3, l3, t3);
    assert b2 != [] && s2 <= b2[0];
    if b1 != [] {
      assert Last(b1) <= l1;
    }
    ConcatIncreasing(b1, b2);
    var a := b1 + b2;
    assert Last(a) == b2[|b2| - 1] <= l2;
    if b3 != [] {
      assert s3 <= b3[0];
    }
    ConcatIncreasing(a, b3);
  }

  /** The as-written classes are strictly increasing. */
  lemma AsWrittenIncreasing()
    ensures StrictlyIncreasing(AsWrittenClasses())
  {
    BandCount(32, 1024, 32);
    assert BandEnd(32, 1024, 32) == 1056;
    BandCount(1056, 2048, 128);
    assert BandEnd(1056, 2048, 128) == 2080;
    BandsIncreasing(32, 1024, 32, 1056, 2048, 128, 2080, 4096, 256);
  }

  /** The intended classes are strictly increasing. */
  lemma IntendedIncreasing()
    ensures StrictlyIncreasing(IntendedClasses())
  {
    BandsIncreasing(32, 1024, 32, 1152, 2048, 128, 2304, 4096, 256);
  }

  /** The constructor as written creates 32 + 8 + 8 = POOL_COUNT pools of
      strictly increasing size; the last class is 3872, not 4096. */
  lemma AsWrittenShape()
    ensures var c := AsWrittenClasses();
      && |c| == POOL_COUNT
      && StrictlyIncreasing(c)
      && c[0] == 32 && c[31] == 1024 && c[32] == 1056 && c[39] == 1952 && c[40] == 2080
      && Last(c) == 3872
      && TableEnd(c) == 3873
  {
    BandCount(32, 1024, 32);
    var end1 := BandEnd(32, 1024, 32);
    assert end1 == 1056;
    BandCount(end1, 2048, 128);
    var end2 := BandEnd(end1, 2048, 128);
    assert end2 == 2080;
    BandCount(end2, 4096, 256);
    var b1, b2, b3 := Band(32, 1024, 32), Band(end1, 2048, 128), Band(end2, 4096, 256);
    assert |b1| == 32 && |b2| == 8 && |b3| == 8;
    BandAt(32, 1024, 32, 0);
    BandAt(32, 1024, 32, 31);
    BandAt(end1, 2048, 128, 0);
    BandAt(end1, 2048, 128, 7);
    BandAt(end2, 4096, 256, 0);
    BandAt(end2, 4096, 256, 7);
    AsWrittenIncreasing();
    var c := b1 + b2 + b3;
    assert c[31] == b1[31] && c[32] == b2[0] && c[39] == b2[7] && c[40] == b3[0] && c[47] == b3[7];
  }

  /** The intended bands also give POOL_COUNT pools, and the last one is
      MAX_ALLOC_SIZE. */
  lemma IntendedShape()
    ensures var c := IntendedClasses();
      && |c| == POOL_COUNT
      && StrictlyIncreasing(c)
      && c[0] == 32 && c[31] == 1024 && c[32] == 1152 && c[39] == 2048 && c[40] == 2304
      && Last(c) == MAX_ALLOC_SIZE
      && TableEnd(c) == MAX_ALLOC_SIZE + 1
  {
    BandCount(32, 1024, 32);
    BandCount(1152, 2048, 128);
    BandCount(2304, 4096, 256);
    var b1, b2, b3 := Band(32, 1024, 32), Band(1152, 2048, 128), Band(2304, 4096, 256);
    assert |b1| == 32 && |b2| == 8 && |b3| == 8;
    BandAt(32, 1024, 32, 0);
    BandAt(32, 1024, 32, 31);
    BandAt(1152, 2048, 128, 0);
    BandAt(1152, 2048, 128, 7);
    BandAt(2304, 4096, 256, 0);
    BandAt(2304, 4096, 256, 7);
    IntendedIncreasing();
    var c := b1 + b2 + b3;
    assert c[31] == b1[31] && c[32] == b2[0] && c[39] == b2[7] && c[40] == b3[0] && c[47] == b3[7];
  }

  /** As written, every request size from 3873 to MAX_ALLOC_SIZE is within
      the pooled range but no pool holds it: those table entries are never
      assigned. */
  lemma AsWrittenLeavesGap(request: int)
    requires 3873 <= request <= MAX_ALLOC_SIZE
    ensures FirstFit(AsWrittenClasses(), request) == |AsWrittenClasses()|
    ensures request >= TableEnd(AsWrittenClasses())
  {
    AsWrittenShape();
    FirstFitFound(AsWrittenClasses(), request);
  }

  /** With the intended bands every pooled request size, 0 to
      MAX_ALLOC_SIZE, has a pool, and that pool's blocks are large enough
      while the next smaller pool's are not. */
  lemma IntendedCoversAll(request: int)
    requires 0 <= request <= MAX_ALLOC_SIZE
    ensures var c := IntendedClasses(); var k := FirstFit(c, request);
      && k < |c|
      && request <= c[k]
      && (k > 0 ==> c[k - 1] < request)
  {
    IntendedShape();
    FirstFitFound(IntendedClasses(), request);
  }
}
