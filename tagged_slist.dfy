/** The intrusive LIFO list of 23_MemoryPool2.cpp with the tagged 128-bit
    header (the branch the macros select): `depth` counts the entries,
    `sequence` counts the operations, and `next` holds the first entry's
    address shifted right by 4, which is exact because entries are 16-byte
    aligned.

    Entries are addresses (`nat`, 0 is `nullptr`); the `next` word stored at
    the start of each entry is a map in an EntryMemory object. The
    compare-and-swap is modelled for one thread: nothing else writes the
    header between the read of `expected` and the exchange. */
module TaggedSList {
  import opened Words

  type Addr = nat

  const NULL: Addr := 0

  const DEPTH_MOD: int := 0x1_0000              // depth : 16
  const SEQUENCE_MOD: int := 0x1_0000_0000_0000 // sequence : 48
  const RESERVED_MOD: int := 0x10               // reserved : 4
  const NEXT_MOD: int := 0x1000_0000_0000_0000  // next : 60

  /** The `HeaderX64` view of the header. */
  datatype HeaderX64 = HeaderX64(depth: int, sequence: int, reserved: int, next: int)

  /** Every field fits its bit width. */
  predicate InRange(h: HeaderX64) {
    && 0 <= h.depth < DEPTH_MOD
    && 0 <= h.sequence < SEQUENCE_MOD
    && 0 <= h.reserved < RESERVED_MOD
    && 0 <= h.next < NEXT_MOD
  }

  predicate IsWord(w: int) {
    0 <= w < TWO_64
  }

  /** The low 64-bit word, `alignment`: `depth` in bits 0-15, `sequence` in
      bits 16-63. */
  function Alignment(h: HeaderX64): (w: int)
    requires InRange(h)
    ensures IsWord(w)
  {
    h.depth + h.sequence * DEPTH_MOD
  }

  /** The high 64-bit word, `region`: `reserved` in bits 0-3, `next` in bits
      4-63. */
  function Region(h: HeaderX64): (w: int)
    requires InRange(h)
    ensures IsWord(w)
  {
    h.reserved + h.next * RESERVED_MOD
  }

  /** Reading the bit fields out of the two words. */
  function FromWords(alignment: int, region: int): (h: HeaderX64)
    requires IsWord(alignment) && IsWord(region)
    ensures InRange(h)
    ensures Alignment(h) == alignment && Region(h) == region
  {
    HeaderX64(alignment % DEPTH_MOD, alignment / DEPTH_MOD, region % RESERVED_MOD, region / RESERVED_MOD)
  }

  /** The two views of the union agree: packing the fields and reading them
      back gives the same fields. */
  lemma FieldsRoundTrip(h: HeaderX64)
    requires InRange(h)
    ensures FromWords(Alignment(h), Region(h)) == h
  {
  }

  /** Adding or removing one in a bit field of width 16 or 48 is the same
      as counting in the integers and truncating. */
  lemma CounterStep(n: int)
    ensures (n % DEPTH_MOD + 1) % DEPTH_MOD == (n + 1) % DEPTH_MOD
    ensures (n % DEPTH_MOD - 1) % DEPTH_MOD == (n - 1) % DEPTH_MOD
    ensures (n % SEQUENCE_MOD + 1) % SEQUENCE_MOD == (n + 1) % SEQUENCE_MOD
  {
  }

  /** `((unsigned __int64)entry) >> 4`. */
  function EncodeNext(entry: Addr): (n: int)
    requires IsWord(entry)
    ensures 0 <= n < NEXT_MOD
  {
    entry / RESERVED_MOD
  }

  /** `(SListEntry*)(((unsigned __int64)next) << 4)`. */
  function DecodeNext(n: int): (entry: Addr)
    requires 0 <= n < NEXT_MOD
    ensures IsWord(entry)
  {
    (n * RESERVED_MOD) % TWO_64
  }

  /** Decoding an encoded address gives it back with its low four bits
      cleared: exact for 16-byte-aligned entries, and `nullptr` maps to 0
      and back. */
  lemma EncodeDecode(entry: Addr)
    requires IsWord(entry)
    ensures DecodeNext(EncodeNext(entry)) == entry - entry % RESERVED_MOD
    ensures entry % RESERVED_MOD == 0 ==> DecodeNext(EncodeNext(entry)) == entry
    ensures EncodeNext(NULL) == 0 && DecodeNext(0) == NULL
  {
    var n := EncodeNext(entry);
    assert n * RESERVED_MOD == entry - entry % RESERVED_MOD;
    assert 0 <= n * RESERVED_MOD < TWO_64;
  }

  /** The `next` word at the start of each entry. */
  class EntryMemory {
    var next: map<Addr, Addr>

    constructor ()
      ensures next == map[]
    {
      next := map[];
    }
  }

  /** The chain of `items` through the entries' `next` words: aligned,
      non-null, distinct entries, each linking to the following one, the
      last to `nullptr`. */
  ghost predicate Linked(next: map<Addr, Addr>, items: seq<Addr>)
  {
    && (forall i :: 0 <= i < |items| ==>
          items[i] in next && items[i] != NULL && IsWord(items[i]) && items[i] % RESERVED_MOD == 0)
    && (forall i, j :: 0 <= i < j < |items| ==> items[i] != items[j])
    && (forall i :: 0 <= i < |items| - 1 ==> next[items[i]] == items[i + 1])
    && (items != [] ==> next[items[|items| - 1]] == NULL)
  }

  function First(items: seq<Addr>): Addr {
    if items == [] then NULL else items[0]
  }

  /** `DECLSPEC_ALIGN(16) struct SListHeader`: the two 64-bit words.
      `items` is the list, first entry first; `ops` counts the pushes and
      the pops that removed an entry. */
  class SListHeader {
    var alignment: int
    var region: int
    ghost var items: seq<Addr>
    ghost var ops: nat

    /** `SListHeader()`: both words zero. */
    constructor ()
      ensures alignment == 0 && region == 0 && items == [] && ops == 0
    {
      alignment := 0;
      region := 0;
      items := [];
      ops := 0;
    }

    ghost predicate Valid(mem: EntryMemory)
      reads this, mem
    {
      && IsWord(alignment) && IsWord(region)
      && var h := FromWords(alignment, region);
      && h.reserved == 0
      && DecodeNext(h.next) == First(items)
      && h.depth == |items| % DEPTH_MOD
      && h.sequence == ops % SEQUENCE_MOD
      && Linked(mem.next, items)
    }

    function View(): (h: HeaderX64)
      reads this
      requires IsWord(alignment) && IsWord(region)
      ensures InRange(h)
    {
      FromWords(alignment, region)
    }
  }

  /** `InitializeHead`: both words zero, so depth, sequence and next are 0
      and the list is empty. */
  method InitializeHead(header: SListHeader, mem: EntryMemory)
    modifies header
    ensures header.alignment == 0 && header.region == 0
    ensures header.items == [] && header.ops == 0
    ensures header.Valid(mem)
  {
    header.alignment := 0;
    header.region := 0;
    header.items := [];
    header.ops := 0;
    assert FromWords(0, 0) == HeaderX64(0, 0, 0, 0);
  }

  /** `InterlockedCompareExchange128(header, high, low, comparand)`: if the
      header's words equal the comparand, they are replaced by `low` and
      `high` and the result is true; either way `original` is what the
      header held. */
  method InterlockedCompareExchange128(header: SListHeader, high: int, low: int, comparandLow: int, comparandHigh: int)
    returns (exchanged: bool, originalLow: int, originalHigh: int)
    modifies header
    ensures originalLow == old(header.alignment) && originalHigh == old(header.region)
    ensures exchanged <==> originalLow == comparandLow && originalHigh == comparandHigh
    ensures exchanged ==> header.alignment == low && header.region == high
    ensures !exchanged ==> header.alignment == old(header.alignment) && header.region == old(header.region)
    ensures header.items == old(header.items) && header.ops == old(header.ops)
  {
    originalLow, originalHigh := header.alignment, header.region;
    exchanged := originalLow == comparandLow && originalHigh == comparandHigh;
    if exchanged {
      header.alignment, header.region := low, high;
    }
  }

  /** A tagged push: `desired.next` is the entry shifted right by 4, and
      the loop body (TryPush) repeats until the exchange succeeds. */
  method PushEntryList(header: SListHeader, mem: EntryMemory, entry: Addr)
    requires header.Valid(mem)
    requires entry != NULL && IsWord(entry) && entry % RESERVED_MOD == 0 && entry !in header.items
    modifies header, mem
    ensures header.Valid(mem)
    ensures header.items == [entry] + old(header.items) && header.ops == old(header.ops) + 1
    ensures mem.next == old(mem.next)[entry := First(old(header.items))]
    ensures var h, h0 := header.View(), old(header.View());
      && h.depth == (h0.depth + 1) % DEPTH_MOD
      && h.sequence == (h0.sequence + 1) % SEQUENCE_MOD
      && DecodeNext(h.next) == entry
  {
    var desired := HeaderX64(0, 0, 0, EncodeNext(entry));
    var done := false;
    while !done
      invariant !done ==> header.Valid(mem)
      invariant !done ==> header.alignment == old(header.alignment) && header.region == old(header.region)
      invariant !done ==> header.items == old(header.items) && header.ops == old(header.ops)
      invariant !done ==> mem.next == old(mem.next)
      invariant desired.next == EncodeNext(entry) && desired.reserved == 0
      invariant done ==> PushedState(header, mem, entry, old(header.View()), old(header.items), old(header.ops), old(mem.next))
      decreases !done
    {
      desired, done := TryPush(header, mem, entry, desired);
    }
  }

  /** What a completed push leaves behind, given the header, list, count
      and `next` words it started from. */
  ghost predicate PushedState(header: SListHeader, mem: EntryMemory, entry: Addr, h0: HeaderX64,
                              items0: seq<Addr>, ops0: nat, next0: map<Addr, Addr>)
    reads header, mem
  {
    && header.Valid(mem)
    && header.items == [entry] + items0 && header.ops == ops0 + 1
    && mem.next == next0[entry := First(items0)]
    && var h := header.View();
    && h.depth == (h0.depth + 1) % DEPTH_MOD
    && h.sequence == (h0.sequence + 1) % SEQUENCE_MOD
    && DecodeNext(h.next) == entry
  }

  /** One pass of the push loop: read the header into `expected`, link the
      entry to its first entry, set depth + 1 and sequence + 1 in `desired`,
      try the exchange. With no other writer the header still equals
      `expected`, so the exchange succeeds. */
  method TryPush(header: SListHeader, mem: EntryMemory, entry: Addr, desired0: HeaderX64)
    returns (desired: HeaderX64, exchanged: bool)
    requires header.Valid(mem)
    requires entry != NULL && IsWord(entry) && entry % RESERVED_MOD == 0 && entry !in header.items
    requires desired0.next == EncodeNext(entry) && desired0.reserved == 0
    modifies header, mem
    ensures desired.next == EncodeNext(entry) && desired.reserved == 0
    ensures exchanged
    ensures PushedState(header, mem, entry, old(header.View()), old(header.items), old(header.ops), old(mem.next))
  {
    EncodeDecode(entry);
    var expected := header.View();
    mem.next := mem.next[entry := DecodeNext(expected.next)];
    desired := desired0.(depth := (expected.depth + 1) % DEPTH_MOD,
                         sequence := (expected.sequence + 1) % SEQUENCE_MOD);
    var ok, _, _ := InterlockedCompareExchange128(header, Region(desired), Alignment(desired),
                                                  Alignment(expected), Region(expected));
    exchanged := ok;
    FieldsRoundTrip(desired);
    CounterStep(|old(header.items)|);
    CounterStep(old(header.ops));
    PushLinks(old(mem.next), old(header.items), entry);
    header.items := [entry] + header.items;
    header.ops := header.ops + 1;
  }

  /** Writing the entry's `next` word and putting it in front keeps the
      chain, since the entry is not already on it. */
  lemma PushLinks(next: map<Addr, Addr>, items: seq<Addr>, entry: Addr)
    requires Linked(next, items)
    requires entry != NULL && IsWord(entry) && entry % RESERVED_MOD == 0 && entry !in items
    ensures Linked(next[entry := First(items)], [entry] + items)
  {
    var next', items' := next[entry := First(items)], [entry] + items;
    forall i | 0 <= i < |items'| - 1 ensures next'[items'[i]] == items'[i + 1] {
      if i > 0 {
        assert items'[i] == items[i - 1];
      }
    }
  }

  /** A tagged pop: the loop body (TryPop) repeats until it finds the list
      empty or the exchange succeeds. */
  method PopEntryList(header: SListHeader, mem: EntryMemory) returns (entry: Addr)
    requires header.Valid(mem)
    modifies header
    ensures header.Valid(mem)
    ensures old(header.items) == [] ==>
      && entry == NULL
      && header.alignment == old(header.alignment) && header.region == old(header.region)
      && header.items == [] && header.ops == old(header.ops)
    ensures old(header.items) != [] ==>
      PoppedState(header, mem, entry, old(header.View()), old(header.items), old(header.ops))
  {
    var desired := HeaderX64(0, 0, 0, 0);
    entry := NULL;
    var done := false;
    while !done
      invariant header.Valid(mem)
      invariant desired.reserved == 0
      invariant !done ==> header.alignment == old(header.alignment) && header.region == old(header.region)
      invariant !done ==> header.items == old(header.items) && header.ops == old(header.ops)
      invariant done && old(header.items) == [] ==>
        && entry == NULL
        && header.alignment == old(header.alignment) && header.region == old(header.region)
        && header.items == [] && header.ops == old(header.ops)
      invariant done && old(header.items) != [] ==>
        PoppedState(header, mem, entry, old(header.View()), old(header.items), old(header.ops))
      decreases !done
    {
      entry, desired, done := TryPop(header, mem, desired);
    }
  }

  /** What a pop that removed an entry leaves behind, given the header,
      list and count it started from: the entry returned is the old first
      one, the header now points to its successor, depth went down by one
      and sequence up by one. */
  ghost predicate PoppedState(header: SListHeader, mem: EntryMemory, entry: Addr, h0: HeaderX64,
                              items0: seq<Addr>, ops0: nat)
    reads header, mem
    requires items0 != []
  {
    && header.Valid(mem)
    && entry == items0[0]
    && header.items == items0[1..] && header.ops == ops0 + 1
    && var h := header.View();
    && h.depth == (h0.depth - 1) % DEPTH_MOD
    && h.sequence == (h0.sequence + 1) % SEQUENCE_MOD
    && entry in mem.next && DecodeNext(h.next) == mem.next[entry]
  }

  /** One pass of the pop loop: read the header into `expected` and decode
      the first entry; stop on `nullptr`; otherwise put that entry's `next`,
      depth - 1 and sequence + 1 in `desired` and try the exchange, which
      succeeds since the header still equals `expected`. */
  method TryPop(header: SListHeader, mem: EntryMemory, desired0: HeaderX64)
    returns (entry: Addr, desired: HeaderX64, done: bool)
    requires header.Valid(mem) && desired0.reserved == 0
    modifies header
    ensures header.Valid(mem) && desired.reserved == 0
    ensures done
    ensures old(header.items) == [] ==>
      && entry == NULL
      && header.alignment == old(header.alignment) && header.region == old(header.region)
      && header.items == [] && header.ops == old(header.ops)
    ensures old(header.items) != [] ==>
      PoppedState(header, mem, entry, old(header.View()), old(header.items), old(header.ops))
  {
    var expected := header.View();
    entry := DecodeNext(expected.next);
    desired := desired0;
    if entry == NULL {
      return entry, desired, true;
    }
    PopLinks(mem.next, header.items);
    var successor := mem.next[entry];
    EncodeDecode(successor);
    desired := desired.(next := EncodeNext(successor),
                        depth := (expected.depth - 1) % DEPTH_MOD,
                        sequence := (expected.sequence + 1) % SEQUENCE_MOD);
    var ok, _, _ := InterlockedCompareExchange128(header, Region(desired), Alignment(desired),
                                                  Alignment(expected), Region(expected));
    FieldsRoundTrip(desired);
    CounterStep(|old(header.items)|);
    CounterStep(old(header.ops));
    header.items := header.items[1..];
    header.ops := header.ops + 1;
    done := ok;
  }

  /** Dropping the first entry keeps the chain, and the new first entry is
      the old first entry's `next`. */
  lemma PopLinks(next: map<Addr, Addr>, items: seq<Addr>)
    requires Linked(next, items) && items != []
    ensures Linked(next, items[1..])
    ensures First(items[1..]) == next[items[0]]
  {
  }

  /** Pushing an entry and popping again returns that entry and puts the
      list, `depth` and `next` back as they were; only `sequence` has moved,
      by two. This is the tag that tells the two headers apart. */
  method PushThenPop(header: SListHeader, mem: EntryMemory, entry: Addr) returns (popped: Addr)
    requires header.Valid(mem)
    requires entry != NULL && IsWord(entry) && entry % RESERVED_MOD == 0 && entry !in header.items
    modifies header, mem
    ensures popped == entry
    ensures header.Valid(mem) && header.items == old(header.items)
    ensures var h, h0 := header.View(), old(header.View());
      && h.depth == h0.depth && h.next == h0.next && h.reserved == h0.reserved
      && h.sequence == (h0.sequence + 2) % SEQUENCE_MOD
  {
    ghost var h0, items0, ops0 := header.View(), header.items, header.ops;
    PushEntryList(header, mem, entry);
    popped := PopEntryList(header, mem);
    RestoredHeader(h0, header.View(), items0, ops0);
  }

  /** Two valid headers over the same list whose operation counts differ by
      two agree in everything but `sequence`, which is two further on. */
  lemma RestoredHeader(h0: HeaderX64, h: HeaderX64, items: seq<Addr>, ops0: nat)
    requires InRange(h0) && InRange(h) && h0.reserved == 0 && h.reserved == 0
    requires DecodeNext(h0.next) == First(items) && DecodeNext(h.next) == First(items)
    requires h0.depth == |items| % DEPTH_MOD && h.depth == |items| % DEPTH_MOD
    requires h0.sequence == ops0 % SEQUENCE_MOD && h.sequence == (ops0 + 2) % SEQUENCE_MOD
    ensures h.depth == h0.depth && h.next == h0.next && h.reserved == h0.reserved
    ensures h.sequence == (h0.sequence + 2) % SEQUENCE_MOD
  {
    assert h.next * RESERVED_MOD == h0.next * RESERVED_MOD;
  }

  /** Two pushes: the second entry ends up in front of the first. */
  method PushTwo(header: SListHeader, mem: EntryMemory, a: Addr, b: Addr)
    requires header.Valid(mem)
    requires a != NULL && IsWord(a) && a % RESERVED_MOD == 0 && a !in header.items
    requires b != NULL && IsWord(b) && b % RESERVED_MOD == 0 && b !in header.items && a != b
    modifies header, mem
    ensures header.Valid(mem)
    ensures header.items == [b, a] + old(header.items) && header.ops == old(header.ops) + 2
  {
    PushEntryList(header, mem, a);
    PushEntryList(header, mem, b);
  }

  /** Two pops take the first two entries, in list order. */
  method PopTwo(header: SListHeader, mem: EntryMemory) returns (x: Addr, y: Addr)
    requires header.Valid(mem) && |header.items| >= 2
    modifies header
    ensures header.Valid(mem)
    ensures x == old(header.items)[0] && y == old(header.items)[1]
    ensures header.items == old(header.items)[2..] && header.ops == old(header.ops) + 2
  {
    x := PopEntryList(header, mem);
    y := PopEntryList(header, mem);
  }

  /** Starting from `InitializeHead`, two aligned entries pushed come back
      in reverse order, then the list is empty; `depth` is back to 0 and
      `sequence` has counted the four operations that moved an entry. */
  method LifoOrder(a: Addr, b: Addr) returns (x: Addr, y: Addr, z: Addr, depth: int, sequence: int)
    requires a != NULL && IsWord(a) && a % RESERVED_MOD == 0
    requires b != NULL && IsWord(b) && b % RESERVED_MOD == 0
    requires a != b
    ensures x == b && y == a && z == NULL
    ensures depth == 0 && sequence == 4
  {
    var header := new SListHeader();
    var mem := new EntryMemory();
    InitializeHead(header, mem);
    PushTwo(header, mem, a, b);
    x, y := PopTwo(header, mem);
    z := PopEntryList(header, mem);
    depth := header.View().depth;
    sequence := header.View().sequence;
  }
}
