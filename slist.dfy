/** The single-threaded intrusive LIFO list of 23_MemoryPool2.cpp, lines
    25-81: every entry carries the pointer to the next one, and the header
    points at the most recently pushed entry. (In the file as configured this
    branch is compiled out; it is the reference behaviour for the tagged
    header in module TaggedSList.) */
module SList {

  /** `struct SListEntry`: the link embedded at the start of a user object. */
  class SListEntry {
    var next: SListEntry?

    constructor ()
      ensures next == null
    {
      next := null;
    }
  }

  /** `struct SListHeader`: the pointer to the first entry. `items` is the
      list it heads, first entry first. */
  class SListHeader {
    var next: SListEntry?
    ghost var items: seq<SListEntry>

    constructor ()
      ensures next == null && items == []
      ensures Valid()
    {
      next := null;
      items := [];
    }

    /** The `next` links, starting at the header, run through `items` in
        order and end in `nullptr`; no entry occurs twice. */
    ghost predicate Valid()
      reads this, set e | e in items
    {
      && (forall i, j :: 0 <= i < j < |items| ==> items[i] != items[j])
      && next == (if items == [] then null else items[0])
      && (forall i :: 0 <= i < |items| - 1 ==> items[i].next == items[i + 1])
      && (items != [] ==> items[|items| - 1].next == null)
    }
  }

  /** `InitializeHead`: the header heads the empty list. */
  method InitializeHead(header: SListHeader)
    modifies header
    ensures header.next == null && header.items == []
    ensures header.Valid()
  {
    header.next := null;
    header.items := [];
  }

  /** `PushEntryList`: the entry's `next` becomes the old first entry and the
      header points at the entry. Only that link and the header change. */
  method PushEntryList(header: SListHeader, entry: SListEntry)
    requires header.Valid() && entry !in header.items
    modifies header, entry
    ensures header.Valid()
    ensures header.items == [entry] + old(header.items)
    ensures header.next == entry && entry.next == old(header.next)
  {
    entry.next := header.next;
    header.next := entry;
    header.items := [entry] + header.items;
    assert forall i :: 1 <= i < |header.items| ==> header.items[i] == old(header.items)[i - 1];
  }

  /** `PopEntryList`: on an empty list returns `nullptr` and changes
      nothing; otherwise returns the first entry and the header moves on to
      that entry's `next`. The popped entry keeps its own link. */
  method PopEntryList(header: SListHeader) returns (first: SListEntry?)
    requires header.Valid()
    modifies header
    ensures header.Valid()
    ensures old(header.items) == [] ==> first == null && header.next == null && header.items == []
    ensures old(header.items) != [] ==>
      && first == old(header.items)[0]
      && header.items == old(header.items)[1..]
      && header.next == first.next
  {
    first := header.next;
    if first != null {
      header.next := first.next;
      header.items := header.items[1..];
    }
  }

  /** Pushing an entry and popping again returns that entry and puts the
      header back where it was. */
  method PushThenPop(header: SListHeader, entry: SListEntry) returns (popped: SListEntry?)
    requires header.Valid() && entry !in header.items
    modifies header, entry
    ensures popped == entry
    ensures header.next == old(header.next) && header.items == old(header.items)
    ensures header.Valid()
  {
    PushEntryList(header, entry);
    popped := PopEntryList(header);
  }

  /** Three entries pushed onto a fresh header come back in reverse order,
      and then the list is empty. */
  method LifoOrder() returns (a: SListEntry, b: SListEntry, c: SListEntry, x: SListEntry?, y: SListEntry?, z: SListEntry?, w: SListEntry?)
    ensures x == c && y == b && z == a && w == null
  {
    var header := new SListHeader();
    InitializeHead(header);
    a := new SListEntry();
    b := new SListEntry();
    c := new SListEntry();
    PushEntryList(header, a);
    PushEntryList(header, b);
    PushEntryList(header, c);
    x := PopEntryList(header);
    y := PopEntryList(header);
    z := PopEntryList(header);
    w := PopEntryList(header);
  }
}
