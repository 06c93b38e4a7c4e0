/** Intrusive reference counting from 17_RefCounting.cpp: `RefCountable`
    keeps a count that starts at 1 and deletes itself when the count drops to
    0, and `TSharedPtr` adds a reference when it takes an object and drops
    one when it lets go.

    `delete this` is modelled by the `destroyed` flag; calling a member of a
    destroyed object is undefined in C++, so those methods require that the
    object is alive. */
module RefCounting {

  /** `class RefCountable`. */
  class RefCountable {
    var refCount: int
    /** `delete this` has run. */
    var destroyed: bool

    /** The count is positive exactly while the object is alive. */
    ghost predicate Valid()
      reads this
    {
      refCount >= 0 && (destroyed <==> refCount == 0)
    }

    /** `RefCountable() : refCount(1)`: the creator holds the first
        reference. */
    constructor ()
      ensures refCount == 1 && !destroyed
      ensures Valid()
    {
      refCount := 1;
      destroyed := false;
    }

    /** `GetRef`: the current count, without changing it. */
    method GetRef() returns (count: int)
      ensures count == refCount
    {
      count := refCount;
    }

    /** `AddRef`: one more reference; returns the new count. */
    method AddRef() returns (count: int)
      requires Valid() && !destroyed
      modifies this
      ensures Valid() && !destroyed
      ensures refCount == old(refCount) + 1 && count == refCount
    {
      refCount := refCount + 1;
      count := refCount;
    }

    /** `ReleaseRef`: one reference fewer; returns the new count, and the
        object deletes itself exactly when that count is 0. */
    method ReleaseRef() returns (count: int)
      requires Valid() && !destroyed
      modifies this
      ensures Valid()
      ensures refCount == old(refCount) - 1 && count == refCount
      ensures destroyed <==> count == 0
    {
      refCount := refCount - 1;
      count := refCount;
      if count == 0 {
        destroyed := true;
      }
    }
  }

  /** The object a pointer may be handed to: null, or alive. */
  ghost predicate Usable(p: RefCountable?)
    reads p
  {
    p != null ==> p.Valid() && !p.destroyed
  }

  /** `TSharedPtr<T>`. Every `T` derives from `RefCountable`, so the model
      needs no type parameter; the converting copy constructor
      `TSharedPtr(const TSharedPtr<U>&)` is the copy constructor here. */
  class SharedPtr {
    var ptr: RefCountable?

    /** `TSharedPtr() {}` as written: `ptr` is never initialised, so it
        holds whatever was in that memory, `junk`. */
    constructor Default(junk: RefCountable?)
      ensures ptr == junk
    {
      ptr := junk;
    }

    /** The default constructor as intended: an empty pointer. */
    constructor Null()
      ensures ptr == null
    {
      ptr := null;
    }

    /** `TSharedPtr(T* ptr)`: takes a reference to `p`, if any. */
    constructor FromRaw(p: RefCountable?)
      requires Usable(p)
      modifies p
      ensures ptr == p && Usable(p)
      ensures p != null ==> p.refCount == old(p.refCount) + 1
    {
      ptr := null;
      new;
      Set(p);
    }

    /** The copy constructor: shares `rhs`'s object and takes a reference
        to it. */
    constructor Copy(rhs: SharedPtr)
      requires Usable(rhs.ptr)
      modifies rhs.ptr
      ensures ptr == rhs.ptr && Usable(ptr)
      ensures ptr != null ==> ptr.refCount == old(rhs.ptr.refCount) + 1
    {
      ptr := null;
      new;
      Set(rhs.ptr);
    }

    /** The move constructor: takes over `rhs`'s object and empties `rhs`;
        no count changes. */
    constructor Move(rhs: SharedPtr)
      modifies rhs
      ensures ptr == old(rhs.ptr) && rhs.ptr == null
    {
      ptr := rhs.ptr;
      new;
      rhs.ptr := null;
    }

    /** `Set`: points at `p` and, if there is one, adds a reference. */
    method Set(p: RefCountable?)
      requires Usable(p)
      modifies this, p
      ensures ptr == p && Usable(p)
      ensures p != null ==> p.refCount == old(p.refCount) + 1
    {
      ptr := p;
      if p != null {
        var _ := p.AddRef();
      }
    }

    /** `Release`: drops the reference, if there is one, and becomes empty.
        An empty pointer is left as it is, so releasing twice releases
        once. */
    method Release()
      requires Usable(ptr)
      modifies this, ptr
      ensures ptr == null
      ensures old(ptr) != null ==>
        && old(ptr).Valid()
        && old(ptr).refCount == old(ptr.refCount) - 1
        && (old(ptr).destroyed <==> old(ptr).refCount == 0)
    {
      if ptr != null {
        var _ := ptr.ReleaseRef();
        ptr := null;
      }
    }

    /** `~TSharedPtr`: `Release`. */
    method Destroy()
      requires Usable(ptr)
      modifies this, ptr
      ensures ptr == null
      ensures old(ptr) != null ==>
        && old(ptr).Valid()
        && old(ptr).refCount == old(ptr.refCount) - 1
        && (old(ptr).destroyed <==> old(ptr).refCount == 0)
    {
      Release();
    }

    /** The copy assignment: nothing happens when both already share an
        object; otherwise the old object loses a reference and the new one
        gains one. */
    method Assign(rhs: SharedPtr)
      requires Usable(ptr) && Usable(rhs.ptr)
      modifies this, ptr, rhs.ptr
      ensures ptr == old(rhs.ptr)
      ensures old(ptr) == old(rhs.ptr) ==>
        ptr == old(ptr) && (ptr != null ==> ptr.refCount == old(ptr.refCount) && ptr.destroyed == old(ptr.destroyed))
      ensures old(ptr) != old(rhs.ptr) ==>
        && (old(ptr) != null ==>
              old(ptr).Valid() && old(ptr).refCount == old(ptr.refCount) - 1
              && (old(ptr).destroyed <==> old(ptr).refCount == 0))
        && (ptr != null ==> Usable(ptr) && ptr.refCount == old(rhs.ptr.refCount) + 1)
    {
      if ptr != rhs.ptr {
        var target := rhs.ptr;
        Release();
        Set(target);
      }
    }

    /** `IsNull`. */
    function IsNull(): (b: bool)
      reads this
      ensures b <==> ptr == null
    {
      ptr == null
    }
  }

  /** `main`: each object gets a wrapper (count 2), the "manual" release
      drops the creation reference (count 1), and the wrappers' destructors,
      run in reverse order of declaration, delete both objects. */
  method MainScenario() returns (marine: RefCountable, bullet: RefCountable)
    ensures marine.destroyed && bullet.destroyed
    ensures marine.refCount == 0 && bullet.refCount == 0
  {
    marine := new RefCountable();
    var marineRef := new SharedPtr.FromRaw(marine);
    bullet := new RefCountable();
    var bulletRef := new SharedPtr.FromRaw(bullet);
    var m := marineRef.ptr.ReleaseRef();
    var b := bulletRef.ptr.ReleaseRef();
    bulletRef.Destroy();
    marineRef.Destroy();
  }

  /** A wrapper that takes a reference and is released twice gives back
      exactly one reference: the object lives on with its creator's
      reference. */
  method DoubleRelease() returns (obj: RefCountable, count: int)
    ensures !obj.destroyed && count == 1
  {
    obj := new RefCountable();
    var p := new SharedPtr.FromRaw(obj);
    p.Release();
    p.Release();
    count := obj.GetRef();
  }

  /** Assigning a wrapper to itself when it holds the last reference keeps
      the object alive: the guard skips the release. */
  method SelfAssignKeepsObject() returns (obj: RefCountable, count: int)
    ensures !obj.destroyed && count == 1
  {
    obj := new RefCountable();
    var p := new SharedPtr.FromRaw(obj);
    var _ := obj.ReleaseRef();
    p.Assign(p);
    count := obj.GetRef();
  }

  /** Moving a wrapper hands its reference over without touching the
      count; destroying the emptied source does nothing. */
  method MoveKeepsCount() returns (obj: RefCountable, count: int, moved: SharedPtr)
    ensures moved.ptr == obj && count == 2 && !obj.destroyed
  {
    obj := new RefCountable();
    var p := new SharedPtr.FromRaw(obj);
    moved := new SharedPtr.Move(p);
    p.Destroy();
    count := obj.GetRef();
  }

  /** As written, an empty `TSharedPtr` whose indeterminate `ptr` happens
      to hold an object it never took a reference to deletes that object
      when it is destroyed, although the object's only owner never let
      go. */
  method DefaultThenDestroyAsWritten() returns (obj: RefCountable)
    ensures obj.destroyed
  {
    obj := new RefCountable();
    var p := new SharedPtr.Default(obj);
    p.Destroy();
  }

  /** With `ptr` initialised to null, destroying an empty `TSharedPtr`
      touches no object. */
  method DefaultThenDestroyCorrected() returns (obj: RefCountable)
    ensures !obj.destroyed && obj.refCount == 1
  {
    obj := new RefCountable();
    var p := new SharedPtr.Null();
    p.Destroy();
  }
}
