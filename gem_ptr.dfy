/** The ownership handle `TGemPtr`: one pointer field and the AddRef/Release calls that its
    constructors, assignments, destructor and `Detach` issue on the pointed-to object. */
module GemHandle {
  import opened GemTypes
  import opened GemGeneric

  /** The counted object a possibly-null pointer leads to, as a frame. */
  ghost function Roots(g: GenericObject?): set<GenericObject>
    requires g != null ==> g.Valid()
  {
    if g == null then {} else {g.Root()}
  }

  /** Both pointers are non-null and lead to the same counted object. */
  ghost predicate SameRoot(a: GenericObject?, b: GenericObject?)
    requires a != null ==> a.Valid()
    requires b != null ==> b.Valid()
  {
    a != null && b != null && a.Root() == b.Root()
  }

  /** `TGemPtr<_Type>`; the field `p` is `m_p` (null for an empty handle). */
  class GemPtr {
    var p: GenericObject?

    ghost predicate Valid()
      reads this
    {
      p != null ==> p.Valid()
    }

    /** `TGemPtr()`: the empty handle. */
    constructor ()
      ensures p == null
    {
      p := null;
    }

    /** `TGemPtr(_Type *p)`: takes a new reference on a non-null pointer. */
    constructor FromRaw(q: GenericObject?)
      requires q != null ==> q.Valid()
      modifies Roots(q)
      ensures p == q && Valid()
      ensures q != null ==> AddedRef(q.Root())
    {
      p := q;
      new;
      if q != null {
        var _ := q.AddRef();
      }
    }

    /** `TGemPtr(const TGemPtr &o)`: shares `o`'s pointer and takes a new reference. */
    constructor Copy(o: GemPtr)
      requires o.Valid()
      modifies Roots(o.p)
      ensures p == o.p && Valid()
      ensures p != null ==> AddedRef(p.Root())
    {
      p := o.p;
      new;
      if p != null {
        var _ := p.AddRef();
      }
    }

    /** `TGemPtr(TGemPtr &&o)`: takes over `o`'s reference; no count changes. */
    constructor Move(o: GemPtr)
      requires o.Valid()
      modifies o
      ensures p == old(o.p) && o.p == null && Valid()
    {
      p := o.p;
      new;
      o.p := null;
    }

    /** `~TGemPtr()`: releases once if the handle is non-empty. */
    method Destruct()
      requires Valid()
      modifies Roots(p)
      ensures p != null ==> Released(p.Root())
    {
      if p != null {
        var _ := p.Release();
      }
    }

    /** `Detach()`: empties the handle without releasing; the reference it held is left to
        whoever took the pointer. */
    method Detach()
      requires Valid()
      modifies this
      ensures p == null
      ensures old(p) != null ==> unchanged(old(p).Root())
    {
      p := null;
    }

    /** `operator=(_Type *p)`, as written: releases the old pointer, then takes a reference
        on the new one, with no same-pointer guard. When both lead to the same object the
        Release comes first and can destroy it before the AddRef. */
    method AssignRaw(q: GenericObject?)
      requires Valid() && (q != null ==> q.Valid())
      modifies this, Roots(p), Roots(q)
      ensures p == q && Valid()
      ensures SameRoot(old(p), q) ==> ReleasedThenAdded(q.Root())
      ensures old(p) != null && !SameRoot(old(p), q) ==> Released(old(p).Root())
      ensures q != null && !SameRoot(old(p), q) ==> AddedRef(q.Root())
    {
      if p != null {
        var _ := p.Release();
      }
      p := q;
      if q != null {
        var _ := p.AddRef();
      }
    }

    /** `operator=(_Type *p)` with the same-pointer guard and the order of the copy
        assignment: the new reference is taken before the old one is dropped. */
    method AssignRawSafe(q: GenericObject?)
      requires Valid() && (q != null ==> q.Valid())
      modifies this, Roots(p), Roots(q)
      ensures p == q && Valid()
      ensures old(p) == q ==> unchanged(Roots(q))
      ensures old(p) != q && SameRoot(old(p), q) ==> AddedThenReleased(q.Root())
      ensures old(p) != q && old(p) != null && !SameRoot(old(p), q) ==> Released(old(p).Root())
      ensures old(p) != q && q != null && !SameRoot(old(p), q) ==> AddedRef(q.Root())
    {
      if p != q {
        var temp := p;
        p := q;
        if q != null {
          var _ := q.AddRef();
        }
        if temp != null {
          var _ := temp.Release();
        }
      }
    }

    /** `operator=(const TGemPtr &o)`: nothing is counted when the pointers are equal;
        otherwise the new pointer is add-ref'd before the old one is released. */
    method CopyAssign(o: GemPtr)
      requires Valid() && o.Valid()
      modifies this, Roots(p), Roots(o.p)
      ensures p == old(o.p) && o.p == old(o.p) && Valid()
      ensures old(p) == old(o.p) ==> unchanged(Roots(p))
      ensures old(p) != p && SameRoot(old(p), p) ==> AddedThenReleased(p.Root())
      ensures old(p) != p && old(p) != null && !SameRoot(old(p), p) ==> Released(old(p).Root())
      ensures old(p) != p && p != null && !SameRoot(old(p), p) ==> AddedRef(p.Root())
    {
      var temp := p;
      p := o.p;
      if temp != p {
        if p != null {
          var _ := p.AddRef();
        }
        if temp != null {
          var _ := temp.Release();
        }
      }
    }

    /** `operator=(TGemPtr &&o)`, as written: the source handle is always emptied; the old
        pointer is released only when the pointers differ, and nothing is add-ref'd. With
        equal pointers the reference `o` held is dropped without a Release, and a move of a
        handle onto itself empties it. */
    method MoveAssign(o: GemPtr)
      requires Valid() && o.Valid()
      modifies this, o, Roots(p)
      ensures o.p == null && Valid()
      ensures p == if o == this then null else old(o.p)
      ensures old(p) == old(o.p) ==> unchanged(Roots(old(p)))
      ensures old(p) != old(o.p) && old(p) != null ==> Released(old(p).Root())
      ensures old(o.p) != null && !SameRoot(old(p), old(o.p)) ==> unchanged(old(o.p).Root())
    {
      if p != o.p {
        var temp := p;
        p := o.p;
        if temp != null {
          var _ := temp.Release();
        }
      }
      o.p := null;
    }

    /** `operator=(TGemPtr &&o)` with the usual self-move guard: a move between two
        handles always releases the reference the target held, and a self-move changes
        nothing. */
    method MoveAssignSafe(o: GemPtr)
      requires Valid() && o.Valid()
      modifies this, o, Roots(p)
      ensures Valid() && o.Valid()
      ensures o == this ==> p == old(p) && unchanged(Roots(p))
      ensures o != this ==> p == old(o.p) && o.p == null
      ensures o != this && old(p) != null ==> Released(old(p).Root())
      ensures old(o.p) != null && !SameRoot(old(p), old(o.p)) ==> unchanged(old(o.p).Root())
    {
      if o != this {
        var temp := p;
        p := o.p;
        o.p := null;
        if temp != null {
          var _ := temp.Release();
        }
      }
    }
  }

  /** One owner by construction from a raw pointer and one by copy: the object outlives the
      first handle's destruction and is destroyed by the second's. */
  method TwoOwnersLifetime() returns (aliveAfterFirst: bool, aliveAfterSecond: bool)
    ensures aliveAfterFirst && !aliveAfterSecond
  {
    var x := new GenericObject.Counted();
    var h1 := new GemPtr.FromRaw(x);
    var h2 := new GemPtr.Copy(h1);
    h2.Destruct();
    aliveAfterFirst := x.alive;
    h1.Destruct();
    aliveAfterSecond := x.alive;
  }

  /** Raw-pointer assignment of a handle's own pointer, as written: with the handle as sole
      owner the Release destroys the object, the AddRef then lands on the destroyed object,
      and the handle is left holding it. */
  method RawSelfAssignmentAsWritten() returns (held: bool, alive: bool, count: UInt32)
    ensures held && !alive && count == 1
  {
    var x := new GenericObject.Counted();
    var h := new GemPtr.FromRaw(x);
    h.AssignRaw(x);
    held, alive, count := h.p == x, x.alive, x.refCount;
  }

  /** The same assignment with the guarded operator leaves the object alive and its count
      unchanged. */
  method RawSelfAssignmentSafe() returns (held: bool, alive: bool, count: UInt32)
    ensures held && alive && count == 1
  {
    var x := new GenericObject.Counted();
    var h := new GemPtr.FromRaw(x);
    h.AssignRawSafe(x);
    held, alive, count := h.p == x, x.alive, x.refCount;
  }

  /** Move assignment between two handles that share one pointer, as written: after both
      handles are destroyed the object is still alive with one reference nobody holds. */
  method SharedMoveAsWritten() returns (alive: bool, count: UInt32)
    ensures alive && count == 1
  {
    var x := new GenericObject.Counted();
    var h1 := new GemPtr.FromRaw(x);
    var h2 := new GemPtr.Copy(h1);
    h1.MoveAssign(h2);
    h1.Destruct();
    h2.Destruct();
    alive, count := x.alive, x.refCount;
  }

  /** The same moves with the guarded operator: destroying the handles destroys the
      object. */
  method SharedMoveSafe() returns (alive: bool, count: UInt32)
    ensures !alive && count == 0
  {
    var x := new GenericObject.Counted();
    var h1 := new GemPtr.FromRaw(x);
    var h2 := new GemPtr.Copy(h1);
    h1.MoveAssignSafe(h2);
    h1.Destruct();
    h2.Destruct();
    alive, count := x.alive, x.refCount;
  }
}
