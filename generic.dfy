/** Object lifetime and capability query: `TGeneric`, `CGenericBase`, `TInnerGeneric`,
    `CInnerGenericBase` and the universal interface `XGeneric`. */
module GemGeneric {
  import opened GemTypes
  import opened GemResult

  /** `InterlockedIncrement` on a 32-bit ULONG: wraps from the maximum to 0. */
  function Increment(c: UInt32): (r: UInt32)
    ensures r as int == (c as int + 1) % 0x1_0000_0000
  {
    if c == MaxUInt32 then 0 else c + 1
  }

  /** `InterlockedDecrement` on a 32-bit ULONG: wraps from 0 to the maximum. */
  function Decrement(c: UInt32): (r: UInt32)
    ensures r as int == (c as int - 1) % 0x1_0000_0000
  {
    if c == 0 then MaxUInt32 else c - 1
  }

  /** The lifetime state of a counted object: its reference count and whether it is still
      alive (false once `delete(this)` has run). */
  datatype Life = Life(refCount: UInt32, alive: bool)

  /** The effect of one AddRef: the count goes up by one, liveness is untouched. */
  function AddRefStep(s: Life): (t: Life)
    ensures t.alive == s.alive
    ensures s.refCount < MaxUInt32 ==> t.refCount == s.refCount + 1
  {
    Life(Increment(s.refCount), s.alive)
  }

  /** The effect of one Release: the count goes down by one and the object is destroyed
      exactly when the new count is 0. */
  function ReleaseStep(s: Life): (t: Life)
    ensures 0 < s.refCount ==> t.refCount == s.refCount - 1
    ensures t.alive <==> s.alive && t.refCount != 0
  {
    var c := Decrement(s.refCount);
    Life(c, s.alive && c != 0)
  }

  /** A Release undoes an AddRef from any nonzero count, even across the 32-bit wrap.
      (From count 0 the pair destroys the object.) */
  lemma AddRefThenRelease(s: Life)
    requires s.refCount != 0
    ensures ReleaseStep(AddRefStep(s)) == s
  {
  }

  /** The state after `n` consecutive AddRef calls. */
  function AddRefs(s: Life, n: nat): Life
    decreases n
  {
    if n == 0 then s else AddRefs(AddRefStep(s), n - 1)
  }

  /** The state after `n` consecutive Release calls. */
  function Releases(s: Life, n: nat): Life
    decreases n
  {
    if n == 0 then s else Releases(ReleaseStep(s), n - 1)
  }

  /** Without overflow, `n` AddRef calls raise the count by `n` and keep liveness. */
  lemma {:induction false} AddRefsCountUp(s: Life, n: nat)
    requires s.refCount as int + n <= MaxUInt32 as int
    ensures AddRefs(s, n).refCount as int == s.refCount as int + n
    ensures AddRefs(s, n).alive == s.alive
    decreases n
  {
    if n > 0 {
      AddRefsCountUp(AddRefStep(s), n - 1);
    }
  }

  /** An object with count `c > 0` survives its first `c - 1` releases and is destroyed by
      exactly the `c`-th one. */
  lemma {:induction false} ReleasesCountDown(s: Life, n: nat)
    requires 0 < s.refCount && n <= s.refCount as int
    ensures Releases(s, n).refCount as int == s.refCount as int - n
    ensures Releases(s, n).alive <==> s.alive && n < s.refCount as int
    decreases n
  {
    if n > 0 {
      if s.refCount == 1 {
        assert Releases(s, n) == ReleaseStep(s);
      } else {
        ReleasesCountDown(ReleaseStep(s), n - 1);
      }
    }
  }

  /** `k` owners that each acquire and later release an object with count `c > 0` leave its
      state exactly as it was; `c` further releases leave it destroyed. */
  lemma BalancedOwners(s: Life, k: nat)
    requires 0 < s.refCount && s.refCount as int + k <= MaxUInt32 as int
    ensures Releases(AddRefs(s, k), k) == s
    ensures !Releases(s, s.refCount as nat).alive
  {
    var t := AddRefs(s, k);
    AddRefsCountUp(s, k);
    ReleasesCountDown(t, k);
    ReleasesCountDown(s, s.refCount as nat);
  }

  /** The counted object `g` received exactly one AddRef. */
  twostate predicate AddedRef(g: GenericObject)
    reads g
  {
    g.State() == AddRefStep(old(g.State()))
  }

  /** The counted object `g` received exactly one Release. */
  twostate predicate Released(g: GenericObject)
    reads g
  {
    g.State() == ReleaseStep(old(g.State()))
  }

  /** One Release on `g`, then one AddRef. */
  twostate predicate ReleasedThenAdded(g: GenericObject)
    reads g
  {
    g.State() == AddRefStep(ReleaseStep(old(g.State())))
  }

  /** One AddRef on `g`, then one Release. */
  twostate predicate AddedThenReleased(g: GenericObject)
    reads g
  {
    g.State() == ReleaseStep(AddRefStep(old(g.State())))
  }

  /** The `void **` out-parameter of QueryInterface: a location that receives an object
      pointer (null meaning none). */
  class Slot {
    var target: GenericObject?

    constructor ()
      ensures target == null
    {
      target := null;
    }
  }

  /** An object reached through an `XGeneric` pointer. With `outer == null` it is a
      `TGeneric` (it owns the count `refCount`); otherwise it is a `TInnerGeneric`, which has
      no count of its own and forwards everything to its weak outer pointer, in which case
      `refCount` and `alive` are never used. */
  class GenericObject {
    var refCount: UInt32
    var alive: bool
    /** `m_pOuterGeneric` of `CInnerGenericBase`: weak, never counted. */
    const outer: GenericObject?
    /** The length of the delegation chain down to the counted object. */
    ghost const depth: nat
    /** For an inner object, the counted object at the end of its delegation chain. */
    ghost const outerRoot: GenericObject?

    /** The delegation chain ends in a counted object, recorded in `outerRoot`. */
    ghost predicate Valid()
      decreases depth
    {
      && (outer == null <==> outerRoot == null)
      && (outer != null ==>
            && outer.depth < depth
            && outer.Valid()
            && outerRoot == (if outer.outer == null then outer else outer.outerRoot))
    }

    /** The counted object that every call on this one ends up at. */
    ghost function Root(): (r: GenericObject)
      requires Valid()
      ensures r.outer == null && r.Valid()
      ensures outer == null ==> r == this
      ensures outer != null ==> r == outer.Root()
      decreases depth
    {
      if outerRoot == null then this
      else
        assert outer != null && outerRoot == outer.Root();
        outerRoot
    }

    ghost function State(): Life
      reads this
    {
      Life(refCount, alive)
    }

    /** `TGeneric(args...)`: a counted object, its count starting at 0. */
    constructor Counted()
      ensures outer == null && Valid()
      ensures refCount == 0 && alive
    {
      refCount := 0;
      alive := true;
      outer := null;
      depth := 0;
      outerRoot := null;
    }

    /** `TInnerGeneric(pOuterGeneric, ...)`: an aggregated object bound to its outer. */
    constructor Inner(outerGeneric: GenericObject)
      requires outerGeneric.Valid()
      ensures outer == outerGeneric && Valid()
      ensures Root() == outerGeneric.Root()
    {
      refCount := 0;
      alive := true;
      outer := outerGeneric;
      depth := outerGeneric.depth + 1;
      outerRoot := outerGeneric.Root();
    }

    /** `TGeneric::InternalAddRef`: increments the count and returns the new value. */
    method InternalAddRef() returns (count: UInt32)
      requires Valid() && outer == null
      modifies this
      ensures AddedRef(this)
      ensures count == refCount
    {
      refCount := Increment(refCount);
      count := refCount;
    }

    /** `TGeneric::InternalRelease`: decrements the count, destroys the object when the new
        count is 0, and returns the new count. */
    method InternalRelease() returns (count: UInt32)
      requires Valid() && outer == null
      modifies this
      ensures Released(this)
      ensures count == refCount
      ensures old(alive) ==> (alive <==> count != 0)
    {
      count := Decrement(refCount);
      refCount := count;
      if count == 0 {
        alive := false;
      }
    }

    /** `AddRef`: `TGeneric` counts itself, `TInnerGeneric` forwards to its outer. Either way
        only the root's count changes. */
    method AddRef() returns (count: UInt32)
      requires Valid()
      modifies Root()
      ensures AddedRef(Root())
      ensures count == Root().refCount
      decreases depth
    {
      if outer == null {
        count := InternalAddRef();
      } else {
        count := outer.AddRef();
      }
    }

    /** `Release`: `TGeneric` releases itself, `TInnerGeneric` forwards to its outer. */
    method Release() returns (count: UInt32)
      requires Valid()
      modifies Root()
      ensures Released(Root())
      ensures count == Root().refCount
      decreases depth
    {
      if outer == null {
        count := InternalRelease();
      } else {
        count := outer.Release();
      }
    }

    /** `CGenericBase::InternalQueryInterface`: knows no interface; writes null. */
    method BaseInternalQueryInterface(iid: InterfaceId, slot: Slot) returns (res: Result)
      modifies slot
      ensures res == NoInterface && slot.target == null
    {
      slot.target := null;
      res := NoInterface;
    }

    /** `TGeneric::InternalQueryInterface`: answers the universal id with a counted pointer to
        itself; any other id falls through to the base. */
    method InternalQueryInterface(iid: InterfaceId, slot: Slot) returns (res: Result)
      requires Valid() && outer == null
      modifies this, slot
      ensures iid == GenericIId ==>
        res == Success && slot.target == this && AddedRef(this)
      ensures iid != GenericIId ==>
        res == NoInterface && slot.target == null && unchanged(this)
    {
      if iid == GenericIId {
        slot.target := this;
        var _ := AddRef();
        res := Success;
      } else {
        res := BaseInternalQueryInterface(iid, slot);
      }
    }

    /** `QueryInterface`: a `TGeneric` rejects a null slot before any lookup; a
        `TInnerGeneric` forwards verbatim to its outer. The pointer handed out for the
        universal id is always the root, so every view of one object has the same identity. */
    method QueryInterface(iid: InterfaceId, slot: Slot?) returns (res: Result)
      requires Valid()
      modifies Root(), slot
      ensures slot == null ==> res == BadPointer && unchanged(Root())
      ensures slot != null && iid == GenericIId ==>
        res == Success && slot.target == Root() && AddedRef(Root())
      ensures slot != null && iid != GenericIId ==>
        res == NoInterface && slot.target == null && unchanged(Root())
      ensures Succeeded(res) <==> slot != null && slot.target != null
      decreases depth
    {
      if outer != null {
        res := outer.QueryInterface(iid, slot);
      } else if slot == null {
        res := BadPointer;
      } else {
        res := InternalQueryInterface(iid, slot);
      }
    }
  }

  /** The identity rule: any two pointers to views of one object, queried for the universal
      interface, yield the same pointer, the root, each query counted once against it. */
  method SameObjectSameIdentity(a: GenericObject, b: GenericObject, s1: Slot, s2: Slot)
    returns (r1: Result, r2: Result)
    requires a.Valid() && b.Valid() && a.Root() == b.Root()
    modifies a.Root(), s1, s2
    ensures r1 == Success && r2 == Success
    ensures s1.target == s2.target == a.Root()
    ensures a.Root().State() == AddRefStep(AddRefStep(old(a.Root().State())))
  {
    r1 := a.QueryInterface(GenericIId, s1);
    r2 := b.QueryInterface(GenericIId, s2);
  }

  /** Identity is transitive: the pointer handed out for the universal interface, queried
      again for it, yields itself, counted once more against the same root. */
  method QueryTransitive(a: GenericObject, s1: Slot, s2: Slot) returns (r1: Result, r2: Result)
    requires a.Valid()
    modifies a.Root(), s1, s2
    ensures r1 == Success && r2 == Success
    ensures s1.target == a.Root() && s2.target == s1.target
    ensures a.Root().State() == AddRefStep(AddRefStep(old(a.Root().State())))
  {
    r1 := a.QueryInterface(GenericIId, s1);
    var q := s1.target;
    r2 := q.QueryInterface(GenericIId, s2);
  }

  /** The usual round trip: query for the universal interface, then release the pointer
      obtained. The object is left exactly as it was, whenever it already had an owner. */
  method QueryThenRelease(a: GenericObject, s: Slot) returns (res: Result, count: UInt32)
    requires a.Valid() && a.Root().refCount != 0
    modifies a.Root(), s
    ensures res == Success && s.target == a.Root()
    ensures a.Root().State() == old(a.Root().State())
    ensures count == a.Root().refCount
  {
    res := a.QueryInterface(GenericIId, s);
    var q := s.target;
    count := q.Release();
    AddRefThenRelease(old(a.Root().State()));
  }

  /** Querying an outer object and its aggregated inner object for the universal interface
      yields the same pointer, each query counted once against the outer; an unknown id
      yields null and `NoInterface`; a null slot yields `BadPointer` whatever the id. */
  method AggregateIdentity(unknown: InterfaceId)
    returns (same: bool, count: UInt32, missing: Result, missingNull: bool, noSlot: Result)
    requires unknown != GenericIId
    ensures same && count == 2
    ensures missing == NoInterface && missingNull
    ensures noSlot == BadPointer
  {
    var outerObj := new GenericObject.Counted();
    var innerObj := new GenericObject.Inner(outerObj);
    var s1 := new Slot();
    var s2 := new Slot();
    var s3 := new Slot();
    var _ := outerObj.QueryInterface(GenericIId, s1);
    var _ := innerObj.QueryInterface(GenericIId, s2);
    missing := innerObj.QueryInterface(unknown, s3);
    noSlot := innerObj.QueryInterface(GenericIId, null);
    same := s1.target == s2.target && s1.target == outerObj;
    count := outerObj.refCount;
    missingNull := s3.target == null;
  }
}
