# GEM object model in Dafny

GEM is a small component object model in one C++ header, `Inc/Gem.hpp`. Its core has three parts, and this project models and proves each of them:

- **Result model.** The `Result` outcome codes. `Succeeded` and `Failed` split the codes at `Fail = 0x80000000`. `ResultToString` gives each code a display name. `ThrowGemError` signals only on a failure.
- **Object lifetime and capability query.**
  - `TGeneric<Base>` keeps a 32-bit reference count, starting at 0. It deletes itself when the count returns to 0.
  - Its `QueryInterface` rejects a null output slot. It answers the universal interface id `XGeneric::IId = 0xffffffff` with a counted pointer to itself. Any other id goes to `_Base::InternalQueryInterface`; the model takes `_Base` to be `CGenericBase` itself, which writes null and reports `NoInterface`.
  - An aggregated `TInnerGeneric` has no count of its own. It forwards `AddRef`, `Release` and `QueryInterface` to its weak `m_pOuterGeneric` pointer.
- **The `TGemPtr` ownership handle.** Its constructors, destructor, `Detach` and three assignment operators issue exact `AddRef`/`Release` calls on the object it points to.

Layout:

- `types.dfy` (module `GemTypes`): 32-bit values and interface ids.
- `result.dfy` (module `GemResult`): the result model.
- `generic.dfy` (module `GemGeneric`): the objects and the pure model of their counts.
- `gem_ptr.dfy` (module `GemHandle`): the handle.

How the objects are represented:

- An `XGeneric` pointer is a `GenericObject?`.
- A `GenericObject` whose `outer` is null is a `TGeneric`. It owns `refCount` (`m_RefCount`) and `alive`, which turns false when `delete(this)` runs.
- A `GenericObject` whose `outer` is non-null is a `TInnerGeneric`. `outer` is its `m_pOuterGeneric`.
- `Root()` is the counted object at the end of a delegation chain. Every count change lands on the root.
- The `void **ppObj` out-parameter is a `Slot?`.
- Every count change is stated through the pure transition functions `AddRefStep` and `ReleaseStep` on a `Life` value (count, alive). Lemmas compose these transitions over many calls.

How the model departs from the code as written:

- `_Base` is a template parameter. The model takes it to be `CGenericBase` itself, so every id other than `XGeneric::IId` reaches `CGenericBase`'s `InternalQueryInterface`.
- C++ leaves a call on a deleted object undefined. The model does not forbid such calls. It keeps counting on the destroyed object, with `alive` false, so a dangling handle shows up as a held object that is not alive.

The model follows the header as written:

- The count is a 32-bit `ULONG`, which wraps modulo 2^32 in both directions; `Increment` and `Decrement` write that wrap out.
- `Detach` returns nothing and only nulls the handle.
- A new object's count is 0 until a first `AddRef`.
- The header defines no `Create`/`Initialize`.
- Interface ids are 32-bit (`UINT`).
- Raw-pointer and move assignment do not handle a same pointer safely. See Findings.

`ResultToString` keeps the source's spelling `"IncalidArg"` for `InvalidArg`.

## Model

| member | source | states |
|---|---|---|
| GemResult.Succeeded | Inc/Gem.hpp:75-78 | `Success` and `End` succeed; among the enumerators exactly those two do |
| GemResult.Failed | Inc/Gem.hpp:197-200 | `Failed` is the exact complement of `Succeeded` for every 32-bit code; among the enumerators everything but `Success` and `End` fails |
| GemResult.ResultToString | Inc/Gem.hpp:44-72 | total; the result is `"(Unknown)"` exactly for codes that are not enumerators; `InvalidArg` is named `"IncalidArg"`; never empty |
| GemResult.ResultToStringInjective | Inc/Gem.hpp:44-72 | two enumerators with the same name are the same enumerator |
| GemResult.ThrowGemError | Inc/Gem.hpp:215-221 | yields an error exactly when `Failed(r)`, and the error carries `r` |
| GemGeneric.Increment | Inc/Gem.hpp:245-248 | the new count is the old one plus 1 modulo 2^32 |
| GemGeneric.Decrement | Inc/Gem.hpp:250-253 | the new count is the old one minus 1 modulo 2^32 |
| GemGeneric.AddRefStep | Inc/Gem.hpp:245-248 | one AddRef raises the count by one (below the 32-bit maximum) and never changes liveness |
| GemGeneric.ReleaseStep | Inc/Gem.hpp:250-260 | one Release lowers a positive count by one; the object is alive afterwards exactly when it was alive and the new count is not 0 |
| GemGeneric.AddRefThenRelease | Inc/Gem.hpp:235-260 | from any nonzero count, Release exactly undoes AddRef, even across the wrap |
| GemGeneric.AddRefsCountUp | Inc/Gem.hpp:245-248 | `n` AddRef calls without overflow raise the count by exactly `n` and keep liveness |
| GemGeneric.ReleasesCountDown | Inc/Gem.hpp:250-260 | from count `c > 0`, after `n <= c` releases the count is `c - n`, and the object is alive exactly when `n < c`: it is destroyed by the `c`-th release and never earlier |
| GemGeneric.BalancedOwners | Inc/Gem.hpp:235-260 | from count `c > 0`, `k` extra AddRef calls followed by `k` Release calls restore the state exactly; `c` further releases leave the object destroyed |
| GemGeneric.GenericObject.Root | Inc/Gem.hpp:330-337 | the object that an inner object's weak outer chain ends at is a counted object, itself well formed (so it can be called again), the same as its outer's root |
| GemGeneric.GenericObject.Counted | Inc/Gem.hpp:224-233 | a new `TGeneric` is alive, counted by itself, with count 0 |
| GemGeneric.GenericObject.Inner | Inc/Gem.hpp:291-295 | a new `TInnerGeneric` keeps its outer pointer and shares the outer's root |
| GemGeneric.GenericObject.InternalAddRef | Inc/Gem.hpp:245-248 | the count makes one AddRef step; the new count is returned |
| GemGeneric.GenericObject.InternalRelease | Inc/Gem.hpp:250-260 | the count makes one Release step, the object is destroyed exactly when the new count is 0, and the new count is returned |
| GemGeneric.GenericObject.AddRef | Inc/Gem.hpp:235-301 | a `TGeneric` counts itself (`TGeneric::AddRef`, lines 235-238) and an inner object forwards to its outer (`TInnerGeneric::AddRef`, lines 297-301); only the root changes, by one AddRef step, and its new count is returned |
| GemGeneric.GenericObject.Release | Inc/Gem.hpp:240-307 | `TGeneric::Release` (lines 240-243) and the forwarding `TInnerGeneric::Release` (lines 303-307): as AddRef, with one Release step on the root only, which may destroy the root |
| GemGeneric.GenericObject.BaseInternalQueryInterface | Inc/Gem.hpp:322-326 | writes null to the slot and returns `NoInterface` |
| GemGeneric.GenericObject.InternalQueryInterface | Inc/Gem.hpp:272-282 | the universal id writes the object itself, adds exactly one reference and returns `Success`; any other id writes null, returns `NoInterface` and leaves the count alone |
| GemGeneric.GenericObject.QueryInterface | Inc/Gem.hpp:262-313 | `TGeneric::QueryInterface` (lines 262-270) and the forwarding `TInnerGeneric::QueryInterface` (lines 309-313): a null slot gives `BadPointer` with no count change, whatever the id; the universal id writes the root and counts it once against the root; other ids write null and give `NoInterface`; success holds exactly when a non-null pointer was written; an inner object forwards all of this to its outer |
| GemGeneric.SameObjectSameIdentity | Inc/Gem.hpp:262-313 | for any two pointers with the same root and any two slots (possibly the same one), querying each for the universal id succeeds and writes the same pointer, the root, whose count makes exactly two AddRef steps |
| GemGeneric.QueryTransitive | Inc/Gem.hpp:262-282 | the pointer handed out for the universal id, queried again for it, succeeds and yields itself, the root, which makes exactly two AddRef steps in all |
| GemGeneric.QueryThenRelease | Inc/Gem.hpp:240-282 | querying an owned object for the universal id and then releasing the pointer obtained succeeds and leaves the root's count and liveness exactly as they were |
| GemGeneric.AggregateIdentity | Inc/Gem.hpp:309-313 | an outer and its inner answer the universal id with the same pointer, both counted against the outer; an unknown id gives null and `NoInterface`; a null slot gives `BadPointer` |
| GemHandle.GemPtr.constructor | Inc/Gem.hpp:84-87 | the default handle is null |
| GemHandle.GemPtr.FromRaw | Inc/Gem.hpp:88-95 | holds the pointer; exactly one AddRef when it is non-null |
| GemHandle.GemPtr.Copy | Inc/Gem.hpp:96-103 | shares the source's pointer; exactly one AddRef when it is non-null |
| GemHandle.GemPtr.Move | Inc/Gem.hpp:104-108 | takes the source's pointer and nulls the source; no count changes |
| GemHandle.GemPtr.Destruct | Inc/Gem.hpp:110-116 | exactly one Release when the handle is non-null; nothing otherwise |
| GemHandle.GemPtr.Detach | Inc/Gem.hpp:118-121 | nulls the handle and releases nothing |
| GemHandle.GemPtr.AssignRaw | Inc/Gem.hpp:123-137 | holds the new pointer; different objects: one Release on the old, one AddRef on the new; the same object: Release first, then AddRef |
| GemHandle.GemPtr.AssignRawSafe | Inc/Gem.hpp:123-137 | corrected raw assignment: the same pointer changes no count; otherwise AddRef on the new before Release on the old |
| GemHandle.GemPtr.CopyAssign | Inc/Gem.hpp:139-159 | holds the source's pointer; equal pointers change no count; otherwise AddRef on the new before Release on the old, or both on one object when the two pointers share a root |
| GemHandle.GemPtr.MoveAssign | Inc/Gem.hpp:161-177 | the source is always nulled, a self-move included; the old pointer gets one Release only when the pointers differ; nothing is add-ref'd |
| GemHandle.GemPtr.MoveAssignSafe | Inc/Gem.hpp:161-177 | corrected move assignment: a self-move changes nothing; between two handles, the target takes the source's pointer, the source is nulled, and the old pointer gets exactly one Release |
| GemHandle.TwoOwnersLifetime | Inc/Gem.hpp:88-116 | a raw-pointer owner plus a copy: the object survives the first destruction and dies at the second |
| GemHandle.RawSelfAssignmentAsWritten | Inc/Gem.hpp:123-137 | a sole owner assigned its own pointer ends up holding a destroyed object whose count is 1 again |
| GemHandle.RawSelfAssignmentSafe | Inc/Gem.hpp:123-137 | with the guarded operator the object stays alive with count 1 |
| GemHandle.SharedMoveAsWritten | Inc/Gem.hpp:161-177 | after moving between two handles that share a pointer, and destroying both, the object is still alive with an orphaned count of 1 |
| GemHandle.SharedMoveSafe | Inc/Gem.hpp:161-177 | with the guarded operator the same sequence destroys the object |

## Left out

- GemGeneric.GenericObject.InternalQueryInterface: a custom `_Base` that answers further ids in its own `InternalQueryInterface` (Inc/Gem.hpp:281, 317) is not modelled; `_Base` is `CGenericBase`, so only `XGeneric::IId` is answered and every other id gives `NoInterface`.
- Atomicity of `InterlockedIncrement`/`InterlockedDecrement` and all concurrency. Counts change sequentially, one call at a time.
- The calling-convention, nothrow and SAL annotation macros and `GEM_IID_PPV_ARGS` (Inc/Gem.hpp:7-17). They have no behaviour.
- The C++ throw in `ThrowGemError` and the deleted conversion operator of `GemError` (Inc/Gem.hpp:207, 219). `GemError` is a datatype carrying the code, and `ThrowGemError` returns it as an optional error instead of throwing it.
- `reinterpret_cast`, vtables, the variadic constructor forwarding and mixin inheritance. Objects are references, and an inner object is recognised by its non-null `outer`.
- The typed `XGeneric::QueryInterface<_XFace>` overload (Inc/Gem.hpp:348-352). It only supplies `_XFace::IId` to `QueryInterface`, which is modelled.
- Freeing memory on `delete(this)`. Destruction is the `alive` flag turning false.
- `TGemPtr`'s `operator&`, `operator*`, `operator->`, the implicit conversion and `Get` (Inc/Gem.hpp:179-193). They only expose the pointer or its address, which is the public field `p`.
- The destructor of an aggregated inner object and the outer's ownership of it. These are outside the header.
- GemGeneric.GenericObject.AddRef, Release and QueryInterface: they do not require the root to be alive. C++ makes such a call undefined, but the model goes on counting on the destroyed object.

## Findings

| source | as written | input that shows it | evidently intended | confidence | as-written member | corrected member |
|---|---|---|---|---|---|---|
| Inc/Gem.hpp:123-137 | raw-pointer assignment releases the old pointer before add-ref'ing the new one, with no same-pointer guard | a handle that is the only owner of `x` (count 1) is assigned `x` itself: the Release destroys `x`, then AddRef runs on the destroyed object | assigning a handle its own pointer changes no count and keeps the object alive | medium, not executed | GemHandle.RawSelfAssignmentAsWritten | GemHandle.GemPtr.AssignRawSafe |
| Inc/Gem.hpp:161-177 | when both handles hold the same pointer, move assignment nulls the source without releasing its reference | `h1` and `h2` both hold `x` (count 2); `h1 = std::move(h2)`; both are destroyed: `x` stays alive with count 1 and no owner | a move between two handles drops exactly one of their two references | medium, not executed | GemHandle.SharedMoveAsWritten | GemHandle.GemPtr.MoveAssignSafe |
