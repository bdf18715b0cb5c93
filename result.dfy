/** The outcome codes of GEM operations and the decisions made on them. */
module GemResult {

  /** `enum class Result : UINT32`. A value of the underlying type need not be one of the
      enumerators, which is why the display name has a fallback. */
  newtype Result = x: int | 0 <= x < 0x1_0000_0000

  const Success: Result := 0
  const End: Result := 1
  /** The first failure code: every code from here on is a failure. */
  const Fail: Result := 0x8000_0000
  const InvalidArg: Result := 0x8000_0001
  const NotFound: Result := 0x8000_0002
  const OutOfMemory: Result := 0x8000_0003
  const NoInterface: Result := 0x8000_0004
  const BadPointer: Result := 0x8000_0005
  const NotImplemented: Result := 0x8000_0006
  const Unavailable: Result := 0x8000_0007
  const Uninitialized: Result := 0x8000_0008

  /** True for the eleven declared enumerators. */
  predicate IsEnumerator(r: Result) {
    r == Success || r == End || Fail <= r <= Uninitialized
  }

  /** `Succeeded`: the codes below the first failure. */
  predicate Succeeded(r: Result): (b: bool)
    ensures r == Success || r == End ==> b
    ensures IsEnumerator(r) ==> (b <==> r == Success || r == End)
  {
    r < Fail
  }

  /** `Failed`: the codes from the first failure on; exactly the complement of Succeeded. */
  predicate Failed(r: Result): (b: bool)
    ensures b <==> !Succeeded(r)
    ensures IsEnumerator(r) ==> (b <==> r != Success && r != End)
  {
    r >= Fail
  }

  /** `ResultToString`: the fixed name of each enumerator, "(Unknown)" for any other code.
      The name given to InvalidArg is spelled "IncalidArg", as in the program. */
  function ResultToString(r: Result): (s: string)
    ensures s == "(Unknown)" <==> !IsEnumerator(r)
    ensures r == InvalidArg ==> s == "IncalidArg"
    ensures |s| > 0
  {
    if r == Success then "Success"
    else if r == End then "End"
    else if r == Fail then "Fail"
    else if r == InvalidArg then "IncalidArg"
    else if r == NotFound then "NotFound"
    else if r == OutOfMemory then "OutOfMemory"
    else if r == NoInterface then "NoInterface"
    else if r == BadPointer then "BadPointer"
    else if r == NotImplemented then "NotImplemented"
    else if r == Unavailable then "Unavailable"
    else if r == Uninitialized then "Uninitialized"
    else "(Unknown)"
  }

  /** Distinct enumerators have distinct names, so a name identifies its enumerator. */
  lemma ResultToStringInjective(a: Result, b: Result)
    requires IsEnumerator(a) && IsEnumerator(b)
    requires ResultToString(a) == ResultToString(b)
    ensures a == b
  {
  }

  /** The error object `GemError` carries the failing code. */
  datatype GemError = GemError(result: Result)

  /** `ThrowGemError`: signals (here: returns an error) exactly when the code is a failure. */
  function ThrowGemError(r: Result): (e: Option<GemError>)
    ensures e.Some? <==> Failed(r)
    ensures e.Some? ==> e.value.result == r
  {
    if Failed(r) then Some(GemError(r)) else None
  }

  datatype Option<T> = None | Some(value: T)
}
