/** The few pieces of Python semantics the bot's rules depend on: optional
    values, the exceptions its routines raise, slicing with negative and
    out-of-range bounds, `int()` of a float, and string repetition. */
module Py {

  datatype Option<T> = None | Some(value: T)

  /** The exceptions raised by the modelled routines. */
  datatype Error =
    | InvalidAbility(number: int)      // ValueError("Invalid ability number: ...")
    | UnknownChain(name: string)       // ValueError("Unknown attack chain: ...")
    | ZeroDivision                     // ZeroDivisionError
    | MissingAttribute(name: string)   // AttributeError: the object has no such method
    | NotItemAssignable                // TypeError: item assignment on a non-dict value
    | NotRepeatable                    // TypeError: a string multiplied by a float

  /** How a routine that returns None ends: normally, or by raising. */
  datatype Outcome = Done | Raised(error: Error)

  /** Python's normalisation of one bound of `s[start:stop]` for a sequence of length `n`:
      a negative bound counts from the end, and the result is clamped to [0, n]. */
  function SliceBound(n: nat, i: int): (b: nat)
    ensures b <= n
    ensures i < 0 ==> b == Max(n + i, 0)
    ensures i >= 0 ==> b == Min(i, n)
  {
    if i < 0 then (if i + n < 0 then 0 else i + n)
    else if i > n then n
    else i
  }

  function Min(a: int, b: int): int
  {
    if a <= b then a else b
  }

  function Max(a: int, b: int): int
  {
    if a >= b then a else b
  }

  /** `s[start:stop]` with Python's (and numpy's) rules for step 1. */
  function Slice<T>(s: seq<T>, start: int, stop: int): (r: seq<T>)
    ensures |r| <= |s|
    ensures 0 <= start <= stop <= |s| ==> r == s[start..stop]
    ensures 0 <= start <= stop ==> r == s[Min(start, |s|)..Min(stop, |s|)]
    ensures 0 <= start <= stop ==> |r| <= stop - start
    ensures SliceBound(|s|, start) <= SliceBound(|s|, stop) ==> r == s[SliceBound(|s|, start)..SliceBound(|s|, stop)]
    ensures SliceBound(|s|, start) > SliceBound(|s|, stop) ==> r == []
    ensures start < 0 && stop < 0 && start <= stop ==> r == s[Max(|s| + start, 0)..Max(|s| + stop, 0)]
    ensures forall x :: x in r ==> x in s
  {
    var lo, hi := SliceBound(|s|, start), SliceBound(|s|, stop);
    if lo <= hi then s[lo..hi] else []
  }

  /** `s[start:]`. */
  function SliceFrom<T>(s: seq<T>, start: int): (r: seq<T>)
    ensures |r| <= |s|
    ensures r == s[|s| - |r|..]
    ensures start < 0 ==> r == s[Max(|s| + start, 0)..]
    ensures start >= 0 ==> r == s[Min(start, |s|)..]
  {
    Slice(s, start, |s|)
  }

  /** Python's `int(r)` of a float: truncation toward zero. */
  function Trunc(r: real): (t: int)
    ensures r >= 0.0 ==> 0 <= t && t as real <= r < t as real + 1.0
    ensures r < 0.0 ==> t <= 0 && t as real - 1.0 < r <= t as real
  {
    if r >= 0.0 then r.Floor else -((-r).Floor)
  }

  /** Python's `c * n` for a one-character string and an int: empty when `n <= 0`. */
  function RepeatChar(c: char, n: int): (r: string)
    ensures |r| == if n <= 0 then 0 else n
    ensures forall i :: 0 <= i < |r| ==> r[i] == c
    decreases if n <= 0 then 0 else n
  {
    if n <= 0 then [] else [c] + RepeatChar(c, n - 1)
  }
}
