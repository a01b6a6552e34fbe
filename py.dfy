/**
 * The parts of Python's runtime behaviour that the request handlers rely on:
 * exceptions (modelled as values), `None`, the `max`/`min` builtins, `str` of an
 * exception, and the index clamping of a step-1 slice `s[start:stop]`.
 */
module Py {

  /** Python's `None` or a value. */
  datatype Option<+T> = None | Some(value: T)

  /** The exception classes the handlers raise or catch by name. `OtherError`
      stands for every other `Exception` subclass (cv2.error, UnboundLocalError, ...). */
  datatype Exception =
    | HttpException(statusCode: int, detail: string)
    | UnidentifiedImageError(msg: string)
    | ValueError(msg: string)
    | TypeError(msg: string)
    | RuntimeError(msg: string)
    | OtherError(msg: string)

  /** The outcome of evaluating a Python expression or block: it returns a value or raises. */
  datatype Raised<+T> = Returns(value: T) | Raises(exc: Exception)

  function Max(a: int, b: int): int { if a < b then b else a }

  function Min(a: int, b: int): int { if a < b then a else b }

  /** Decimal digits of a natural number, as `str(n)` prints them. */
  function NatToString(n: nat): (s: string)
    ensures |s| > 0
    ensures forall i :: 0 <= i < |s| ==> '0' <= s[i] <= '9'
    decreases n
  {
    var d := [(('0' as int) + n % 10) as char];
    if n < 10 then d else NatToString(n / 10) + d
  }

  function IntToString(n: int): (s: string)
    ensures |s| > 0
  {
    if n < 0 then "-" + NatToString(-n) else NatToString(n)
  }

  /** `str(e)`. Starlette's HTTPException prints as "<status>: <detail>"; every other
      exception prints its message. */
  function Str(e: Exception): string {
    match e
    case HttpException(c, d) => IntToString(c) + ": " + d
    case UnidentifiedImageError(m) => m
    case ValueError(m) => m
    case TypeError(m) => m
    case RuntimeError(m) => m
    case OtherError(m) => m
  }

  /** How CPython adjusts one bound of a step-1 slice of a sequence of length n:
      a negative bound counts from the end, and the result is clamped to [0, n]. */
  function ClampIndex(i: int, n: nat): (k: nat)
    ensures k <= n
  {
    if i < 0 then Max(0, i + n) else Min(i, n)
  }

  /** `s[start:stop]`: never raises, silently clamps both bounds. */
  function Slice<T>(s: seq<T>, start: int, stop: int): (r: seq<T>)
    ensures |r| <= |s|
  {
    var lo := ClampIndex(start, |s|);
    var hi := ClampIndex(stop, |s|);
    if lo < hi then s[lo..hi] else []
  }

  /** Every element of a slice is the element of the sliced sequence at the
      adjusted start plus its own index. */
  lemma SliceElements<T>(s: seq<T>, start: int, stop: int)
    ensures var lo := ClampIndex(start, |s|);
      && lo + |Slice(s, start, stop)| <= |s|
      && forall i :: 0 <= i < |Slice(s, start, stop)| ==> Slice(s, start, stop)[i] == s[lo + i]
  {
  }

  /** With non-negative bounds, a slice holds max(0, min(n, stop) - start) elements,
      taken from `start` on. */
  lemma SliceOfNonNegativeBounds<T>(s: seq<T>, start: nat, stop: nat)
    ensures |Slice(s, start, stop)| == Max(0, Min(|s|, stop) - start)
    ensures forall i :: 0 <= i < |Slice(s, start, stop)| ==> start + i < |s| && Slice(s, start, stop)[i] == s[start + i]
  {
  }

  /** A slice that starts at or past the end is empty, whatever its stop. */
  lemma SlicePastEnd<T>(s: seq<T>, start: nat, stop: int)
    requires start >= |s|
    ensures Slice(s, start, stop) == []
  {
  }
}
