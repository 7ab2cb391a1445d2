/**
 * Python value semantics the viewer relies on: `None`-or-value results and
 * list subscripts that accept negative indices.
 */
module PyValues {

  /** A Python value that may be `None`. */
  datatype Option<T> = None | Some(value: T) {
    function GetOr(default: T): T {
      match this
      case Some(v) => v
      case None => default
    }
  }

  /** Python's `abs` on an integer. */
  function Abs(i: int): (r: nat)
    ensures r == i || r == -i
    ensures i >= 0 ==> r == i
  {
    if i < 0 then -i else i
  }

  /** `s[i]` succeeds in Python exactly when this holds; otherwise it raises IndexError. */
  predicate InBounds<T>(s: seq<T>, i: int) {
    -|s| <= i < |s|
  }

  /** The position `s[i]` reads in a list of length `n`: a negative `i` counts from the end. */
  function Offset(n: nat, i: int): (k: nat)
    requires -(n as int) <= i < n
    ensures k < n
    ensures k == i || k == n + i
    ensures i >= 0 <==> k == i
  {
    if i < 0 then n + i else i
  }

  /** Python's `s[i]` where it succeeds. */
  function At<T>(s: seq<T>, i: int): T
    requires InBounds(s, i)
  {
    s[Offset(|s|, i)]
  }
}
