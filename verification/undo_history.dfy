/**
 * The bounded undo histories shared by both revisions of `ImagePath`: the
 * shuffle history of `(sequence, index)` snapshots and the random-jump
 * history of previously shown paths. Both are Python lists that `shuffle` /
 * `random` grow with `pop(0)` + `append`, and that `previous_shuffle` /
 * `previous_random` read through a negative rewind pointer.
 */
module UndoHistory {
  import opened PyValues

  /**
   * `if len(h) > limit: h.pop(0)` followed by `h.append(x)`: the newest
   * entries survive, in order, with `x` last.
   */
  function BoundedPush<T>(h: seq<T>, x: T, limit: nat): (r: seq<T>)
    ensures |r| > 0 && r[|r| - 1] == x
    ensures |r| <= |h| + 1
    ensures r[..|r| - 1] == h[|h| + 1 - |r|..]
    ensures |h| <= limit ==> |r| == |h| + 1
    ensures |h| > limit ==> |r| == |h|
    ensures |h| <= limit + 1 ==> |r| <= limit + 1
    ensures forall y :: y in r ==> y in h || y == x
  {
    if |h| > limit then
      assert h[1..] == h[|h| - (|h| - 1)..];
      h[1..] + [x]
    else
      assert h == h[0..];
      h + [x]
  }

  /**
   * The rewind-pointer update of `previous_shuffle` / `previous_random` on a
   * history of `n` entries: step back after restoring entry `p` (when
   * `abs(p) <= n`), then clamp at `-(limit - 1)`.
   */
  function UndoStep(p: int, n: nat, limit: nat): (r: int)
    requires limit >= 2
    ensures -(limit - 1) <= p <= -1 ==> -(limit - 1) <= r <= -1
    ensures -(limit - 1) <= p <= -1 ==> (r == p - 1 <==> Abs(p) <= n && p > -(limit - 1))
    ensures -(limit - 1) <= p <= -1 && r != p - 1 ==> r == p
  {
    var q := if Abs(p) <= n then p - 1 else p;
    if q < -(limit - 1) then -(limit - 1) else q
  }

  /** The rewind pointer after `k` consecutive undos that start from a fresh push (pointer -1). */
  function PointerAfter(n: nat, limit: nat, k: nat): int
    requires limit >= 2
  {
    if k == 0 then -1 else UndoStep(PointerAfter(n, limit, k - 1), n, limit)
  }

  function Min(a: int, b: int): int {
    if a <= b then a else b
  }

  /**
   * Consecutive undos walk back one entry at a time and then stick: on a
   * history of `n >= 1` entries the pointer after `k` undos is
   * `-min(k + 1, n + 1, limit - 1)`. Hence the `j`-th undo (counting from 0)
   * restores entry `-min(j + 1, limit - 1)` while that is within the
   * history, so only the newest `limit - 1` entries are ever restored and
   * repeated undo keeps restoring the oldest reachable one.
   */
  lemma {:induction false} PointerAfterClosedForm(n: nat, limit: nat, k: nat)
    requires limit >= 2 && n >= 1
    ensures PointerAfter(n, limit, k) == -Min(k + 1, Min(n + 1, limit - 1))
  {
    if k > 0 {
      PointerAfterClosedForm(n, limit, k - 1);
    }
  }

  /**
   * The entry the `j`-th consecutive undo after a push restores, and the fact
   * that it is restored at all, on a history of `n` entries.
   */
  lemma RestoredEntry(n: nat, limit: nat, j: nat)
    requires limit >= 2 && n >= 1
    ensures var p := PointerAfter(n, limit, j);
            Abs(p) <= n <==> Min(j + 1, limit - 1) <= n
    ensures var p := PointerAfter(n, limit, j);
            Abs(p) <= n ==> p == -Min(j + 1, limit - 1)
  {
    PointerAfterClosedForm(n, limit, j);
  }
}
