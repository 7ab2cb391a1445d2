/**
 * The image-sequence navigator `ImagePath` of `poseviewer/corewidgets.py`:
 * a sequence of paths, a cursor that is a Python index (so it may be
 * negative), the current path, bounded shuffle and random-jump histories
 * with their rewind pointers, and the `imageChanged` / `sequenceChanged`
 * notifications, recorded here as an event log in the order they are queued.
 */
module CoreWidgets {
  import opened PyValues
  import opened UndoHistory

  type Path = string

  const UndoShuffleLimit: nat := 10
  const UndoRandomLimit: nat := 50

  /** `(sequence, current_index)` as `shuffle` stores it. */
  datatype Snapshot = Snapshot(sequence: seq<Path>, index: int)

  /**
   * A queued notification. `imageChanged` carries no payload here: the
   * queued lambda reads `current` when the event loop delivers it.
   */
  datatype Event = ImageChanged | SequenceChanged

  function Emitted(cond: bool, e: Event): seq<Event> {
    if cond then [e] else []
  }

  /** The cursor invariant: a valid Python index into a non-empty sequence, 0 for an empty one. */
  predicate IndexFits(s: seq<Path>, i: int) {
    if |s| == 0 then i == 0 else -|s| < i < |s|
  }

  // ---------------------------------------------------------------------
  // Cursor arithmetic of next() and prev()

  /** The cyclic successor of position `k` among `n` positions. */
  function Succ(k: nat, n: nat): (r: nat)
    requires k < n
    ensures r < n
  {
    if k + 1 == n then 0 else k + 1
  }

  /** The cyclic predecessor of position `k` among `n` positions. */
  function Pred(k: nat, n: nat): (r: nat)
    requires k < n
    ensures r < n
  {
    if k == 0 then n - 1 else k - 1
  }

  /** The index `next` moves to: `0` when `i + 1 >= n`, else `i + 1`. */
  function NextIndex(i: int, n: nat): (r: int)
    ensures n > 0 ==> r < n
    ensures 0 < n && -1 <= i < n ==> 0 <= r < n
    ensures 0 <= i < n ==> r == Succ(i, n)
  {
    if i + 1 >= n then 0 else i + 1
  }

  /** The index `prev` moves to: `i - 1` when `abs(i) + 1 < n`, else `0`. */
  function PrevIndex(i: int, n: nat): (r: int)
    ensures n > 0 ==> -(n as int) < r < n
    ensures r == 0 || r == i - 1
  {
    if !(Abs(i) + 1 >= n) then i - 1 else 0
  }

  /**
   * From any valid index, `next` shows the cyclically following element:
   * negative indices step towards the end and `-1` wraps to `0`.
   */
  lemma NextMovesForward(i: int, n: nat)
    requires -(n as int) <= i < n
    ensures -(n as int) <= NextIndex(i, n) < n
    ensures Offset(n, NextIndex(i, n)) == Succ(Offset(n, i), n)
  {
  }

  /**
   * From any valid index, `prev` shows the cyclically preceding element,
   * except from the last element reached by a non-negative index, where it
   * jumps to the first: `prev` from `0` goes to `-1`, from `n - 1` to `0`.
   */
  lemma PrevMovesBack(i: int, n: nat)
    requires -(n as int) < i < n
    ensures -(n as int) < PrevIndex(i, n) < n
    ensures Offset(n, PrevIndex(i, n)) == if i == n - 1 then 0 else Pred(Offset(n, i), n)
  {
  }

  /** The cursor after `k` calls of `next` on a sequence of length `n`. */
  function NextTimes(i: int, n: nat, k: nat): int {
    if k == 0 then i else NextIndex(NextTimes(i, n, k - 1), n)
  }

  /** At least one whole round of `n` is at least `n`. */
  lemma {:induction false} RoundsAtLeast(d: int, n: nat)
    requires d >= 1
    ensures d * n >= n
    decreases d
  {
    if d > 1 {
      RoundsAtLeast(d - 1, n);
      assert d * n == (d - 1) * n + n;
    }
  }

  /** `x % n` is `r` whenever `x` is `q` whole rounds of `n` plus `r < n`. */
  lemma ModUnique(x: int, n: int, q: int, r: int)
    requires n > 0 && 0 <= r < n && x == q * n + r
    ensures x % n == r
  {
    var q', r' := x / n, x % n;
    var d := q - q';
    assert d * n == q * n - q' * n;
    assert d * n == r' - r;
    if d >= 1 {
      RoundsAtLeast(d, n);
    } else if d <= -1 {
      RoundsAtLeast(-d, n);
    }
  }

  /** The cyclic successor of a position taken modulo `n` is the next number modulo `n`. */
  lemma SuccMod(x: nat, n: nat)
    requires n > 0
    ensures Succ(x % n, n) == (x + 1) % n
  {
    var q, r := x / n, x % n;
    assert x == q * n + r;
    if r + 1 < n {
      ModUnique(x + 1, n, q, r + 1);
    } else {
      ModUnique(x + 1, n, q + 1, 0);
    }
  }

  /** `k` calls of `next` advance the selected position by `k`, modulo the length. */
  lemma {:induction false} NextTimesOffset(i: int, n: nat, k: nat)
    requires -(n as int) <= i < n
    ensures -(n as int) <= NextTimes(i, n, k) < n
    ensures Offset(n, NextTimes(i, n, k)) == (Offset(n, i) + k) % n
  {
    if k == 0 {
      ModUnique(Offset(n, i), n, 0, Offset(n, i));
    } else {
      NextTimesOffset(i, n, k - 1);
      NextMovesForward(NextTimes(i, n, k - 1), n);
      SuccMod(Offset(n, i) + k - 1, n);
    }
  }

  /**
   * The wrap invariant: `n` calls of `next` on a sequence of length `n`
   * come back to the element they started from (and, from a non-negative
   * start, to the very same index).
   */
  lemma NextCycle(i: int, n: nat)
    requires -(n as int) <= i < n
    ensures -(n as int) <= NextTimes(i, n, n) < n
    ensures Offset(n, NextTimes(i, n, n)) == Offset(n, i)
    ensures 0 <= i ==> NextTimes(i, n, n) == i
  {
    NextTimesOffset(i, n, n);
    ModUnique(Offset(n, i) + n, n, 1, Offset(n, i));
    if 0 <= i {
      NextTimesNonNegative(i, n, n);
    }
  }

  lemma {:induction false} NextTimesNonNegative(i: int, n: nat, k: nat)
    requires 0 <= i < n
    ensures 0 <= NextTimes(i, n, k) < n
  {
    if k > 0 {
      NextTimesNonNegative(i, n, k - 1);
    }
  }

  // ---------------------------------------------------------------------
  // The navigator

  class ImagePath {
    var sequence: seq<Path>
    var currentIndex: int
    var undoRandomIndex: int
    var undoShuffleIndex: int
    var previousRandomStorage: seq<Path>
    var previousShuffleStorage: seq<Snapshot>
    /** `current_image_path`, read and written through the `current` property. */
    var current: Path
    /** Notifications in the order they are queued for the event loop. */
    var events: seq<Event>

    ghost predicate Valid()
      reads this
    {
      && IndexFits(sequence, currentIndex)
      && |previousShuffleStorage| <= UndoShuffleLimit + 1
      && -(UndoShuffleLimit - 1) <= undoShuffleIndex <= -1
      && (forall snap :: snap in previousShuffleStorage ==> IndexFits(snap.sequence, snap.index))
      && |previousRandomStorage| <= UndoRandomLimit + 1
      && -(UndoRandomLimit - 1) <= undoRandomIndex <= -1
    }

    constructor ()
      ensures Valid()
      ensures sequence == [] && currentIndex == 0 && current == ""
      ensures undoRandomIndex == -1 && undoShuffleIndex == -1
      ensures previousRandomStorage == [] && previousShuffleStorage == []
      ensures events == []
    {
      sequence, currentIndex, current := [], 0, "";
      undoRandomIndex, undoShuffleIndex := -1, -1;
      previousRandomStorage, previousShuffleStorage := [], [];
      events := [];
    }

    /** The `current` property setter: `imageChanged` is queued only when the value changes. */
    method SetCurrent(value: Path)
      modifies this`current, this`events
      ensures current == value
      ensures events == old(events) + Emitted(value != old(current), ImageChanged)
    {
      if value != current {
        events := events + [ImageChanged];
      }
      current := value;
    }

    /**
     * `set_sequence` with a list: `sequenceChanged` is queued only when the
     * list differs, the cursor goes to 0 and `current` to the first path of a
     * non-empty list.
     */
    method SetSequence(value: seq<Path>)
      modifies this`sequence, this`currentIndex, this`current, this`events
      ensures sequence == value && currentIndex == 0
      ensures IndexFits(sequence, currentIndex)
      ensures |value| > 0 ==> current == value[0]
      ensures |value| == 0 ==> current == old(current)
      ensures events == old(events) + Emitted(value != old(sequence), SequenceChanged)
                        + Emitted(|value| > 0 && value[0] != old(current), ImageChanged)
    {
      if value != sequence {
        events := events + [SequenceChanged];
      }
      sequence := value;
      currentIndex := 0;
      if |sequence| > 0 {
        SetCurrent(sequence[currentIndex]);
      }
    }

    /** `next`: fails (IndexError) exactly on an empty sequence, after resetting the cursor. */
    method Next() returns (ok: bool)
      requires Valid()
      modifies this`currentIndex, this`current, this`events
      ensures Valid()
      ensures currentIndex == NextIndex(old(currentIndex), |sequence|)
      ensures ok <==> |sequence| > 0
      ensures ok ==> current == sequence[Succ(Offset(|sequence|, old(currentIndex)), |sequence|)]
      ensures ok ==> current == At(sequence, currentIndex)
      ensures !ok ==> current == old(current)
      ensures events == old(events) + Emitted(ok && current != old(current), ImageChanged)
    {
      if currentIndex + 1 >= |sequence| {
        currentIndex := 0;
      } else {
        currentIndex := currentIndex + 1;
      }
      if InBounds(sequence, currentIndex) {
        NextMovesForward(old(currentIndex), |sequence|);
        SetCurrent(At(sequence, currentIndex));
        ok := true;
      } else {
        ok := false;
      }
    }

    /** `prev`: fails (IndexError) exactly on an empty sequence, after resetting the cursor. */
    method Prev() returns (ok: bool)
      requires Valid()
      modifies this`currentIndex, this`current, this`events
      ensures Valid()
      ensures currentIndex == PrevIndex(old(currentIndex), |sequence|)
      ensures ok <==> |sequence| > 0
      ensures ok ==> current == sequence[if old(currentIndex) == |sequence| - 1 then 0
                                         else Pred(Offset(|sequence|, old(currentIndex)), |sequence|)]
      ensures ok ==> current == At(sequence, currentIndex)
      ensures !ok ==> current == old(current)
      ensures events == old(events) + Emitted(ok && current != old(current), ImageChanged)
    {
      if !(Abs(currentIndex) + 1 >= |sequence|) {
        currentIndex := currentIndex - 1;
      } else {
        currentIndex := 0;
      }
      if InBounds(sequence, currentIndex) {
        PrevMovesBack(old(currentIndex), |sequence|);
        SetCurrent(At(sequence, currentIndex));
        ok := true;
      } else {
        ok := false;
      }
    }

    /**
     * `shuffle`: remembers `(sequence, current_index)`, resets the rewind
     * pointer and adopts some permutation of the sequence through the
     * `sequence` setter.
     */
    method Shuffle()
      requires Valid()
      modifies this`previousShuffleStorage, this`undoShuffleIndex, this`currentIndex,
               this`sequence, this`current, this`events
      ensures Valid()
      ensures multiset(sequence) == multiset(old(sequence)) && |sequence| == |old(sequence)|
      ensures currentIndex == 0 && undoShuffleIndex == -1
      ensures previousShuffleStorage
              == BoundedPush(old(previousShuffleStorage), Snapshot(old(sequence), old(currentIndex)), UndoShuffleLimit)
      ensures |sequence| > 0 ==> current == sequence[0]
      ensures |sequence| == 0 ==> current == old(current)
      ensures events == old(events) + Emitted(sequence != old(sequence), SequenceChanged)
                        + Emitted(|sequence| > 0 && sequence[0] != old(current), ImageChanged)
    {
      if |previousShuffleStorage| > UndoShuffleLimit {
        previousShuffleStorage := previousShuffleStorage[1..];
      }
      previousShuffleStorage := previousShuffleStorage + [Snapshot(sequence, currentIndex)];
      undoShuffleIndex := -1;
      currentIndex := 0;
      ghost var before := sequence;
      assert multiset(before) == multiset(sequence);
      var sample :| multiset(sample) == multiset(sequence);
      SetSequence(sample);
    }

    /**
     * `previous_shuffle`: restores the snapshot the rewind pointer names
     * (without removing it) through the `sequence` setter, steps the pointer
     * back and clamps it, then shows `sequence[current_index]`, which fails
     * on an empty sequence.
     */
    method PreviousShuffle() returns (ok: bool)
      requires Valid()
      modifies this`undoShuffleIndex, this`currentIndex, this`sequence, this`current, this`events
      ensures Valid()
      ensures var p := old(undoShuffleIndex);
              Abs(p) <= |previousShuffleStorage| ==>
                sequence == At(previousShuffleStorage, p).sequence
                && currentIndex == At(previousShuffleStorage, p).index
      ensures Abs(old(undoShuffleIndex)) > |previousShuffleStorage| ==>
                sequence == old(sequence) && currentIndex == old(currentIndex)
      ensures undoShuffleIndex == UndoStep(old(undoShuffleIndex), |previousShuffleStorage|, UndoShuffleLimit)
      ensures ok <==> |sequence| > 0
      ensures ok ==> current == At(sequence, currentIndex)
      ensures !ok ==> current == old(current)
      ensures var restored := Abs(old(undoShuffleIndex)) <= |previousShuffleStorage|;
              var shown := if restored && |sequence| > 0 then sequence[0] else old(current);
              events == old(events) + Emitted(restored && sequence != old(sequence), SequenceChanged)
                        + Emitted(restored && |sequence| > 0 && sequence[0] != old(current), ImageChanged)
                        + Emitted(ok && current != shown, ImageChanged)
    {
      if Abs(undoShuffleIndex) <= |previousShuffleStorage| {
        var snap := At(previousShuffleStorage, undoShuffleIndex);
        assert snap in previousShuffleStorage;
        SetSequence(snap.sequence);
        currentIndex := snap.index;
        undoShuffleIndex := undoShuffleIndex - 1;
      }
      if undoShuffleIndex < -(UndoShuffleLimit - 1) {
        undoShuffleIndex := -(UndoShuffleLimit - 1);
      }
      if InBounds(sequence, currentIndex) {
        SetCurrent(At(sequence, currentIndex));
        ok := true;
      } else {
        ok := false;
      }
    }

    /**
     * `random`: remembers `current`, then shows some path of the sequence and
     * resets the rewind pointer. On an empty sequence `random.choice` raises
     * after `current` has already been remembered.
     */
    method Random() returns (ok: bool)
      requires Valid()
      modifies this`previousRandomStorage, this`undoRandomIndex, this`current, this`events
      ensures Valid()
      ensures previousRandomStorage == BoundedPush(old(previousRandomStorage), old(current), UndoRandomLimit)
      ensures ok <==> |sequence| > 0
      ensures ok ==> current in sequence && undoRandomIndex == -1
      ensures !ok ==> current == old(current) && undoRandomIndex == old(undoRandomIndex)
      ensures events == old(events) + Emitted(ok && current != old(current), ImageChanged)
    {
      if |previousRandomStorage| > UndoRandomLimit {
        previousRandomStorage := previousRandomStorage[1..];
      }
      previousRandomStorage := previousRandomStorage + [current];
      if |sequence| == 0 {
        return false;
      }
      assert sequence[0] in sequence;
      var choice :| choice in sequence;
      SetCurrent(choice);
      undoRandomIndex := -1;
      ok := true;
    }

    /** `previous_random`: shows the remembered path the rewind pointer names, then steps it back and clamps it. */
    method PreviousRandom()
      requires Valid()
      modifies this`undoRandomIndex, this`current, this`events
      ensures Valid()
      ensures var p := old(undoRandomIndex);
              Abs(p) <= |previousRandomStorage| ==> current == At(previousRandomStorage, p)
      ensures Abs(old(undoRandomIndex)) > |previousRandomStorage| ==> current == old(current)
      ensures undoRandomIndex == UndoStep(old(undoRandomIndex), |previousRandomStorage|, UndoRandomLimit)
      ensures events == old(events) + Emitted(current != old(current), ImageChanged)
    {
      if Abs(undoRandomIndex) <= |previousRandomStorage| {
        SetCurrent(At(previousRandomStorage, undoRandomIndex));
        undoRandomIndex := undoRandomIndex - 1;
      }
      if undoRandomIndex < -(UndoRandomLimit - 1) {
        undoRandomIndex := -(UndoRandomLimit - 1);
      }
    }
  }

  /** `previous_shuffle` right after `shuffle` restores the exact pre-shuffle `(sequence, current_index)`. */
  method ShuffleThenUndo(nav: ImagePath) returns (ok: bool)
    requires nav.Valid()
    modifies nav
    ensures nav.Valid()
    ensures nav.sequence == old(nav.sequence) && nav.currentIndex == old(nav.currentIndex)
    ensures ok <==> |nav.sequence| > 0
    ensures ok ==> nav.current == At(nav.sequence, nav.currentIndex)
  {
    nav.Shuffle();
    ok := nav.PreviousShuffle();
  }

  /** `previous_random` right after a successful `random` shows the path shown before it. */
  method RandomThenUndo(nav: ImagePath) returns (ok: bool)
    requires nav.Valid()
    modifies nav
    ensures nav.Valid()
    ensures nav.sequence == old(nav.sequence) && nav.currentIndex == old(nav.currentIndex)
    ensures ok ==> nav.current == old(nav.current)
    ensures ok <==> |nav.sequence| > 0
  {
    ok := nav.Random();
    if ok {
      nav.PreviousRandom();
    }
  }
}
