/**
 * The older single-file revision `poseviewer.py`: its `ImagePath` (a plain
 * object over `all_files` with no notifications), `get_time_from_secs` and
 * the elapsed-time fields of `TimeElapsedThread`. Its navigation boundaries
 * differ from the newer navigator in `CoreWidgets`: `next` fails when it
 * steps from the last element, and `prev` may visit the first element twice.
 */
module LegacyViewer {
  import opened PyValues
  import opened UndoHistory
  import opened TimeFormat
  import CoreWidgets

  type Path = string

  const UndoShuffleLimit: nat := 10
  const UndoRandomLimit: nat := 50

  /** `(all_files, current_index)` as `shuffle` stores it. */
  datatype Snapshot = Snapshot(allFiles: seq<Path>, index: int)

  /** The index the old `next` moves to: `0` when `i + 1 > n`, else `i + 1`. */
  function NextIndex(i: int, n: nat): (r: int)
    ensures r == 0 || r == i + 1
    ensures -(n as int) <= i <= n ==> -(n as int) <= r <= n
  {
    if i + 1 > n then 0 else i + 1
  }

  /** The index the old `prev` moves to: `i - 1` when `abs(i) + 1 <= n`, else `0`. */
  function PrevIndex(i: int, n: nat): (r: int)
    ensures r == 0 || r == i - 1
    ensures n > 0 ==> -(n as int) <= r < n
  {
    if !(Abs(i) + 1 > n) then i - 1 else 0
  }

  /**
   * From a valid index the old `next` moves to the cyclically following
   * element, except from the last element reached by a non-negative index:
   * there it moves to index `n`, which is out of range, and a further
   * `next` goes back to `0`.
   */
  lemma NextFromValid(i: int, n: nat)
    requires -(n as int) <= i < n
    ensures i == n - 1 <==> !InBounds(seq(n, _ => ""), NextIndex(i, n))
    ensures i == n - 1 ==> NextIndex(i, n) == n && NextIndex(n, n) == 0
    ensures i != n - 1 ==> Offset(n, NextIndex(i, n)) == CoreWidgets.Succ(Offset(n, i), n)
  {
  }

  /**
   * The old `prev` never fails on a non-empty list and moves to the
   * cyclically preceding element, except from index `-n` (the first element
   * reached by walking back) and from the out-of-range `n`: both go to `0`,
   * so walking back from `0` shows the first element twice.
   */
  lemma PrevFromRange(i: int, n: nat)
    requires n > 0 && -(n as int) <= i <= n
    ensures InBounds(seq(n, _ => ""), PrevIndex(i, n))
    ensures i == n || i == -(n as int) ==> PrevIndex(i, n) == 0
    ensures -(n as int) < i < n ==> Offset(n, PrevIndex(i, n)) == CoreWidgets.Pred(Offset(n, i), n)
  {
  }

  /** The newer and the older `next` differ exactly from index `n - 1` of a non-empty list. */
  lemma NextRevisionsDiffer(i: int, n: nat)
    ensures NextIndex(i, n) != CoreWidgets.NextIndex(i, n) <==> n > 0 && i + 1 == n
  {
  }

  /** `get_time_from_secs(secs, pretty=False)`, the same `divmod` steps as `format_secs`. */
  function GetTimeFromSecs(secs: int): (t: Hms)
    ensures 0 <= t.minutes < 60 && 0 <= t.seconds < 60
    ensures t.hours * 3600 + t.minutes * 60 + t.seconds == secs
    ensures secs >= 0 ==> t.hours >= 0
  {
    FormatSecs(secs)
  }

  /** `get_time_from_secs(secs)` with `pretty=True`. */
  function GetTimeFromSecsText(secs: int): (text: string)
    ensures 0 <= secs < 86400 ==> |text| == 8 && text[2] == ':' && text[5] == ':'
  {
    FormatSecsText(secs)
  }

  class ImagePath {
    var allFiles: seq<Path>
    var currentIndex: int
    var undoRandomIndex: int
    var undoShuffleIndex: int
    var previousRandomStorage: seq<Path>
    var previousShuffleStorage: seq<Snapshot>
    /** `current_image_path`, the plain value behind the `current` property. */
    var currentImagePath: Path

    /**
     * Only the histories are constrained: `all_files` is a public attribute
     * the window replaces without touching the cursor, so the cursor may be
     * any integer.
     */
    ghost predicate Valid()
      reads this
    {
      && |previousShuffleStorage| <= UndoShuffleLimit + 1
      && -(UndoShuffleLimit - 1) <= undoShuffleIndex <= -1
      && |previousRandomStorage| <= UndoRandomLimit + 1
      && -(UndoRandomLimit - 1) <= undoRandomIndex <= -1
    }

    constructor ()
      ensures Valid()
      ensures allFiles == [] && currentIndex == 0 && currentImagePath == "."
      ensures undoRandomIndex == -1 && undoShuffleIndex == -1
      ensures previousRandomStorage == [] && previousShuffleStorage == []
    {
      allFiles, currentIndex, currentImagePath := [], 0, ".";
      undoRandomIndex, undoShuffleIndex := -1, -1;
      previousRandomStorage, previousShuffleStorage := [], [];
    }

    /** The `current` property getter. */
    function Current(): Path
      reads this
    {
      currentImagePath
    }

    /** The `current` property setter: a plain store, read back unchanged by the getter. */
    method SetCurrent(value: Path)
      modifies this`currentImagePath
      ensures Current() == value
    {
      currentImagePath := value;
    }

    /** `next`: the lookup `all_files[current_index]` fails whenever the new index is out of range. */
    method Next() returns (ok: bool)
      modifies this`currentIndex, this`currentImagePath
      ensures currentIndex == NextIndex(old(currentIndex), |allFiles|)
      ensures ok <==> InBounds(allFiles, currentIndex)
      ensures ok ==> Current() == At(allFiles, currentIndex)
      ensures !ok ==> Current() == old(Current())
    {
      if currentIndex + 1 > |allFiles| {
        currentIndex := 0;
      } else {
        currentIndex := currentIndex + 1;
      }
      if InBounds(allFiles, currentIndex) {
        SetCurrent(At(allFiles, currentIndex));
        ok := true;
      } else {
        ok := false;
      }
    }

    /** `prev`: fails only on an empty list. */
    method Prev() returns (ok: bool)
      modifies this`currentIndex, this`currentImagePath
      ensures currentIndex == PrevIndex(old(currentIndex), |allFiles|)
      ensures ok <==> |allFiles| > 0
      ensures ok ==> Current() == At(allFiles, currentIndex)
      ensures !ok ==> Current() == old(Current())
    {
      if !(Abs(currentIndex) + 1 > |allFiles|) {
        currentIndex := currentIndex - 1;
      } else {
        currentIndex := 0;
      }
      if InBounds(allFiles, currentIndex) {
        SetCurrent(At(allFiles, currentIndex));
        ok := true;
      } else {
        ok := false;
      }
    }

    /**
     * `shuffle`: remembers `(all_files, current_index)`, resets the rewind
     * pointer and the cursor and permutes `all_files`; `current` is left alone.
     */
    method Shuffle()
      requires Valid()
      modifies this`previousShuffleStorage, this`undoShuffleIndex, this`currentIndex, this`allFiles
      ensures Valid()
      ensures multiset(allFiles) == multiset(old(allFiles)) && |allFiles| == |old(allFiles)|
      ensures currentIndex == 0 && undoShuffleIndex == -1
      ensures previousShuffleStorage
              == BoundedPush(old(previousShuffleStorage), Snapshot(old(allFiles), old(currentIndex)), UndoShuffleLimit)
    {
      if |previousShuffleStorage| > UndoShuffleLimit {
        previousShuffleStorage := previousShuffleStorage[1..];
      }
      previousShuffleStorage := previousShuffleStorage + [Snapshot(allFiles, currentIndex)];
      undoShuffleIndex := -1;
      currentIndex := 0;
      ghost var before := allFiles;
      assert multiset(before) == multiset(allFiles);
      var sample :| multiset(sample) == multiset(allFiles);
      allFiles := sample;
    }

    /**
     * `previous_shuffle`: restores the snapshot the rewind pointer names,
     * steps the pointer back and clamps it, then shows
     * `all_files[current_index]`, which fails when the index is out of range.
     */
    method PreviousShuffle() returns (ok: bool)
      requires Valid()
      modifies this`undoShuffleIndex, this`currentIndex, this`allFiles, this`currentImagePath
      ensures Valid()
      ensures var p := old(undoShuffleIndex);
              Abs(p) <= |previousShuffleStorage| ==>
                allFiles == At(previousShuffleStorage, p).allFiles
                && currentIndex == At(previousShuffleStorage, p).index
      ensures Abs(old(undoShuffleIndex)) > |previousShuffleStorage| ==>
                allFiles == old(allFiles) && currentIndex == old(currentIndex)
      ensures undoShuffleIndex == UndoStep(old(undoShuffleIndex), |previousShuffleStorage|, UndoShuffleLimit)
      ensures ok <==> InBounds(allFiles, currentIndex)
      ensures ok ==> Current() == At(allFiles, currentIndex)
      ensures !ok ==> Current() == old(Current())
    {
      if Abs(undoShuffleIndex) <= |previousShuffleStorage| {
        var snap := At(previousShuffleStorage, undoShuffleIndex);
        allFiles, currentIndex := snap.allFiles, snap.index;
        undoShuffleIndex := undoShuffleIndex - 1;
      }
      if undoShuffleIndex < -(UndoShuffleLimit - 1) {
        undoShuffleIndex := -(UndoShuffleLimit - 1);
      }
      if InBounds(allFiles, currentIndex) {
        SetCurrent(At(allFiles, currentIndex));
        ok := true;
      } else {
        ok := false;
      }
    }

    /**
     * `random`: remembers `current`, then shows some path of `all_files` and
     * resets the rewind pointer; `random.choice` raises on an empty list
     * after `current` has been remembered.
     */
    method Random() returns (ok: bool)
      requires Valid()
      modifies this`previousRandomStorage, this`undoRandomIndex, this`currentImagePath
      ensures Valid()
      ensures previousRandomStorage == BoundedPush(old(previousRandomStorage), old(Current()), UndoRandomLimit)
      ensures ok <==> |allFiles| > 0
      ensures ok ==> Current() in allFiles && undoRandomIndex == -1
      ensures !ok ==> Current() == old(Current()) && undoRandomIndex == old(undoRandomIndex)
    {
      if |previousRandomStorage| > UndoRandomLimit {
        previousRandomStorage := previousRandomStorage[1..];
      }
      previousRandomStorage := previousRandomStorage + [Current()];
      if |allFiles| == 0 {
        return false;
      }
      assert allFiles[0] in allFiles;
      var choice :| choice in allFiles;
      SetCurrent(choice);
      undoRandomIndex := -1;
      ok := true;
    }

    /** `previous_random`: shows the remembered path the rewind pointer names, then steps it back and clamps it. */
    method PreviousRandom()
      requires Valid()
      modifies this`undoRandomIndex, this`currentImagePath
      ensures Valid()
      ensures var p := old(undoRandomIndex);
              Abs(p) <= |previousRandomStorage| ==> Current() == At(previousRandomStorage, p)
      ensures Abs(old(undoRandomIndex)) > |previousRandomStorage| ==> Current() == old(Current())
      ensures undoRandomIndex == UndoStep(old(undoRandomIndex), |previousRandomStorage|, UndoRandomLimit)
    {
      if Abs(undoRandomIndex) <= |previousRandomStorage| {
        SetCurrent(At(previousRandomStorage, undoRandomIndex));
        undoRandomIndex := undoRandomIndex - 1;
      }
      if undoRandomIndex < -(UndoRandomLimit - 1) {
        undoRandomIndex := -(UndoRandomLimit - 1);
      }
    }
  }

  /** `previous_shuffle` right after `shuffle` restores the exact pre-shuffle `(all_files, current_index)`. */
  method ShuffleThenUndo(nav: ImagePath) returns (ok: bool)
    requires nav.Valid()
    modifies nav
    ensures nav.Valid()
    ensures nav.allFiles == old(nav.allFiles) && nav.currentIndex == old(nav.currentIndex)
    ensures ok <==> InBounds(nav.allFiles, nav.currentIndex)
    ensures ok ==> nav.Current() == At(nav.allFiles, nav.currentIndex)
  {
    nav.Shuffle();
    ok := nav.PreviousShuffle();
  }

  /** `previous_random` right after a successful `random` shows the path shown before it. */
  method RandomThenUndo(nav: ImagePath) returns (ok: bool)
    requires nav.Valid()
    modifies nav
    ensures nav.Valid()
    ensures ok ==> nav.Current() == old(nav.Current())
    ensures ok <==> |nav.allFiles| > 0
  {
    ok := nav.Random();
    if ok {
      nav.PreviousRandom();
    }
  }

  /** The elapsed-time fields of `TimeElapsedThread`. */
  class TimeElapsedThread {
    var secsElapsed: nat
    var secs: int
    var mins: int
    var hours: int

    constructor ()
      ensures secsElapsed == 0 && secs == 0 && mins == 0 && hours == 0
    {
      secsElapsed, secs, mins, hours := 0, 0, 0, 0;
    }

    /** `time_elapsed`: stores the decomposition of `secs_elapsed` and returns its text. */
    method TimeElapsed() returns (text: string)
      modifies this`secs, this`mins, this`hours
      ensures 0 <= mins < 60 && 0 <= secs < 60 && hours >= 0
      ensures hours * 3600 + mins * 60 + secs == secsElapsed
      ensures text == GetTimeFromSecsText(secsElapsed)
    {
      var t := GetTimeFromSecs(secsElapsed);
      hours, mins, secs := t.hours, t.minutes, t.seconds;
      text := GetTimeFromSecsText(secsElapsed);
    }

    /** One pass of the `run` loop after its one-second sleep. */
    method Tick()
      modifies this
      ensures secsElapsed == old(secsElapsed) + 1
      ensures hours * 3600 + mins * 60 + secs == secsElapsed
      ensures 0 <= mins < 60 && 0 <= secs < 60
    {
      secsElapsed := secsElapsed + 1;
      var _ := TimeElapsed();
    }

    /** `set_time_to_zero`. */
    method SetTimeToZero()
      modifies this
      ensures secsElapsed == 0 && secs == 0 && mins == 0 && hours == 0
    {
      secsElapsed, secs, mins, hours := 0, 0, 0, 0;
    }
  }
}
