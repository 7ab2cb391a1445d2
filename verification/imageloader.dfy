/**
 * The directory scan of `ImageLoaderThread` (`poseviewer/imageloader.py`).
 * The loader appends image paths to a list it shares with the navigator. It
 * keeps only paths whose lower-cased form ends with a supported extension
 * and that are not in the list yet. Before each directory entry it polls a
 * cooperative stop flag, and it raises a "first image ready" flag with the
 * first append.
 *
 * The file system is a parameter (`FileSystem`). So is the other thread
 * that may call `stop()` while the scan runs: `stopRequestedAt(k)` says
 * whether such a call lands just before the `k`-th poll of `stopped()`.
 */
module ImageLoader {

  type Path = string

  /** `SUPPORTED_FORMATS_EXTENSIONS`. */
  const Extensions: seq<string> := [".bmp", ".gif", ".jpg", ".jpeg", ".png", ".pbm", ".pgm", ".ppm", ".xbm", ".xpm"]

  /** `os.path.isdir`, `os.path.isfile`, `scandir.listdir`, `os.path.abspath` and `os.path.join`. */
  datatype FileSystem = FileSystem(
    isDir: Path -> bool,
    isFile: Path -> bool,
    listDir: Path -> seq<string>,
    absPath: Path -> Path,
    join: (Path, string) -> Path)

  /** The world outside the loader thread. */
  datatype Env = Env(fs: FileSystem, stopRequestedAt: nat -> bool)

  /** `dir_path`: a list of paths, or one path. */
  datatype Target = PathList(paths: seq<Path>) | SinglePath(path: Path)

  /**
   * The loader's observable state: the shared list, the two `Event` flags
   * and the number of polls of `stopped()` so far.
   */
  datatype LoaderState = LoaderState(sequence: seq<Path>, stopped: bool, firstImageReady: bool, polls: nat)

  // ---------------------------------------------------------------------
  // The extension filter

  function LowerChar(c: char): char {
    if 'A' <= c <= 'Z' then (c as int + 32) as char else c
  }

  /** `str.lower` on ASCII letters. */
  function Lower(s: string): (r: string)
    ensures |r| == |s|
    ensures forall i :: 0 <= i < |s| ==> r[i] == LowerChar(s[i])
  {
    if s == [] then [] else [LowerChar(s[0])] + Lower(s[1..])
  }

  predicate EndsWith(s: string, suffix: string) {
    |suffix| <= |s| && s[|s| - |suffix|..] == suffix
  }

  /** `s.endswith(suffixes)` for a tuple of suffixes. */
  predicate EndsWithAny(s: string, suffixes: seq<string>)
    ensures EndsWithAny(s, suffixes) <==> exists i :: 0 <= i < |suffixes| && EndsWith(s, suffixes[i])
  {
    if suffixes == [] then false
    else EndsWith(s, suffixes[0]) || EndsWithAny(s, suffixes[1..])
  }

  /** `path.lower().endswith(SUPPORTED_FORMATS_EXTENSIONS)`. */
  predicate Supported(p: Path) {
    EndsWithAny(Lower(p), Extensions)
  }

  /** The filter ignores case: paths that differ only in letter case are kept or dropped together. */
  lemma SupportedIgnoresCase(p: Path, q: Path)
    requires |p| == |q|
    requires forall i :: 0 <= i < |p| ==> LowerChar(p[i]) == LowerChar(q[i])
    ensures Supported(p) <==> Supported(q)
  {
    assert Lower(p) == Lower(q);
  }

  /** Lower-casing a path lower-cases each of its suffixes. */
  lemma LowerSuffix(p: string, k: nat)
    requires k <= |p|
    ensures Lower(p)[|p| - k..] == Lower(p[|p| - k..])
  {
    var a, b := Lower(p)[|p| - k..], Lower(p[|p| - k..]);
    assert |a| == |b|;
    forall i | 0 <= i < |a|
      ensures a[i] == b[i]
    {
      assert a[i] == LowerChar(p[|p| - k + i]);
    }
  }

  /** Every path ending in an upper-case `.JPG` is kept. */
  lemma SupportedUpperCase(p: Path)
    requires |p| >= 4 && p[|p| - 4..] == ".JPG"
    ensures Supported(p)
  {
    LowerSuffix(p, 4);
    LowerJpg();
    JpgListed(Lower(p));
  }

  /** `.jpg` is one of the supported extensions. */
  lemma JpgListed(s: string)
    requires EndsWith(s, ".jpg")
    ensures EndsWithAny(s, Extensions)
  {
    assert Extensions[2] == ".jpg";
    assert EndsWith(s, Extensions[2]);
  }

  lemma LowerJpg()
    ensures Lower(".JPG") == ".jpg"
  {
  }

  /** A text ending in none of the suffixes' last characters ends with none of them. */
  lemma {:induction false} LastCharExcludes(s: string, suffixes: seq<string>)
    requires |s| > 0
    requires forall i :: 0 <= i < |suffixes| ==> |suffixes[i]| > 0 && suffixes[i][|suffixes[i]| - 1] != s[|s| - 1]
    ensures !EndsWithAny(s, suffixes)
  {
    if suffixes != [] {
      LastCharExcludes(s, suffixes[1..]);
    }
  }

  /** Every path ending in `.txt` is dropped. */
  lemma UnsupportedText(p: Path)
    requires |p| >= 4 && p[|p| - 4..] == ".txt"
    ensures !Supported(p)
  {
    var low := Lower(p);
    assert p[|p| - 1] == ".txt"[3];
    assert low[|low| - 1] == 't';
    LastCharExcludes(low, Extensions);
  }

  // ---------------------------------------------------------------------
  // The state changes, as functions

  predicate NoDup<T(==)>(s: seq<T>) {
    forall i, j :: 0 <= i < j < |s| ==> s[i] != s[j]
  }

  /** `append_and_notify`. */
  function Append(st: LoaderState, p: Path): LoaderState {
    st.(sequence := st.sequence + [p], firstImageReady := true)
  }

  /** One call of `stopped()`, with any `stop()` from the other thread that lands just before it. */
  function Poll(env: Env, st: LoaderState): LoaderState {
    st.(stopped := st.stopped || env.stopRequestedAt(st.polls), polls := st.polls + 1)
  }

  /** One entry of `load_dir` once the poll passed: append the path if supported and not in the list yet. */
  function Consider(keep: Path -> bool, st: LoaderState, p: Path): LoaderState {
    if keep(p) && p !in st.sequence then Append(st, p) else st
  }

  /**
   * The loop of `load_dir` over the directory entries `names` of `dir`: poll
   * the stop flag and return if set, otherwise join the entry to `dir` and
   * consider it.
   */
  function ScanNames(env: Env, keep: Path -> bool, st: LoaderState, dir: Path, names: seq<string>): (r: LoaderState)
    ensures st.sequence <= r.sequence
    ensures st.stopped ==> r.stopped && r.sequence == st.sequence
    ensures r.firstImageReady <==> st.firstImageReady || |r.sequence| > |st.sequence|
    decreases |names|
  {
    if names == [] then
      st
    else
      var polled := Poll(env, st);
      if polled.stopped then polled
      else ScanNames(env, keep, Consider(keep, polled, env.fs.join(dir, names[0])), dir, names[1..])
  }

  /** One iteration of the scan: poll, then return or consider the first entry. */
  lemma ScanStep(env: Env, keep: Path -> bool, st: LoaderState, dir: Path, names: seq<string>)
    requires names != []
    ensures var polled := Poll(env, st);
            ScanNames(env, keep, st, dir, names)
            == if polled.stopped then polled else ScanNames(env, keep, Consider(keep, polled, env.fs.join(dir, names[0])), dir, names[1..])
  {
  }

  /** `load_dir(dir)`: the scan over the listing of the absolute directory path. */
  function LoadDirSpec(env: Env, st: LoaderState, dir: Path): LoaderState {
    var absDir := env.fs.absPath(dir);
    ScanNames(env, Supported, st, absDir, env.fs.listDir(absDir))
  }

  /** The loop of `run` over a list target. */
  function RunList(env: Env, st: LoaderState, paths: seq<Path>): (r: LoaderState)
    ensures st.sequence <= r.sequence
    ensures r.firstImageReady <==> st.firstImageReady || |r.sequence| > |st.sequence|
    ensures st.stopped ==> r.stopped
    decreases |paths|
  {
    if paths == [] then
      st
    else
      var p := paths[0];
      var next := if env.fs.isDir(p) then LoadDirSpec(env, st, p) else Append(st, env.fs.absPath(p));
      RunList(env, next, paths[1..])
  }

  /** `run`: dispatch on the kind of target. */
  function RunSpec(env: Env, st: LoaderState, target: Target): (r: LoaderState)
    ensures st.sequence <= r.sequence
    ensures r.firstImageReady <==> st.firstImageReady || |r.sequence| > |st.sequence|
    ensures target.SinglePath? && env.fs.isFile(target.path) ==> r.sequence == st.sequence + [env.fs.absPath(target.path)]
  {
    match target
    case PathList(paths) => RunList(env, st, paths)
    case SinglePath(p) =>
      if env.fs.isFile(p) then Append(st, env.fs.absPath(p)) else LoadDirSpec(env, st, p)
  }

  // ---------------------------------------------------------------------
  // What a scan appends, as a filter of the listing

  /** The absolute entries `os.path.join(dir, name)` of a listing. */
  function Joined(env: Env, dir: Path, names: seq<string>): (r: seq<Path>)
    ensures |r| == |names|
    ensures forall i :: 0 <= i < |names| ==> r[i] == env.fs.join(dir, names[i])
  {
    if names == [] then [] else [env.fs.join(dir, names[0])] + Joined(env, dir, names[1..])
  }

  /** `a` is `b` with some elements left out, the rest in their order. */
  predicate Subseq<T(==)>(a: seq<T>, b: seq<T>)
    decreases |b|
  {
    if a == [] then true
    else if b == [] then false
    else (a[0] == b[0] && Subseq(a[1..], b[1..])) || Subseq(a, b[1..])
  }

  /**
   * The supported paths of `paths` that are not in `seen`, first occurrence
   * only, in the order of `paths`.
   */
  function Fresh(keep: Path -> bool, seen: seq<Path>, paths: seq<Path>): (r: seq<Path>)
    ensures |r| <= |paths|
    decreases |paths|
  {
    if paths == [] then []
    else
      var p := paths[0];
      if keep(p) && p !in seen then [p] + Fresh(keep, seen + [p], paths[1..])
      else Fresh(keep, seen, paths[1..])
  }

  /**
   * `Fresh` keeps its input's order, keeps exactly the supported paths not
   * in `seen`, and keeps each of them once.
   */
  lemma {:induction false} FreshKeeps(keep: Path -> bool, seen: seq<Path>, paths: seq<Path>)
    ensures Subseq(Fresh(keep, seen, paths), paths)
    ensures forall x :: x in Fresh(keep, seen, paths) <==> x in paths && keep(x) && x !in seen
    ensures NoDup(Fresh(keep, seen, paths))
    decreases |paths|
  {
    if paths != [] {
      var p := paths[0];
      var r := Fresh(keep, seen, paths);
      if keep(p) && p !in seen {
        var rest := Fresh(keep, seen + [p], paths[1..]);
        FreshKeeps(keep, seen + [p], paths[1..]);
        assert r == [p] + rest && r[1..] == rest;
        assert forall x :: x in paths <==> x == p || x in paths[1..];
      } else {
        FreshKeeps(keep, seen, paths[1..]);
        assert forall x :: x in paths <==> x == p || x in paths[1..];
      }
    }
  }

  /** How many entries a scan of `n` entries processes before it sees the stop flag set. */
  function StopPoint(env: Env, stopped: bool, polls: nat, n: nat): (k: nat)
    ensures k <= n
    ensures stopped ==> k == 0
    decreases n
  {
    if n == 0 || stopped || env.stopRequestedAt(polls) then 0
    else 1 + StopPoint(env, false, polls + 1, n - 1)
  }

  /** Joining a listing entry by entry commutes with taking a prefix. */
  lemma JoinedPrefix(env: Env, dir: Path, names: seq<string>, k: nat)
    requires k < |names|
    ensures Joined(env, dir, names[..k + 1]) == [env.fs.join(dir, names[0])] + Joined(env, dir, names[1..][..k])
  {
    var lhs := Joined(env, dir, names[..k + 1]);
    var rhs := [env.fs.join(dir, names[0])] + Joined(env, dir, names[1..][..k]);
    assert |lhs| == |rhs|;
    forall i | 0 <= i < |lhs|
      ensures lhs[i] == rhs[i]
    {
      if i > 0 {
        assert names[..k + 1][i] == names[1..][..k][i - 1];
      }
    }
  }

  /** A scan is stopped exactly when it was stopped to begin with or did not reach the end of the listing. */
  lemma {:induction false} ScanStopped(env: Env, keep: Path -> bool, st: LoaderState, dir: Path, names: seq<string>)
    ensures ScanNames(env, keep, st, dir, names).stopped <==> st.stopped || StopPoint(env, st.stopped, st.polls, |names|) < |names|
    decreases |names|
  {
    if names != [] && !Poll(env, st).stopped {
      ScanStopped(env, keep, Consider(keep, Poll(env, st), env.fs.join(dir, names[0])), dir, names[1..]);
    }
  }

  /**
   * A scan appends exactly the fresh supported entries of the part of the
   * listing it reaches before the stop flag is set, in listing order.
   */
  lemma {:induction false} ScanAppendsFresh(env: Env, keep: Path -> bool, st: LoaderState, dir: Path, names: seq<string>)
    ensures var k := StopPoint(env, st.stopped, st.polls, |names|);
            ScanNames(env, keep, st, dir, names).sequence == st.sequence + Fresh(keep, st.sequence, Joined(env, dir, names[..k]))
    decreases |names|
  {
    if names == [] || Poll(env, st).stopped {
      assert names[..0] == [];
    } else {
      var polled := Poll(env, st);
      var p := env.fs.join(dir, names[0]);
      var next := Consider(keep, polled, p);
      var k := StopPoint(env, false, st.polls + 1, |names| - 1);
      assert StopPoint(env, st.stopped, st.polls, |names|) == k + 1;
      assert ScanNames(env, keep, st, dir, names) == ScanNames(env, keep, next, dir, names[1..]);
      ScanAppendsFresh(env, keep, next, dir, names[1..]);
      assert StopPoint(env, next.stopped, next.polls, |names[1..]|) == k;
      FreshStep(keep, st.sequence, p, Joined(env, dir, names[1..][..k]), next.sequence);
      JoinedPrefix(env, dir, names, k);
    }
  }

  /** Considering one path extends the list by exactly what `Fresh` keeps of it. */
  lemma FreshStep(keep: Path -> bool, seen: seq<Path>, p: Path, rest: seq<Path>, after: seq<Path>)
    requires after == if keep(p) && p !in seen then seen + [p] else seen
    ensures after + Fresh(keep, after, rest) == seen + Fresh(keep, seen, [p] + rest)
  {
    FreshCons(keep, seen, p, rest);
    if keep(p) && p !in seen {
      var tail := Fresh(keep, seen + [p], rest);
      assert Fresh(keep, seen, [p] + rest) == [p] + tail;
      assert after == seen + [p];
      assert after + tail == seen + ([p] + tail);
    } else {
      assert after == seen;
    }
  }

  /** Every path a scan appends passes the filter and was not in the list before. */
  lemma ScanAppendsOnlyKept(env: Env, keep: Path -> bool, st: LoaderState, dir: Path, names: seq<string>)
    ensures var r := ScanNames(env, keep, st, dir, names);
            forall i :: |st.sequence| <= i < |r.sequence| ==> keep(r.sequence[i]) && r.sequence[i] !in st.sequence
  {
    var r := ScanNames(env, keep, st, dir, names);
    var n := StopPoint(env, st.stopped, st.polls, |names|);
    var added := Fresh(keep, st.sequence, Joined(env, dir, names[..n]));
    ScanAppendsFresh(env, keep, st, dir, names);
    FreshKeeps(keep, st.sequence, Joined(env, dir, names[..n]));
    forall i | |st.sequence| <= i < |r.sequence|
      ensures keep(r.sequence[i]) && r.sequence[i] !in st.sequence
    {
      assert r.sequence[i] == added[i - |st.sequence|];
    }
  }

  /** A scan keeps a duplicate-free list duplicate-free. */
  lemma ScanKeepsNoDup(env: Env, keep: Path -> bool, st: LoaderState, dir: Path, names: seq<string>)
    requires NoDup(st.sequence)
    ensures NoDup(ScanNames(env, keep, st, dir, names).sequence)
  {
    var r := ScanNames(env, keep, st, dir, names);
    var n := StopPoint(env, st.stopped, st.polls, |names|);
    var added := Fresh(keep, st.sequence, Joined(env, dir, names[..n]));
    ScanAppendsFresh(env, keep, st, dir, names);
    FreshKeeps(keep, st.sequence, Joined(env, dir, names[..n]));
    forall i, j | 0 <= i < j < |r.sequence|
      ensures r.sequence[i] != r.sequence[j]
    {
      if i < |st.sequence| {
        assert r.sequence[i] == st.sequence[i];
      } else {
        assert r.sequence[i] == added[i - |st.sequence|];
      }
      if j < |st.sequence| {
        assert r.sequence[j] == st.sequence[j];
      } else {
        assert r.sequence[j] == added[j - |st.sequence|];
        assert added[j - |st.sequence|] in added;
        if i < |st.sequence| {
          assert st.sequence[i] in st.sequence;
        }
      }
    }
  }

  /** A scan that was not stopped leaves every entry of the listing that passes the filter in the list. */
  lemma ScanComplete(env: Env, keep: Path -> bool, st: LoaderState, dir: Path, names: seq<string>)
    ensures var r := ScanNames(env, keep, st, dir, names);
            !r.stopped ==> forall k :: 0 <= k < |names| && keep(env.fs.join(dir, names[k])) ==> env.fs.join(dir, names[k]) in r.sequence
  {
    var r := ScanNames(env, keep, st, dir, names);
    if !r.stopped {
      var n := StopPoint(env, st.stopped, st.polls, |names|);
      ScanStopped(env, keep, st, dir, names);
      assert names[..n] == names;
      var added := Fresh(keep, st.sequence, Joined(env, dir, names));
      ScanAppendsFresh(env, keep, st, dir, names);
      FreshKeeps(keep, st.sequence, Joined(env, dir, names));
      forall k | 0 <= k < |names| && keep(env.fs.join(dir, names[k]))
        ensures env.fs.join(dir, names[k]) in r.sequence
      {
        var q := env.fs.join(dir, names[k]);
        assert Joined(env, dir, names)[k] == q;
        if q !in st.sequence {
          assert q in added;
        }
      }
    }
  }

  /**
   * `load_dir` with the extension filter: it appends only supported paths
   * that were not in the list, keeps a duplicate-free list duplicate-free,
   * and, unless stopped, leaves every supported entry of the listing in the
   * list.
   */
  lemma LoadDirFilters(env: Env, st: LoaderState, dir: Path)
    ensures var r := LoadDirSpec(env, st, dir);
            forall i :: |st.sequence| <= i < |r.sequence| ==> Supported(r.sequence[i]) && r.sequence[i] !in st.sequence
    ensures NoDup(st.sequence) ==> NoDup(LoadDirSpec(env, st, dir).sequence)
    ensures var absDir := env.fs.absPath(dir);
            var names := env.fs.listDir(absDir);
            var r := LoadDirSpec(env, st, dir);
            !r.stopped ==> forall k :: 0 <= k < |names| && Supported(env.fs.join(absDir, names[k])) ==> env.fs.join(absDir, names[k]) in r.sequence
  {
    var absDir := env.fs.absPath(dir);
    var names := env.fs.listDir(absDir);
    ScanAppendsOnlyKept(env, Supported, st, absDir, names);
    if NoDup(st.sequence) {
      ScanKeepsNoDup(env, Supported, st, absDir, names);
    }
    ScanComplete(env, Supported, st, absDir, names);
  }

  /** `Fresh` on a listing that starts with `p`. */
  lemma FreshCons(keep: Path -> bool, seen: seq<Path>, p: Path, rest: seq<Path>)
    ensures Fresh(keep, seen, [p] + rest)
            == if keep(p) && p !in seen then [p] + Fresh(keep, seen + [p], rest) else Fresh(keep, seen, rest)
  {
    assert ([p] + rest)[0] == p && ([p] + rest)[1..] == rest;
  }

  /** With no stop request, a scan appends all the fresh supported entries, each once, in listing order. */
  lemma ScanWithoutStop(env: Env, keep: Path -> bool, st: LoaderState, dir: Path, names: seq<string>)
    requires !st.stopped
    requires forall k :: st.polls <= k < st.polls + |names| ==> !env.stopRequestedAt(k)
    ensures ScanNames(env, keep, st, dir, names).sequence == st.sequence + Fresh(keep, st.sequence, Joined(env, dir, names))
    ensures !ScanNames(env, keep, st, dir, names).stopped
  {
    StopPointReachesEnd(env, st.polls, |names|);
    ScanAppendsFresh(env, keep, st, dir, names);
    ScanStopped(env, keep, st, dir, names);
    assert names[..|names|] == names;
  }

  lemma {:induction false} StopPointReachesEnd(env: Env, polls: nat, n: nat)
    requires forall k :: polls <= k < polls + n ==> !env.stopRequestedAt(k)
    ensures StopPoint(env, false, polls, n) == n
    decreases n
  {
    if n > 0 {
      StopPointReachesEnd(env, polls + 1, n - 1);
    }
  }

  /**
   * A list target whose entries are all non-directories appends every one of
   * them as an absolute path, with no extension filter, no duplicate check
   * and no stop check.
   */
  lemma {:induction false} RunListOfFiles(env: Env, st: LoaderState, paths: seq<Path>)
    requires forall i :: 0 <= i < |paths| ==> !env.fs.isDir(paths[i])
    ensures var r := RunList(env, st, paths);
            |r.sequence| == |st.sequence| + |paths|
            && forall i :: 0 <= i < |paths| ==> r.sequence[|st.sequence| + i] == env.fs.absPath(paths[i])
    decreases |paths|
  {
    if paths != [] {
      var next := Append(st, env.fs.absPath(paths[0]));
      RunListOfFiles(env, next, paths[1..]);
    }
  }

  // ---------------------------------------------------------------------
  // The thread object

  class ImageLoaderThread {
    const env: Env
    /** `dir_path`. */
    const dirPath: Target
    /** `sequence`, the list shared with the navigator. */
    var sequence: seq<Path>
    /** `_stop_event`. */
    var stopEvent: bool
    /** `_first_image_ready`. */
    var firstImageReady: bool
    /** Polls of `stopped()` so far. */
    var polls: nat

    function State(): LoaderState
      reads this
    {
      LoaderState(sequence, stopEvent, firstImageReady, polls)
    }

    constructor (env: Env, sequence: seq<Path>, dirPath: Target)
      ensures this.env == env && this.dirPath == dirPath
      ensures State() == LoaderState(sequence, false, false, 0)
    {
      this.env := env;
      this.dirPath := dirPath;
      this.sequence := sequence;
      stopEvent, firstImageReady, polls := false, false, 0;
    }

    /** `append_and_notify`. */
    method AppendAndNotify(path: Path)
      modifies this`sequence, this`firstImageReady
      ensures State() == Append(old(State()), path)
      ensures sequence == old(sequence) + [path] && firstImageReady
    {
      sequence := sequence + [path];
      if !firstImageReady {
        firstImageReady := true;
      }
    }

    /** `stop`: sets the flag; calling it again changes nothing. */
    method Stop()
      modifies this`stopEvent
      ensures stopEvent
    {
      stopEvent := true;
    }

    /** `stopped`. */
    method Stopped() returns (b: bool)
      modifies this`stopEvent, this`polls
      ensures State() == Poll(env, old(State()))
      ensures b == stopEvent
    {
      if env.stopRequestedAt(polls) {
        Stop();
      }
      polls := polls + 1;
      b := stopEvent;
    }

    /** `load_dir`. */
    method LoadDir(dir: Path)
      modifies this`sequence, this`firstImageReady, this`stopEvent, this`polls
      ensures State() == LoadDirSpec(env, old(State()), dir)
    {
      var absDir := env.fs.absPath(dir);
      var names := env.fs.listDir(absDir);
      ghost var final := ScanNames(env, Supported, State(), absDir, names);
      var i := 0;
      while i < |names|
        invariant 0 <= i <= |names|
        invariant ScanNames(env, Supported, State(), absDir, names[i..]) == final
      {
        ScanStep(env, Supported, State(), absDir, names[i..]);
        assert names[i..][1..] == names[i + 1..];
        var stop := Stopped();
        if stop {
          return;
        }
        ghost var polled := State();
        var path := env.fs.join(absDir, names[i]);
        if Supported(path) && path !in sequence {
          AppendAndNotify(path);
        }
        assert State() == Consider(Supported, polled, path);
        i := i + 1;
      }
    }

    /** `run`. */
    method Run()
      modifies this`sequence, this`firstImageReady, this`stopEvent, this`polls
      ensures State() == RunSpec(env, old(State()), dirPath)
    {
      match dirPath
      case PathList(paths) =>
        ghost var final := RunList(env, State(), paths);
        var i := 0;
        while i < |paths|
          invariant 0 <= i <= |paths|
          invariant RunList(env, State(), paths[i..]) == final
        {
          assert paths[i..][1..] == paths[i + 1..];
          if env.fs.isDir(paths[i]) {
            LoadDir(paths[i]);
          } else {
            AppendAndNotify(env.fs.absPath(paths[i]));
          }
          i := i + 1;
        }
      case SinglePath(p) =>
        if env.fs.isFile(p) {
          AppendAndNotify(env.fs.absPath(p));
        } else {
          LoadDir(p);
        }
    }
  }
}
