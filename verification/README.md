# poseviewer: sequence and playback logic in Dafny

poseviewer is a desktop image viewer for timed figure-drawing practice. It
shows the images of a folder one after another. Each image stays on screen
for a slide duration. Shuffles and random jumps can be undone. A loader
thread fills the image list in the background.

This project models the parts of poseviewer that are not Qt widget wiring:

- `CoreWidgets.ImagePath`: the image-sequence navigator of
  `poseviewer/corewidgets.py`. It covers next/prev with Python's negative
  indices, shuffle and random jump with their bounded undo histories, the
  `current` setter and the list branch of `set_sequence`. The change
  notifications are recorded in an event log.
- `LegacyViewer`: the older navigator in the top-level `poseviewer.py`, kept
  side by side with the newer one. It also holds `get_time_from_secs` and
  `TimeElapsedThread`.
- `UndoHistory`: the bounded history and the clamped undo pointer that both
  navigator revisions share.
- `TimeFormat`: `format_secs`, `secs_from_qtime` and the `"hh:mm:ss"` text
  that `QTime.fromString` reads back.
- `Slideshow`: the incrementing-speed schedule of `SlideshowSettings`.
  Within a phase the counter advances, and at the end of the phase the slide
  duration doubles. It also covers the time-left and total-images helpers.
- `ImageLoader`: the directory scan of `ImageLoaderThread`. It has an
  extension filter, deduplication, a cooperative stop flag and a
  first-image flag.
- `Tables`: the image/time tables of `poseviewer/tables.py`, with their
  settings load and write-back.
- `PyValues`: Python's subscript semantics and an `Option` type.

Randomness is a nondeterministic choice: a shuffle yields some permutation,
and a random jump yields some element. The file system is a parameter. So is
the other thread that calls `stop()`: it is an oracle saying whether a stop
request has landed before the k-th poll. The persisted table settings are a
value, a `Store`.

### Behaviour of the code worth knowing

- **Undo history.** Each history keeps up to 11 shuffle snapshots and up to
  51 random-jump paths, because the eviction check `> LIMIT` runs before the
  append. The undo pointer is clamped at `-(LIMIT - 1)`, so only the newest
  9 shuffle snapshots and the newest 49 paths can be restored. Once the
  clamp is reached, further undos restore the same entry
  (`UndoHistory.RestoredEntry`).
- **Incrementing speed.** Each phase end sets the duration to
  `base * 2^(steps - counter + 1)`, which is twice the duration of the phase
  just finished. With base 10 s and interval 3, the first three calls return
  10 s, 10 s and 20 s.
- **Signals.** `SlideshowSettings` emits `slideshowComplete` and
  `incrementIntervalChanged` and connects to `slideshowComplete`, but only
  `Slideshow` declares these signals (poseviewer/slideshowsettings.py:86-87).
  As written, `SlideshowSettings.__init__` therefore raises `AttributeError`
  at line 22, and so would `increment_speed` wherever it emits. The model
  departs from the code here: it treats the signals as declared on
  `SlideshowSettings` and records the emissions in a log (see "Left out").
- **next and prev.** The two wrap conditions are not symmetric. From the
  last index, the newer `prev` jumps to 0 instead of stepping back. The
  older `next` steps past the end, where the lookup fails.
- **Time left.** `Slideshow.ScheduleTime` counts the current slide duration
  and then the duration each further call returns, up to completion. This
  is the convention of the code's own start values for completion and for
  the last two phases (poseviewer/slideshowsettings.py:57-64), where the
  code's result equals it (`Slideshow.TimeLeftExactForShortPhases`).

## Model

| member | source | states |
|---|---|---|
| PyValues.Offset | poseviewer/corewidgets.py:92 | a Python index `i` with `-n <= i < n` selects position `i` when `i >= 0` and `n + i` otherwise |
| UndoHistory.BoundedPush | poseviewer/corewidgets.py:103-105 | the new entry is last; the history grows by one while it holds at most LIMIT entries; beyond that exactly one entry, the oldest, is evicted, so it never exceeds LIMIT + 1; the older entries keep their order |
| UndoHistory.UndoStep | poseviewer/corewidgets.py:111-116 | the pointer stays in `[-(LIMIT-1), -1]`; it moves back by one exactly when the entry it points at exists and the clamp is not reached; otherwise it stays where it was |
| UndoHistory.PointerAfterClosedForm | poseviewer/corewidgets.py:110-116 | after k undos from a fresh push, the pointer is `-min(k+1, n+1, LIMIT-1)` |
| UndoHistory.RestoredEntry | poseviewer/corewidgets.py:110-116 | the j-th undo restores entry `-min(j+1, LIMIT-1)` exactly when that entry exists, so entries older than `LIMIT-1` are never restored |
| TimeFormat.FormatSecs | poseviewer/corewidgets.py:22-33 | `(h, m, s)` with `0 <= m, s < 60` and `h*3600 + m*60 + s == secs`; h is non-negative for non-negative input and below 24 within a day |
| TimeFormat.SecsFromQTime | poseviewer/corewidgets.py:36-37 | a valid QTime maps to a second of the day, `0 <= r < 86400` |
| TimeFormat.FormatSecsUnique | poseviewer/corewidgets.py:22-33 | any decomposition with minutes and seconds below 60 is the one format_secs returns |
| TimeFormat.SecsFromFormatSecs | poseviewer/corewidgets.py:22-37 | secs_from_qtime (msec 0) inverts format_secs for every integer |
| TimeFormat.FormatSecsFromQTime | poseviewer/corewidgets.py:22-37 | format_secs inverts secs_from_qtime for every time with minutes and seconds below 60 |
| TimeFormat.Decimal | poseviewer/corewidgets.py:31 | the decimal digits of n: non-empty, only digits, one digit exactly below 10, two exactly from 10 to 99 |
| TimeFormat.Pad2 | poseviewer/corewidgets.py:31 | the `02.0f` field: two digits for 0..99, at least two digits for other non-negative values, and a leading minus for negative ones |
| TimeFormat.FormatSecsText | poseviewer/corewidgets.py:30-31 | within a day the text is `hh:mm:ss`, eight characters with colons at positions 2 and 5; every other character is a digit |
| TimeFormat.DigitValue | poseviewer/tables.py:121 | the value of a digit character, inverse of the digit for that value |
| TimeFormat.ParseTime | poseviewer/tables.py:121 | `QTime.fromString(text, "hh:mm:ss")` succeeds only on an eight-character `hh:mm:ss` text and yields a valid time of day |
| TimeFormat.TwoDigitsOfPad2 | poseviewer/tables.py:121 | reading back two zero-padded digits gives the number written |
| TimeFormat.TextRoundTrip | poseviewer/tables.py:121 | for a second of the day, parsing the formatted text gives the fields of format_secs, and secs_from_qtime of that gives the seconds back |
| CoreWidgets.NextIndex | poseviewer/corewidgets.py:86-90 | the new cursor is below len; from an index in `-1..len-1` it lands in `[0, len)`; from a non-negative index it is the successor modulo len |
| CoreWidgets.PrevIndex | poseviewer/corewidgets.py:94-98 | the new cursor is `i - 1` or 0, and it always lies strictly inside `(-len, len)` |
| CoreWidgets.NextMovesForward | poseviewer/corewidgets.py:86-92 | from any valid Python index, next selects the following element cyclically |
| CoreWidgets.PrevMovesBack | poseviewer/corewidgets.py:94-100 | from any valid index, prev selects the preceding element cyclically, except that from the last index it jumps to the first |
| CoreWidgets.NextTimesOffset | poseviewer/corewidgets.py:86-92 | for every k, k nexts advance the selected position by k modulo len |
| CoreWidgets.NextCycle | poseviewer/corewidgets.py:86-92 | len nexts come back to the same element, and to the same index when it was non-negative |
| CoreWidgets.NextTimesNonNegative | poseviewer/corewidgets.py:86-92 | from a non-negative index, repeated next keeps the cursor in `[0, len)` |
| CoreWidgets.ImagePath.constructor | poseviewer/corewidgets.py:73-82 | empty sequence, cursor 0, empty current path, both undo pointers -1, both histories empty |
| CoreWidgets.ImagePath.SetCurrent | poseviewer/corewidgets.py:140-145 | stores the value and logs imageChanged exactly when it differs from the old one |
| CoreWidgets.ImagePath.SetSequence | poseviewer/corewidgets.py:155-170 | adopts the list with cursor 0; current becomes its first element, or stays unchanged for an empty list; sequenceChanged is logged exactly when the list differs |
| CoreWidgets.ImagePath.Next | poseviewer/corewidgets.py:86-92 | cursor moves per NextIndex; on an empty sequence the lookup fails and current stays; otherwise current is the element after the old one |
| CoreWidgets.ImagePath.Prev | poseviewer/corewidgets.py:94-100 | cursor moves per PrevIndex; fails on an empty sequence; otherwise current is the element before the old one, or the first from the last |
| CoreWidgets.ImagePath.Shuffle | poseviewer/corewidgets.py:102-108 | the sequence becomes a permutation of itself (same multiset and length); the old `(sequence, index)` is pushed with the bound; cursor 0, pointer -1, current the new first element |
| CoreWidgets.ImagePath.PreviousShuffle | poseviewer/corewidgets.py:110-118 | when the pointed snapshot exists it restores `(sequence, index)` from it without removing it, otherwise both stay; the pointer moves per UndoStep; current is the element at the restored index; the events are those of the `sequence` setter (when restoring) followed by those of the `current` setter |
| CoreWidgets.ImagePath.Random | poseviewer/corewidgets.py:120-126 | pushes the old current with the bound; current becomes some element of the unchanged sequence and the pointer resets to -1; fails on an empty sequence |
| CoreWidgets.ImagePath.PreviousRandom | poseviewer/corewidgets.py:128-134 | restores the pointed path when it exists, otherwise current stays; the pointer moves per UndoStep |
| CoreWidgets.ShuffleThenUndo | poseviewer/corewidgets.py:102-118 | an undo right after a shuffle restores the exact sequence and cursor |
| CoreWidgets.RandomThenUndo | poseviewer/corewidgets.py:120-134 | an undo right after a random jump restores the previous current path |
| LegacyViewer.NextIndex | poseviewer.py:349-353 | the new cursor is `i + 1` or 0, and from `[-len, len]` it stays in `[-len, len]` |
| LegacyViewer.PrevIndex | poseviewer.py:357-361 | the new cursor is `i - 1` or 0, and it lies in `[-len, len)` |
| LegacyViewer.NextFromValid | poseviewer.py:349-355 | from a valid index the lookup fails exactly from the last index; there the cursor becomes len, and the following next wraps to 0; elsewhere next moves to the following element |
| LegacyViewer.PrevFromRange | poseviewer.py:357-363 | the new cursor is always a valid index; from len or -len it resets to 0; elsewhere prev moves to the preceding element cyclically, including from the last index |
| LegacyViewer.NextRevisionsDiffer | poseviewer.py:349-353 | the old and new next differ exactly when the cursor is at the last index of a non-empty sequence |
| LegacyViewer.GetTimeFromSecs | poseviewer.py:29-40 | `(h, m, s)` with `m, s < 60` and `h*3600 + m*60 + s == secs` |
| LegacyViewer.GetTimeFromSecsText | poseviewer.py:37-38 | within a day the text is `hh:mm:ss` |
| LegacyViewer.ImagePath.constructor | poseviewer.py:340-347 | empty file list, cursor 0, current path ".", pointers -1, empty histories |
| LegacyViewer.ImagePath.SetCurrent | poseviewer.py:403-405 | a set followed by a get returns the value set |
| LegacyViewer.ImagePath.Next | poseviewer.py:349-355 | cursor per the old NextIndex; the lookup succeeds exactly when the new cursor is a valid Python index, and then current is that element; otherwise current stays |
| LegacyViewer.ImagePath.Prev | poseviewer.py:357-363 | cursor per the old PrevIndex; succeeds exactly on a non-empty list, setting current to the element at the new cursor |
| LegacyViewer.ImagePath.Shuffle | poseviewer.py:365-371 | the file list becomes a permutation of itself; `(all_files, index)` is pushed with the bound; cursor 0, pointer -1; current is untouched |
| LegacyViewer.ImagePath.PreviousShuffle | poseviewer.py:373-381 | restores the pointed snapshot when it exists; the pointer moves per UndoStep; current is set from the restored list when the index is valid |
| LegacyViewer.ImagePath.Random | poseviewer.py:383-389 | pushes the old current with the bound; current becomes some element of the unchanged list; fails on an empty list |
| LegacyViewer.ImagePath.PreviousRandom | poseviewer.py:391-397 | restores the pointed path when it exists; the pointer moves per UndoStep |
| LegacyViewer.ShuffleThenUndo | poseviewer.py:365-381 | an undo right after a shuffle restores the exact file list and cursor |
| LegacyViewer.RandomThenUndo | poseviewer.py:383-397 | an undo right after a random jump restores the previous current path |
| LegacyViewer.TimeElapsedThread.constructor | poseviewer.py:567-573 | all four counters start at 0 |
| LegacyViewer.TimeElapsedThread.TimeElapsed | poseviewer.py:584-589 | the fields hold the decomposition of secs_elapsed, and the text is its `hh:mm:ss` form |
| LegacyViewer.TimeElapsedThread.Tick | poseviewer.py:580-581 | one more second elapsed, and the fields hold its decomposition |
| LegacyViewer.TimeElapsedThread.SetTimeToZero | poseviewer.py:591-592 | all four counters are 0 |
| Slideshow.Reset | poseviewer/slideshowsettings.py:50-53 | speed is the base, counter 1, interval the spinner value; the schedule invariant holds |
| Slideshow.Advance | poseviewer/slideshowsettings.py:37-48 | keeps the invariant; interval 0 changes nothing; at the end of a phase the speed doubles, the counter resets to 1 and the interval drops by one; otherwise only the counter advances |
| Slideshow.Run | poseviewer/slideshowsettings.py:37-48 | any number of calls keeps the invariant |
| Slideshow.RunSignals | poseviewer/slideshowsettings.py:37-46 | up to completion the calls emit `incrementIntervalChanged` once for every phase still open, and never `slideshowComplete` |
| Slideshow.ResetSignals | poseviewer/slideshowsettings.py:37-53 | from a reset, the `N(N+1)/2` calls of a run emit `incrementIntervalChanged` N times and `slideshowComplete` never; the next call emits `slideshowComplete` |
| Slideshow.Remaining | poseviewer/slideshowsettings.py:40-46 | the number of calls left before completion; zero exactly at interval 0 |
| Slideshow.RemainingStep | poseviewer/slideshowsettings.py:40-46 | each call before completion brings completion one call nearer |
| Slideshow.CompletesExactlyAfter | poseviewer/slideshowsettings.py:37-48 | the interval reaches 0 exactly after Remaining calls, and never earlier |
| Slideshow.ResetRunLength | poseviewer/slideshowsettings.py:37-53 | from a reset, completion takes exactly `N(N+1)/2` calls, and the final duration is `base * 2^N` |
| Slideshow.ImagesListSum | poseviewer/slideshowsettings.py:71 | the comprehension `[i if i > 0 else 1 ...]` sums to `1 + (k-1)k/2` |
| Slideshow.TotalImages | poseviewer/slideshowsettings.py:70-71 | calculate_total_images is `1 + N(N+1)/2` |
| Slideshow.TotalImagesIsRunLength | poseviewer/slideshowsettings.py:70-71 | the total images equal one plus the calls from a reset to completion |
| Slideshow.PhaseSum | poseviewer/slideshowsettings.py:66-67 | the loop's sum is positive once there is a phase |
| Slideshow.ScheduleTime | poseviewer/slideshowsettings.py:37-48 | the durations still to come are at least the current one |
| Slideshow.PhaseSumDoubles | poseviewer/slideshowsettings.py:66-67 | the loop adds twice the durations of the remaining phases |
| Slideshow.CorrectedStep | poseviewer/slideshowsettings.py:55-68 | the corrected time left drops by exactly the current duration at every call |
| Slideshow.CorrectedTimeLeftMatchesSchedule | poseviewer/slideshowsettings.py:55-68 | the corrected closed form equals the durations the schedule actually produces, in every state |
| Slideshow.TimeLeftExactForShortPhases | poseviewer/slideshowsettings.py:55-68 | at the start of a phase with at most two phases left, the code's time left is exact |
| Slideshow.TimeLeftCountsPhasesTwice | poseviewer/slideshowsettings.py:55-68 | with base 1 and 3 phases, right after a reset the loop adds 22, twice the 11 seconds the three phases' images take, and the schedule's time left is 19 |
| Slideshow.SlideshowSettings.constructor | poseviewer/slideshowsettings.py:26-28 | the schedule starts reset with no signals |
| Slideshow.SlideshowSettings.IncrementSpeed | poseviewer/slideshowsettings.py:37-48 | the fields move per Advance, the signal is appended, and the returned duration is the new speed |
| Slideshow.SlideshowSettings.ResetSettings | poseviewer/slideshowsettings.py:50-53 | the fields are the reset schedule |
| Slideshow.SlideshowSettings.CalculateSlideshowTimeLeft | poseviewer/slideshowsettings.py:55-68 | returns the branch start plus the phase sum, never negative, and `base * 2^N` once complete |
| Slideshow.RunFromReset | poseviewer/slideshowsettings.py:37-53 | a reset followed by k calls leaves the schedule at its k-th state, having emitted the signals of those k calls in order |
| ImageLoader.Lower | poseviewer/imageloader.py:38 | same length, each character lower-cased |
| ImageLoader.EndsWithAny | poseviewer/imageloader.py:38 | `str.endswith(tuple)`: true exactly when some suffix ends the text |
| ImageLoader.SupportedIgnoresCase | poseviewer/imageloader.py:38 | two paths that agree after lower-casing are both kept or both dropped |
| ImageLoader.SupportedUpperCase | poseviewer/imageloader.py:38 | every path ending in an upper-case `.JPG` is kept |
| ImageLoader.UnsupportedText | poseviewer/imageloader.py:6 | every path ending in `.txt` is dropped, since no supported extension ends in `t` |
| ImageLoader.ScanNames | poseviewer/imageloader.py:31-39 | the old list is a prefix of the new one; once stopped nothing is appended; the first-image flag is set exactly when it was or something was appended |
| ImageLoader.RunList | poseviewer/imageloader.py:20-25 | append-only; the first-image flag follows the appends; a stop stays |
| ImageLoader.RunSpec | poseviewer/imageloader.py:19-29 | append-only; a single file is appended by its absolute path |
| ImageLoader.Joined | poseviewer/imageloader.py:37 | each listing name joined to the directory, in listing order |
| ImageLoader.FreshKeeps | poseviewer/imageloader.py:38 | the fresh paths keep the listing's relative order, are exactly the kept unseen ones, and hold no duplicates |
| ImageLoader.StopPoint | poseviewer/imageloader.py:33-35 | the number of entries scanned before the first stop, 0 when already stopped |
| ImageLoader.ScanStopped | poseviewer/imageloader.py:33-35 | the scan ends stopped exactly when it was stopped or a stop landed before the listing ran out |
| ImageLoader.ScanAppendsFresh | poseviewer/imageloader.py:31-39 | the scan appends exactly the fresh kept paths of the entries before the stop, in listing order |
| ImageLoader.FreshStep | poseviewer/imageloader.py:38 | considering one path, then the rest, appends the same as considering them together |
| ImageLoader.ScanAppendsOnlyKept | poseviewer/imageloader.py:38 | every appended path passes the filter and was not in the list before |
| ImageLoader.ScanKeepsNoDup | poseviewer/imageloader.py:38 | a duplicate-free list stays duplicate-free |
| ImageLoader.ScanComplete | poseviewer/imageloader.py:33-39 | a scan that was not stopped leaves every kept listing entry in the list |
| ImageLoader.LoadDirFilters | poseviewer/imageloader.py:31-39 | load_dir appends only supported paths not already listed, keeps the list duplicate-free, and, unless stopped, contains every supported entry afterwards |
| ImageLoader.ScanWithoutStop | poseviewer/imageloader.py:33-39 | with no stop request during the scan, it appends the fresh kept paths of the whole listing and ends unstopped |
| ImageLoader.StopPointReachesEnd | poseviewer/imageloader.py:33-35 | with no stop request, the whole listing is scanned |
| ImageLoader.RunListOfFiles | poseviewer/imageloader.py:20-25 | a list without directories is appended as absolute paths, one per entry, in order, without filter or deduplication |
| ImageLoader.ImageLoaderThread.constructor | poseviewer/imageloader.py:10-17 | holds the shared list with both flags clear |
| ImageLoader.ImageLoaderThread.AppendAndNotify | poseviewer/imageloader.py:41-44 | the path is appended at the end and the first-image flag is set; the stop flag and the poll count stay |
| ImageLoader.ImageLoaderThread.Stop | poseviewer/imageloader.py:46-47 | the stop flag is set, however often it is called |
| ImageLoader.ImageLoaderThread.Stopped | poseviewer/imageloader.py:49-50 | returns the stop flag after one poll |
| ImageLoader.ImageLoaderThread.LoadDir | poseviewer/imageloader.py:31-39 | the loop reaches the state of LoadDirSpec |
| ImageLoader.ImageLoaderThread.Run | poseviewer/imageloader.py:19-29 | the state reaches RunSpec for the target |
| Tables.DefaultTimeTexts | poseviewer/tables.py:101 | the default texts "00:01:00" and "00:00:30" read back as 60 and 30 seconds |
| Tables.InsertAt | poseviewer/tables.py:59 | within `0..rowCount` the new row sits at the position, rows before it stay and rows after it shift by one; elsewhere nothing changes |
| Tables.RemoveAt | poseviewer/tables.py:63-65 | an existing row is removed and the others close up in order; elsewhere nothing changes |
| Tables.RemoveUndoesInsert | poseviewer/tables.py:57-65 | removing the row just inserted gives the table back |
| Tables.RowValuesAfterInsert | poseviewer/tables.py:101-122 | get_row_values reads back the image and time insert_row wrote, and its missing-cell branch gives `(0, 0)` for a row whose image cell was never set |
| Tables.TotalTimeAppend | poseviewer/tables.py:107-113 | the total is additive over a split of the table |
| Tables.TotalTimeInsert | poseviewer/tables.py:101-113 | inserting a row adds its images times seconds to the total |
| Tables.TotalTimeInsertEmpty | poseviewer/tables.py:57-60 | inserting an empty row leaves the total unchanged |
| Tables.TotalTimeRemove | poseviewer/tables.py:62-65 | removing a row subtracts its images times seconds from the total |
| Tables.RowValuesAfterLoad | poseviewer/tables.py:118-137 | after load_settings, get_row_values of a row gives its stored entry, or 5 images of 60 seconds when the entry is missing |
| Tables.LoadedRows | poseviewer/tables.py:127-137 | the row count is the stored `rows`, or the current count; a negative count changes nothing; otherwise every row is complete, from its entry or the default |
| Tables.Encode | poseviewer/tables.py:143-153 | exactly the keys `0..rowCount-1` |
| Tables.LoadAfterWrite | poseviewer/tables.py:127-153 | loading what write_settings stored gives back the table it was written from |
| Tables.Table.InsertRow | poseviewer/tables.py:57-60 | returns the chosen position: a truthy row as given, otherwise the row after the current one; Qt inserts an empty row there when it is within range; with no row given the table grows by one |
| Tables.Table.RemoveRow | poseviewer/tables.py:62-65 | removes the given row, or the current one for None or 0, when it exists |
| Tables.Table.SetImages | poseviewer/tables.py:104 | setData changes only the image cell of an existing row, and nothing outside the table |
| Tables.Table.SetSeconds | poseviewer/tables.py:105 | setData changes only the time cell of an existing row, and nothing outside the table |
| Tables.Table.InsertRandomTimeRow | poseviewer/tables.py:79-81 | inserts after the current row a row whose time cell is 30 seconds and whose image cell is missing |
| Tables.Table.InsertImagesTimeRow | poseviewer/tables.py:101-105 | inserts the given or default (5 images, 60 seconds) row at the chosen position, and no other row changes |
| Tables.Table.CalculateTotalTime | poseviewer/tables.py:107-113 | the sum over the rows of images times seconds |
| Tables.Table.SetRowCount | poseviewer/tables.py:132 | a negative count is ignored; shrinking keeps the first n rows; growing keeps every row and pads with empty rows |
| Tables.Table.LoadSettings | poseviewer/tables.py:127-137 | the rows become LoadedRows of the store |
| Tables.Table.WriteSettings | poseviewer/tables.py:139-153 | a missing cell aborts with the store unchanged; otherwise the store holds `rows` and every row, and no numeric key at or above rowCount; an empty table over an empty group fails on `max` after writing |
| Tables.MaxKey | poseviewer/tables.py:150 | the largest key of a non-empty key set |
| Tables.WriteThenLoad | poseviewer/tables.py:127-153 | writing then loading restores the table, whatever it held in between |

## Left out

- Qt widgets and wiring: the main windows, `ActionOptions`, `ImageCanvas`, the list viewer, the notification popup, the dialogs' labels and the generated UI module. They only render.
- Zoom, rotate and the transition spinner: floating-point view transforms.
- Threading: starting the loader thread, `load_dir_threaded`'s `Event.wait`, `stop_thread`'s stop and join, and the loader appending to the list while the navigator reads it. Snapshots and lists are values here, so aliasing between a shuffle snapshot and the loader's list is not captured.
- The real file system (`scandir.listdir`, `os.path.isdir/isfile/abspath/join`): a `FileSystem` parameter with arbitrary functions.
- The older `load_dir` of `poseviewer.py:407-410`: a file-system listing with no logic beyond it.
- `set_sequence` with a string: the directory branch starts a loader, and the non-directory branch stores the builtin `str` type instead of the path (`[str]`). Only the list branch is modelled.
- `stop_thread` inside `set_sequence` (poseviewer/corewidgets.py:159): when the loader is still alive it calls `stop()` on it and then joins it, so every shuffle and every restored snapshot cancels a directory scan still in progress at the scan's next `stopped()` poll. This cross-thread effect is not modelled, because threading is left out. Within `ImageLoader` such a stop is what the `stopRequestedAt` oracle stands for.
- The `Slideshow` class: `QTimer` timing, attributes it never defines, and a `format_change_message` that returns nothing.
- `Settings`/`QSettings` persistence and `StarActions`: the table settings are a `Store` value instead.
- Randomness: `random.sample` and `random.choice` are nondeterministic choices, not uniform distributions.
- Signal delivery through `QTimer.singleShot`: emissions are logged in order and delivery is not modelled. That includes the queued `slideshowComplete` to `reset_settings` connection.
- The `msec / 1000` term of `secs_from_qtime`: msec is 0 here, and the result is an integer.
- CoreWidgets.ImagePath.Next: the imageChanged event carries no payload, because the queued lambda reads `current` when it is delivered, not when it is emitted.
- ImageLoader.Lower: lower-cases ASCII letters only, not the full Unicode case mapping of `str.lower`.
- Slideshow.SlideshowSettings.constructor: as written, `__init__` raises `AttributeError` at poseviewer/slideshowsettings.py:22, because `slideshowComplete` is declared only on `Slideshow`. The model's constructor succeeds, as if the signal were declared on `SlideshowSettings`.
- Slideshow.SlideshowSettings.IncrementSpeed: as written, the emits at poseviewer/slideshowsettings.py:39 and :44 raise `AttributeError` for the same reason; the one at :44 comes after the phase-end update. The model logs the signals instead.
- The main window's use of `increment_speed` (poseviewer/poseviewer.py:114-124, 155-165) is not part of this model. There the first call's duration is replaced by the plain slide speed, and each later call times the image shown with it, so the seconds on screen differ from `Slideshow.ScheduleTime`.
- Slideshow.SlideshowSettings.IncrementSpeed: the spinners are fixed for a run. A spinner changed mid-run, and the fractional speed a counter above `steps + 1` would give, are not modelled.
- Tables.Table.LoadSettings: a stored time text is its seconds value. Invalid time texts, where `QTime` gives -1 fields, and non-numeric keys are not modelled.
- Tables.Table.InsertRow: Qt's `currentRow` is a parameter. How Qt moves the current row after an insert or a remove is not modelled, nor is `RandomTimeTable.__init__`.
- Tables.Table.WriteSettings: the `print` of the row count is left out.
- LegacyViewer.TimeElapsedThread.Tick: the endless `run` loop with its one-second sleep and `secElapsed` emission is not modelled, only one iteration of its body.

## Findings

| source | as written | input that shows it | evidently intended | confidence | as-written member | corrected member |
|---|---|---|---|---|---|---|
| poseviewer/slideshowsettings.py:66-67 | phase i has i images, each shown for `base * 2^(N - i)`, but the loop adds `i * base * 2^(N - i + 1)` for it, twice its images' time | base speed 1, increment interval 3, right after reset_settings: the loop adds 3·2 + 2·4 + 1·8 = 22, while the three phases' images take 3·1 + 2·2 + 1·4 = 11 seconds, and the schedule's time left is 19 (those 11 plus the completion image at 8) | the time left in closed form (`Slideshow.CorrectedTimeLeft`, which replaces the start values as well as the loop): the `interval - counter + 1` images left in the current phase at the current speed, plus `i * base * 2^(N - i)` for each later phase `i < interval`, plus the completion image at `base * 2^N`. It equals the schedule's durations in every state (19 in the example), and it agrees with the code where the code is already exact (`Slideshow.TimeLeftExactForShortPhases`) | not executed | Slideshow.TimeLeftCountsPhasesTwice | Slideshow.CorrectedTimeLeftMatchesSchedule |
