/**
 * The time tables of `poseviewer/tables.py`, with the table widget abstracted
 * to its rows. A row has an image-count cell and a time cell, and either
 * cell may be missing (a `QTableWidgetItem` that was never set). The time
 * cell holds the number of seconds its `"hh:mm:ss"` text denotes (see
 * `TimeFormat.TextRoundTrip`).
 *
 * The persisted `settings_ui/images_time_table` group is a `Store`: the
 * `rows` key and one `(image, time)` entry per numeric key.
 */
module Tables {
  import opened PyValues
  import opened TimeFormat

  /** One table row: the image-count cell and the time cell, in seconds. */
  datatype Row = Row(images: Option<int>, seconds: Option<int>)

  /** A freshly inserted row: no items yet. */
  const EmptyRow := Row(None, None)

  /** `ImagesTimeTable.insert_row`'s defaults `image=5, time="00:01:00"`, also `load_settings`'s fallback. */
  const DefaultImages: int := 5
  const DefaultSeconds: int := 60
  /** The time `RandomTimeTable.insert_row` writes, `"00:00:30"`. */
  const RandomRowSeconds: int := 30

  /** The default time texts denote the seconds the model stores for them. */
  lemma DefaultTimeTexts()
    ensures ParseTime("00:01:00") == Some(QTime(0, 1, 0)) && SecsFromQTime(QTime(0, 1, 0)) == DefaultSeconds
    ensures ParseTime("00:00:30") == Some(QTime(0, 0, 30)) && SecsFromQTime(QTime(0, 0, 30)) == RandomRowSeconds
  {
    assert TwoDigits('0', '0') == 0 && TwoDigits('0', '1') == 1 && TwoDigits('3', '0') == 30;
  }

  /** A persisted entry `(image, time)`. */
  datatype Entry = Entry(images: int, seconds: int)

  /** The settings group: the `rows` value, if any, and the numbered entries. */
  datatype Store = Store(rowsValue: Option<int>, entries: map<nat, Entry>)

  /** What `write_settings` ran into. */
  datatype WriteOutcome =
    | Written
      /** `self.item(row, _)` was `None`: `AttributeError` before anything was written. */
    | MissingCell
      /** `max([])` on a group with no numeric key: `ValueError` after the values were written. */
    | NoRowKeys

  // ---------------------------------------------------------------------
  // Row positions

  /** `row if row else self.currentRow() + 1`: `None` and `0` both mean "after the current row". */
  function InsertPosition(row: Option<int>, currentRow: int): int {
    if row.Some? && row.value != 0 then row.value else currentRow + 1
  }

  /** `QTableWidget.insertRow(p)`: a new empty row at `p` when `0 <= p <= rowCount`, otherwise nothing. */
  function InsertAt(rows: seq<Row>, p: int, r: Row): (result: seq<Row>)
    ensures 0 <= p <= |rows| ==> |result| == |rows| + 1 && result[p] == r
    ensures 0 <= p <= |rows| ==> forall i :: 0 <= i < p ==> result[i] == rows[i]
    ensures 0 <= p <= |rows| ==> forall i :: p < i < |result| ==> result[i] == rows[i - 1]
    ensures !(0 <= p <= |rows|) ==> result == rows
  {
    if 0 <= p <= |rows| then rows[..p] + [r] + rows[p..] else rows
  }

  /** `QTableWidget.removeRow(p)`: removes row `p` when it exists, otherwise nothing. */
  function RemoveAt(rows: seq<Row>, p: int): (result: seq<Row>)
    ensures 0 <= p < |rows| ==> |result| == |rows| - 1
    ensures 0 <= p < |rows| ==> forall i :: 0 <= i < |result| ==> result[i] == rows[if i < p then i else i + 1]
    ensures !(0 <= p < |rows|) ==> result == rows
  {
    if 0 <= p < |rows| then rows[..p] + rows[p + 1..] else rows
  }

  /** Removing the row just inserted gives the table back. */
  lemma RemoveUndoesInsert(rows: seq<Row>, p: int, r: Row)
    ensures RemoveAt(InsertAt(rows, p, r), p) == rows
  {
    if 0 <= p <= |rows| {
      var t := rows[..p] + [r] + rows[p..];
      assert t[..p] == rows[..p] && t[p + 1..] == rows[p..];
      assert rows[..p] + rows[p..] == rows;
    }
  }

  // ---------------------------------------------------------------------
  // Total time

  /** `get_row_values` for one row: `(0, 0)` when either cell is missing. */
  function RowValues(r: Row): (int, int) {
    if r.images.Some? && r.seconds.Some? then (r.images.value, r.seconds.value) else (0, 0)
  }

  /**
   * `get_row_values` reads back the cells `insert_row` wrote, and takes its
   * missing-cell branch, `(0, 0)`, for a row whose image cell was never set.
   */
  lemma RowValuesAfterInsert(rows: seq<Row>, p: int, image: int, seconds: int)
    requires 0 <= p <= |rows|
    ensures RowValues(InsertAt(rows, p, Row(Some(image), Some(seconds)))[p]) == (image, seconds)
    ensures RowValues(InsertAt(rows, p, Row(None, Some(seconds)))[p]) == (0, 0)
  {
  }

  /** The time one row adds to the total: images times seconds. */
  function RowTime(r: Row): int {
    RowValues(r).0 * RowValues(r).1
  }

  /** The sum over the rows of images times seconds. */
  function TotalTime(rows: seq<Row>): int {
    if rows == [] then 0 else TotalTime(rows[..|rows| - 1]) + RowTime(rows[|rows| - 1])
  }

  /** The total is additive over a split of the table. */
  lemma {:induction false} TotalTimeAppend(a: seq<Row>, b: seq<Row>)
    ensures TotalTime(a + b) == TotalTime(a) + TotalTime(b)
    decreases |b|
  {
    if b == [] {
      assert a + b == a;
    } else {
      var b' := b[..|b| - 1];
      assert (a + b)[..|a + b| - 1] == a + b';
      assert (a + b)[|a + b| - 1] == b[|b| - 1];
      TotalTimeAppend(a, b');
    }
  }

  /** A one-row table totals that row's time. */
  lemma TotalTimeSingle(r: Row)
    ensures TotalTime([r]) == RowTime(r)
  {
    assert [r][..0] == [];
  }

  /** A table is the rows before `p`, row `p` and the rows after it. */
  lemma SplitAround(rows: seq<Row>, p: int)
    requires 0 <= p < |rows|
    ensures rows == rows[..p] + [rows[p]] + rows[p + 1..]
  {
  }

  /** The total of a table split around one row. */
  lemma TotalTimeAround(a: seq<Row>, r: Row, b: seq<Row>)
    ensures TotalTime(a + [r] + b) == TotalTime(a) + RowTime(r) + TotalTime(b)
  {
    TotalTimeAppend(a + [r], b);
    TotalTimeAppend(a, [r]);
    TotalTimeSingle(r);
  }

  /** Inserting a row adds its time to the total. */
  lemma TotalTimeInsert(rows: seq<Row>, p: int, r: Row)
    ensures 0 <= p <= |rows| ==> TotalTime(InsertAt(rows, p, r)) == TotalTime(rows) + RowTime(r)
  {
    if 0 <= p <= |rows| {
      TotalTimeAround(rows[..p], r, rows[p..]);
      TotalTimeAppend(rows[..p], rows[p..]);
      assert rows[..p] + rows[p..] == rows;
    }
  }

  /** `insert_row` of the base table leaves the total alone, wherever it inserts. */
  lemma TotalTimeInsertEmpty(rows: seq<Row>, p: int)
    ensures TotalTime(InsertAt(rows, p, EmptyRow)) == TotalTime(rows)
  {
    TotalTimeInsert(rows, p, EmptyRow);
  }

  /** Removing a row takes its time off the total. */
  lemma TotalTimeRemove(rows: seq<Row>, p: int)
    requires 0 <= p < |rows|
    ensures TotalTime(RemoveAt(rows, p)) == TotalTime(rows) - RowTime(rows[p])
  {
    SplitAround(rows, p);
    TotalTimeAround(rows[..p], rows[p], rows[p + 1..]);
    TotalTimeAppend(rows[..p], rows[p + 1..]);
  }

  // ---------------------------------------------------------------------
  // Settings

  /** The row `load_settings` builds from entry `i`, or from the default `(5, "00:01:00")`. */
  function StoredRow(entries: map<nat, Entry>, i: nat): Row {
    var e := if i in entries then entries[i] else Entry(DefaultImages, DefaultSeconds);
    Row(Some(e.images), Some(e.seconds))
  }

  /**
   * The rows after `load_settings`: as many as the stored `rows` value (the
   * current count when absent), each complete, from its entry or the
   * default. `setRowCount` ignores a negative count, and then the loop does
   * nothing.
   */
  function LoadedRows(store: Store, current: seq<Row>): (r: seq<Row>)
    ensures var n := store.rowsValue.GetOr(|current|);
            n < 0 ==> r == current
    ensures var n := store.rowsValue.GetOr(|current|);
            n >= 0 ==> |r| == n && forall i :: 0 <= i < n ==> r[i] == StoredRow(store.entries, i)
  {
    var n := store.rowsValue.GetOr(|current|);
    if n < 0 then current else seq(n, i requires 0 <= i < n => StoredRow(store.entries, i))
  }

  /** After `load_settings`, `get_row_values` of a row gives its stored entry, or 5 images of 60 seconds. */
  lemma RowValuesAfterLoad(store: Store, current: seq<Row>, i: nat)
    requires 0 <= i < store.rowsValue.GetOr(|current|)
    ensures RowValues(LoadedRows(store, current)[i])
            == if i in store.entries then (store.entries[i].images, store.entries[i].seconds)
               else (DefaultImages, DefaultSeconds)
  {
  }

  /** Every row has both cells, so `write_settings` can read them. */
  predicate Complete(rows: seq<Row>) {
    forall i :: 0 <= i < |rows| ==> rows[i].images.Some? && rows[i].seconds.Some?
  }

  /** The entries `write_settings` leaves behind for complete rows: one per row and nothing else. */
  function Encode(rows: seq<Row>): (m: map<nat, Entry>)
    requires Complete(rows)
    ensures forall k: nat :: k in m <==> k < |rows|
  {
    map k: nat | k < |rows| :: Entry(rows[k].images.value, rows[k].seconds.value)
  }

  /** Loading what `write_settings` stored gives back the table it was written from. */
  lemma LoadAfterWrite(rows: seq<Row>, current: seq<Row>)
    requires Complete(rows)
    ensures LoadedRows(Store(Some(|rows|), Encode(rows)), current) == rows
  {
    var r := LoadedRows(Store(Some(|rows|), Encode(rows)), current);
    assert |r| == |rows|;
    forall i | 0 <= i < |rows|
      ensures r[i] == rows[i]
    {
      assert (i as nat) in Encode(rows);
    }
  }

  // ---------------------------------------------------------------------
  // The table widget

  /**
   * The rows of a `BaseTable`; the subclass methods of `RandomTimeTable` and
   * `ImagesTimeTable` act on the same rows. Qt's `currentRow()` is a
   * parameter: `-1` when no row is current, otherwise a row index.
   */
  class Table {
    var rows: seq<Row>

    constructor (rows: seq<Row>)
      ensures this.rows == rows
    {
      this.rows := rows;
    }

    /** `BaseTable.insert_row`: returns the position it asked for, whether or not Qt inserted there. */
    method InsertRow(row: Option<int>, currentRow: int) returns (p: int)
      requires -1 <= currentRow < |rows|
      modifies this`rows
      ensures p == InsertPosition(row, currentRow)
      ensures row.Some? && row.value != 0 ==> p == row.value
      ensures row.None? || row.value == 0 ==> p == currentRow + 1
      ensures rows == InsertAt(old(rows), p, EmptyRow)
      ensures (row.None? || row.value == 0) ==> |rows| == |old(rows)| + 1
    {
      p := if row.Some? && row.value != 0 then row.value else currentRow + 1;
      if 0 <= p <= |rows| {
        rows := rows[..p] + [EmptyRow] + rows[p..];
      }
    }

    /** `BaseTable.remove_row`: a falsy `row` (`None` or `0`) removes the current row. */
    method RemoveRow(row: Option<int>, currentRow: int)
      requires -1 <= currentRow < |rows|
      modifies this`rows
      ensures rows == RemoveAt(old(rows), if row.Some? && row.value != 0 then row.value else currentRow)
    {
      var p := if row.Some? && row.value != 0 then row.value else currentRow;
      if 0 <= p < |rows| {
        rows := rows[..p] + rows[p + 1..];
      }
    }

    /** `model().setData(model().index(p, column), value)`: no effect on an index outside the table. */
    method SetImages(p: int, value: int)
      modifies this`rows
      ensures 0 <= p < |old(rows)| ==> rows == old(rows)[p := old(rows)[p].(images := Some(value))]
      ensures !(0 <= p < |old(rows)|) ==> rows == old(rows)
    {
      if 0 <= p < |rows| {
        rows := rows[p := rows[p].(images := Some(value))];
      }
    }

    /** As `SetImages`, for the time column. */
    method SetSeconds(p: int, value: int)
      modifies this`rows
      ensures 0 <= p < |old(rows)| ==> rows == old(rows)[p := old(rows)[p].(seconds := Some(value))]
      ensures !(0 <= p < |old(rows)|) ==> rows == old(rows)
    {
      if 0 <= p < |rows| {
        rows := rows[p := rows[p].(seconds := Some(value))];
      }
    }

    /** `RandomTimeTable.insert_row`: a new row after the current one whose time cell is 30 seconds. */
    method InsertRandomTimeRow(currentRow: int)
      requires -1 <= currentRow < |rows|
      modifies this`rows
      ensures rows == InsertAt(old(rows), currentRow + 1, Row(None, Some(RandomRowSeconds)))
    {
      var p := InsertRow(None, currentRow);
      SetSeconds(p, RandomRowSeconds);
    }

    /**
     * `ImagesTimeTable.insert_row(row, image, time)`: the new row holds the
     * given values (by default 5 images of one minute); no other row changes.
     */
    method InsertImagesTimeRow(row: Option<int>, currentRow: int, image: int := DefaultImages, seconds: int := DefaultSeconds)
      requires -1 <= currentRow < |rows|
      modifies this`rows
      ensures rows == InsertAt(old(rows), InsertPosition(row, currentRow), Row(Some(image), Some(seconds)))
    {
      var p := InsertRow(row, currentRow);
      SetImages(p, image);
      SetSeconds(p, seconds);
    }

    /** `calculate_total_time`. */
    method CalculateTotalTime() returns (total: int)
      ensures total == TotalTime(rows)
    {
      total := 0;
      var i := 0;
      while i < |rows|
        invariant 0 <= i <= |rows|
        invariant total == TotalTime(rows[..i])
      {
        assert rows[..i + 1][..i] == rows[..i];
        var v := RowValues(rows[i]);
        total := total + v.0 * v.1;
        i := i + 1;
      }
      assert rows[..|rows|] == rows;
    }

    /** `setRowCount(n)`: truncates, or pads with empty rows. */
    method SetRowCount(n: int)
      modifies this`rows
      ensures n < 0 ==> rows == old(rows)
      ensures n >= 0 ==> |rows| == n
      ensures 0 <= n <= |old(rows)| ==> rows == old(rows)[..n]
      ensures n > |old(rows)| ==> rows == old(rows) + seq(n - |old(rows)|, _ => EmptyRow)
    {
      if n >= 0 {
        if n <= |rows| {
          rows := rows[..n];
        } else {
          rows := rows + seq(n - |rows|, _ => EmptyRow);
        }
      }
    }

    /** `load_settings`. */
    method LoadSettings(store: Store)
      modifies this`rows
      ensures rows == LoadedRows(store, old(rows))
    {
      var n := store.rowsValue.GetOr(|rows|);
      ghost var target := LoadedRows(store, rows);
      SetRowCount(n);
      if n < 0 {
        return;
      }
      var row := 0;
      while row < n
        invariant 0 <= row <= n == |rows| == |target|
        invariant forall i :: 0 <= i < row ==> rows[i] == target[i]
      {
        var e := if row in store.entries then store.entries[row] else Entry(DefaultImages, DefaultSeconds);
        SetImages(row, e.images);
        SetSeconds(row, e.seconds);
        row := row + 1;
      }
    }

    /**
     * `write_settings`: stores `rows` and every row's cells, then removes
     * every numeric key from the row count up to the largest one.
     */
    method WriteSettings(store: Store) returns (result: Store, outcome: WriteOutcome)
      ensures outcome == MissingCell <==> !Complete(rows)
      ensures outcome == MissingCell ==> result == store
      ensures outcome == NoRowKeys <==> Complete(rows) && |rows| == 0 && store.entries == map[]
      ensures outcome != MissingCell ==> result == Store(Some(|rows|), Encode(rows))
    {
      var n := |rows|;
      var i := 0;
      var written: map<nat, Entry> := map[];
      while i < n
        invariant 0 <= i <= n
        invariant Complete(rows[..i])
        invariant forall k: nat :: k in written <==> k < i
        invariant forall k: nat :: k in written ==> written[k] == Entry(rows[k].images.value, rows[k].seconds.value)
      {
        if rows[i].images.None? || rows[i].seconds.None? {
          assert !Complete(rows) by {
            assert !(rows[i].images.Some? && rows[i].seconds.Some?);
          }
          return store, MissingCell;
        }
        assert rows[..i + 1] == rows[..i] + [rows[i]];
        written := written[i := Entry(rows[i].images.value, rows[i].seconds.value)];
        i := i + 1;
      }
      assert rows[..n] == rows;
      var entries: map<nat, Entry> := store.entries + written;
      ghost var all := entries;
      result := Store(Some(n), entries);
      if entries.Keys == {} {
        assert store.entries.Keys <= entries.Keys && written.Keys <= entries.Keys;
        assert 0 !in written;
        assert entries == Encode(rows);
        return result, NoRowKeys;
      }
      var maxKey := MaxKey(entries.Keys);
      var maxExtraRows := maxKey + 1;
      if maxExtraRows > n {
        var extraRow := n;
        while extraRow < maxExtraRows
          invariant n <= extraRow <= maxExtraRows
          invariant forall k: nat :: k in entries <==> k in all && !(n <= k < extraRow)
          invariant forall k: nat :: k in entries ==> entries[k] == all[k]
        {
          entries := entries - {extraRow};
          extraRow := extraRow + 1;
        }
      }
      result := Store(Some(n), entries);
      assert forall k: nat :: k in entries <==> k < n;
      assert entries == Encode(rows);
      outcome := Written;
    }
  }

  /** The largest key, by one pass over the set. */
  method MaxKey(keys: set<nat>) returns (m: nat)
    requires keys != {}
    ensures m in keys && forall k: nat :: k in keys ==> k <= m
  {
    var rest := keys;
    var k0 :| k0 in rest;
    m := k0;
    rest := rest - {k0};
    while rest != {}
      invariant rest <= keys && m in keys
      invariant forall k: nat :: k in keys && k !in rest ==> k <= m
      decreases |rest|
    {
      var k :| k in rest;
      if k > m {
        m := k;
      }
      rest := rest - {k};
    }
  }

  /** A table written and then loaded again comes back unchanged, whatever the table held meanwhile. */
  method WriteThenLoad(table: Table, store: Store, meanwhile: seq<Row>) returns (outcome: WriteOutcome)
    modifies table
    ensures outcome != MissingCell ==> table.rows == old(table.rows)
  {
    var saved;
    saved, outcome := table.WriteSettings(store);
    if outcome != MissingCell {
      ghost var original := table.rows;
      table.rows := meanwhile;
      table.LoadSettings(saved);
      LoadAfterWrite(original, meanwhile);
    }
  }
}
