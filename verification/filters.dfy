/** The sidebar filters (app.py lines 122-131): a content-type filter, skipped
    when "All" is selected, then an inclusive date-range filter. The widget
    values (the multiselect, the checkbox and the slider) are parameters. */
module Filters {
  import opened Values
  import opened Seqs
  import opened Frames
  import opened Loader

  /** The multiselect's catch-all option. */
  const All: Cell := Text("All")

  /** `df['content_type'].isin(selected)` on one row. */
  function KeepType(columns: seq<string>, selected: seq<Cell>): (p: seq<Cell> -> bool)
    ensures forall row :: p(row) <==> At(columns, row, "content_type") in selected
    ensures selected == [] ==> forall row :: !p(row)
  {
    row => At(columns, row, "content_type") in selected
  }

  /** The inclusive day-range test on one row; a row without a date fails it. */
  function KeepDate(columns: seq<string>, lo: int, hi: int): (p: seq<Cell> -> bool)
    ensures forall row :: p(row) <==>
      At(columns, row, "post_date").Date? && lo <= At(columns, row, "post_date").day <= hi
    ensures hi < lo ==> forall row :: !p(row)
  {
    row => match At(columns, row, "post_date")
      case Date(d) => lo <= d <= hi
      case _ => false
  }

  /** Whether the type filter runs (line 124). */
  predicate TypeFilterOn(df: Frame, selected: seq<Cell>)
  {
    "content_type" in df.columns && All !in selected
  }

  /** Whether the date filter can be enabled (lines 102-111): the table has a
      date column with at least one date, so that its minimum and maximum
      exist. */
  predicate DateFilterAvailable(df: Frame)
  {
    "post_date" in df.columns && exists i :: 0 <= i < |df.rows| && Get(df, i, "post_date").Date?
  }

  /** The earliest and latest dates among `cells`, or None when there is no
      date: `min()` and `max()` of a date column, which skip NaT. */
  function DateSpan(cells: seq<Cell>): (r: Option<(int, int)>)
    ensures r.None? <==> forall i :: 0 <= i < |cells| ==> !cells[i].Date?
    ensures r.Some? ==> forall i :: 0 <= i < |cells| && cells[i].Date? ==> r.value.0 <= cells[i].day <= r.value.1
    ensures r.Some? ==> exists i :: 0 <= i < |cells| && cells[i] == Date(r.value.0)
    ensures r.Some? ==> exists i :: 0 <= i < |cells| && cells[i] == Date(r.value.1)
  {
    if cells == [] then None
    else
      var p := cells[..|cells| - 1];
      var last := |cells| - 1;
      var rest := DateSpan(p);
      assert forall i :: 0 <= i < |p| ==> p[i] == cells[i];
      if !cells[last].Date? then rest
      else if rest.None? then Some((cells[last].day, cells[last].day))
      else
        var d := cells[last].day;
        var lo := if rest.value.0 <= d then rest.value.0 else d;
        var hi := if d <= rest.value.1 then rest.value.1 else d;
        Some((lo, hi))
  }

  /** Whether the date filter runs (line 127): the checkbox is ticked and
      `min_date_data` exists, that is, the date column has an earliest and a
      latest date. */
  function DateFilterOn(df: Frame, enabled: bool): (on: bool)
    ensures on <==> enabled && DateSpan(Column(df, "post_date")).Some?
  {
    var cells := Column(df, "post_date");
    assert forall i :: 0 <= i < |df.rows| ==> cells[i] == Get(df, i, "post_date");
    enabled && DateFilterAvailable(df)
  }

  /** The slider's initial range, from the earliest to the latest date, lets
      every dated row through the date test. */
  lemma SliderDefaultKeepsDated(df: Frame, enabled: bool, i: int)
    requires DateFilterOn(df, enabled)
    requires 0 <= i < |df.rows| && Get(df, i, "post_date").Date?
    ensures var span := DateSpan(Column(df, "post_date")).value;
      KeepDate(df.columns, span.0, span.1)(df.rows[i])
  {
    assert Column(df, "post_date")[i] == Get(df, i, "post_date");
  }

  /** A row survives both filters; `byType` and `byDate` say which of them run. */
  function KeepBoth(columns: seq<string>, selected: seq<Cell>, byType: bool, byDate: bool, lo: int, hi: int): seq<Cell> -> bool
  {
    row =>
      (byType ==> At(columns, row, "content_type") in selected) &&
      (byDate ==> KeepDate(columns, lo, hi)(row))
  }

  /** The row test of the filter block for these widget values. */
  function Keep(df: Frame, selected: seq<Cell>, enabled: bool, lo: int, hi: int): seq<Cell> -> bool
  {
    KeepBoth(df.columns, selected, TypeFilterOn(df, selected), DateFilterOn(df, enabled), lo, hi)
  }

  /** The filtered table, as one selection of rows. */
  function FilterView(df: Frame, selected: seq<Cell>, enabled: bool, lo: int, hi: int): (r: Frame)
    ensures r.columns == df.columns && |r.rows| <= |df.rows|
    ensures var kept := Kept(df.rows, Keep(df, selected, enabled, lo, hi));
      |r.rows| == |kept| && forall j :: 0 <= j < |kept| ==> r.rows[j] == df.rows[kept[j]]
  {
    Frame(df.columns, Filter(df.rows, Keep(df, selected, enabled, lo, hi)))
  }

  /** Lines 122-131: copy the table, apply the type filter when it is on, then
      the date filter when it is on. The result is the single selection
      `FilterView`. */
  method ApplyFilters(df: Frame, selected: seq<Cell>, enabled: bool, lo: int, hi: int) returns (filtered: Frame)
    ensures filtered == FilterView(df, selected, enabled, lo, hi)
  {
    filtered := df;
    if "content_type" in filtered.columns && All !in selected {
      filtered := Frame(filtered.columns, Filter(filtered.rows, KeepType(filtered.columns, selected)));
    }
    if enabled && DateFilterAvailable(df) {
      filtered := Frame(filtered.columns, Filter(filtered.rows, KeepDate(filtered.columns, lo, hi)));
    }
    ghost var both := Keep(df, selected, enabled, lo, hi);
    ghost var typeTest := if TypeFilterOn(df, selected) then KeepType(df.columns, selected) else (row: seq<Cell>) => true;
    ghost var dateTest := if DateFilterOn(df, enabled) then KeepDate(df.columns, lo, hi) else (row: seq<Cell>) => true;
    FilterThen(df.rows, typeTest, dateTest, both);
    if !TypeFilterOn(df, selected) {
      FilterAll(df.rows, typeTest);
    }
    if !DateFilterOn(df, enabled) {
      FilterAll(Filter(df.rows, typeTest), dateTest);
    }
  }

  /** What the row test asks of row `k`. */
  predicate Passes(df: Frame, selected: seq<Cell>, enabled: bool, lo: int, hi: int, k: int)
  {
    (TypeFilterOn(df, selected) ==> Get(df, k, "content_type") in selected) &&
    (DateFilterOn(df, enabled) ==> Get(df, k, "post_date").Date? && lo <= Get(df, k, "post_date").day <= hi)
  }

  lemma KeepRow(df: Frame, selected: seq<Cell>, enabled: bool, lo: int, hi: int, k: int)
    requires 0 <= k < |df.rows|
    ensures Keep(df, selected, enabled, lo, hi)(df.rows[k]) == Passes(df, selected, enabled, lo, hi, k)
  {
    var c := At(df.columns, df.rows[k], "post_date");
    assert Get(df, k, "post_date") == c;
    assert KeepDate(df.columns, lo, hi)(df.rows[k]) == (c.Date? && lo <= c.day <= hi);
  }

  /** The rows kept are exactly those whose type is selected (unless the type
      filter is off) and whose date lies in [lo, hi] (unless the date filter is
      off), in their original order. */
  lemma KeptRows(df: Frame, selected: seq<Cell>, enabled: bool, lo: int, hi: int)
    ensures var kept := Kept(df.rows, Keep(df, selected, enabled, lo, hi));
      (forall a, b :: 0 <= a < b < |kept| ==> kept[a] < kept[b]) &&
      forall k :: k in kept <==> 0 <= k < |df.rows| && Passes(df, selected, enabled, lo, hi, k)
  {
    forall k | 0 <= k < |df.rows|
      ensures Keep(df, selected, enabled, lo, hi)(df.rows[k]) == Passes(df, selected, enabled, lo, hi, k)
    {
      KeepRow(df, selected, enabled, lo, hi, k);
    }
  }

  /** With "All" selected the type step does nothing: only the date filter
      can remove rows, and without it the table is unchanged. */
  lemma AllSelectsEverything(df: Frame, selected: seq<Cell>, enabled: bool, lo: int, hi: int)
    requires All in selected
    ensures FilterView(df, selected, enabled, lo, hi) == FilterView(df, [All], enabled, lo, hi)
    ensures !enabled ==> FilterView(df, selected, enabled, lo, hi) == df
  {
    FilterAgree(df.rows, Keep(df, selected, enabled, lo, hi), Keep(df, [All], enabled, lo, hi));
    if !enabled {
      FilterAll(df.rows, Keep(df, selected, enabled, lo, hi));
    }
  }

  /** Deselecting every option, "All" included, empties the table. */
  lemma NothingSelected(df: Frame, enabled: bool, lo: int, hi: int)
    requires "content_type" in df.columns
    ensures FilterView(df, [], enabled, lo, hi).rows == []
  {
    FilterNone(df.rows, Keep(df, [], enabled, lo, hi));
  }

  /** With the date filter on, every kept row is dated within [lo, hi]. */
  lemma DatesInRange(df: Frame, selected: seq<Cell>, enabled: bool, lo: int, hi: int)
    requires DateFilterOn(df, enabled)
    ensures var r := FilterView(df, selected, enabled, lo, hi);
      forall i :: 0 <= i < |r.rows| ==> Get(r, i, "post_date").Date? && lo <= Get(r, i, "post_date").day <= hi
  {
    var r := FilterView(df, selected, enabled, lo, hi);
    forall i | 0 <= i < |r.rows| ensures Get(r, i, "post_date").Date? && lo <= Get(r, i, "post_date").day <= hi {
      var row := r.rows[i];
      assert row in Filter(df.rows, Keep(df, selected, enabled, lo, hi));
      assert KeepDate(df.columns, lo, hi)(row);
      assert Get(r, i, "post_date") == At(df.columns, row, "post_date");
    }
  }

  /** Filtering the filtered table again with the same widget values changes
      nothing. */
  lemma FilterTwice(df: Frame, selected: seq<Cell>, enabled: bool, lo: int, hi: int)
    ensures var once := FilterView(df, selected, enabled, lo, hi);
      FilterView(once, selected, enabled, lo, hi) == once
  {
    var once := FilterView(df, selected, enabled, lo, hi);
    var p := Keep(df, selected, enabled, lo, hi);
    var q := Keep(once, selected, enabled, lo, hi);
    assert forall row :: row in once.rows ==> row in df.rows;
    AvailableShrinks(df, once.rows);
    assert forall row :: row in once.rows ==> p(row);
    FilterAll(once.rows, q);
  }

  /** A date present among some of the table's rows is present in the table. */
  lemma AvailableShrinks(df: Frame, rows: seq<seq<Cell>>)
    requires forall row :: row in rows ==> row in df.rows
    ensures DateFilterAvailable(Frame(df.columns, rows)) ==> DateFilterAvailable(df)
  {
    var sub := Frame(df.columns, rows);
    if DateFilterAvailable(sub) {
      var i :| 0 <= i < |rows| && Get(sub, i, "post_date").Date?;
      assert rows[i] in df.rows;
      var k :| 0 <= k < |df.rows| && df.rows[k] == rows[i];
      assert Get(df, k, "post_date").Date?;
    }
  }

  /** Filtering keeps a loaded table loaded, and a dated one dated. */
  lemma FilterKeepsShape(df: Frame, selected: seq<Cell>, enabled: bool, lo: int, hi: int)
    ensures var r := FilterView(df, selected, enabled, lo, hi);
      (Shaped(df) ==> Shaped(r)) && (AllDated(df) ==> AllDated(r))
  {
    var r := FilterView(df, selected, enabled, lo, hi);
    assert forall row :: row in r.rows ==> row in df.rows;
  }
}
