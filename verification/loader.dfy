/** `load_data` (app.py lines 17-69): standardise the header, reject a table
    without `post_id`, convert the dates and drop the rows whose date does not
    parse, derive the weekday, coerce the three engagement metrics, add their
    sum and default the content type. The frame is rewritten one column at a
    time, as the source does. */
module Loader {
  import opened Values
  import opened Seqs
  import opened Frames
  import opened Columns
  import opened Calendar

  /** What load_data reports to the page: an error (the key column is missing,
      nothing is loaded) or a warning (a column was defaulted). */
  datatype Notice = MissingPostId | MissingPostDate | MissingMetric(column: string) | MissingContentType

  predicate Fatal(n: Notice) { n.MissingPostId? }

  const Metrics: seq<string> := ["likes", "shares", "comments"]

  const Total := "total_engagement_per_post"

  /** The columns load_data writes. */
  const Written: seq<string> :=
    ["post_id", "post_date", "day_of_week", "day_of_week_num", "likes", "shares", "comments", Total, "content_type"]

  /** The table as read, with its header standardised (app.py line 23). */
  function Renamed(raw: Frame): (r: Frame)
    ensures |r.columns| == |raw.columns| && r.rows == raw.rows
    ensures forall i :: 0 <= i < |raw.columns| ==> r.columns[i] == NormalizeName(raw.columns[i])
  {
    Frame(NormalizeHeader(raw.columns), raw.rows)
  }

  /** The date cell of a row parses. */
  function DateParses(columns: seq<string>, parse: Cell -> Option<int>): seq<Cell> -> bool
  {
    row => parse(At(columns, row, "post_date")).Some?
  }

  /** The positions of the rows that survive date conversion, in order: every
      row when there is no date column, otherwise exactly the rows whose date
      parses. */
  function Survivors(f: Frame, parse: Cell -> Option<int>): (keep: seq<nat>)
    ensures forall a, b :: 0 <= a < b < |keep| ==> keep[a] < keep[b]
    ensures forall k :: k in keep <==>
      0 <= k < |f.rows| && ("post_date" in f.columns ==> parse(Get(f, k, "post_date")).Some?)
  {
    if "post_date" in f.columns then Kept(f.rows, DateParses(f.columns, parse))
    else
      var all := seq(|f.rows|, i requires 0 <= i < |f.rows| => i);
      forall k ensures k in all <==> 0 <= k < |f.rows| {
        if 0 <= k < |f.rows| { assert all[k] == k; }
      }
      all
  }

  /** The date fields of output row `i`, which comes from input row `s`. */
  ghost predicate DateFields(src: Frame, s: int, parse: Cell -> Option<int>, out: Frame, i: int)
  {
    if "post_date" in src.columns then
      parse(Get(src, s, "post_date")).Some? &&
      var d := parse(Get(src, s, "post_date")).value;
      Get(out, i, "post_date") == Date(d) &&
      Get(out, i, "day_of_week") == Text(DayNames[Weekday(d)]) &&
      Get(out, i, "day_of_week_num") == Int(Weekday(d))
    else
      Get(out, i, "post_date") == Null &&
      Get(out, i, "day_of_week") == Null &&
      Get(out, i, "day_of_week_num") == Null
  }

  function ParsedCell(parse: Cell -> Option<int>, c: Cell): Cell
  {
    match parse(c)
    case Some(d) => Date(d)
    case None => Null
  }

  /** `pd.to_datetime(errors='coerce')`, cell by cell: a cell that parses
      becomes its date, any other cell becomes NaT. */
  function ToDate(parse: Cell -> Option<int>): (g: Cell -> Cell)
    ensures forall c {:trigger g(c)} :: parse(c).Some? ==> g(c) == Date(parse(c).value)
    ensures forall c {:trigger g(c)} :: parse(c).None? ==> g(c) == Null
  {
    c => ParsedCell(parse, c)
  }

  /** After conversion, the rows with a present date are the survivors. */
  lemma DatedSurvivors(df: Frame, parse: Cell -> Option<int>)
    requires WellFormed(df) && "post_date" in df.columns
    ensures var parsed := Derive(df, "post_date", "post_date", ToDate(parse));
      Kept(parsed.rows, Present(parsed.columns, "post_date")) == Survivors(df, parse)
  {
    var parsed := Derive(df, "post_date", "post_date", ToDate(parse));
    KeptAgree(parsed.rows, Present(parsed.columns, "post_date"), df.rows, DateParses(df.columns, parse)) by {
      forall i | 0 <= i < |parsed.rows|
        ensures Present(parsed.columns, "post_date")(parsed.rows[i]) == DateParses(df.columns, parse)(df.rows[i])
      {
        assert Get(parsed, i, "post_date") == ParsedCell(parse, Get(df, i, "post_date"));
      }
    }
  }

  const DateColumns: seq<string> := ["post_date", "day_of_week", "day_of_week_num"]

  /** Output row `i` is row `keep[i]` of `df` with its date fields set as
      `DateFields` says and every other cell unchanged. */
  ghost predicate DatesParsed(df: Frame, parse: Cell -> Option<int>, keep: seq<nat>, out: Frame)
  {
    |out.rows| == |keep| &&
    (forall i :: 0 <= i < |out.rows| ==> keep[i] < |df.rows| && DateFields(df, keep[i], parse, out, i)) &&
    forall i, c {:trigger Get(out, i, c)} :: 0 <= i < |out.rows| && c !in DateColumns ==>
      Get(out, i, c) == Get(df, keep[i], c)
  }

  /** The date branch: convert, drop the rows without a date, derive the
      weekday name and number. */
  lemma DatedRows(df: Frame, parse: Cell -> Option<int>, parsed: Frame, dropped: Frame, named: Frame, out: Frame)
    requires WellFormed(df) && "post_date" in df.columns
    requires parsed == Derive(df, "post_date", "post_date", ToDate(parse))
    requires dropped == DropMissing(parsed, "post_date")
    requires named == Derive(dropped, "post_date", "day_of_week", DayNameCell)
    requires out == Derive(named, "post_date", "day_of_week_num", DayNumberCell)
    ensures DatesParsed(df, parse, Survivors(df, parse), out)
    ensures forall c :: c in out.columns <==> c in df.columns || c in DateColumns
  {
    DateColumnsAdded(df.columns, named.columns, out.columns);
    var keep := Survivors(df, parse);
    DatedSurvivors(df, parse);
    forall i | 0 <= i < |out.rows| ensures keep[i] < |df.rows| && DateFields(df, keep[i], parse, out, i) {
      assert keep[i] in keep;
      DatedCell(df, parse, parsed, dropped, named, out, i);
    }
    forall i, c | 0 <= i < |out.rows| && c !in DateColumns
      ensures Get(out, i, c) == Get(df, keep[i], c)
    {
      assert Get(out, i, c) == Get(named, i, c) == Get(dropped, i, c) == Get(parsed, keep[i], c);
    }
  }

  lemma DatedCell(df: Frame, parse: Cell -> Option<int>, parsed: Frame, dropped: Frame, named: Frame, out: Frame, i: int)
    requires WellFormed(df) && "post_date" in df.columns
    requires parsed == Derive(df, "post_date", "post_date", ToDate(parse))
    requires dropped == DropMissing(parsed, "post_date")
    requires named == Derive(dropped, "post_date", "day_of_week", DayNameCell)
    requires out == Derive(named, "post_date", "day_of_week_num", DayNumberCell)
    requires Kept(parsed.rows, Present(parsed.columns, "post_date")) == Survivors(df, parse)
    requires 0 <= i < |out.rows|
    ensures DateFields(df, Survivors(df, parse)[i], parse, out, i)
  {
    DroppedCell(df, parse, parsed, dropped, i);
    WeekdayCells(dropped, named, out, i);
  }

  /** A row that survived the drop holds its parsed date. */
  lemma DroppedCell(df: Frame, parse: Cell -> Option<int>, parsed: Frame, dropped: Frame, i: int)
    requires WellFormed(df) && "post_date" in df.columns
    requires parsed == Derive(df, "post_date", "post_date", ToDate(parse))
    requires dropped == DropMissing(parsed, "post_date")
    requires Kept(parsed.rows, Present(parsed.columns, "post_date")) == Survivors(df, parse)
    requires 0 <= i < |dropped.rows|
    ensures Survivors(df, parse)[i] < |df.rows|
    ensures Get(dropped, i, "post_date") != Null
    ensures Get(dropped, i, "post_date") == ParsedCell(parse, Get(df, Survivors(df, parse)[i], "post_date"))
  {
    var s := Survivors(df, parse)[i];
    assert Get(dropped, i, "post_date") == Get(parsed, s, "post_date");
  }

  /** The weekday columns follow the date of the same row. */
  lemma WeekdayCells(dropped: Frame, named: Frame, out: Frame, i: int)
    requires WellFormed(dropped)
    requires named == Derive(dropped, "post_date", "day_of_week", DayNameCell)
    requires out == Derive(named, "post_date", "day_of_week_num", DayNumberCell)
    requires 0 <= i < |dropped.rows|
    ensures Get(out, i, "post_date") == Get(dropped, i, "post_date")
    ensures Get(out, i, "day_of_week") == DayNameCell(Get(dropped, i, "post_date"))
    ensures Get(out, i, "day_of_week_num") == DayNumberCell(Get(dropped, i, "post_date"))
  {
  }

  /** Without a date column every row survives and the date fields are missing. */
  lemma UndatedRows(df: Frame, parse: Cell -> Option<int>, dated: Frame, named: Frame, out: Frame)
    requires WellFormed(df) && "post_date" !in df.columns
    requires dated == Fill(df, "post_date", Null)
    requires named == Fill(dated, "day_of_week", Null)
    requires out == Fill(named, "day_of_week_num", Null)
    ensures DatesParsed(df, parse, Survivors(df, parse), out)
    ensures forall c :: c in out.columns <==> c in df.columns || c in DateColumns
  {
    DateColumnsAdded(dated.columns, named.columns, out.columns);
    UndatedSurvivors(df, parse);
  }

  /** The header after the weekday columns are assigned. */
  lemma DateColumnsAdded(before: seq<string>, named: seq<string>, after: seq<string>)
    requires "post_date" in before
    requires named == if "day_of_week" in before then before else before + ["day_of_week"]
    requires after == if "day_of_week_num" in named then named else named + ["day_of_week_num"]
    ensures forall c :: c in after <==> c in before || c in DateColumns
  {
  }

  /** Without a date column every row survives, in order. */
  lemma UndatedSurvivors(f: Frame, parse: Cell -> Option<int>)
    requires "post_date" !in f.columns
    ensures var keep := Survivors(f, parse);
      |keep| == |f.rows| && forall i :: 0 <= i < |f.rows| ==> keep[i] == i
  {
  }

  /** Lines 33-46: with a date column, the dates are parsed, the rows whose date
      did not parse are dropped and the weekday columns are derived; without
      one, the three date columns are set to missing and a warning is issued. */
  method ParseDates(df: Frame, parse: Cell -> Option<int>) returns (out: Frame, notes: seq<Notice>)
    requires WellFormed(df)
    ensures WellFormed(out)
    ensures forall c :: c in out.columns <==> c in df.columns || c in DateColumns
    ensures notes == if "post_date" in df.columns then [] else [MissingPostDate]
    ensures DatesParsed(df, parse, Survivors(df, parse), out)
  {
    if "post_date" in df.columns {
      var parsed := Derive(df, "post_date", "post_date", ToDate(parse));
      var dropped := DropMissing(parsed, "post_date");
      var named := Derive(dropped, "post_date", "day_of_week", DayNameCell);
      out := Derive(named, "post_date", "day_of_week_num", DayNumberCell);
      notes := [];
      DatedRows(df, parse, parsed, dropped, named, out);
    } else {
      var dated := Fill(df, "post_date", Null);
      var named := Fill(dated, "day_of_week", Null);
      out := Fill(named, "day_of_week_num", Null);
      notes := [MissingPostDate];
      UndatedRows(df, parse, dated, named, out);
    }
  }

  /** Warnings for the metric columns among the first `j` that are absent. */
  function AbsentMetrics(columns: seq<string>, j: nat): seq<Notice>
    requires j <= |Metrics|
  {
    if j == 0 then []
    else
      var tail := if Metrics[j - 1] in columns then [] else [MissingMetric(Metrics[j - 1])];
      AbsentMetrics(columns, j - 1) + tail
  }

  function CountCell(c: Cell): Cell
  {
    Int(ToCount(c))
  }

  /** Every metric cell of `out` is the count parsed from the same cell of
      `df` (0 when the column is absent); nothing else differs. */
  ghost predicate MetricsCoerced(df: Frame, out: Frame)
  {
    |out.rows| == |df.rows| &&
    (forall i, m {:trigger Get(out, i, m)} :: 0 <= i < |df.rows| && m in Metrics ==>
      Get(out, i, m) == Int(ToCount(Get(df, i, m)))) &&
    (forall i, c {:trigger Get(out, i, c)} :: c !in Metrics ==> Get(out, i, c) == Get(df, i, c))
  }

  /** Lines 50-56: each of likes, shares and comments becomes an integer column,
      parsed from its cells when present and 0 on every row when absent. No row
      is added or removed, and no other column changes. */
  method CoerceMetrics(df: Frame) returns (out: Frame, notes: seq<Notice>)
    requires WellFormed(df)
    ensures WellFormed(out)
    ensures forall c :: c in out.columns <==> c in df.columns || c in Metrics
    ensures MetricsCoerced(df, out)
    ensures notes == AbsentMetrics(df.columns, |Metrics|)
  {
    out, notes := df, [];
    for j := 0 to |Metrics|
      invariant CoercedUpTo(df, out, j)
      invariant notes == AbsentMetrics(df.columns, j)
    {
      var col := Metrics[j];
      ghost var prev := out;
      var note;
      out, note := CoerceColumn(out, col);
      CoerceStep(df, prev, out, j);
      notes := notes + note;
    }
    CoercedAll(df, out);
  }

  /** The loop invariant of lines 52-56 after `j` passes: the first `j` metric
      columns are coerced and every other column is as it was. */
  ghost predicate CoercedUpTo(df: Frame, out: Frame, j: nat)
    requires j <= |Metrics|
  {
    WellFormed(out) && |out.rows| == |df.rows| &&
    (forall c :: c in out.columns <==> c in df.columns || c in Metrics[..j]) &&
    (forall i, k :: 0 <= i < |df.rows| && 0 <= k < j ==>
      Get(out, i, Metrics[k]) == Int(ToCount(Get(df, i, Metrics[k])))) &&
    (forall i, c {:trigger Get(out, i, c)} :: c !in Metrics[..j] ==> Get(out, i, c) == Get(df, i, c))
  }

  lemma CoerceStep(df: Frame, out: Frame, next: Frame, j: nat)
    requires j < |Metrics| && CoercedUpTo(df, out, j)
    requires WellFormed(next) && |next.rows| == |out.rows|
    requires next.columns == if Metrics[j] in out.columns then out.columns else out.columns + [Metrics[j]]
    requires forall i :: 0 <= i < |out.rows| ==> Get(next, i, Metrics[j]) == Int(ToCount(Get(out, i, Metrics[j])))
    requires forall i, c :: c != Metrics[j] ==> Get(next, i, c) == Get(out, i, c)
    ensures CoercedUpTo(df, next, j + 1)
    ensures Metrics[j] in out.columns <==> Metrics[j] in df.columns
  {
    assert Metrics[..j + 1] == Metrics[..j] + [Metrics[j]];
    assert Metrics[j] !in Metrics[..j];
  }

  lemma CoercedAll(df: Frame, out: Frame)
    requires CoercedUpTo(df, out, |Metrics|)
    ensures forall c :: c in out.columns <==> c in df.columns || c in Metrics
    ensures MetricsCoerced(df, out)
  {
    assert Metrics[..|Metrics|] == Metrics;
    forall i, m | 0 <= i < |df.rows| && m in Metrics ensures Get(out, i, m) == Int(ToCount(Get(df, i, m))) {
      var k :| 0 <= k < |Metrics| && Metrics[k] == m;
    }
  }

  /** One pass of the loop at lines 52-56: a present column is parsed cell by
      cell, an absent one is added as all zeros with a warning. Either way
      each cell becomes the count of the cell it replaces, an absent cell
      reading as missing. */
  method CoerceColumn(df: Frame, col: string) returns (out: Frame, notes: seq<Notice>)
    requires WellFormed(df)
    ensures WellFormed(out) && |out.rows| == |df.rows|
    ensures out.columns == if col in df.columns then df.columns else df.columns + [col]
    ensures forall i :: 0 <= i < |df.rows| ==> Get(out, i, col) == Int(ToCount(Get(df, i, col)))
    ensures forall i, c :: c != col ==> Get(out, i, c) == Get(df, i, c)
    ensures notes == if col in df.columns then [] else [MissingMetric(col)]
  {
    if col in df.columns {
      out := Derive(df, col, col, CountCell);
      notes := [];
    } else {
      out := Fill(df, col, Int(0));
      notes := [MissingMetric(col)];
    }
  }

  /** The warnings a table with a key column produces, in the order the source
      issues them. */
  function Warnings(columns: seq<string>): (r: seq<Notice>)
    ensures forall n :: n in r ==> !Fatal(n)
    ensures MissingPostDate in r <==> "post_date" !in columns
    ensures forall m :: MissingMetric(m) in r <==> m in Metrics && m !in columns
    ensures MissingContentType in r <==> "content_type" !in columns
    ensures "post_date" !in columns ==> r[0] == MissingPostDate
    ensures "content_type" !in columns ==> r[|r| - 1] == MissingContentType
    ensures |r| <= 2 + |Metrics|
    ensures forall a, b :: 0 <= a < b < |r| ==> r[a] != r[b]
  {
    var date := if "post_date" in columns then [] else [MissingPostDate];
    var metrics := AbsentMetrics(columns, |Metrics|);
    var kind := if "content_type" in columns then [] else [MissingContentType];
    AbsentMetricsWarn(columns, |Metrics|);
    AbsentMetricsNamed(columns, |Metrics|);
    assert Metrics[..|Metrics|] == Metrics;
    NoticesDistinct(date, metrics, kind);
    NoticesLayout(date, metrics, kind);
    date + metrics + kind
  }

  /** Where each kind of warning sits in a date warning, metric warnings and
      a type warning put one after the other. */
  lemma NoticesLayout(date: seq<Notice>, metrics: seq<Notice>, kind: seq<Notice>)
    requires date == [] || date == [MissingPostDate]
    requires kind == [] || kind == [MissingContentType]
    requires forall n :: n in metrics ==> n.MissingMetric?
    ensures var r := date + metrics + kind;
      (forall n :: n in r ==> !Fatal(n)) &&
      (MissingPostDate in r <==> date != []) &&
      (forall m :: MissingMetric(m) in r <==> MissingMetric(m) in metrics) &&
      (MissingContentType in r <==> kind != []) &&
      (date != [] ==> r[0] == MissingPostDate) &&
      (kind != [] ==> r[|r| - 1] == MissingContentType)
  {
    var r := date + metrics + kind;
    assert forall n :: n in r <==> n in date || n in metrics || n in kind;
  }

  /** A date warning, distinct metric warnings and a type warning are
      pairwise distinct. */
  lemma NoticesDistinct(date: seq<Notice>, metrics: seq<Notice>, kind: seq<Notice>)
    requires date == [] || date == [MissingPostDate]
    requires kind == [] || kind == [MissingContentType]
    requires forall n :: n in metrics ==> n.MissingMetric?
    requires forall a, b :: 0 <= a < b < |metrics| ==> metrics[a] != metrics[b]
    ensures var r := date + metrics + kind;
      forall a, b :: 0 <= a < b < |r| ==> r[a] != r[b]
  {
    var r := date + metrics + kind;
    forall a, b | 0 <= a < b < |r|
      ensures r[a] != r[b]
    {
      var m := |date| + |metrics|;
      if a < |date| {
        assert r[a] == MissingPostDate;
        if b < m {
          assert r[b] == metrics[b - |date|] && r[b] in metrics;
        }
      } else if b < m {
        assert r[a] == metrics[a - |date|] && r[b] == metrics[b - |date|];
      } else {
        assert r[b] == MissingContentType;
        assert r[a] == metrics[a - |date|] && r[a] in metrics;
      }
    }
  }

  /** The metric warnings depend only on which metric columns are present. */
  lemma {:induction false} AbsentMetricsAgree(a: seq<string>, b: seq<string>, j: nat)
    requires j <= |Metrics|
    requires forall m :: m in Metrics ==> (m in a <==> m in b)
    ensures AbsentMetrics(a, j) == AbsentMetrics(b, j)
  {
    if j > 0 {
      AbsentMetricsAgree(a, b, j - 1);
      assert Metrics[j - 1] in Metrics;
    }
  }

  /** A warning is never fatal. */
  lemma {:induction false} AbsentMetricsWarn(columns: seq<string>, j: nat)
    requires j <= |Metrics|
    ensures forall n :: n in AbsentMetrics(columns, j) ==> n.MissingMetric? && n.column in Metrics
  {
    if j > 0 {
      AbsentMetricsWarn(columns, j - 1);
      assert Metrics[j - 1] in Metrics;
    }
  }

  /** The test "this column is absent". */
  function Absent(columns: seq<string>): string -> bool
  {
    m => m !in columns
  }

  /** Exactly the absent metrics among the first `j` are warned about: one
      warning for each, in the order of `Metrics`, and no two alike. */
  lemma AbsentMetricsNamed(columns: seq<string>, j: nat)
    requires j <= |Metrics|
    ensures forall m :: MissingMetric(m) in AbsentMetrics(columns, j) <==> m in Metrics[..j] && m !in columns
    ensures var absent := Filter(Metrics[..j], Absent(columns));
      |AbsentMetrics(columns, j)| == |absent| &&
      forall k :: 0 <= k < |absent| ==> AbsentMetrics(columns, j)[k] == MissingMetric(absent[k])
    ensures forall a, b :: 0 <= a < b < |AbsentMetrics(columns, j)| ==> AbsentMetrics(columns, j)[a] != AbsentMetrics(columns, j)[b]
  {
    AbsentMetricsDistinct(columns, j);
    AbsentMetricsInOrder(columns, j);
  }

  lemma {:induction false} AbsentMetricsDistinct(columns: seq<string>, j: nat)
    requires j <= |Metrics|
    ensures forall m :: MissingMetric(m) in AbsentMetrics(columns, j) <==> m in Metrics[..j] && m !in columns
    ensures forall a, b :: 0 <= a < b < |AbsentMetrics(columns, j)| ==> AbsentMetrics(columns, j)[a] != AbsentMetrics(columns, j)[b]
  {
    if j > 0 {
      AbsentMetricsDistinct(columns, j - 1);
      assert Metrics[..j] == Metrics[..j - 1] + [Metrics[j - 1]];
      assert Metrics[j - 1] !in Metrics[..j - 1];
    }
  }

  lemma {:induction false} AbsentMetricsInOrder(columns: seq<string>, j: nat)
    requires j <= |Metrics|
    ensures var absent := Filter(Metrics[..j], Absent(columns));
      |AbsentMetrics(columns, j)| == |absent| &&
      forall k :: 0 <= k < |absent| ==> AbsentMetrics(columns, j)[k] == MissingMetric(absent[k])
  {
    if j > 0 {
      AbsentMetricsInOrder(columns, j - 1);
      assert Metrics[..j][..j - 1] == Metrics[..j - 1];
    }
  }

  /** Output row `i` of `df` is input row `s` of `src` after loading. */
  ghost predicate LoadedRow(src: Frame, s: int, parse: Cell -> Option<int>, df: Frame, i: int)
  {
    Get(df, i, "post_id") == Text(CellString(Get(src, s, "post_id"))) &&
    DateFields(src, s, parse, df, i) &&
    (forall m {:trigger Get(df, i, m), Get(src, s, m)} :: m in Metrics ==> Get(df, i, m) == Int(ToCount(Get(src, s, m)))) &&
    Get(df, i, Total) ==
      Int(ToCount(Get(src, s, "likes")) + ToCount(Get(src, s, "shares")) + ToCount(Get(src, s, "comments"))) &&
    Get(df, i, "content_type") ==
      (if "content_type" in src.columns then Get(src, s, "content_type") else Text("Unknown")) &&
    (forall c {:trigger Get(df, i, c), Get(src, s, c)} :: c !in Written ==> Get(df, i, c) == Get(src, s, c))
  }

  /** The loaded table: every standardised column and every written column is
      there, and its rows are the surviving input rows, in order, each loaded
      as `LoadedRow` says. */
  ghost predicate Canonical(raw: Frame, parse: Cell -> Option<int>, df: Frame)
  {
    Loaded(Renamed(raw), parse, df)
  }

  /** `Canonical` in terms of the table with its header standardised. */
  ghost predicate Loaded(src: Frame, parse: Cell -> Option<int>, df: Frame)
  {
    var keep := Survivors(src, parse);
    WellFormed(df) &&
    (forall c :: c in df.columns <==> c in src.columns || c in Written) &&
    |df.rows| == |keep| &&
    forall i :: 0 <= i < |df.rows| ==> LoadedRow(src, keep[i], parse, df, i)
  }

  lemma SurvivorsAgree(f: Frame, g: Frame, parse: Cell -> Option<int>)
    requires f.columns == g.columns && |f.rows| == |g.rows|
    requires forall i :: 0 <= i < |f.rows| ==> Get(f, i, "post_date") == Get(g, i, "post_date")
    ensures Survivors(f, parse) == Survivors(g, parse)
  {
    if "post_date" in f.columns {
      KeptAgree(f.rows, DateParses(f.columns, parse), g.rows, DateParses(g.columns, parse)) by {
        forall i | 0 <= i < |f.rows|
          ensures DateParses(f.columns, parse)(f.rows[i]) == DateParses(g.columns, parse)(g.rows[i])
        {
          assert Get(f, i, "post_date") == Get(g, i, "post_date");
        }
      }
    }
  }

  /** `.astype(str)` on one cell. */
  function AsText(c: Cell): Cell
  {
    Text(CellString(c))
  }

  /** `df['likes'] + df['shares'] + df['comments']`, row by row. */
  function Totals(f: Frame): (r: seq<Cell>)
    ensures |r| == |f.rows|
    ensures forall i :: 0 <= i < |r| ==>
      r[i].Int? && r[i].i == IntOf(Get(f, i, "likes")) + IntOf(Get(f, i, "shares")) + IntOf(Get(f, i, "comments"))
  {
    seq(|f.rows|, i requires 0 <= i < |f.rows| =>
      Int(IntOf(Get(f, i, "likes")) + IntOf(Get(f, i, "shares")) + IntOf(Get(f, i, "comments"))))
  }

  /** `df['content_type'] = 'Unknown'` when the column is missing. */
  function DefaultType(f: Frame): (r: Frame)
    requires WellFormed(f)
    ensures WellFormed(r) && "content_type" in r.columns && |r.rows| == |f.rows|
    ensures "content_type" in f.columns ==> r == f
    ensures "content_type" !in f.columns ==>
      r.columns == f.columns + ["content_type"] &&
      forall i :: 0 <= i < |r.rows| ==> Get(r, i, "content_type") == Text("Unknown")
  {
    if "content_type" in f.columns then f else Fill(f, "content_type", Text("Unknown"))
  }

  /** The last two steps (lines 59-64): the total column holds the sum of the
      three metrics, the content type is kept or defaulted, and nothing else
      changes. */
  ghost predicate Finished(counted: Frame, df: Frame)
  {
    |df.rows| == |counted.rows| &&
    ("content_type" in df.columns) && (Total in df.columns) &&
    (forall c :: c in df.columns <==> c in counted.columns || c == Total || c == "content_type") &&
    (forall i :: 0 <= i < |df.rows| ==>
      Get(df, i, Total) ==
        Int(IntOf(Get(counted, i, "likes")) + IntOf(Get(counted, i, "shares")) + IntOf(Get(counted, i, "comments"))) &&
      Get(df, i, "content_type") ==
        if "content_type" in counted.columns then Get(counted, i, "content_type") else Text("Unknown")) &&
    forall i, c {:trigger Get(df, i, c)} :: c != Total && c != "content_type" ==> Get(df, i, c) == Get(counted, i, c)
  }

  lemma FinishRows(counted: Frame)
    requires WellFormed(counted)
    ensures Finished(counted, DefaultType(SetColumn(counted, Total, Totals(counted))))
  {
    var summed := SetColumn(counted, Total, Totals(counted));
    if "content_type" in counted.columns {
      assert "content_type" in summed.columns;
      SummedRows(counted);
    } else {
      FilledRows(counted, summed);
    }
  }

  /** The total column holds the row sums and nothing else changes. */
  lemma SummedRows(counted: Frame)
    requires WellFormed(counted)
    ensures var summed := SetColumn(counted, Total, Totals(counted));
      (forall i :: 0 <= i < |summed.rows| ==>
        Get(summed, i, Total) ==
          Int(IntOf(Get(counted, i, "likes")) + IntOf(Get(counted, i, "shares")) + IntOf(Get(counted, i, "comments")))) &&
      (forall i, c :: c != Total ==> Get(summed, i, c) == Get(counted, i, c))
  {
    var summed := SetColumn(counted, Total, Totals(counted));
    forall i | 0 <= i < |summed.rows| ensures Get(summed, i, Total) == Totals(counted)[i] {
    }
  }

  /** Without a content type, the defaulted column is added after the total. */
  lemma FilledRows(counted: Frame, summed: Frame)
    requires WellFormed(counted) && "content_type" !in counted.columns
    requires summed == SetColumn(counted, Total, Totals(counted))
    ensures Finished(counted, Fill(summed, "content_type", Text("Unknown")))
  {
    SummedRows(counted);
  }

  /** Line 30: the key column is turned into text; nothing else changes. */
  ghost predicate IdsAsText(src: Frame, ided: Frame)
  {
    ided.columns == src.columns && |ided.rows| == |src.rows| &&
    (forall i :: 0 <= i < |src.rows| ==> Get(ided, i, "post_id") == AsText(Get(src, i, "post_id"))) &&
    forall i, c {:trigger Get(ided, i, c)} :: c != "post_id" ==> Get(ided, i, c) == Get(src, i, c)
  }

  /** Converting the key column to text leaves the survivors unchanged. */
  lemma IdsKeepSurvivors(src: Frame, ided: Frame, parse: Cell -> Option<int>)
    requires IdsAsText(src, ided)
    ensures Survivors(ided, parse) == Survivors(src, parse)
  {
    SurvivorsAgree(ided, src, parse);
  }

  /** The frames between the stages of load_data: `ided` after line 30,
      `dated` after lines 33-46, `counted` after lines 50-56 and `df` at the
      end. */
  ghost predicate Stages(src: Frame, ided: Frame, dated: Frame, counted: Frame, df: Frame,
                         parse: Cell -> Option<int>, keep: seq<nat>)
  {
    WellFormed(src) && "post_id" in src.columns &&
    IdsAsText(src, ided) &&
    DatesParsed(ided, parse, keep, dated) &&
    ("content_type" in dated.columns) == ("content_type" in src.columns) &&
    MetricsCoerced(dated, counted) &&
    ("content_type" in counted.columns) == ("content_type" in dated.columns) &&
    Finished(counted, df)
  }

  lemma RowMetric(src: Frame, ided: Frame, dated: Frame, counted: Frame,
                  parse: Cell -> Option<int>, keep: seq<nat>, i: int, m: string)
    requires IdsAsText(src, ided) && DatesParsed(ided, parse, keep, dated) && MetricsCoerced(dated, counted)
    requires 0 <= i < |counted.rows| && m in Metrics
    ensures i < |keep| && Get(counted, i, m) == Int(ToCount(Get(src, keep[i], m)))
  {
    assert Get(dated, i, m) == Get(ided, keep[i], m) == Get(src, keep[i], m);
  }

  lemma CountedRow(src: Frame, ided: Frame, dated: Frame, counted: Frame,
                   parse: Cell -> Option<int>, keep: seq<nat>, i: int)
    requires IdsAsText(src, ided) && DatesParsed(ided, parse, keep, dated) && MetricsCoerced(dated, counted)
    requires 0 <= i < |counted.rows|
    ensures i < |keep| && forall m :: m in Metrics ==> Get(counted, i, m) == Int(ToCount(Get(src, keep[i], m)))
  {
    forall m | m in Metrics ensures Get(counted, i, m) == Int(ToCount(Get(src, keep[i], m))) {
      RowMetric(src, ided, dated, counted, parse, keep, i, m);
    }
  }

  lemma RowCounts(src: Frame, ided: Frame, dated: Frame, counted: Frame, df: Frame,
                  parse: Cell -> Option<int>, keep: seq<nat>, i: int)
    requires Stages(src, ided, dated, counted, df, parse, keep) && 0 <= i < |df.rows|
    ensures i < |keep| && forall m :: m in Metrics ==> Get(df, i, m) == Int(ToCount(Get(src, keep[i], m)))
  {
    forall m | m in Metrics ensures Get(df, i, m) == Int(ToCount(Get(src, keep[i], m))) {
      RowMetric(src, ided, dated, counted, parse, keep, i, m);
    }
  }

  lemma RowTotal(src: Frame, counted: Frame, df: Frame, keep: seq<nat>, i: int)
    requires Finished(counted, df) && 0 <= i < |df.rows| && i < |keep|
    requires forall m :: m in Metrics ==> Get(counted, i, m) == Int(ToCount(Get(src, keep[i], m)))
    ensures Get(df, i, Total) ==
      Int(ToCount(Get(src, keep[i], "likes")) + ToCount(Get(src, keep[i], "shares")) + ToCount(Get(src, keep[i], "comments")))
  {
    var s := keep[i];
    assert "likes" in Metrics && "shares" in Metrics && "comments" in Metrics;
    TotalOf(counted, df, i, ToCount(Get(src, s, "likes")), ToCount(Get(src, s, "shares")), ToCount(Get(src, s, "comments")));
  }

  /** The total of a row is the sum of its three counts. */
  lemma TotalOf(counted: Frame, df: Frame, i: int, likes: int, shares: int, comments: int)
    requires Finished(counted, df) && 0 <= i < |df.rows|
    requires Get(counted, i, "likes") == Int(likes)
    requires Get(counted, i, "shares") == Int(shares)
    requires Get(counted, i, "comments") == Int(comments)
    ensures Get(df, i, Total) == Int(likes + shares + comments)
  {
  }

  lemma RowDates(src: Frame, ided: Frame, dated: Frame, counted: Frame, df: Frame,
                 parse: Cell -> Option<int>, keep: seq<nat>, i: int)
    requires Stages(src, ided, dated, counted, df, parse, keep) && 0 <= i < |df.rows|
    ensures i < |keep| && var s := keep[i];
      Get(df, i, "post_id") == Text(CellString(Get(src, s, "post_id"))) &&
      DateFields(src, s, parse, df, i)
  {
    RowId(src, ided, dated, counted, df, parse, keep, i);
    var s := keep[i];
    DatesOf(ided, parse, keep, dated, i);
    IdsCarried(src, ided, s, "post_date");
    DatesCarried3(dated, counted, df, i);
    DateFieldsMoved(src, ided, s, parse, dated, df, i);
  }

  lemma RowId(src: Frame, ided: Frame, dated: Frame, counted: Frame, df: Frame,
              parse: Cell -> Option<int>, keep: seq<nat>, i: int)
    requires Stages(src, ided, dated, counted, df, parse, keep) && 0 <= i < |df.rows|
    ensures i < |keep| && Get(df, i, "post_id") == Text(CellString(Get(src, keep[i], "post_id")))
  {
    Carried(dated, counted, df, i, "post_id");
    DatesCarried(ided, parse, keep, dated, i, "post_id");
  }

  /** The date fields of a row, carried to a later table holding the same
      three date cells. */
  lemma DateFieldsMoved(src: Frame, ided: Frame, s: int, parse: Cell -> Option<int>, dated: Frame, df: Frame, i: int)
    requires DateFields(ided, s, parse, dated, i)
    requires ided.columns == src.columns && Get(ided, s, "post_date") == Get(src, s, "post_date")
    requires Get(df, i, "post_date") == Get(dated, i, "post_date")
    requires Get(df, i, "day_of_week") == Get(dated, i, "day_of_week")
    requires Get(df, i, "day_of_week_num") == Get(dated, i, "day_of_week_num")
    ensures DateFields(src, s, parse, df, i)
  {
  }

  lemma DatesOf(ided: Frame, parse: Cell -> Option<int>, keep: seq<nat>, dated: Frame, i: int)
    requires DatesParsed(ided, parse, keep, dated) && 0 <= i < |dated.rows|
    ensures keep[i] < |ided.rows| && DateFields(ided, keep[i], parse, dated, i)
  {
  }

  /** A column other than the key passes through line 30. */
  lemma IdsCarried(src: Frame, ided: Frame, s: int, c: string)
    requires IdsAsText(src, ided) && c != "post_id"
    ensures Get(ided, s, c) == Get(src, s, c)
  {
  }

  /** A column other than the date columns passes through lines 33-46. */
  lemma DatesCarried(ided: Frame, parse: Cell -> Option<int>, keep: seq<nat>, dated: Frame, i: int, c: string)
    requires DatesParsed(ided, parse, keep, dated) && 0 <= i < |dated.rows| && c !in DateColumns
    ensures Get(dated, i, c) == Get(ided, keep[i], c)
  {
  }

  /** A column the last two stages do not write passes through them. */
  lemma Carried(dated: Frame, counted: Frame, df: Frame, i: int, c: string)
    requires MetricsCoerced(dated, counted) && Finished(counted, df)
    requires c !in Metrics && c != Total && c != "content_type"
    ensures Get(df, i, c) == Get(dated, i, c)
  {
    assert Get(df, i, c) == Get(counted, i, c);
  }

  /** The three date columns pass unchanged through the last two stages. */
  lemma DatesCarried3(dated: Frame, counted: Frame, df: Frame, i: int)
    requires MetricsCoerced(dated, counted) && Finished(counted, df)
    ensures forall c :: c in DateColumns ==> Get(df, i, c) == Get(dated, i, c)
  {
    forall c | c in DateColumns
      ensures Get(df, i, c) == Get(dated, i, c)
    {
      Carried(dated, counted, df, i, c);
    }
  }

  lemma RowOthers(src: Frame, ided: Frame, dated: Frame, counted: Frame, df: Frame,
                  parse: Cell -> Option<int>, keep: seq<nat>, i: int)
    requires Stages(src, ided, dated, counted, df, parse, keep) && 0 <= i < |df.rows|
    ensures i < |keep| && var s := keep[i];
      Get(df, i, "content_type") ==
        (if "content_type" in src.columns then Get(src, s, "content_type") else Text("Unknown")) &&
      forall c :: c !in Written ==> Get(df, i, c) == Get(src, s, c)
  {
    var s := keep[i];
    IdsCarried(src, ided, s, "content_type");
    DatesCarried(ided, parse, keep, dated, i, "content_type");
    assert Get(counted, i, "content_type") == Get(dated, i, "content_type");
    forall c | c !in Written ensures Get(df, i, c) == Get(src, s, c) {
      Carried(dated, counted, df, i, c);
      DatesCarried(ided, parse, keep, dated, i, c);
      IdsCarried(src, ided, s, c);
    }
  }

  /** One output row of the load, followed back through every stage. */
  lemma LoadedRowOf(src: Frame, ided: Frame, dated: Frame, counted: Frame, df: Frame,
                    parse: Cell -> Option<int>, keep: seq<nat>, i: int)
    requires Stages(src, ided, dated, counted, df, parse, keep) && 0 <= i < |df.rows|
    ensures i < |keep| && LoadedRow(src, keep[i], parse, df, i)
  {
    RowCounts(src, ided, dated, counted, df, parse, keep, i);
    CountedRow(src, ided, dated, counted, parse, keep, i);
    RowTotal(src, counted, df, keep, i);
    RowDates(src, ided, dated, counted, df, parse, keep, i);
    RowOthers(src, ided, dated, counted, df, parse, keep, i);
  }

  /** The header grows stage by stage: the date columns, then the metrics,
      then the total and the content type are added. */
  ghost predicate Widened(src: Frame, ided: Frame, dated: Frame, counted: Frame, df: Frame)
  {
    ided.columns == src.columns &&
    (forall c :: c in dated.columns <==> c in ided.columns || c in DateColumns) &&
    (forall c :: c in counted.columns <==> c in dated.columns || c in Metrics) &&
    (forall c :: c in df.columns <==> c in counted.columns || c == Total || c == "content_type")
  }

  /** Every input column and every written column ends up in the header. */
  lemma WidenedCovers(src: Frame, ided: Frame, dated: Frame, counted: Frame, df: Frame)
    requires Widened(src, ided, dated, counted, df) && "post_id" in src.columns
    ensures forall c :: c in df.columns <==> c in src.columns || c in Written
  {
    forall c | c in Written ensures c in df.columns {
      assert c == "post_id" || c in DateColumns || c in Metrics || c == Total || c == "content_type";
    }
    forall c | c in df.columns && c !in src.columns ensures c in Written {
      assert c in DateColumns || c in Metrics || c == Total || c == "content_type";
    }
  }

  /** The stages end in the loaded table. */
  lemma StagesLoaded(parse: Cell -> Option<int>, src: Frame, ided: Frame, dated: Frame, counted: Frame, df: Frame)
    requires WellFormed(df)
    requires Stages(src, ided, dated, counted, df, parse, Survivors(src, parse))
    requires Widened(src, ided, dated, counted, df)
    ensures Loaded(src, parse, df)
  {
    var keep := Survivors(src, parse);
    WidenedCovers(src, ided, dated, counted, df);
    forall i | 0 <= i < |df.rows| ensures i < |keep| && LoadedRow(src, keep[i], parse, df, i) {
      LoadedRowOf(src, ided, dated, counted, df, parse, keep, i);
    }
  }

  /** The stages issue exactly the warnings `Warnings` lists. */
  lemma StagesWarnings(src: seq<string>, dated: seq<string>, counted: seq<string>, notices: seq<Notice>)
    requires forall c :: c in dated <==> c in src || c in DateColumns
    requires forall c :: c in counted <==> c in dated || c in Metrics
    requires notices ==
      (if "post_date" in src then [] else [MissingPostDate]) + AbsentMetrics(dated, |Metrics|) +
      (if "content_type" in counted then [] else [MissingContentType])
    ensures notices == Warnings(src)
    ensures forall n :: n in notices ==> !Fatal(n)
  {
    AbsentMetricsAgree(dated, src, |Metrics|);
    assert "content_type" in counted <==> "content_type" in src by {
      assert "content_type" !in DateColumns && "content_type" !in Metrics;
    }
  }

  /** Line 30: `df['post_id'] = df['post_id'].astype(str)`. */
  method TextIds(df: Frame) returns (out: Frame)
    requires WellFormed(df) && "post_id" in df.columns
    ensures WellFormed(out) && IdsAsText(df, out)
  {
    out := Derive(df, "post_id", "post_id", AsText);
  }

  /** Lines 59-64: add the total engagement, then default a missing content
      type to "Unknown" with a warning. */
  method AddTotal(df: Frame) returns (out: Frame, notes: seq<Notice>)
    requires WellFormed(df)
    ensures WellFormed(out) && Finished(df, out)
    ensures notes == if "content_type" in df.columns then [] else [MissingContentType]
  {
    out := SetColumn(df, Total, Totals(df));
    ghost var summed := out;
    notes := [];
    if "content_type" !in out.columns {
      notes := [MissingContentType];
      out := Fill(out, "content_type", Text("Unknown"));
    }
    assert out == DefaultType(summed);
    FinishRows(df);
  }

  /** Lines 30-65, on a table whose standardised header has the key column:
      the loaded table, and a warning for each defaulted column. */
  method Process(src: Frame, parse: Cell -> Option<int>) returns (df: Frame, notices: seq<Notice>)
    requires WellFormed(src) && "post_id" in src.columns
    ensures Loaded(src, parse, df)
    ensures notices == Warnings(src.columns) && forall n :: n in notices ==> !Fatal(n)
  {
    df := TextIds(src);
    ghost var ided := df;
    var dateNotes, metricNotes, typeNotes;
    df, dateNotes := ParseDates(df, parse);
    ghost var dated := df;
    df, metricNotes := CoerceMetrics(df);
    ghost var counted := df;
    df, typeNotes := AddTotal(df);
    notices := dateNotes + metricNotes + typeNotes;
    IdsKeepSurvivors(src, ided, parse);
    assert Stages(src, ided, dated, counted, df, parse, Survivors(src, parse));
    assert Widened(src, ided, dated, counted, df);
    StagesLoaded(parse, src, ided, dated, counted, df);
    StagesWarnings(src.columns, dated.columns, counted.columns, notices);
  }

  /** load_data on a table as read by `pd.read_csv`, with `parse` standing for
      `pd.to_datetime(errors='coerce')` on one cell. Without a `post_id`
      column the result is the empty frame and a single error; otherwise it
      is the canonical table and only warnings. */
  method LoadData(raw: Frame, parse: Cell -> Option<int>) returns (df: Frame, notices: seq<Notice>)
    requires WellFormed(raw)
    ensures "post_id" !in NormalizeHeader(raw.columns) ==> df == Empty && notices == [MissingPostId]
    ensures "post_id" in NormalizeHeader(raw.columns) ==>
      Canonical(raw, parse, df) && notices == Warnings(NormalizeHeader(raw.columns))
    ensures (exists n :: n in notices && Fatal(n)) <==> "post_id" !in NormalizeHeader(raw.columns)
  {
    df := Renamed(raw);
    if "post_id" !in df.columns {
      df, notices := Empty, [MissingPostId];
      assert Fatal(notices[0]);
      return;
    }
    df, notices := Process(df, parse);
  }

  /** The shape of a loaded row: a text key, integer metrics, the total as
      their sum, and date fields that are either a date with its weekday or
      all missing. */
  ghost predicate RowShaped(columns: seq<string>, row: seq<Cell>)
  {
    var likes := At(columns, row, "likes");
    var shares := At(columns, row, "shares");
    var comments := At(columns, row, "comments");
    At(columns, row, "post_id").Text? &&
    likes.Int? && shares.Int? && comments.Int? &&
    At(columns, row, Total) == Int(likes.i + shares.i + comments.i) &&
    match At(columns, row, "post_date")
    case Date(d) =>
      At(columns, row, "day_of_week") == Text(DayNames[Weekday(d)]) &&
      At(columns, row, "day_of_week_num") == Int(Weekday(d))
    case Null =>
      At(columns, row, "day_of_week") == Null && At(columns, row, "day_of_week_num") == Null
    case _ => false
  }

  /** A table load_data could have produced: the written columns are there and
      every row is shaped. */
  ghost predicate Shaped(df: Frame)
  {
    WellFormed(df) && (forall c :: c in Written ==> c in df.columns) &&
    forall row :: row in df.rows ==> RowShaped(df.columns, row)
  }

  /** Every row carries a date. */
  ghost predicate AllDated(df: Frame)
  {
    forall row :: row in df.rows ==> At(df.columns, row, "post_date").Date?
  }

  lemma ShapedRow(src: Frame, s: int, parse: Cell -> Option<int>, df: Frame, i: int)
    requires 0 <= i < |df.rows| && LoadedRow(src, s, parse, df, i)
    ensures RowShaped(df.columns, df.rows[i])
    ensures "post_date" in src.columns ==> At(df.columns, df.rows[i], "post_date").Date?
    ensures "post_date" !in src.columns ==> At(df.columns, df.rows[i], "post_date") == Null
  {
    var likes := ToCount(Get(src, s, "likes"));
    var shares := ToCount(Get(src, s, "shares"));
    var comments := ToCount(Get(src, s, "comments"));
    LoadedCounts(src, s, parse, df, i);
    LoadedDates(src, s, parse, df, i);
    ShapedCells(df.columns, df.rows[i], likes, shares, comments);
  }

  /** The key and count cells of a loaded row, read by column name. */
  lemma LoadedCounts(src: Frame, s: int, parse: Cell -> Option<int>, df: Frame, i: int)
    requires 0 <= i < |df.rows| && LoadedRow(src, s, parse, df, i)
    ensures var row := df.rows[i];
      var likes := ToCount(Get(src, s, "likes"));
      var shares := ToCount(Get(src, s, "shares"));
      var comments := ToCount(Get(src, s, "comments"));
      At(df.columns, row, "post_id").Text? &&
      At(df.columns, row, "likes") == Int(likes) &&
      At(df.columns, row, "shares") == Int(shares) &&
      At(df.columns, row, "comments") == Int(comments) &&
      At(df.columns, row, Total) == Int(likes + shares + comments)
  {
    assert "likes" in Metrics && "shares" in Metrics && "comments" in Metrics;
    assert Get(df, i, "likes") == Int(ToCount(Get(src, s, "likes")));
    assert Get(df, i, "shares") == Int(ToCount(Get(src, s, "shares")));
    assert Get(df, i, "comments") == Int(ToCount(Get(src, s, "comments")));
  }

  /** The date cells of a loaded row, read by column name. */
  lemma LoadedDates(src: Frame, s: int, parse: Cell -> Option<int>, df: Frame, i: int)
    requires 0 <= i < |df.rows| && DateFields(src, s, parse, df, i)
    ensures var row := df.rows[i];
      var date := At(df.columns, row, "post_date");
      ("post_date" in src.columns ==> date.Date?) &&
      ("post_date" !in src.columns ==> date == Null) &&
      ((date.Date? &&
        At(df.columns, row, "day_of_week") == Text(DayNames[Weekday(date.day)]) &&
        At(df.columns, row, "day_of_week_num") == Int(Weekday(date.day))) ||
       (date == Null && At(df.columns, row, "day_of_week") == Null && At(df.columns, row, "day_of_week_num") == Null))
  {
  }

  lemma ShapedCells(columns: seq<string>, row: seq<Cell>, likes: int, shares: int, comments: int)
    requires At(columns, row, "post_id").Text?
    requires At(columns, row, "likes") == Int(likes)
    requires At(columns, row, "shares") == Int(shares)
    requires At(columns, row, "comments") == Int(comments)
    requires At(columns, row, Total) == Int(likes + shares + comments)
    requires var date := At(columns, row, "post_date");
      (date.Date? &&
       At(columns, row, "day_of_week") == Text(DayNames[Weekday(date.day)]) &&
       At(columns, row, "day_of_week_num") == Int(Weekday(date.day))) ||
      (date == Null && At(columns, row, "day_of_week") == Null && At(columns, row, "day_of_week_num") == Null)
    ensures RowShaped(columns, row)
  {
  }

  /** The loaded table is shaped; its rows are all dated when the input had a
      date column and all undated otherwise. */
  lemma CanonicalShaped(raw: Frame, parse: Cell -> Option<int>, df: Frame)
    requires Canonical(raw, parse, df)
    ensures Shaped(df)
    ensures "post_date" in NormalizeHeader(raw.columns) ==> AllDated(df)
    ensures "post_date" !in NormalizeHeader(raw.columns) ==>
      forall row :: row in df.rows ==> At(df.columns, row, "post_date") == Null
  {
    var src := Renamed(raw);
    var keep := Survivors(src, parse);
    forall row | row in df.rows
      ensures RowShaped(df.columns, row)
      ensures "post_date" in src.columns ==> At(df.columns, row, "post_date").Date?
      ensures "post_date" !in src.columns ==> At(df.columns, row, "post_date") == Null
    {
      var i :| 0 <= i < |df.rows| && df.rows[i] == row;
      ShapedRow(src, keep[i], parse, df, i);
    }
  }
}
