/** The numbers the dashboard shows for the filtered table: the KPI sums
    (app.py lines 148-151), the top 20 posts (line 176), engagement per day
    (line 216), per weekday (line 230) and per content type (line 249), and
    the top post (line 287). Each is a single expression over the table. */
module Views {
  import opened Values
  import opened Seqs
  import opened Frames
  import opened Calendar
  import opened Ranking
  import opened Groups
  import Loader

  /** An integer column as numbers; a cell without an integer reads as 0. */
  function Ints(f: Frame, c: string): (r: seq<int>)
    ensures |r| == |f.rows|
  {
    seq(|f.rows|, i requires 0 <= i < |f.rows| => IntOf(Get(f, i, c)))
  }

  /** The `total_engagement_per_post` column. */
  function Engagement(f: Frame): (r: seq<int>)
    ensures |r| == |f.rows|
  {
    Ints(f, Loader.Total)
  }

  /** The first four KPIs; the average (line 154) is floating point and left
      out. */
  datatype Kpis = Kpis(posts: nat, likes: int, shares: int, comments: int)

  /** Lines 148-151: the number of posts and the column sums. */
  function KpiValues(f: Frame): (k: Kpis)
    ensures k.posts == |f.rows|
    ensures f.rows == [] ==> k == Kpis(0, 0, 0, 0)
  {
    Kpis(|f.rows|, Sum(Ints(f, "likes")), Sum(Ints(f, "shares")), Sum(Ints(f, "comments")))
  }

  lemma {:induction false} SumPointwise(a: seq<int>, b: seq<int>, c: seq<int>, d: seq<int>)
    requires |a| == |b| == |c| == |d|
    requires forall i :: 0 <= i < |d| ==> d[i] == a[i] + b[i] + c[i]
    ensures Sum(a) + Sum(b) + Sum(c) == Sum(d)
  {
    if d != [] {
      SumPointwise(a[..|a| - 1], b[..|b| - 1], c[..|c| - 1], d[..|d| - 1]);
    }
  }

  /** On a loaded table the likes, shares and comments KPIs add up to the
      total engagement of all posts. */
  lemma KpiTotals(f: Frame)
    requires Loader.Shaped(f)
    ensures var k := KpiValues(f); k.likes + k.shares + k.comments == Sum(Engagement(f))
  {
    var likes, shares, comments := Ints(f, "likes"), Ints(f, "shares"), Ints(f, "comments");
    var total := Engagement(f);
    forall i | 0 <= i < |total| ensures total[i] == likes[i] + shares[i] + comments[i] {
      assert Loader.RowShaped(f.columns, f.rows[i]);
    }
    SumPointwise(likes, shares, comments, total);
  }

  /** The KPIs of the table with rows appended are the sums of both parts. */
  lemma KpiAppend(f: Frame, g: Frame)
    requires f.columns == g.columns
    ensures var h := Frame(f.columns, f.rows + g.rows);
      KpiValues(h) == Kpis(KpiValues(f).posts + KpiValues(g).posts,
        KpiValues(f).likes + KpiValues(g).likes,
        KpiValues(f).shares + KpiValues(g).shares,
        KpiValues(f).comments + KpiValues(g).comments)
  {
    IntsAppend(f, g, "likes");
    IntsAppend(f, g, "shares");
    IntsAppend(f, g, "comments");
    SumAppend(Ints(f, "likes"), Ints(g, "likes"));
    SumAppend(Ints(f, "shares"), Ints(g, "shares"));
    SumAppend(Ints(f, "comments"), Ints(g, "comments"));
  }

  lemma IntsAppend(f: Frame, g: Frame, c: string)
    requires f.columns == g.columns
    ensures Ints(Frame(f.columns, f.rows + g.rows), c) == Ints(f, c) + Ints(g, c)
  {
    var h := Frame(f.columns, f.rows + g.rows);
    forall i | 0 <= i < |h.rows| ensures Ints(h, c)[i] == (Ints(f, c) + Ints(g, c))[i] {
      if i < |f.rows| {
        assert h.rows[i] == f.rows[i];
      } else {
        assert h.rows[i] == g.rows[i - |f.rows|];
      }
    }
  }

  /** How many posts the bar chart shows. */
  const TopCount := 20

  /** `nlargest(n, 'total_engagement_per_post')`: the `n` most engaging rows
      (all of them when there are fewer), most engaging first, ties in table
      order; no row left out is more engaging than a row taken. The rows are
      those at the positions of the one valid ranking (`IsTop`, unique by
      `TopUnique`), so no row is taken twice. */
  function TopPosts(f: Frame, n: nat): (r: Frame)
    ensures r.columns == f.columns && |r.rows| == Min(n, |f.rows|)
    ensures exists t ::
              IsTop(Engagement(f), n, t) && |t| == |r.rows| &&
              forall j :: 0 <= j < |t| ==> t[j] < |f.rows| && r.rows[j] == f.rows[t[j]]
    ensures forall j :: 0 <= j < |r.rows| ==> r.rows[j] in f.rows
    ensures forall a, b :: 0 <= a < b < |r.rows| ==>
      IntOf(Get(r, a, Loader.Total)) >= IntOf(Get(r, b, Loader.Total))
    ensures forall j, k :: 0 <= j < |r.rows| && 0 <= k < |f.rows| && f.rows[k] !in r.rows ==>
      IntOf(At(f.columns, f.rows[k], Loader.Total)) <= IntOf(Get(r, j, Loader.Total))
  {
    var t := TopIndices(Engagement(f), n);
    TopOrdered(f, n);
    TopOmitted(f, n);
    Pick(f, t)
  }

  /** The rows at positions `t`, in that order. */
  function Pick(f: Frame, t: seq<nat>): (r: Frame)
    requires forall j :: 0 <= j < |t| ==> t[j] < |f.rows|
    ensures r.columns == f.columns && |r.rows| == |t|
    ensures forall j :: 0 <= j < |t| ==> r.rows[j] == f.rows[t[j]] && r.rows[j] in f.rows
  {
    Frame(f.columns, seq(|t|, j requires 0 <= j < |t| => f.rows[t[j]]))
  }

  lemma TopOrdered(f: Frame, n: nat)
    ensures var r := Pick(f, TopIndices(Engagement(f), n));
      forall a, b :: 0 <= a < b < |r.rows| ==>
        IntOf(Get(r, a, Loader.Total)) >= IntOf(Get(r, b, Loader.Total))
  {
    var e := Engagement(f);
    var t := TopIndices(e, n);
    var r := Pick(f, t);
    assert forall j :: 0 <= j < |t| ==> IntOf(Get(r, j, Loader.Total)) == e[t[j]];
  }

  lemma TopOmitted(f: Frame, n: nat)
    ensures var r := Pick(f, TopIndices(Engagement(f), n));
      forall j, k :: 0 <= j < |r.rows| && 0 <= k < |f.rows| && f.rows[k] !in r.rows ==>
        IntOf(At(f.columns, f.rows[k], Loader.Total)) <= IntOf(Get(r, j, Loader.Total))
  {
    var e := Engagement(f);
    var t := TopIndices(e, n);
    var r := Pick(f, t);
    assert forall b :: 0 <= b < |t| ==> r.rows[b] in r.rows;
    forall j, k | 0 <= j < |r.rows| && 0 <= k < |f.rows| && f.rows[k] !in r.rows
      ensures IntOf(At(f.columns, f.rows[k], Loader.Total)) <= IntOf(Get(r, j, Loader.Total))
    {
      assert t[j] in t;
      assert Precedes(e, t[j], k);
      assert e[k] == IntOf(At(f.columns, f.rows[k], Loader.Total));
      assert e[t[j]] == IntOf(Get(r, j, Loader.Total));
    }
  }

  /** Line 287: the row at `idxmax()` of the engagement column. */
  function TopPost(f: Frame): (row: seq<Cell>)
    requires |f.rows| > 0
    ensures row in f.rows
    ensures forall k :: 0 <= k < |f.rows| ==>
      IntOf(At(f.columns, f.rows[k], Loader.Total)) <= IntOf(At(f.columns, row, Loader.Total))
  {
    var e := Engagement(f);
    var m := ArgMax(e);
    assert forall k :: 0 <= k < |f.rows| ==> e[k] == IntOf(At(f.columns, f.rows[k], Loader.Total));
    f.rows[m]
  }

  /** The top post is the first row, in table order, with the largest
      engagement: every earlier row is strictly less engaging. */
  lemma TopPostFirst(f: Frame)
    requires |f.rows| > 0
    ensures exists m :: (0 <= m < |f.rows| && TopPost(f) == f.rows[m] &&
      forall k :: 0 <= k < m ==> IntOf(Get(f, k, Loader.Total)) < IntOf(Get(f, m, Loader.Total)))
  {
    var e := Engagement(f);
    var m := ArgMax(e);
    assert forall k :: 0 <= k < |f.rows| ==> e[k] == IntOf(Get(f, k, Loader.Total));
    assert TopPost(f) == f.rows[m];
  }

  /** The top post heads the top-20 chart. */
  lemma TopPostLeads(f: Frame)
    requires |f.rows| > 0
    ensures TopPosts(f, TopCount).rows[0] == TopPost(f)
  {
    ArgMaxLeads(Engagement(f), TopCount);
  }

  /** Line 216: total engagement per calendar day, days ascending; rows
      without a date form no group. */
  function DailyTotals(f: Frame): (r: seq<Group>)
    ensures Ascending(Keys(r))
    ensures forall k :: k in Keys(r) <==> k in Column(f, "post_date") && k != Null
    ensures forall j :: 0 <= j < |r| ==>
      r[j].total == SumWhere(Column(f, "post_date"), Engagement(f), r[j].key)
  {
    GroupSum(Column(f, "post_date"), Engagement(f))
  }

  /** The daily groups of a loaded table are its distinct dates, ascending,
      each with the engagement of the posts of that day. */
  lemma DailyKeys(f: Frame)
    requires Loader.Shaped(f)
    ensures var r := DailyTotals(f);
      (forall j :: 0 <= j < |r| ==> r[j].key.Date?) &&
      (forall a, b :: 0 <= a < b < |r| ==> r[a].key.day < r[b].key.day) &&
      (forall d :: Date(d) in Keys(r) <==> exists i :: 0 <= i < |f.rows| && Get(f, i, "post_date") == Date(d)) &&
      forall j :: 0 <= j < |r| ==> r[j].total == SumWhere(Column(f, "post_date"), Engagement(f), r[j].key)
  {
    var dates := Column(f, "post_date");
    var r := DailyTotals(f);
    forall c | c in dates ensures c.Null? || c.Date? {
      var i :| 0 <= i < |dates| && dates[i] == c;
      assert Loader.RowShaped(f.columns, f.rows[i]);
    }
    forall j | 0 <= j < |r| ensures r[j].key.Date? {
      assert Keys(r)[j] in Keys(r);
    }
    forall d ensures Date(d) in dates <==> exists i :: 0 <= i < |f.rows| && Get(f, i, "post_date") == Date(d) {
      if Date(d) in dates {
        var i :| 0 <= i < |dates| && dates[i] == Date(d);
        assert Get(f, i, "post_date") == Date(d);
      }
      if exists i :: 0 <= i < |f.rows| && Get(f, i, "post_date") == Date(d) {
        var i :| 0 <= i < |f.rows| && Get(f, i, "post_date") == Date(d);
        assert dates[i] == Date(d);
      }
    }
  }

  /** On a table whose rows all carry a date, the daily totals add up to the
      total engagement. */
  lemma DailyCover(f: Frame)
    requires Loader.AllDated(f)
    ensures Sum(Totals(DailyTotals(f))) == Sum(Engagement(f))
  {
    var dates := Column(f, "post_date");
    assert Null !in dates by {
      forall i | 0 <= i < |dates| ensures dates[i] != Null {
        assert f.rows[i] in f.rows;
      }
    }
    GroupSumCover(dates, Engagement(f));
  }

  /** The categories of the ordered weekday column, Monday first. */
  const DayKeys: seq<Cell> :=
    [Text("Monday"), Text("Tuesday"), Text("Wednesday"), Text("Thursday"),
     Text("Friday"), Text("Saturday"), Text("Sunday")]

  lemma DayKeysNamed()
    ensures |DayKeys| == 7 && forall w :: 0 <= w < 7 ==> DayKeys[w] == Text(DayNames[w])
  {
    forall w | 0 <= w < 7 ensures DayKeys[w] == Text(DayNames[w]) {
      DayKey(w);
    }
  }

  /** The categories are the day names in order. */
  lemma DayKey(w: nat)
    requires w < 7
    ensures DayKeys[w] == Text(DayNames[w])
  {
  }

  /** Line 230: total engagement per weekday. When the weekday column is the
      ordered categorical (the table had dates) every weekday gets a group,
      Monday to Sunday, even an empty one; when it holds only missing values
      (the table had no dates) there are no groups. */
  function WeekdayTotals(f: Frame): (r: seq<Group>)
    ensures r != [] <==> exists i :: 0 <= i < |f.rows| && Get(f, i, "day_of_week").Text?
    ensures r == [] || |r| == 7
    ensures forall w :: 0 <= w < |r| ==>
      r[w].key == Text(DayNames[w]) && r[w].total == SumWhere(Column(f, "day_of_week"), Engagement(f), r[w].key)
  {
    DayKeysNamed();
    if exists i :: 0 <= i < |f.rows| && Get(f, i, "day_of_week").Text? then
      Tally(DayKeys, Column(f, "day_of_week"), Engagement(f))
    else
      []
  }

  /** The weekday number of each row's date (`day_of_week_num`). */
  function WeekdayNumbers(f: Frame): (r: seq<Cell>)
    ensures |r| == |f.rows|
  {
    seq(|f.rows|, i requires 0 <= i < |f.rows| => DayNumberCell(Get(f, i, "post_date")))
  }

  /** A dated row of a loaded table carries its date's weekday name. */
  lemma DatedRow(f: Frame, i: int)
    requires Loader.Shaped(f) && Loader.AllDated(f) && 0 <= i < |f.rows|
    ensures Get(f, i, "post_date").Date?
    ensures Get(f, i, "day_of_week") == Text(DayNames[Weekday(Get(f, i, "post_date").day)])
  {
    assert f.rows[i] in f.rows;
    assert Loader.RowShaped(f.columns, f.rows[i]);
  }

  lemma UndatedRow(f: Frame, i: int)
    requires Loader.Shaped(f) && 0 <= i < |f.rows| && Get(f, i, "post_date") == Null
    ensures Get(f, i, "day_of_week") == Null
  {
    assert f.rows[i] in f.rows;
    assert Loader.RowShaped(f.columns, f.rows[i]);
  }

  /** On a non-empty dated table there are seven groups, Monday to Sunday,
      and the group of weekday `w` sums exactly the posts whose date falls on
      weekday `w` (Monday = 0). */
  lemma WeekdayGroups(f: Frame)
    requires Loader.Shaped(f) && Loader.AllDated(f) && |f.rows| > 0
    ensures var r := WeekdayTotals(f);
      |r| == 7 &&
      forall w :: 0 <= w < 7 ==>
        r[w].key == Text(DayNames[w]) && r[w].total == SumWhere(WeekdayNumbers(f), Engagement(f), Int(w))
  {
    var names := Column(f, "day_of_week");
    var dates := Column(f, "post_date");
    DayNamesOf(f);
    assert names[0].Text?;
    forall w | 0 <= w < 7
      ensures SumWhere(names, Engagement(f), Text(DayNames[w])) == SumWhere(WeekdayNumbers(f), Engagement(f), Int(w))
    {
      NamesMatchNumbers(dates, names, WeekdayNumbers(f), Engagement(f), w);
    }
  }

  /** Every row of a dated loaded table carries its date's weekday name. */
  lemma DayNamesOf(f: Frame)
    requires Loader.Shaped(f) && Loader.AllDated(f)
    ensures var dates := Column(f, "post_date");
      forall i :: 0 <= i < |f.rows| ==> dates[i].Date? && Column(f, "day_of_week")[i] == DayNameCell(dates[i])
  {
    forall i | 0 <= i < |f.rows|
      ensures Get(f, i, "post_date").Date?
      ensures Get(f, i, "day_of_week") == DayNameCell(Get(f, i, "post_date"))
    {
      DatedRow(f, i);
    }
  }

  /** Grouping dated rows by weekday name or by weekday number selects the
      same rows. */
  lemma NamesMatchNumbers(dates: seq<Cell>, names: seq<Cell>, nums: seq<Cell>, e: seq<int>, w: nat)
    requires |dates| == |names| == |nums| == |e| && w < 7
    requires forall i :: 0 <= i < |dates| ==> dates[i].Date? && names[i] == DayNameCell(dates[i])
    requires forall i :: 0 <= i < |dates| ==> nums[i] == DayNumberCell(dates[i])
    ensures SumWhere(names, e, Text(DayNames[w])) == SumWhere(nums, e, Int(w))
  {
    forall i | 0 <= i < |names| ensures names[i] == Text(DayNames[w]) <==> nums[i] == Int(w) {
      var v := Weekday(dates[i].day);
      assert DayNames[v] == DayNames[w] <==> v == w;
    }
    SumWhereAgree(names, Text(DayNames[w]), nums, Int(w), e);
  }

  /** On a non-empty dated table the weekday totals add up to the total
      engagement, as the daily totals do. */
  lemma WeekdayCover(f: Frame)
    requires Loader.Shaped(f) && Loader.AllDated(f) && |f.rows| > 0
    ensures Sum(Totals(WeekdayTotals(f))) == Sum(Engagement(f))
    ensures Sum(Totals(WeekdayTotals(f))) == Sum(Totals(DailyTotals(f)))
  {
    var names := Column(f, "day_of_week");
    DayNamesOf(f);
    assert names[0].Text?;
    NamedCover(Column(f, "post_date"), names, Engagement(f));
    DailyCover(f);
  }

  /** Tallying dated rows over the seven day names covers every row. */
  lemma NamedCover(dates: seq<Cell>, names: seq<Cell>, e: seq<int>)
    requires |dates| == |names| == |e|
    requires forall i :: 0 <= i < |dates| ==> dates[i].Date? && names[i] == DayNameCell(dates[i])
    ensures Sum(Totals(Tally(DayKeys, names, e))) == Sum(e)
  {
    NamesAreDays(dates, names);
    DayKeysDistinct();
    TallyPartition(DayKeys, names, e);
    SumInPresent(names, e, DayKeys);
    SumPresentAll(names, e);
  }

  /** A dated row's weekday name is one of the seven categories. */
  lemma NamesAreDays(dates: seq<Cell>, names: seq<Cell>)
    requires |dates| == |names|
    requires forall i :: 0 <= i < |dates| ==> dates[i].Date? && names[i] == DayNameCell(dates[i])
    ensures Null !in names
    ensures forall x :: x in names ==> (x in DayKeys <==> x != Null)
  {
    forall i | 0 <= i < |names| ensures names[i] in DayKeys {
      DayKey(Weekday(dates[i].day));
    }
  }

  lemma DayKeysDistinct()
    ensures Distinct(DayKeys)
  {
  }

  /** On a table without dates there are no weekday groups. */
  lemma UndatedWeekdays(f: Frame)
    requires Loader.Shaped(f)
    requires forall i :: 0 <= i < |f.rows| ==> Get(f, i, "post_date") == Null
    ensures WeekdayTotals(f) == []
  {
    forall i | 0 <= i < |f.rows| ensures !Get(f, i, "day_of_week").Text? {
      UndatedRow(f, i);
    }
  }

  /** One row of the content-type breakdown. */
  datatype TypeTotals = TypeTotals(key: Cell, likes: int, shares: int, comments: int)

  /** Line 249: the likes, shares and comments of each content type, types
      ascending, one row per distinct type present; rows without a type form
      no group. */
  function TypeBreakdown(f: Frame): (r: seq<TypeTotals>)
    ensures forall a, b :: 0 <= a < b < |r| ==> Below(r[a].key, r[b].key)
    ensures forall k :: (exists j :: 0 <= j < |r| && r[j].key == k) <==>
      k in Column(f, "content_type") && k != Null
    ensures forall j :: 0 <= j < |r| ==>
      var types := Column(f, "content_type");
      r[j].likes == SumWhere(types, Ints(f, "likes"), r[j].key) &&
      r[j].shares == SumWhere(types, Ints(f, "shares"), r[j].key) &&
      r[j].comments == SumWhere(types, Ints(f, "comments"), r[j].key)
  {
    var types := Column(f, "content_type");
    var likes := GroupSum(types, Ints(f, "likes"));
    var shares := GroupSum(types, Ints(f, "shares"));
    var comments := GroupSum(types, Ints(f, "comments"));
    SameKeys(types, Ints(f, "likes"), Ints(f, "shares"));
    SameKeys(types, Ints(f, "likes"), Ints(f, "comments"));
    var r := Zip(likes, shares, comments);
    ZipKeys(likes, r);
    assert forall k :: k in Keys(likes) <==> k in types && k != Null;
    assert forall k :: (exists j :: 0 <= j < |r| && r[j].key == k) <==> k in Keys(likes);
    assert forall k :: (exists j :: 0 <= j < |r| && r[j].key == k) <==> k in types && k != Null;
    r
  }

  /** The three grouped sums side by side. */
  function Zip(likes: seq<Group>, shares: seq<Group>, comments: seq<Group>): (r: seq<TypeTotals>)
    requires Keys(shares) == Keys(likes) && Keys(comments) == Keys(likes)
    ensures |r| == |likes|
    ensures forall j :: 0 <= j < |r| ==>
      r[j].key == likes[j].key == shares[j].key == comments[j].key &&
      r[j].likes == likes[j].total && r[j].shares == shares[j].total && r[j].comments == comments[j].total
  {
    assert forall j :: 0 <= j < |likes| ==> Keys(shares)[j] == Keys(likes)[j] == Keys(comments)[j];
    seq(|likes|, j requires 0 <= j < |likes| =>
      TypeTotals(likes[j].key, likes[j].total, shares[j].total, comments[j].total))
  }

  lemma ZipKeys(likes: seq<Group>, r: seq<TypeTotals>)
    requires |r| == |likes| && forall j :: 0 <= j < |r| ==> r[j].key == likes[j].key
    ensures forall k :: (exists j :: 0 <= j < |r| && r[j].key == k) <==> k in Keys(likes)
  {
    forall k | k in Keys(likes) ensures exists j :: 0 <= j < |r| && r[j].key == k {
      var j :| 0 <= j < |likes| && Keys(likes)[j] == k;
      assert r[j].key == k;
    }
  }

  /** The likes of the breakdown rows. */
  function TypeLikes(r: seq<TypeTotals>): (s: seq<int>)
    ensures |s| == |r|
  {
    seq(|r|, j requires 0 <= j < |r| => r[j].likes)
  }

  function TypeShares(r: seq<TypeTotals>): (s: seq<int>)
    ensures |s| == |r|
  {
    seq(|r|, j requires 0 <= j < |r| => r[j].shares)
  }

  function TypeComments(r: seq<TypeTotals>): (s: seq<int>)
    ensures |s| == |r|
  {
    seq(|r|, j requires 0 <= j < |r| => r[j].comments)
  }

  /** When every post has a type, the breakdown's columns add up to the
      likes, shares and comments KPIs. */
  lemma TypeCover(f: Frame)
    requires forall i :: 0 <= i < |f.rows| ==> Get(f, i, "content_type") != Null
    ensures var r := TypeBreakdown(f); var k := KpiValues(f);
      Sum(TypeLikes(r)) == k.likes && Sum(TypeShares(r)) == k.shares && Sum(TypeComments(r)) == k.comments
  {
    var types := Column(f, "content_type");
    var r := TypeBreakdown(f);
    assert TypeLikes(r) == Totals(GroupSum(types, Ints(f, "likes")));
    assert TypeShares(r) == Totals(GroupSum(types, Ints(f, "shares")));
    assert TypeComments(r) == Totals(GroupSum(types, Ints(f, "comments")));
    GroupSumCover(types, Ints(f, "likes"));
    GroupSumCover(types, Ints(f, "shares"));
    GroupSumCover(types, Ints(f, "comments"));
  }
}
