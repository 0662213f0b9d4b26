/** `groupby(key)[value].sum()` with pandas' defaults: the groups come out
    sorted by key (`sort=True`), a missing key forms no group (`dropna=True`),
    and each group holds the sum of the values of its rows. */
module Groups {
  import opened Values
  import opened Seqs

  /** Cells of different kinds compare by kind; within a kind numbers and days
      compare numerically and texts by code point, as Python compares `str`. */
  function Kind(c: Cell): nat
  {
    match c
    case Null => 0
    case Int(_) => 1
    case Text(_) => 2
    case Date(_) => 3
  }

  /** Strict lexicographic order on strings. */
  predicate StrBelow(a: string, b: string)
  {
    if a == [] then b != []
    else if b == [] then false
    else a[0] < b[0] || (a[0] == b[0] && StrBelow(a[1..], b[1..]))
  }

  /** Strict order on group keys. */
  predicate Below(a: Cell, b: Cell)
  {
    if Kind(a) != Kind(b) then Kind(a) < Kind(b)
    else match a
      case Null => false
      case Int(x) => x < b.i
      case Text(s) => StrBelow(s, b.s)
      case Date(d) => d < b.day
  }

  lemma {:induction false} StrBelowIrreflexive(a: string)
    ensures !StrBelow(a, a)
  {
    if a != [] {
      StrBelowIrreflexive(a[1..]);
    }
  }

  lemma {:induction false} StrBelowTransitive(a: string, b: string, c: string)
    requires StrBelow(a, b) && StrBelow(b, c)
    ensures StrBelow(a, c)
  {
    if a != [] && b != [] && c != [] && a[0] == b[0] && b[0] == c[0] {
      StrBelowTransitive(a[1..], b[1..], c[1..]);
    }
  }

  lemma {:induction false} StrBelowTotal(a: string, b: string)
    requires a != b
    ensures StrBelow(a, b) || StrBelow(b, a)
  {
    if a != [] && b != [] && a[0] == b[0] {
      assert a == [a[0]] + a[1..] && b == [b[0]] + b[1..];
      StrBelowTotal(a[1..], b[1..]);
    }
  }

  lemma BelowIrreflexive(a: Cell)
    ensures !Below(a, a)
  {
    if a.Text? {
      StrBelowIrreflexive(a.s);
    }
  }

  lemma BelowTransitive(a: Cell, b: Cell, c: Cell)
    requires Below(a, b) && Below(b, c)
    ensures Below(a, c)
  {
    if a.Text? && b.Text? && c.Text? {
      StrBelowTransitive(a.s, b.s, c.s);
    }
  }

  lemma BelowTotal(a: Cell, b: Cell)
    requires a != b
    ensures Below(a, b) || Below(b, a)
  {
    if a.Text? && b.Text? {
      StrBelowTotal(a.s, b.s);
    }
  }

  /** Keys in strictly increasing order, hence without repetition. */
  predicate Ascending(ks: seq<Cell>)
  {
    forall a, b :: 0 <= a < b < |ks| ==> Below(ks[a], ks[b])
  }

  predicate Distinct(ks: seq<Cell>)
  {
    forall a, b :: 0 <= a < b < |ks| ==> ks[a] != ks[b]
  }

  lemma AscendingDistinct(ks: seq<Cell>)
    requires Ascending(ks)
    ensures Distinct(ks)
  {
    forall a, b | 0 <= a < b < |ks| ensures ks[a] != ks[b] {
      BelowIrreflexive(ks[a]);
    }
  }

  /** Adds `k` to a sorted key list unless it is already there. */
  function InsertKey(ks: seq<Cell>, k: Cell): (r: seq<Cell>)
    requires Ascending(ks)
    ensures Ascending(r)
    ensures forall x :: x in r <==> x in ks || x == k
  {
    if ks == [] then [k]
    else if k == ks[0] then ks
    else if Below(k, ks[0]) then
      assert forall b :: 0 <= b < |ks| ==> Below(k, ks[b]) by {
        forall b | 0 <= b < |ks| ensures Below(k, ks[b]) {
          if b > 0 {
            BelowTransitive(k, ks[0], ks[b]);
          }
        }
      }
      [k] + ks
    else
      BelowTotal(k, ks[0]);
      var rest := InsertKey(ks[1..], k);
      assert forall x :: x in rest ==> Below(ks[0], x) by {
        forall x | x in rest ensures Below(ks[0], x) {
          if x != k {
            var b :| 0 <= b < |ks[1..]| && ks[1..][b] == x;
            assert x == ks[b + 1];
          }
        }
      }
      [ks[0]] + rest
  }

  /** The group keys of a key column: its distinct present values, ascending. */
  function SortedKeys(cells: seq<Cell>): (r: seq<Cell>)
    ensures Ascending(r)
    ensures forall x :: x in r <==> x in cells && x != Null
  {
    if cells == [] then []
    else
      var init := cells[..|cells| - 1];
      var last := cells[|cells| - 1];
      assert forall x :: x in cells <==> x in init || x == last by {
        assert cells == init + [last];
      }
      var r := SortedKeys(init);
      if last == Null then r else InsertKey(r, last)
  }

  /** The sum of the values whose key is `k`. */
  function SumWhere(cells: seq<Cell>, vals: seq<int>, k: Cell): int
    requires |cells| == |vals|
  {
    if cells == [] then 0
    else
      SumWhere(cells[..|cells| - 1], vals[..|vals| - 1], k) +
      (if cells[|cells| - 1] == k then vals[|vals| - 1] else 0)
  }

  /** The sum of the values whose key is one of `ks`. */
  function SumIn(cells: seq<Cell>, vals: seq<int>, ks: seq<Cell>): int
    requires |cells| == |vals|
  {
    if cells == [] then 0
    else
      SumIn(cells[..|cells| - 1], vals[..|vals| - 1], ks) +
      (if cells[|cells| - 1] in ks then vals[|vals| - 1] else 0)
  }

  /** The sum of the values whose key is present. */
  function SumPresent(cells: seq<Cell>, vals: seq<int>): int
    requires |cells| == |vals|
  {
    if cells == [] then 0
    else
      SumPresent(cells[..|cells| - 1], vals[..|vals| - 1]) +
      (if cells[|cells| - 1] != Null then vals[|vals| - 1] else 0)
  }

  /** One output row of a grouped sum. */
  datatype Group = Group(key: Cell, total: int)

  /** One group per key of `ks`, in that order, each with its sum. */
  function Tally(ks: seq<Cell>, cells: seq<Cell>, vals: seq<int>): seq<Group>
    requires |cells| == |vals|
  {
    seq(|ks|, j requires 0 <= j < |ks| => Group(ks[j], SumWhere(cells, vals, ks[j])))
  }

  /** The grouped sum: groups in ascending key order, one per distinct
      present key, each holding the sum of its rows' values. */
  function GroupSum(cells: seq<Cell>, vals: seq<int>): (r: seq<Group>)
    requires |cells| == |vals|
    ensures Ascending(Keys(r))
    ensures forall k :: k in Keys(r) <==> k in cells && k != Null
    ensures forall j :: 0 <= j < |r| ==> r[j].total == SumWhere(cells, vals, r[j].key)
  {
    var r := Tally(SortedKeys(cells), cells, vals);
    assert Keys(r) == SortedKeys(cells);
    r
  }

  /** The sums column of a grouped result. */
  function Totals(gs: seq<Group>): (r: seq<int>)
    ensures |r| == |gs|
  {
    seq(|gs|, j requires 0 <= j < |gs| => gs[j].total)
  }

  /** Adding one row adds its value to the group of its key, if listed. */
  lemma {:induction false} TallyStep(ks: seq<Cell>, cells: seq<Cell>, vals: seq<int>, c: Cell, v: int)
    requires |cells| == |vals| && Distinct(ks)
    ensures Sum(Totals(Tally(ks, cells + [c], vals + [v]))) ==
      Sum(Totals(Tally(ks, cells, vals))) + (if c in ks then v else 0)
  {
    if ks != [] {
      var init := ks[..|ks| - 1];
      var k := ks[|ks| - 1];
      assert Distinct(init);
      TallyStep(init, cells, vals, c, v);
      var cells' := cells + [c];
      var vals' := vals + [v];
      assert cells'[..|cells'| - 1] == cells && vals'[..|vals'| - 1] == vals;
      assert SumWhere(cells', vals', k) == SumWhere(cells, vals, k) + (if c == k then v else 0);
      var after := Totals(Tally(ks, cells', vals'));
      var before := Totals(Tally(ks, cells, vals));
      assert after[..|after| - 1] == Totals(Tally(init, cells', vals'));
      assert before[..|before| - 1] == Totals(Tally(init, cells, vals));
      assert c in ks <==> c in init || c == k by {
        assert ks == init + [k];
      }
      assert c in init ==> c != k;
    }
  }

  /** Summing the groups of distinct keys is summing the rows whose key is one
      of them: every such row lands in exactly one group. */
  lemma {:induction false} TallyPartition(ks: seq<Cell>, cells: seq<Cell>, vals: seq<int>)
    requires |cells| == |vals| && Distinct(ks)
    ensures Sum(Totals(Tally(ks, cells, vals))) == SumIn(cells, vals, ks)
  {
    if cells == [] {
      assert forall j :: 0 <= j < |ks| ==> SumWhere(cells, vals, ks[j]) == 0;
      SumZero(Totals(Tally(ks, cells, vals)));
    } else {
      var init := cells[..|cells| - 1];
      var rest := vals[..|vals| - 1];
      TallyPartition(ks, init, rest);
      assert cells == init + [cells[|cells| - 1]] && vals == rest + [vals[|vals| - 1]];
      TallyStep(ks, init, rest, cells[|cells| - 1], vals[|vals| - 1]);
    }
  }

  lemma {:induction false} SumZero(xs: seq<int>)
    requires forall j :: 0 <= j < |xs| ==> xs[j] == 0
    ensures Sum(xs) == 0
  {
    if xs != [] {
      SumZero(xs[..|xs| - 1]);
    }
  }

  /** Summing over a key list that holds exactly the present keys is summing
      over the rows whose key is present. */
  lemma {:induction false} SumInPresent(cells: seq<Cell>, vals: seq<int>, ks: seq<Cell>)
    requires |cells| == |vals|
    requires forall x :: x in cells ==> (x in ks <==> x != Null)
    ensures SumIn(cells, vals, ks) == SumPresent(cells, vals)
  {
    if cells != [] {
      SumInPresent(cells[..|cells| - 1], vals[..|vals| - 1], ks);
    }
  }

  /** When no key is missing, every row is counted. */
  lemma {:induction false} SumPresentAll(cells: seq<Cell>, vals: seq<int>)
    requires |cells| == |vals| && Null !in cells
    ensures SumPresent(cells, vals) == Sum(vals)
  {
    if cells != [] {
      SumPresentAll(cells[..|cells| - 1], vals[..|vals| - 1]);
    }
  }

  /** The grouped sums add up to the sum over the rows with a present key,
      and to the whole sum when no key is missing. */
  lemma GroupSumCover(cells: seq<Cell>, vals: seq<int>)
    requires |cells| == |vals|
    ensures Sum(Totals(GroupSum(cells, vals))) == SumPresent(cells, vals)
    ensures Null !in cells ==> Sum(Totals(GroupSum(cells, vals))) == Sum(vals)
  {
    var ks := SortedKeys(cells);
    AscendingDistinct(ks);
    TallyPartition(ks, cells, vals);
    SumInPresent(cells, vals, ks);
    if Null !in cells {
      SumPresentAll(cells, vals);
    }
  }

  /** The groups of a key column do not depend on the values summed. */
  lemma SameKeys(cells: seq<Cell>, a: seq<int>, b: seq<int>)
    requires |cells| == |a| == |b|
    ensures Keys(GroupSum(cells, a)) == Keys(GroupSum(cells, b))
  {
    assert Keys(GroupSum(cells, a)) == SortedKeys(cells) == Keys(GroupSum(cells, b));
  }

  /** The keys column of a grouped result. */
  function Keys(gs: seq<Group>): (r: seq<Cell>)
    ensures |r| == |gs| && forall j :: 0 <= j < |gs| ==> r[j] == gs[j].key
  {
    seq(|gs|, j requires 0 <= j < |gs| => gs[j].key)
  }

  /** Two key columns that pick out the same rows for their keys give the same
      sum. */
  lemma {:induction false} SumWhereAgree(a: seq<Cell>, k: Cell, b: seq<Cell>, l: Cell, vals: seq<int>)
    requires |a| == |b| == |vals|
    requires forall i :: 0 <= i < |a| ==> (a[i] == k <==> b[i] == l)
    ensures SumWhere(a, vals, k) == SumWhere(b, vals, l)
  {
    if a != [] {
      SumWhereAgree(a[..|a| - 1], k, b[..|b| - 1], l, vals[..|vals| - 1]);
    }
  }
}
