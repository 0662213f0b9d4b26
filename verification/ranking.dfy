/** Ranking rows by a score, as `nlargest(n, col)` (keep='first') and
    `idxmax()` do: higher scores first, and among equal scores the earlier
    row first. Rows are referred to by position. */
module Ranking {

  /** Row `i` ranks before row `j`. */
  predicate Precedes(e: seq<int>, i: nat, j: nat)
    requires i < |e| && j < |e|
  {
    e[i] > e[j] || (e[i] == e[j] && i < j)
  }

  /** `r` lists positions of `e`, best first. */
  predicate Ranked(e: seq<int>, r: seq<nat>)
  {
    (forall a :: 0 <= a < |r| ==> r[a] < |e|) &&
    forall a, b :: 0 <= a < b < |r| ==> Precedes(e, r[a], r[b])
  }

  /** Inserting one more position into a ranking. */
  function Insert(e: seq<int>, r: seq<nat>, k: nat): (r': seq<nat>)
    requires k < |e| && k !in r && Ranked(e, r)
    ensures |r'| == |r| + 1 && Ranked(e, r')
    ensures forall x :: x in r' <==> x in r || x == k
  {
    if r == [] then [k]
    else if Precedes(e, k, r[0]) then
      assert forall b :: 0 <= b < |r| ==> Precedes(e, k, r[b]) by {
        forall b | 0 <= b < |r| ensures Precedes(e, k, r[b]) {
          if b > 0 { assert Precedes(e, r[0], r[b]); }
        }
      }
      [k] + r
    else
      var rest := Insert(e, r[1..], k);
      assert forall x :: x in rest ==> Precedes(e, r[0], x) by {
        forall x | x in rest ensures Precedes(e, r[0], x) {
          if x != k {
            var b :| 0 <= b < |r[1..]| && r[1..][b] == x;
            assert x == r[b + 1];
          }
        }
      }
      [r[0]] + rest
  }

  /** The first `m` positions of `e`, best first. */
  function Rank(e: seq<int>, m: nat): (r: seq<nat>)
    requires m <= |e|
    ensures |r| == m && Ranked(e, r)
    ensures forall x :: x in r <==> 0 <= x < m
  {
    if m == 0 then [] else Insert(e, Rank(e, m - 1), m - 1)
  }

  function Min(a: int, b: int): int { if a <= b then a else b }

  /** `t` is a valid answer to `nlargest(n)`: min(n, |e|) positions, best
      first, and every position left out ranks below every position taken. */
  predicate IsTop(e: seq<int>, n: nat, t: seq<nat>)
  {
    |t| == Min(n, |e|) && Ranked(e, t) &&
    forall j: nat, k: nat :: j in t && k < |e| && k !in t ==> Precedes(e, j, k)
  }

  /** `nlargest(n)`: the positions of the `n` best rows (all of them when there
      are fewer), best first; every row left out ranks below every row taken. */
  function TopIndices(e: seq<int>, n: nat): (r: seq<nat>)
    ensures IsTop(e, n, r)
    ensures |r| == Min(n, |e|) && Ranked(e, r)
    ensures forall a, b :: 0 <= a < b < |r| ==> r[a] != r[b] && e[r[a]] >= e[r[b]]
    ensures forall j: nat, k: nat :: j in r && k < |e| && k !in r ==> Precedes(e, j, k)
  {
    var all := Rank(e, |e|);
    var r := all[..Min(n, |e|)];
    forall j: nat, k: nat | j in r && k < |e| && k !in r ensures Precedes(e, j, k) {
      var a :| 0 <= a < |r| && r[a] == j;
      assert k in all;
      var b :| 0 <= b < |all| && all[b] == k;
      assert b >= |r|;
    }
    r
  }

  /** There is only one valid answer: the ranking with ties broken by
      position determines which rows are taken and in what order. */
  lemma TopUnique(e: seq<int>, n: nat, t: seq<nat>, u: seq<nat>)
    requires IsTop(e, n, t) && IsTop(e, n, u)
    ensures t == u
  {
    PrefixAgree(e, n, t, u, |t|);
    assert t == t[..|t|] && u == u[..|u|];
  }

  lemma {:induction false} PrefixAgree(e: seq<int>, n: nat, t: seq<nat>, u: seq<nat>, k: nat)
    requires IsTop(e, n, t) && IsTop(e, n, u) && k <= |t|
    ensures t[..k] == u[..k]
  {
    if k > 0 {
      var m := k - 1;
      PrefixAgree(e, n, t, u, m);
      if t[m] != u[m] {
        forall b | 0 <= b < m ensures u[b] != u[m] && t[b] != t[m] {
          assert Precedes(e, u[b], u[m]) && Precedes(e, t[b], t[m]);
        }
        assert u[m] !in t[..m] && t[m] !in u[..m];
        Leads(e, n, t, m, u[m]);
        Leads(e, n, u, m, t[m]);
        assert false;
      }
      assert t[..k] == t[..m] + [t[m]] && u[..k] == u[..m] + [u[m]];
    }
  }

  /** Entry `m` of a valid answer ranks before every position not listed
      ahead of it. */
  lemma Leads(e: seq<int>, n: nat, t: seq<nat>, m: nat, x: nat)
    requires IsTop(e, n, t) && m < |t| && x < |e| && x !in t[..m] && x != t[m]
    ensures Precedes(e, t[m], x)
  {
    assert t[m] in t;
    if x in t {
      var b :| 0 <= b < |t| && t[b] == x;
      assert forall c :: 0 <= c < m ==> t[c] in t[..m];
      assert Precedes(e, t[m], t[b]);
    }
  }

  /** `idxmax()`: the first position holding the largest value. */
  function ArgMax(e: seq<int>): (m: nat)
    requires |e| > 0
    ensures m < |e|
    ensures forall k :: 0 <= k < |e| ==> e[k] <= e[m]
    ensures forall k :: 0 <= k < m ==> e[k] < e[m]
  {
    if |e| == 1 then 0
    else
      var m := ArgMax(e[..|e| - 1]);
      if e[|e| - 1] > e[m] then |e| - 1 else m
  }

  /** The head of the top rows ranks before every other row. */
  lemma TopFirst(e: seq<int>, n: nat, x: nat)
    requires n > 0 && x < |e|
    ensures x == TopIndices(e, n)[0] || Precedes(e, TopIndices(e, n)[0], x)
  {
    var t := TopIndices(e, n);
    if x in t {
      var b :| 0 <= b < |t| && t[b] == x;
      if b > 0 {
        assert Precedes(e, t[0], t[b]);
      }
    }
  }

  /** The top post is the first of the top rows: `idxmax` agrees with the
      head of `nlargest`. */
  lemma ArgMaxLeads(e: seq<int>, n: nat)
    requires |e| > 0 && n > 0
    ensures TopIndices(e, n)[0] == ArgMax(e)
  {
    TopFirst(e, n, ArgMax(e));
  }
}
