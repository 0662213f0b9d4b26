/** Order-preserving selection of rows (the boolean-mask indexing `df[mask]`
    and `dropna` use) and integer sums (the `.sum()` of a column). */
module Seqs {

  /** The elements of `s` that satisfy `p`, in their original order. */
  function Filter<T(!new)>(s: seq<T>, p: T -> bool): (r: seq<T>)
    ensures |r| <= |s|
    ensures forall x :: x in r <==> x in s && p(x)
  {
    if s == [] then []
    else Filter(s[..|s| - 1], p) + (if p(s[|s| - 1]) then [s[|s| - 1]] else [])
  }

  /** The positions in `s` of the elements that satisfy `p`, ascending. */
  function Kept<T(!new)>(s: seq<T>, p: T -> bool): (r: seq<nat>)
    ensures |r| == |Filter(s, p)|
    ensures forall j :: 0 <= j < |r| ==> r[j] < |s| && Filter(s, p)[j] == s[r[j]]
    ensures forall a, b :: 0 <= a < b < |r| ==> r[a] < r[b]
    ensures forall k :: k in r <==> 0 <= k < |s| && p(s[k])
  {
    if s == [] then []
    else
      var r0 := Kept(s[..|s| - 1], p);
      KeptStep(s, p, r0);
      r0 + (if p(s[|s| - 1]) then [|s| - 1] else [])
  }

  /** The facts `Kept` states, for positions `r` in `s`. */
  ghost predicate KeptLaws<T(!new)>(s: seq<T>, p: T -> bool, r: seq<nat>)
  {
    |r| == |Filter(s, p)| &&
    (forall j :: 0 <= j < |r| ==> r[j] < |s| && Filter(s, p)[j] == s[r[j]]) &&
    (forall a, b :: 0 <= a < b < |r| ==> r[a] < r[b]) &&
    (forall k :: k in r <==> 0 <= k < |s| && p(s[k]))
  }

  lemma KeptStep<T(!new)>(s: seq<T>, p: T -> bool, r0: seq<nat>)
    requires s != []
    requires var init := s[..|s| - 1];
      |r0| == |Filter(init, p)| &&
      (forall j :: 0 <= j < |r0| ==> r0[j] < |init| && Filter(init, p)[j] == init[r0[j]]) &&
      (forall a, b :: 0 <= a < b < |r0| ==> r0[a] < r0[b]) &&
      (forall k :: k in r0 <==> 0 <= k < |init| && p(init[k]))
    ensures KeptLaws(s, p, r0 + (if p(s[|s| - 1]) then [|s| - 1] else []))
  {
    KeptIndex(s, p, r0);
    KeptGrow(s, p, r0);
  }

  lemma KeptIndex<T(!new)>(s: seq<T>, p: T -> bool, r0: seq<nat>)
    requires s != []
    requires var init := s[..|s| - 1];
      |r0| == |Filter(init, p)| &&
      (forall j :: 0 <= j < |r0| ==> r0[j] < |init| && Filter(init, p)[j] == init[r0[j]]) &&
      (forall a, b :: 0 <= a < b < |r0| ==> r0[a] < r0[b])
    ensures var r := r0 + (if p(s[|s| - 1]) then [|s| - 1] else []);
      |r| == |Filter(s, p)| &&
      (forall j :: 0 <= j < |r| ==> r[j] < |s| && Filter(s, p)[j] == s[r[j]]) &&
      (forall a, b :: 0 <= a < b < |r| ==> r[a] < r[b])
  {
    var init := s[..|s| - 1];
    var f0 := Filter(init, p);
    var r := r0 + (if p(s[|s| - 1]) then [|s| - 1] else []);
    assert Filter(s, p) == f0 + (if p(s[|s| - 1]) then [s[|s| - 1]] else []);
    forall j | 0 <= j < |r0| ensures Filter(s, p)[j] == s[r[j]] {
      assert init[r0[j]] == s[r0[j]];
    }
  }

  lemma KeptGrow<T>(s: seq<T>, p: T -> bool, r0: seq<nat>)
    requires s != []
    requires var init := s[..|s| - 1];
      forall k :: k in r0 <==> 0 <= k < |init| && p(init[k])
    ensures forall k :: k in r0 + (if p(s[|s| - 1]) then [|s| - 1] else []) <==> 0 <= k < |s| && p(s[k])
  {
    var init := s[..|s| - 1];
    assert forall k :: 0 <= k < |init| ==> init[k] == s[k];
  }

  /** `Filter` distributes over concatenation. */
  lemma {:induction false} FilterAppend<T(!new)>(a: seq<T>, b: seq<T>, p: T -> bool)
    ensures Filter(a + b, p) == Filter(a, p) + Filter(b, p)
  {
    if b != [] {
      var b' := b[..|b| - 1];
      assert (a + b)[..|a + b| - 1] == a + b';
      FilterAppend(a, b', p);
    } else {
      assert a + b == a;
    }
  }

  /** Selecting twice with the same test selects nothing more. */
  lemma {:induction false} FilterIdempotent<T(!new)>(s: seq<T>, p: T -> bool)
    ensures Filter(Filter(s, p), p) == Filter(s, p)
  {
    if s != [] {
      var init := s[..|s| - 1];
      var last := s[|s| - 1];
      FilterIdempotent(init, p);
      var tail := if p(last) then [last] else [];
      FilterAppend(Filter(init, p), tail, p);
      assert Filter(tail, p) == tail by {
        if p(last) { assert tail[..0] == []; }
      }
    }
  }

  /** Two tests that agree on every element of `s` select the same elements. */
  lemma {:induction false} FilterAgree<T(!new)>(s: seq<T>, p: T -> bool, q: T -> bool)
    requires forall x :: x in s ==> p(x) == q(x)
    ensures Filter(s, p) == Filter(s, q)
  {
    if s != [] {
      FilterAgree(s[..|s| - 1], p, q);
    }
  }

  /** Selecting by `p` and then by `q` is selecting by their conjunction `both`. */
  lemma {:induction false} FilterThen<T(!new)>(s: seq<T>, p: T -> bool, q: T -> bool, both: T -> bool)
    requires forall x :: x in s ==> both(x) == (p(x) && q(x))
    ensures Filter(Filter(s, p), q) == Filter(s, both)
  {
    if s != [] {
      var init := s[..|s| - 1];
      var last := s[|s| - 1];
      FilterThen(init, p, q, both);
      var tail := if p(last) then [last] else [];
      FilterAppend(Filter(init, p), tail, q);
      assert Filter(tail, q) == (if both(last) then [last] else []) by {
        if p(last) { assert tail[..0] == []; }
      }
    }
  }

  /** A test every element passes selects everything. */
  lemma {:induction false} FilterAll<T(!new)>(s: seq<T>, p: T -> bool)
    requires forall x :: x in s ==> p(x)
    ensures Filter(s, p) == s
  {
    if s != [] {
      FilterAll(s[..|s| - 1], p);
      assert s[..|s| - 1] + [s[|s| - 1]] == s;
    }
  }

  /** A test no element passes selects nothing. */
  lemma {:induction false} FilterNone<T(!new)>(s: seq<T>, p: T -> bool)
    requires forall x :: x in s ==> !p(x)
    ensures Filter(s, p) == []
  {
    if s != [] {
      FilterNone(s[..|s| - 1], p);
      assert s[|s| - 1] in s;
    }
  }

  /** `Kept` depends only on the outcome of the test at each position. */
  lemma {:induction false} KeptAgree<T(!new), U(!new)>(s: seq<T>, p: T -> bool, t: seq<U>, q: U -> bool)
    requires |s| == |t|
    requires forall i :: 0 <= i < |s| ==> p(s[i]) == q(t[i])
    ensures Kept(s, p) == Kept(t, q)
  {
    if s != [] {
      KeptAgree(s[..|s| - 1], p, t[..|t| - 1], q);
    }
  }

  function Sum(xs: seq<int>): int
  {
    if xs == [] then 0 else Sum(xs[..|xs| - 1]) + xs[|xs| - 1]
  }

  /** Sums add up over concatenation. */
  lemma {:induction false} SumAppend(a: seq<int>, b: seq<int>)
    ensures Sum(a + b) == Sum(a) + Sum(b)
  {
    if b != [] {
      assert (a + b)[..|a + b| - 1] == a + b[..|b| - 1];
      SumAppend(a, b[..|b| - 1]);
    } else {
      assert a + b == a;
    }
  }
}
