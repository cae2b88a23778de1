/** Sequences of labelled values and the order list_sort (common/re_list.c) puts them in:
    the handler's answer sh(a, b) means that a may stand before b. */
module ListOrder {
  import opened Common


  function Insert<A>(s: seq<A>, k: nat, x: A): (r: seq<A>)
    requires k <= |s|
    ensures |r| == |s| + 1 && r[k] == x
    ensures forall i :: 0 <= i < k ==> r[i] == s[i]
    ensures forall i :: k < i < |r| ==> r[i] == s[i - 1]
  {
    s[..k] + [x] + s[k..]
  }

  function Remove<A>(s: seq<A>, k: nat): (r: seq<A>)
    requires k < |s|
    ensures |r| == |s| - 1
    ensures forall i :: 0 <= i < k ==> r[i] == s[i]
    ensures forall i :: k <= i < |r| ==> r[i] == s[i + 1]
  {
    s[..k] + s[k + 1..]
  }

  /** Exchanges the elements at i and i + 1. */
  function Swap<A>(s: seq<A>, i: nat): (r: seq<A>)
    requires i + 1 < |s|
    ensures |r| == |s| && r[i] == s[i + 1] && r[i + 1] == s[i]
    ensures forall k :: 0 <= k < |s| && k != i && k != i + 1 ==> r[k] == s[k]
  {
    s[i := s[i + 1]][i + 1 := s[i]]
  }

  /** What list_unlink followed by list_insert_after does to two neighbours. */
  lemma MoveIsSwap<A>(s: seq<A>, i: nat)
    requires i + 1 < |s|
    ensures Insert(Remove(s, i), i + 1, s[i]) == Swap(s, i)
  {
    hide Insert, Remove, Swap;
    var a, b := Insert(Remove(s, i), i + 1, s[i]), Swap(s, i);
    forall k | 0 <= k < |s| ensures a[k] == b[k] {
    }
  }

  // ----- what sorting means -----

  ghost predicate Total<D(!new)>(sh: (D, D) -> bool) {
    forall a, b :: sh(a, b) || sh(b, a)
  }

  ghost predicate Transitive<D(!new)>(sh: (D, D) -> bool) {
    forall a, b, c :: sh(a, b) && sh(b, c) ==> sh(a, c)
  }

  /** Every two neighbours are in order. */
  predicate Clean<L, D>(s: seq<(L, D)>, sh: (D, D) -> bool) {
    forall i, j :: 0 <= i && j == i + 1 < |s| ==> sh(s[i].1, s[j].1)
  }

  predicate Sorted<L, D>(s: seq<(L, D)>, sh: (D, D) -> bool) {
    forall i, j :: 0 <= i < j < |s| ==> sh(s[i].1, s[j].1)
  }

  ghost predicate Before<A>(s: seq<A>, x: A, y: A) {
    exists i, j :: 0 <= i < j < |s| && s[i] == x && s[j] == y
  }

  /** t holds the elements of s; two of them that were in order stay as they were. */
  ghost predicate Stable<L, D>(s: seq<(L, D)>, t: seq<(L, D)>, sh: (D, D) -> bool) {
    && multiset(t) == multiset(s)
    && forall x, y :: x in s && y in s && sh(x.1, y.1) && Before(s, x, y) ==> Before(t, x, y)
  }

  lemma {:induction false} CleanIsSorted<L, D(!new)>(s: seq<(L, D)>, sh: (D, D) -> bool)
    requires Clean(s, sh) && Transitive(sh)
    ensures Sorted(s, sh)
    decreases |s|
  {
    if |s| > 0 {
      var n := |s| - 1;
      CleanIsSorted(s[..n], sh);
      forall i | 0 <= i < n ensures sh(s[i].1, s[n].1) {
        if i < n - 1 {
          assert sh(s[..n][i].1, s[..n][n - 1].1);
        }
        assert sh(s[n - 1].1, s[n].1);
      }
      forall i, j | 0 <= i < j < |s| ensures sh(s[i].1, s[j].1) {
        if j < n {
          assert sh(s[..n][i].1, s[..n][j].1);
        }
      }
    }
  }

  lemma SwapKeepsElements<A>(s: seq<A>, i: nat)
    requires i + 1 < |s|
    ensures multiset(Swap(s, i)) == multiset(s)
  {
  }

  /** Where the element at k stands after the exchange. */
  function Moved(k: nat, i: nat): nat {
    if k == i then i + 1 else if k == i + 1 then i else k
  }

  lemma SwapBefore<A>(s: seq<A>, i: nat, x: A, y: A)
    requires i + 1 < |s| && Before(s, x, y) && !(x == s[i] && y == s[i + 1])
    ensures Before(Swap(s, i), x, y)
  {
    hide Swap;
    var j, k :| 0 <= j < k < |s| && s[j] == x && s[k] == y;
    assert Swap(s, i)[Moved(j, i)] == x && Swap(s, i)[Moved(k, i)] == y;
  }

  lemma SwapStable<L, D>(s: seq<(L, D)>, t: seq<(L, D)>, i: nat, sh: (D, D) -> bool)
    requires Stable(s, t, sh) && i + 1 < |t| && !sh(t[i].1, t[i + 1].1)
    ensures Stable(s, Swap(t, i), sh)
  {
    hide Swap, Before;
    SwapKeepsElements(t, i);
    forall x, y | x in s && y in s && sh(x.1, y.1) && Before(s, x, y) ensures Before(Swap(t, i), x, y) {
      SwapBefore(t, i, x, y);
    }
  }

  /** There is only one sorted and stable arrangement of distinct elements. */
  lemma SortedOnce<L, D>(s: seq<(L, D)>, t: seq<(L, D)>, u: seq<(L, D)>, sh: (D, D) -> bool)
    requires Distinct(s) && Distinct(t) && Distinct(u)
    requires Stable(s, t, sh) && Stable(s, u, sh) && Sorted(t, sh) && Sorted(u, sh)
    ensures t == u
  {
    SamePrefix(s, t, u, sh, |t|);
    assert |multiset(t)| == |t| && |multiset(u)| == |u|;
    assert t[..|t|] == t && u[..|t|] == u;
  }

  lemma {:induction false} SamePrefix<L, D>(s: seq<(L, D)>, t: seq<(L, D)>, u: seq<(L, D)>, sh: (D, D) -> bool, k: nat)
    requires Distinct(s) && Distinct(t) && Distinct(u)
    requires Stable(s, t, sh) && Stable(s, u, sh) && Sorted(t, sh) && Sorted(u, sh)
    requires k <= |t|
    ensures |t| == |u| && t[..k] == u[..k]
    decreases k
  {
    assert |multiset(t)| == |t| && |multiset(u)| == |u|;
    if k > 0 {
      var n := k - 1;
      SamePrefix(s, t, u, sh, n);
      assert t[..k] == t[..n] + [t[n]] && u[..k] == u[..n] + [u[n]];
      if t[n] != u[n] {
        Later(t, u, n);
        Later(u, t, n);
        assert t[n] in multiset(t) && u[n] in multiset(u);
        NotBoth(t, t[n], u[n]);
        NotBoth(u, u[n], t[n]);
        Either(s, t[n], u[n]);
      }
    }
  }

  /** Of two arrangements that part at n, the first has the other's element later. */
  lemma Later<L, D>(t: seq<(L, D)>, u: seq<(L, D)>, n: nat)
    requires n < |t| == |u| && t[..n] == u[..n] && t[n] != u[n] && Distinct(u) && multiset(t) == multiset(u)
    ensures Before(t, t[n], u[n]) && exists j :: n < j < |t| && t[j] == u[n]
  {
    assert u[n] in multiset(u);
    forall j | 0 <= j < n ensures t[j] != u[n] {
      assert t[j] == t[..n][j] && u[j] == u[..n][j];
    }
    var j :| 0 <= j < |t| && t[j] == u[n];
  }

  lemma NotBoth<A>(s: seq<A>, x: A, y: A)
    requires Distinct(s) && Before(s, x, y)
    ensures !Before(s, y, x)
  {
  }

  lemma Either<A>(s: seq<A>, x: A, y: A)
    requires x in s && y in s && x != y
    ensures Before(s, x, y) || Before(s, y, x)
  {
    var i :| 0 <= i < |s| && s[i] == x;
    var j :| 0 <= j < |s| && s[j] == y;
  }

  lemma StableItself<L, D>(s: seq<(L, D)>, sh: (D, D) -> bool)
    ensures Stable(s, s, sh)
  {
  }

  // ----- the measure -----

  /** How many elements of s should not stand before d. */
  function Bad<L, D>(s: seq<(L, D)>, d: D, sh: (D, D) -> bool): nat {
    if |s| == 0 then 0 else Bad(s[..|s| - 1], d, sh) + if sh(s[|s| - 1].1, d) then 0 else 1
  }

  /** How many pairs of elements are in the wrong order. */
  function Inversions<L, D>(s: seq<(L, D)>, sh: (D, D) -> bool): nat {
    if |s| == 0 then 0 else Inversions(s[..|s| - 1], sh) + Bad(s[..|s| - 1], s[|s| - 1].1, sh)
  }

  lemma {:induction false} SwapBad<L, D>(s: seq<(L, D)>, i: nat, d: D, sh: (D, D) -> bool)
    requires i + 1 < |s|
    ensures Bad(Swap(s, i), d, sh) == Bad(s, d, sh)
    decreases |s|
  {
    var n := |s| - 1;
    var t := Swap(s, i);
    if i + 1 < n {
      SwapBad(s[..n], i, d, sh);
      assert t[..n] == Swap(s[..n], i);
    } else {
      assert t[..n][..i] == s[..i] && s[..n][..i] == s[..i];
    }
  }

  /** Exchanging two neighbours in the wrong order removes one inversion. */
  lemma {:induction false} SwapInversions<L, D>(s: seq<(L, D)>, i: nat, sh: (D, D) -> bool)
    requires i + 1 < |s| && !sh(s[i].1, s[i + 1].1) && sh(s[i + 1].1, s[i].1)
    ensures Inversions(Swap(s, i), sh) == Inversions(s, sh) - 1
    decreases |s|
  {
    var n := |s| - 1;
    var t := Swap(s, i);
    if i + 1 < n {
      SwapInversions(s[..n], i, sh);
      assert t[..n] == Swap(s[..n], i);
      SwapBad(s[..n], i, s[n].1, sh);
    } else {
      assert t[..n][..i] == s[..i] && s[..n][..i] == s[..i];
      assert s[..n] == s[..i] + [s[i]] && t[..n] == s[..i] + [s[n]];
    }
  }

  // ----- passes over the list, until one exchanges nothing -----

  /** The rest of a pass, from position i on. */
  function PassFrom<L, D>(s: seq<(L, D)>, i: nat, sh: (D, D) -> bool): seq<(L, D)>
    decreases |s| - i
  {
    if i + 1 >= |s| then s
    else PassFrom(if sh(s[i].1, s[i + 1].1) then s else Swap(s, i), i + 1, sh)
  }

  function Passes<L, D>(s: seq<(L, D)>, n: nat, sh: (D, D) -> bool): seq<(L, D)> {
    if n == 0 then s else PassFrom(Passes(s, n - 1, sh), 0, sh)
  }

  ghost predicate Settles<L, D>(s: seq<(L, D)>, sh: (D, D) -> bool) {
    exists n: nat :: Clean(Passes(s, n, sh), sh)
  }

  lemma {:induction false} PassDescends<L, D(!new)>(s: seq<(L, D)>, i: nat, sh: (D, D) -> bool)
    requires Total(sh)
    ensures Inversions(PassFrom(s, i, sh), sh) <= Inversions(s, sh)
    ensures (exists k :: i <= k && k + 1 < |s| && !sh(s[k].1, s[k + 1].1)) ==>
              Inversions(PassFrom(s, i, sh), sh) < Inversions(s, sh)
    decreases |s| - i
  {
    hide Inversions, Swap;
    if i + 1 < |s| {
      if sh(s[i].1, s[i + 1].1) {
        PassDescends(s, i + 1, sh);
      } else {
        SwapInversions(s, i, sh);
        PassDescends(Swap(s, i), i + 1, sh);
      }
    }
  }

  lemma {:induction false} TotalSettles<L, D(!new)>(s: seq<(L, D)>, n: nat, sh: (D, D) -> bool)
    requires Total(sh)
    ensures Settles(s, sh)
    decreases Inversions(Passes(s, n, sh), sh)
  {
    hide Inversions;
    var t := Passes(s, n, sh);
    if !Clean(t, sh) {
      var k, j :| 0 <= k && j == k + 1 < |t| && !sh(t[k].1, t[j].1);
      PassDescends(t, 0, sh);
      assert Passes(s, n + 1, sh) == PassFrom(t, 0, sh);
      TotalSettles(s, n + 1, sh);
    }
  }

  lemma {:induction false} NeverClean<D>(a: D, b: D, n: nat, sh: (D, D) -> bool)
    requires !sh(a, b) && !sh(b, a)
    ensures
      var t := Passes([(false, a), (true, b)], n, sh);
      t == [(false, a), (true, b)] || t == [(true, b), (false, a)]
  {
    if n > 0 {
      NeverClean(a, b, n - 1, sh);
      var t := Passes([(false, a), (true, b)], n - 1, sh);
      assert PassFrom(t, 0, sh) == PassFrom(Swap(t, 0), 1, sh) == Swap(t, 0);
    }
  }

  /** The sort ends on every list exactly if the handler can order any two values, equal
      ones included. */
  lemma SettlesExactly<D(!new)>(sh: (D, D) -> bool)
    ensures (forall s: seq<(bool, D)> :: Settles(s, sh)) <==> Total(sh)
  {
    if Total(sh) {
      forall s: seq<(bool, D)> ensures Settles(s, sh) {
        TotalSettles(s, 0, sh);
      }
    } else {
      var a, b :| !sh(a, b) && !sh(b, a);
      var s := [(false, a), (true, b)];
      forall n: nat ensures !Clean(Passes(s, n, sh), sh) {
        NeverClean(a, b, n, sh);
        var t := Passes(s, n, sh);
        assert !sh(t[0].1, t[1].1);
      }
      assert !Settles(s, sh);
    }
  }
}
