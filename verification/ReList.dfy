/** The doubly linked list of common/re_list.c, its links kept in step with a sequence of
    elements and user data. */
module ReList {
  import opened ListOrder

  /** struct le */
  class Le<D(!new)> {
    var prev: Le?<D>
    var next: Le?<D>
    var list: List?<D>
    var data: D

    /** An element that is in no list. */
    constructor (d: D)
      ensures prev == null && next == null && list == null && data == d
    {
      prev, next, list, data := null, null, null, d;
    }

    /** list_unlink */
    method Unlink(ghost k: nat)
      requires list != null ==> list.Valid() && list.NodeAt(k) == this
      modifies this, list, if list == null then {} else list.Nodes()
      ensures old(list) == null ==> unchanged(this)
      ensures old(list) != null ==>
                && list == null && prev == null && next == null && data == old(data) && old(list).Valid()
                && old(list).items == Remove(old(list.items), k)
    {
      if list == null {
        return;
      }
      hide Remove;
      var l := list;
      ghost var n := |l.items|;
      ghost var was := l.items;
      assert l.LinkedAt(k);
      if k > 0 { assert l.LinkedAt(k - 1); }
      if k + 1 < n { assert l.LinkedAt(k + 1); }
      assert prev == l.NodeAt(k - 1) && next == l.NodeAt(k + 1);
      if prev != null {
        prev.next := next;
      } else {
        l.head := next;
      }
      if next != null {
        next.prev := prev;
      } else {
        l.tail := prev;
      }
      next := null;
      prev := null;
      list := null;
      l.items := Remove(was, k);
      List.Across(was, k);
      forall i {:trigger l.LinkedAt(i)} | 0 <= i < n - 1 ensures l.LinkedAt(i) {
        var j := if i < k then i else i + 1;
        assert old(list.LinkedAt(j));
        assert l.items[i] == was[j];
      }
    }
  }

  /** struct list */
  class List<D(!new)> {
    var head: Le?<D>
    var tail: Le?<D>
    /** The elements from head to tail, each with its user data. */
    ghost var items: seq<(Le<D>, D)>

    /** list_init */
    constructor ()
      ensures Valid() && items == []
    {
      head, tail, items := null, null, [];
    }

    ghost function Nodes(): set<Le<D>>
      reads this
    {
      set i | 0 <= i < |items| :: items[i].0
    }

    static ghost function At(s: seq<(Le<D>, D)>, i: int): Le?<D> {
      if 0 <= i < |s| then s[i].0 else null
    }

    /** The element at position i, null outside the list. */
    ghost function NodeAt(i: int): Le?<D>
      reads this
    {
      At(items, i)
    }

    ghost predicate LinkedAt(i: nat)
      requires i < |items|
      reads this, Nodes()
    {
      var n := items[i].0;
      && n.list == this && n.data == items[i].1
      && n.prev == NodeAt(i - 1) && n.next == NodeAt(i + 1)
    }

    ghost predicate Valid()
      reads this, Nodes()
    {
      && (forall i {:trigger LinkedAt(i)} :: 0 <= i < |items| ==> LinkedAt(i))
      && (forall i, j :: 0 <= i < j < |items| ==> items[i].0 != items[j].0)
      && head == NodeAt(0) && tail == NodeAt(|items| - 1)
    }

    /** Inserting a new element keeps the elements distinct. */
    static lemma InsertDistinct(s: seq<(Le<D>, D)>, k: nat, le: Le<D>, d: D)
      requires k <= |s| && (forall i, j :: 0 <= i < j < |s| ==> s[i].0 != s[j].0) && forall i :: 0 <= i < |s| ==> s[i].0 != le
      ensures var t := Insert(s, k, (le, d)); forall i, j :: 0 <= i < j < |t| ==> t[i].0 != t[j].0
    {
      hide Insert;
    }

    /** An element without a list is none of this list's. */
    lemma NotHere(le: Le<D>)
      requires Valid() && le.list == null
      ensures forall i :: 0 <= i < |items| ==> items[i].0 != le
    {
      forall i | 0 <= i < |items| ensures items[i].0 != le {
        assert LinkedAt(i);
      }
    }

    /** list_append */
    method Append(le: Le?<D>, data: D)
      requires Valid()
      modifies this, le, Nodes()
      ensures Valid()
      ensures items == if le == null || old(le.list) != null then old(items) else old(items) + [(le, data)]
    {
      if le == null || le.list != null {
        return;
      }
      ghost var n := |items|;
      NotHere(le);
      le.prev := tail;
      le.next := null;
      le.list := this;
      le.data := data;
      if head == null {
        head := le;
      }
      if tail != null {
        tail.next := le;
      }
      tail := le;
      items := items + [(le, data)];
      assert items[n].0 == le;
      forall i {:trigger LinkedAt(i)} | 0 <= i <= n ensures LinkedAt(i) {
        if i < n {
          assert old(LinkedAt(i));
        }
      }
    }

    /** list_prepend */
    method Prepend(le: Le?<D>, data: D)
      requires Valid()
      modifies this, le, Nodes()
      ensures Valid()
      ensures items == if le == null || old(le.list) != null then old(items) else [(le, data)] + old(items)
    {
      if le == null || le.list != null {
        return;
      }
      ghost var n := |items|;
      NotHere(le);
      le.prev := null;
      le.next := head;
      le.list := this;
      le.data := data;
      if head != null {
        head.prev := le;
      }
      if tail == null {
        tail := le;
      }
      head := le;
      items := [(le, data)] + items;
      assert items[0].0 == le;
      forall i {:trigger LinkedAt(i)} | 0 <= i <= n ensures LinkedAt(i) {
        if i > 0 {
          assert old(LinkedAt(i - 1));
        }
      }
    }

    /** The elements around the place of an insertion. */
    static lemma Around(s: seq<(Le<D>, D)>, k: nat, le: Le<D>, d: D)
      requires k <= |s|
      ensures forall i: int {:trigger At(Insert(s, k, (le, d)), i)} ::
                At(Insert(s, k, (le, d)), i) == if i < k then At(s, i) else if i == k then le else At(s, i - 1)
    {
      hide Insert;
    }

    /** The elements around the place of a removal. */
    static lemma Across(s: seq<(Le<D>, D)>, k: nat)
      requires k < |s|
      ensures forall i: int {:trigger At(Remove(s, k), i)} ::
                At(Remove(s, k), i) == if i < k then At(s, i) else At(s, i + 1)
      ensures (forall i, j :: 0 <= i < j < |s| ==> s[i].0 != s[j].0) ==>
                var t := Remove(s, k); forall i, j :: 0 <= i < j < |t| ==> t[i].0 != t[j].0
    {
      hide Remove;
    }

    /** list_insert_before */
    method InsertBefore(le: Le?<D>, ile: Le?<D>, data: D, ghost k: nat)
      requires Valid() && (le != null ==> le == NodeAt(k))
      modifies this, ile, Nodes()
      ensures Valid()
      ensures le == null || ile == null || old(ile.list) != null ==> items == old(items)
      ensures le != null && ile != null && old(ile.list) == null ==>
                items == Insert(old(items), k, (ile, data))
    {
      if le == null || ile == null || ile.list != null {
        return;
      }
      ghost var n := |items|;
      ghost var was := items;
      NotHere(ile);
      hide Insert;
      assert LinkedAt(k);
      if k > 0 { assert LinkedAt(k - 1); }
      assert le.prev == NodeAt(k - 1);
      if le.prev != null {
        le.prev.next := ile;
      } else if head == le {
        head := ile;
      }
      ile.prev := le.prev;
      ile.next := le;
      ile.list := this;
      ile.data := data;
      le.prev := ile;
      items := Insert(items, k, (ile, data));
      Around(was, k, ile, data);
      InsertDistinct(was, k, ile, data);
      forall i {:trigger LinkedAt(i)} | 0 <= i <= n ensures LinkedAt(i) {
        if i != k {
          var j := if i < k then i else i - 1;
          assert old(LinkedAt(j));
          assert items[i] == was[j] && was[j].0 != ile;
          if j == k - 1 {
            assert was[j].0 != le;
          } else if j != k {
            assert was[j].0 != le && was[j].0 != At(was, k - 1);
          }
        }
      }
    }

    /** list_insert_after */
    method InsertAfter(le: Le?<D>, ile: Le?<D>, data: D, ghost k: nat)
      requires Valid() && (le != null ==> le == NodeAt(k))
      modifies this, ile, Nodes()
      ensures Valid()
      ensures le == null || ile == null || old(ile.list) != null ==> items == old(items)
      ensures le != null && ile != null && old(ile.list) == null ==>
                items == Insert(old(items), k + 1, (ile, data))
    {
      if le == null || ile == null || ile.list != null {
        return;
      }
      ghost var n := |items|;
      ghost var was := items;
      NotHere(ile);
      hide Insert;
      assert LinkedAt(k);
      if k + 1 < n { assert LinkedAt(k + 1); }
      assert le.next == NodeAt(k + 1);
      if le.next != null {
        le.next.prev := ile;
      } else if tail == le {
        tail := ile;
      }
      ile.prev := le;
      ile.next := le.next;
      ile.list := this;
      ile.data := data;
      le.next := ile;
      items := Insert(items, k + 1, (ile, data));
      Around(was, k + 1, ile, data);
      InsertDistinct(was, k + 1, ile, data);
      forall i {:trigger LinkedAt(i)} | 0 <= i <= n ensures LinkedAt(i) {
        if i != k + 1 {
          var j := if i <= k then i else i - 1;
          assert old(LinkedAt(j));
          assert items[i] == was[j] && was[j].0 != ile;
          if j == k + 1 {
            assert was[j].0 != le;
          } else if j != k {
            assert was[j].0 != le && was[j].0 != At(was, k + 1);
          }
        }
      }
    }

    /** list_sort. The passes must settle on this list, or the sort does not end: they settle on
        every list exactly if the handler is total, see SettlesExactly. */
    method Sort(sh: (D, D) -> bool)
      requires Valid() && Settles(items, sh)
      modifies this, Nodes()
      ensures Valid() && Nodes() == old(Nodes())
      ensures Stable(old(items), items, sh) && Clean(items, sh)
      ensures Transitive(sh) ==> Sorted(items, sh)
      ensures exists n: nat :: items == Passes(old(items), n, sh)
    {
      hide Stable, Clean, Valid;
      ghost var n: nat := 0;
      ghost var enough: nat :| Clean(Passes(items, enough, sh), sh);
      var sort := true;
      StableItself(items, sh);
      while sort
        invariant Valid() && Nodes() == old(Nodes())
        invariant Stable(old(items), items, sh)
        invariant items == Passes(old(items), n, sh)
        invariant if sort then n <= enough else Clean(items, sh)
        decreases if sort then 1 + enough - n else 0
      {
        sort := Pass(sh, old(items));
        n := n + 1;
      }
      if Transitive(sh) {
        CleanIsSorted(items, sh);
      }
    }

    /** list_unlink(le) and list_insert_after(list, tle, le, le->data), for tle the next of le. */
    method MovePast(le: Le<D>, tle: Le<D>, ghost i: nat)
      requires Valid() && i + 1 < |items| && le == items[i].0 && tle == items[i + 1].0
      modifies this, Nodes()
      ensures Valid() && Nodes() == old(Nodes()) && items == Swap(old(items), i)
    {
      hide Insert, Remove, Swap;
      ghost var was := items;
      assert LinkedAt(i);
      le.Unlink(i);
      InsertAfter(tle, le, le.data, i);
      MoveIsSwap(was, i);
      SwapNodes(was, i);
    }

    static lemma SwapNodes(s: seq<(Le<D>, D)>, i: nat)
      requires i + 1 < |s|
      ensures (set k | 0 <= k < |s| :: Swap(s, i)[k].0) == (set k | 0 <= k < |s| :: s[k].0)
    {
      hide Swap;
      var t := Swap(s, i);
      forall k | 0 <= k < |s| ensures s[k] == t[Moved(k, i)] && t[k] == s[Moved(k, i)] {
      }
    }

    lemma Neighbours(i: nat)
      requires Valid() && i < |items|
      ensures head == NodeAt(0)
      ensures items[i].0.next == NodeAt(i + 1) && items[i].0.data == items[i].1
      ensures i + 1 < |items| ==> items[i + 1].0.data == items[i + 1].1
    {
      assert LinkedAt(i);
      if i + 1 < |items| {
        assert LinkedAt(i + 1);
      }
    }

    /** One pass of list_sort, from the label retry on. */
    method Pass(sh: (D, D) -> bool, ghost origin: seq<(Le<D>, D)>) returns (sort: bool)
      requires Valid() && Stable(origin, items, sh)
      modifies this, Nodes()
      ensures Valid() && Nodes() == old(Nodes()) && Stable(origin, items, sh)
      ensures items == PassFrom(old(items), 0, sh)
      ensures if sort then !Clean(old(items), sh) else Clean(items, sh)
    {
      hide Swap, Stable, Insert, Remove, LinkedAt, Valid;
      ghost var i: nat := 0;
      if |items| > 0 {
        Neighbours(0);
      } else {
        EmptyHead();
      }
      var le := head;
      sort := false;
      while le != null && le.next != null
        invariant Valid() && Nodes() == old(Nodes()) && Stable(origin, items, sh)
        invariant le == NodeAt(i) && i <= |items| == |old(items)|
        invariant PassFrom(items, i, sh) == PassFrom(old(items), 0, sh)
        invariant if sort then !Clean(old(items), sh) else items == old(items)
        invariant !sort ==> forall k, j :: 0 <= k && j == k + 1 <= i && j < |items| ==> sh(items[k].1, items[j].1)
        decreases |items| - i
      {
        Neighbours(i);
        if sh(le.data, le.next.data) {
          le := le.next;
        } else {
          ghost var was := items;
          var tle := le.next;
          MovePast(le, tle, i);
          SwapStable(origin, was, i, sh);
          sort := true;
        }
        i := i + 1;
      }
      if i < |items| {
        Neighbours(i);
      }
    }

    lemma EmptyHead()
      requires Valid() && items == []
      ensures head == null
    {
    }
  }
}
