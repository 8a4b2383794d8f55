/** Sorting as SQL's ORDER BY does it: rows are inserted one by one into a
    sequence kept sorted by a total preorder. */
module Ordering {

  /** `le` compares every pair and chains: the shape of an ORDER BY key. */
  ghost predicate TotalPreorder<T(!new)>(le: (T, T) -> bool) {
    (forall a, b :: le(a, b) || le(b, a))
    && (forall a, b, c :: le(a, b) && le(b, c) ==> le(a, c))
  }

  predicate SortedBy<T>(s: seq<T>, le: (T, T) -> bool) {
    forall i, j :: 0 <= i < j < |s| ==> le(s[i], s[j])
  }

  /** Every element of `s` is at least `x`. */
  ghost predicate AllAbove<T>(x: T, s: seq<T>, le: (T, T) -> bool) {
    forall k :: 0 <= k < |s| ==> le(x, s[k])
  }

  lemma AboveByMultiset<T>(x: T, s: seq<T>, t: seq<T>, le: (T, T) -> bool)
    requires AllAbove(x, s, le) && multiset(t) <= multiset(s)
    ensures AllAbove(x, t, le)
  {
    forall k | 0 <= k < |t|
      ensures le(x, t[k])
    {
      assert t[k] in multiset(t);
      assert t[k] in s;
    }
  }

  /** Inserts `x` after every element it does not precede, so the result stays sorted. */
  function Insert<T(!new)>(x: T, s: seq<T>, le: (T, T) -> bool): (r: seq<T>)
    requires TotalPreorder(le) && SortedBy(s, le)
    ensures SortedBy(r, le)
    ensures multiset(r) == multiset(s) + multiset{x}
    decreases |s|
  {
    if |s| == 0 then [x]
    else if le(x, s[0]) then
      assert AllAbove(x, s, le);
      [x] + s
    else
      var t := Insert(x, s[1..], le);
      assert s == [s[0]] + s[1..];
      assert AllAbove(s[0], s[1..] + [x], le);
      AboveByMultiset(s[0], s[1..] + [x], t, le);
      [s[0]] + t
  }

  /** Each entry of `m` occurs in `list` exactly once, and nothing else does. */
  ghost predicate ListsExactly<K(!new), V(!new)>(list: seq<(K, V)>, m: map<K, V>) {
    forall e :: multiset(list)[e] == if e.0 in m && m[e.0] == e.1 then 1 else 0
  }

  /** No key is listed twice. */
  lemma ListsExactlyDistinct<K(!new), V(!new)>(list: seq<(K, V)>, m: map<K, V>)
    requires ListsExactly(list, m)
    ensures forall i, j :: 0 <= i < j < |list| ==> list[i].0 != list[j].0
    ensures forall i :: 0 <= i < |list| ==> list[i].0 in m && m[list[i].0] == list[i].1
  {
    forall i | 0 <= i < |list|
      ensures list[i].0 in m && m[list[i].0] == list[i].1
    {
      assert list[i] in multiset(list);
    }
    forall i, j | 0 <= i < j < |list|
      ensures list[i].0 != list[j].0
    {
      assert list[i] in multiset(list[..j]) && list == list[..j] + list[j..];
    }
  }

  /** The entries of `m` in the order `le`, as ORDER BY returns the rows of a table. */
  method SortedItems<K(==, !new), V(==, !new)>(m: map<K, V>, le: ((K, V), (K, V)) -> bool) returns (list: seq<(K, V)>)
    requires TotalPreorder(le)
    ensures SortedBy(list, le)
    ensures ListsExactly(list, m)
  {
    list := [];
    var left := m.Keys;
    while left != {}
      invariant left <= m.Keys
      invariant SortedBy(list, le)
      invariant forall e :: multiset(list)[e] == if e.0 in m && e.0 !in left && m[e.0] == e.1 then 1 else 0
      decreases left
    {
      var k :| k in left;
      list := Insert((k, m[k]), list, le);
      left := left - {k};
    }
  }
}
