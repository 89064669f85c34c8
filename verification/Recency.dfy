/** Recency windows as functions of the whole history of keys, and the linked lists that realise them. */
module Recency {
  import opened Common

  function Elements<K>(xs: seq<K>): set<K> {
    set x | x in xs
  }

  function Without<K(==)>(xs: seq<K>, k: K): (ys: seq<K>)
    ensures k !in ys && |ys| <= |xs|
    ensures Elements(ys) == Elements(xs) - {k}
  {
    if xs == [] then []
    else
      assert Elements(xs) == {xs[0]} + Elements(xs[1..]);
      var rest := Without(xs[1..], k);
      if xs[0] == k then rest
      else
        assert Elements([xs[0]] + rest) == {xs[0]} + Elements(rest);
        [xs[0]] + rest
  }

  function Newest<K>(xs: seq<K>, n: nat): seq<K> {
    if |xs| <= n then xs else xs[|xs| - n..]
  }

  /** The distinct keys of a history, in the order in which each was last seen. */
  function Recent<K(==)>(h: seq<K>): seq<K> {
    if h == [] then [] else Without(Recent(h[..|h| - 1]), h[|h| - 1]) + [h[|h| - 1]]
  }

  /** The part of a history after the last time `k` was seen. */
  function Since<K(==)>(h: seq<K>, k: K): (after: seq<K>)
    requires k in h
    ensures k !in after
  {
    if h[|h| - 1] == k then [] else Since(h[..|h| - 1], k) + [h[|h| - 1]]
  }

  /** Seen before, and fewer than `cap` distinct other keys since. */
  predicate Fresh<K(==)>(h: seq<K>, k: K, cap: nat) {
    k in h && |Elements(Since(h, k))| < cap
  }

  /** What a least-recently-used window of `cap` keys does with the next key. */
  function Touch<K(==)>(window: seq<K>, k: K, cap: nat): seq<K> {
    if k in window then Without(window, k) + [k] else Newest(window + [k], cap)
  }

  lemma {:induction false} WithoutAbsent<K>(xs: seq<K>, k: K)
    requires k !in xs
    ensures Without(xs, k) == xs
  {
    if xs != [] { WithoutAbsent(xs[1..], k); }
  }

  lemma {:induction false} WithoutConcat<K>(xs: seq<K>, ys: seq<K>, k: K)
    ensures Without(xs + ys, k) == Without(xs, k) + Without(ys, k)
  {
    if xs == [] {
      assert xs + ys == ys;
    } else {
      assert (xs + ys)[0] == xs[0] && (xs + ys)[1..] == xs[1..] + ys;
      WithoutConcat(xs[1..], ys, k);
    }
  }

  lemma {:induction false} WithoutUnique<K>(xs: seq<K>, k: K)
    requires NoDuplicates(xs)
    ensures NoDuplicates(Without(xs, k))
    ensures |Without(xs, k)| == if k in xs then |xs| - 1 else |xs|
  {
    if xs != [] {
      WithoutUnique(xs[1..], k);
      var rest := Without(xs[1..], k);
      forall j | 0 <= j < |rest| ensures rest[j] != xs[0] {
        assert rest[j] in Elements(rest) && rest[j] in Elements(xs[1..]);
      }
    }
  }

  lemma {:induction false} RecentKeys<K>(h: seq<K>)
    ensures NoDuplicates(Recent(h)) && Elements(Recent(h)) == Elements(h)
  {
    if h != [] {
      var k := h[|h| - 1];
      RecentKeys(h[..|h| - 1]);
      WithoutUnique(Recent(h[..|h| - 1]), k);
      assert Elements(h) == Elements(h[..|h| - 1]) + {k};
      assert Elements(Recent(h)) == Elements(Without(Recent(h[..|h| - 1]), k)) + {k};
    }
  }

  lemma NewestOfConcat<K>(xs: seq<K>, ys: seq<K>, n: nat)
    requires n <= |ys|
    ensures Newest(xs + ys, n) == Newest(ys, n)
  {
  }

  /** A first-in-first-out window, evicted after every append, is the newest part of everything appended. */
  lemma NewestAppend<K>(h: seq<K>, k: K, n: nat)
    ensures Newest(Newest(h, n) + [k], n) == Newest(h + [k], n)
  {
    var dropped := h[..|h| - |Newest(h, n)|];
    assert h + [k] == dropped + (Newest(h, n) + [k]);
    if |h| >= n { NewestOfConcat(dropped, Newest(h, n) + [k], n); }
  }

  lemma NewestLast<K>(xs: seq<K>, x: K, n: nat)
    requires n > 0
    ensures var window := Newest(xs + [x], n); window != [] && window[|window| - 1] == x
  {
  }

  /** Keeping only the newest `cap` distinct keys, step by step, loses nothing against the full history. */
  lemma WindowFollowsHistory<K>(h: seq<K>, k: K, cap: nat)
    ensures Touch(Newest(Recent(h), cap), k, cap) == Newest(Recent(h + [k]), cap)
  {
    var all := Recent(h);
    var window := Newest(all, cap);
    var dropped := all[..|all| - |window|];
    assert all == dropped + window;
    assert (h + [k])[..|h|] == h;
    RecentKeys(h);
    WithoutConcat(dropped, window, k);
    assert Recent(h + [k]) == Without(dropped, k) + (Without(window, k) + [k]);
    if k in window {
      KeyInWindow(dropped, window, k, cap);
    } else {
      WithoutAbsent(window, k);
      if |window| >= cap { NewestOfConcat(Without(dropped, k), window + [k], cap); }
    }
  }

  lemma SuffixDistinct<K>(xs: seq<K>, ys: seq<K>)
    requires NoDuplicates(xs + ys)
    ensures NoDuplicates(ys)
  {
    forall i, j | 0 <= i < j < |ys| ensures ys[i] != ys[j] {
      assert (xs + ys)[|xs| + i] == ys[i] && (xs + ys)[|xs| + j] == ys[j];
    }
  }

  lemma KeyInWindow<K>(dropped: seq<K>, window: seq<K>, k: K, cap: nat)
    requires NoDuplicates(dropped + window) && k in window
    requires |window| <= cap && (|window| < cap ==> dropped == [])
    ensures Newest(Without(dropped, k) + (Without(window, k) + [k]), cap) == Without(window, k) + [k]
  {
    SuffixDistinct(dropped, window);
    WithoutUnique(window, k);
    if |window| == cap {
      NewestOfConcat(Without(dropped, k), Without(window, k) + [k], cap);
    } else {
      assert Without(dropped, k) == [];
    }
  }

  /** In the recency order, what comes after `k` is what was seen since `k`, each key once. */
  lemma {:induction false} RecentSplit<K>(h: seq<K>, k: K) returns (before: seq<K>, after: seq<K>)
    requires k in h
    ensures Recent(h) == before + [k] + after
    ensures Elements(after) == Elements(Since(h, k))
  {
    var h', x := h[..|h| - 1], h[|h| - 1];
    if x == k {
      before, after := Without(Recent(h'), k), [];
    } else {
      var b, a := RecentSplit(h', k);
      WithoutConcat(b + [k], a, x);
      WithoutConcat(b, [k], x);
      WithoutAbsent([k], x);
      before, after := Without(b, x), Without(a, x) + [x];
      assert Elements(after) == Elements(Without(a, x)) + {x};
      assert Elements(Since(h, k)) == Elements(Since(h', k)) + {x};
    }
  }

  lemma {:induction false} DistinctCount<K>(xs: seq<K>)
    requires NoDuplicates(xs)
    ensures |Elements(xs)| == |xs|
  {
    if xs != [] {
      DistinctCount(xs[1..]);
      assert Elements(xs) == {xs[0]} + Elements(xs[1..]);
    }
  }

  /** The window holds exactly the keys the history specification calls fresh. */
  lemma InWindowIffFresh<K>(h: seq<K>, k: K, cap: nat)
    ensures k in Newest(Recent(h), cap) <==> Fresh(h, k, cap)
  {
    var all := Recent(h);
    RecentKeys(h);
    if k !in h {
      assert k !in Elements(h) && k !in Elements(all);
    } else {
      var before, after := RecentSplit(h, k);
      InNewest(before, k, after, cap);
      assert all[|before| + 1..] == after;
      assert NoDuplicates(after);
      DistinctCount(after);
    }
  }

  lemma InNewest<K>(before: seq<K>, k: K, after: seq<K>, cap: nat)
    requires NoDuplicates(before + [k] + after)
    ensures k in Newest(before + [k] + after, cap) <==> |after| < cap
  {
    var all := before + [k] + after;
    assert all[|before|] == k;
    var window := Newest(all, cap);
    var cut := |all| - |window|;
    assert window == all[cut..];
    if |after| < cap { assert window[|before| - cut] == k; }
    if k in window {
      var i :| 0 <= i < |window| && window[i] == k;
      assert all[cut + i] == k;
    }
  }

  // Linked lists: nodes keep their identity while they move, so an index may point at them.

  datatype Node<V> = Node(id: nat, key: string, value: V)

  function Keys<V>(list: seq<Node<V>>): (keys: seq<string>)
    ensures |keys| == |list| && forall i :: 0 <= i < |list| ==> keys[i] == list[i].key
  {
    seq(|list|, i requires 0 <= i < |list| => list[i].key)
  }

  /** The index names exactly the keys of the list, and each of its entries points at that key's own node. */
  ghost predicate Linked<V>(list: seq<Node<V>>, index: map<string, nat>, nextNode: nat) {
    && (forall i :: 0 <= i < |list| ==>
          list[i].key in index && index[list[i].key] == list[i].id && list[i].id < nextNode)
    && (forall i, j :: 0 <= i < j < |list| ==> list[i].id != list[j].id)
    && |index| == |list|
  }

  function Position<V>(list: seq<Node<V>>, id: nat): (i: nat)
    requires exists n <- list :: n.id == id
    ensures i < |list| && list[i].id == id
  {
    if list[0].id == id then 0 else Position(list[1..], id) + 1
  }

  /** `list.splice(list.end(), list, it)`: the node moves to the back and stays the same node. */
  function Splice<V>(list: seq<Node<V>>, id: nat): seq<Node<V>>
    requires exists n <- list :: n.id == id
  {
    var i := Position(list, id);
    list[..i] + list[i + 1..] + [list[i]]
  }

  lemma EqualSizes<K>(a: set<K>, b: set<K>)
    requires a <= b && |a| == |b|
    ensures a == b
  {
    if x :| x in b && x !in a {
      assert a <= b - {x};
      SubsetSize(a, b - {x});
    }
  }

  lemma {:induction false} SubsetSize<K>(a: set<K>, b: set<K>)
    requires a <= b
    ensures |a| <= |b|
    decreases a
  {
    if x :| x in a { SubsetSize(a - {x}, b - {x}); }
  }

  lemma LinkedKeys<V>(list: seq<Node<V>>, index: map<string, nat>, nextNode: nat)
    requires Linked(list, index, nextNode)
    ensures NoDuplicates(Keys(list)) && index.Keys == Elements(Keys(list))
  {
    var keys := Keys(list);
    forall i, j | 0 <= i < j < |keys| ensures keys[i] != keys[j] {
      assert index[keys[i]] == list[i].id != list[j].id == index[keys[j]];
    }
    DistinctCount(keys);
    EqualSizes(Elements(keys), index.Keys);
  }

  lemma {:induction false} WithoutAt<K>(xs: seq<K>, i: nat)
    requires NoDuplicates(xs) && i < |xs|
    ensures Without(xs, xs[i]) == xs[..i] + xs[i + 1..]
  {
    var k := xs[i];
    if i == 0 {
      assert k !in xs[1..];
      WithoutAbsent(xs[1..], k);
    } else {
      WithoutAt(xs[1..], i - 1);
      assert xs[1..][i - 1] == k && xs[0] != k;
      assert xs[1..][..i - 1] + xs[1..][i..] == xs[1..i] + xs[i + 1..];
      assert [xs[0]] + (xs[1..i] + xs[i + 1..]) == xs[..i] + xs[i + 1..];
    }
  }

  lemma NodeOf<V>(list: seq<Node<V>>, index: map<string, nat>, nextNode: nat, k: string) returns (i: nat)
    requires Linked(list, index, nextNode) && k in index
    ensures exists n <- list :: n.id == index[k]
    ensures i < |list| && list[i].key == k && i == Position(list, index[k])
  {
    LinkedKeys(list, index, nextNode);
    assert k in Elements(Keys(list));
    i :| 0 <= i < |list| && Keys(list)[i] == k;
    assert list[i] in list && list[i].id == index[k];
    var p := Position(list, index[k]);
    assert p == i;
  }

  lemma SpliceKeeps<V>(list: seq<Node<V>>, index: map<string, nat>, nextNode: nat, i: nat)
    requires Linked(list, index, nextNode) && i < |list|
    ensures var list' := list[..i] + list[i + 1..] + [list[i]];
      && Linked(list', index, nextNode)
      && Keys(list') == Keys(list)[..i] + Keys(list)[i + 1..] + [list[i].key]
      && (forall j :: 0 <= j < |list'| ==> list'[j] in list)
  {
    var n := |list|;
    var list' := list[..i] + list[i + 1..] + [list[i]];
    assert forall j :: 0 <= j < i ==> list'[j] == list[j];
    assert forall j :: i <= j < n - 1 ==> list'[j] == list[j + 1];
    assert list'[n - 1] == list[i];
  }

  lemma SpliceMovesToBack<V>(list: seq<Node<V>>, index: map<string, nat>, nextNode: nat, k: string)
    requires Linked(list, index, nextNode) && k in index
    ensures exists n <- list :: n.id == index[k]
    ensures var list' := Splice(list, index[k]);
      && Linked(list', index, nextNode) && |list'| == |list| > 0 && list'[|list| - 1].key == k
      && Keys(list') == Without(Keys(list), k) + [k]
      && (forall j :: 0 <= j < |list'| ==> list'[j] in list)
  {
    var i := NodeOf(list, index, nextNode, k);
    var list' := Splice(list, index[k]);
    SpliceKeeps(list, index, nextNode, i);
    LinkedKeys(list, index, nextNode);
    WithoutAt(Keys(list), i);
  }

  lemma PushBackLinks<V>(list: seq<Node<V>>, index: map<string, nat>, nextNode: nat, k: string, v: V)
    requires Linked(list, index, nextNode) && k !in index
    ensures Linked(list + [Node(nextNode, k, v)], index[k := nextNode], nextNode + 1)
    ensures Keys(list + [Node(nextNode, k, v)]) == Keys(list) + [k]
  {
  }

  lemma PopFrontLinks<V>(list: seq<Node<V>>, index: map<string, nat>, nextNode: nat)
    requires Linked(list, index, nextNode) && list != []
    ensures Linked(list[1..], index - {list[0].key}, nextNode) && Keys(list[1..]) == Keys(list)[1..]
  {
    var list', index' := list[1..], index - {list[0].key};
    assert index'.Keys == index.Keys - {list[0].key};
    assert forall i :: 0 <= i < |list'| ==> list'[i] == list[i + 1] && index[list'[i].key] != index[list[0].key];
  }
}
