/** The bounded cache of recent rounds: a linked list in recency order and a map to its nodes. */
module RoundCache {
  import opened Common
  import opened Recency

  datatype CachedRound = CachedRound(gameId: string, multiplier: real, endedAtMs: int, cachedAtMs: int, hash: string)

  datatype Op = Put(round: CachedRound) | Get(gameId: string)

  type List = seq<Node<CachedRound>>

  /** The keys touched by a history of calls: every put, and every get that hits. */
  function Touches(ops: seq<Op>, cap: nat): seq<string> {
    if ops == [] then []
    else
      var before := Touches(ops[..|ops| - 1], cap);
      match ops[|ops| - 1]
      case Put(round) => before + [round.gameId]
      case Get(k) => if Fresh(before, k, cap) then before + [k] else before
  }

  /** The value most recently put for a key. */
  function LastPut(ops: seq<Op>, k: string): Option<CachedRound> {
    if ops == [] then None
    else
      var last := ops[|ops| - 1];
      if last.Put? && last.round.gameId == k then Some(last.round) else LastPut(ops[..|ops| - 1], k)
  }

  /** What the whole history says `get(k)` should answer. */
  function Expected(ops: seq<Op>, k: string, cap: nat): Option<CachedRound> {
    if Fresh(Touches(ops, cap), k, cap) then LastPut(ops, k) else None
  }

  /** The list is the newest `cap` keys of the history, with the last value put for each. */
  ghost predicate FollowsHistory(order: List, index: map<string, nat>, nextNode: nat, ops: seq<Op>, cap: nat) {
    && Linked(order, index, nextNode)
    && Keys(order) == Newest(Recent(Touches(ops, cap)), cap)
    && Values(order, ops)
  }

  ghost predicate Values(order: List, ops: seq<Op>) {
    forall i :: 0 <= i < |order| ==> Some(order[i].value) == LastPut(ops, order[i].key)
  }

  lemma HitIffFresh(order: List, index: map<string, nat>, nextNode: nat, ops: seq<Op>, cap: nat, k: string)
    requires FollowsHistory(order, index, nextNode, ops, cap)
    ensures k in index <==> Fresh(Touches(ops, cap), k, cap)
    ensures k in Keys(order) <==> k in index
    ensures k in index ==> LastPut(ops, k).Some?
  {
    LinkedKeys(order, index, nextNode);
    InWindowIffFresh(Touches(ops, cap), k, cap);
    if k in index { var i := NodeOf(order, index, nextNode, k); }
  }

  // A hit moves the node to the back and answers the last value put.
  lemma GetHit(order: List, index: map<string, nat>, nextNode: nat, ops: seq<Op>, cap: nat, k: string)
    requires FollowsHistory(order, index, nextNode, ops, cap) && k in index
    ensures exists n <- order :: n.id == index[k]
    ensures var order' := Splice(order, index[k]);
      && FollowsHistory(order', index, nextNode, ops + [Get(k)], cap)
      && order' != [] && Some(order'[|order'| - 1].value) == LastPut(ops, k)
  {
    var ops' := ops + [Get(k)];
    assert ops'[..|ops|] == ops;
    HitIffFresh(order, index, nextNode, ops, cap, k);
    SpliceMovesToBack(order, index, nextNode, k);
    WindowFollowsHistory(Touches(ops, cap), k, cap);
    var order' := Splice(order, index[k]);
    forall i | 0 <= i < |order'| ensures Some(order'[i].value) == LastPut(ops, order'[i].key) {
      assert order'[i] in order;
    }
  }

  lemma ReplaceLast<V>(list: seq<Node<V>>, index: map<string, nat>, nextNode: nat, v: V)
    requires Linked(list, index, nextNode) && list != []
    ensures var list' := list[|list| - 1 := list[|list| - 1].(value := v)];
      Linked(list', index, nextNode) && Keys(list') == Keys(list)
  {
    var list' := list[|list| - 1 := list[|list| - 1].(value := v)];
    assert forall i :: 0 <= i < |list| ==> list'[i].key == list[i].key && list'[i].id == list[i].id;
  }

  // A put of a cached key does the same and then replaces the value in place.
  lemma PutHit(order: List, index: map<string, nat>, nextNode: nat, ops: seq<Op>, cap: nat, r: CachedRound)
    requires FollowsHistory(order, index, nextNode, ops, cap) && r.gameId in index
    ensures exists n <- order :: n.id == index[r.gameId]
    ensures var order' := Splice(order, index[r.gameId]);
      && order' != []
      && FollowsHistory(order'[|order'| - 1 := order'[|order'| - 1].(value := r)], index, nextNode, ops + [Put(r)], cap)
  {
    var k, ops' := r.gameId, ops + [Put(r)];
    assert ops'[..|ops|] == ops;
    HitIffFresh(order, index, nextNode, ops, cap, k);
    SpliceMovesToBack(order, index, nextNode, k);
    WindowFollowsHistory(Touches(ops, cap), k, cap);
    var order' := Splice(order, index[k]);
    var order'' := order'[|order'| - 1 := order'[|order'| - 1].(value := r)];
    ReplaceLast(order', index, nextNode, r);
    forall i | 0 <= i < |order''| ensures Some(order''[i].value) == LastPut(ops', order''[i].key) {
      assert order'[i] in order;
    }
  }

  lemma PutMissValues(order: List, nextNode: nat, ops: seq<Op>, cap: nat, r: CachedRound)
    requires Values(order, ops) && r.gameId !in Keys(order)
    ensures Values(Newest(order + [Node(nextNode, r.gameId, r)], cap), ops + [Put(r)])
  {
    var order', ops' := order + [Node(nextNode, r.gameId, r)], ops + [Put(r)];
    assert ops'[..|ops|] == ops;
    forall i | 0 <= i < |order'| ensures Some(order'[i].value) == LastPut(ops', order'[i].key) {
      if i < |order| { assert Keys(order)[i] != r.gameId; }
    }
  }

  // A put of a new key appends a node; the eviction that follows restores the window.
  lemma PutMiss(order: List, index: map<string, nat>, nextNode: nat, ops: seq<Op>, cap: nat, r: CachedRound)
    requires FollowsHistory(order, index, nextNode, ops, cap) && r.gameId !in index
    ensures var order' := order + [Node(nextNode, r.gameId, r)];
      && Values(Newest(order', cap), ops + [Put(r)])
      && Keys(Newest(order', cap)) == Newest(Recent(Touches(ops + [Put(r)], cap)), cap)
  {
    var k, ops' := r.gameId, ops + [Put(r)];
    assert ops'[..|ops|] == ops;
    HitIffFresh(order, index, nextNode, ops, cap, k);
    PutMissValues(order, nextNode, ops, cap, r);
    WindowFollowsHistory(Touches(ops, cap), k, cap);
    assert Keys(Newest(order + [Node(nextNode, k, r)], cap)) == Newest(Keys(order) + [k], cap);
  }

  class RecentRoundCache {
    const capacity: nat
    var order: List
    var index: map<string, nat>
    var nextNode: nat
    ghost var ops: seq<Op>

    ghost predicate Valid()
      reads this
    {
      FollowsHistory(order, index, nextNode, ops, capacity)
    }

    constructor (capacity: nat)
      ensures Valid() && ops == [] && this.capacity == capacity
    {
      this.capacity := capacity;
      order, index, nextNode, ops := [], map[], 0, [];
    }

    method Contains(gameId: string) returns (yes: bool)
      requires Valid()
      ensures yes == Expected(ops, gameId, capacity).Some?
    {
      HitIffFresh(order, index, nextNode, ops, capacity, gameId);
      yes := gameId in index;
    }

    method Get(gameId: string) returns (r: Option<CachedRound>)
      requires Valid()
      modifies this
      ensures Valid() && ops == old(ops) + [Op.Get(gameId)]
      ensures r == Expected(old(ops), gameId, capacity)
      ensures r.Some? ==> order != [] && order[|order| - 1].key == gameId && r == Some(order[|order| - 1].value)
      ensures r.None? ==> order == old(order)
    {
      HitIffFresh(order, index, nextNode, ops, capacity, gameId);
      assert (ops + [Op.Get(gameId)])[..|ops|] == ops;
      if gameId !in index {
        ops := ops + [Op.Get(gameId)];
        return None;
      }
      GetHit(order, index, nextNode, ops, capacity, gameId);
      order := Splice(order, index[gameId]);
      ops := ops + [Op.Get(gameId)];
      r := Some(order[|order| - 1].value);
    }

    method Put(round: CachedRound, now: int)
      requires Valid()
      modifies this
      ensures Valid()
      ensures ops == old(ops) + [Op.Put(round.(cachedAtMs := if round.cachedAtMs != 0 then round.cachedAtMs else now))]
      ensures capacity > 0 ==>
                && order != [] && order[|order| - 1].key == round.gameId
                && order[|order| - 1].value ==
                     round.(cachedAtMs := if round.cachedAtMs != 0 then round.cachedAtMs else now)
    {
      var r := round.(cachedAtMs := if round.cachedAtMs != 0 then round.cachedAtMs else now);
      if r.gameId in index {
        Replace(r);
      } else {
        Insert(r);
      }
    }

    // A put of a cached key.
    method Replace(r: CachedRound)
      requires Valid() && r.gameId in index
      modifies this
      ensures Valid() && ops == old(ops) + [Op.Put(r)]
      ensures order != [] && order[|order| - 1].key == r.gameId && order[|order| - 1].value == r
    {
      PutHit(order, index, nextNode, ops, capacity, r);
      var moved := Splice(order, index[r.gameId]);
      order := moved[|moved| - 1 := moved[|moved| - 1].(value := r)];
      ops := ops + [Op.Put(r)];
    }

    // A put of a key that is not cached.
    method Insert(r: CachedRound)
      requires Valid() && r.gameId !in index
      modifies this
      ensures Valid() && ops == old(ops) + [Op.Put(r)]
      ensures capacity > 0 ==> order != [] && order[|order| - 1].key == r.gameId && order[|order| - 1].value == r
    {
      PushBackLinks(order, index, nextNode, r.gameId, r);
      order, index, nextNode := order + [Node(nextNode, r.gameId, r)], index[r.gameId := nextNode], nextNode + 1;
      Evict();
      if capacity > 0 { NewestLast(old(order), Node(old(nextNode), r.gameId, r), capacity); }
      PutMiss(old(order), old(index), old(nextNode), ops, capacity, r);
      ops := ops + [Op.Put(r)];
    }

    // The eviction loop.
    method Evict()
      requires Linked(order, index, nextNode)
      modifies this`order, this`index
      ensures Linked(order, index, nextNode) && order == Newest(old(order), capacity)
    {
      ghost var all := order;
      while |index| > capacity
        invariant Linked(order, index, nextNode)
        invariant |order| <= |all| && order == all[|all| - |order|..]
        invariant |order| >= if |all| < capacity then |all| else capacity
        decreases |order|
      {
        PopFrontLinks(order, index, nextNode);
        index := index - {order[0].key};
        order := order[1..];
      }
    }

    method Clear()
      modifies this
      ensures Valid() && ops == []
    {
      order, index, ops := [], map[], [];
    }
  }
}
