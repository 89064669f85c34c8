/** The sliding-window duplicate filter: a set of keys and the order in which they were accepted. */
module Duplicates {
  import opened Common
  import opened Events
  import opened Recency

  class DuplicateFilter {
    const max: nat
    var seen: set<string>
    var order: seq<string>
    var acceptedCount: nat
    var duplicates: nat
    ghost var accepted: seq<string>

    /** The queue is the last `max` accepted keys, all different, and the set holds the same keys. */
    ghost predicate Valid()
      reads this
    {
      order == Newest(accepted, max) && NoDuplicates(order) && seen == Elements(order)
    }

    constructor (maxKeys: nat)
      ensures Valid() && accepted == [] && max == maxKeys && acceptedCount == duplicates == 0
    {
      max := maxKeys;
      seen, order, acceptedCount, duplicates, accepted := {}, [], 0, 0, [];
    }

    /** A key is refused exactly when it is among the last `max` accepted ones. */
    method AcceptKey(key: string) returns (ok: bool)
      requires Valid()
      modifies this
      ensures Valid() && ok == (key !in Newest(old(accepted), max))
      ensures accepted == if ok then old(accepted) + [key] else old(accepted)
      ensures acceptedCount == old(acceptedCount) + (if ok then 1 else 0)
      ensures duplicates == old(duplicates) + if ok then 0 else 1
    {
      if key in seen {
        duplicates := duplicates + 1;
        return false;
      }
      seen := seen + {key};
      order := order + [key];
      NewestAppend(accepted, key, max);
      assert NoDuplicates(Newest(order, max));
      Evict();
      accepted := accepted + [key];
      acceptedCount := acceptedCount + 1;
      return true;
    }

    // The eviction loop.
    method Evict()
      requires NoDuplicates(order) && seen == Elements(order)
      modifies this`seen, this`order
      ensures order == Newest(old(order), max) && seen == Elements(order)
    {
      ghost var all := order;
      while |order| > max
        invariant |order| <= |all| && order == all[|all| - |order|..] && |order| >= (if |all| < max then |all| else max)
        invariant seen == Elements(order)
        decreases |order|
      {
        assert order[0] !in order[1..];
        assert Elements(order[1..]) == Elements(order) - {order[0]};
        seen := seen - {order[0]};
        order := order[1..];
      }
    }

    method Accept(ev: CrashEvent) returns (ok: bool)
      requires Valid()
      modifies this
      ensures Valid() && ok == (ev.valid && FilterKey(ev) !in Newest(old(accepted), max))
      ensures accepted == if ok then old(accepted) + [FilterKey(ev)] else old(accepted)
      ensures duplicates == old(duplicates) + if ev.valid && !ok then 1 else 0
    {
      if !ev.valid { return false; }
      ok := AcceptKey(FilterKey(ev));
    }

    method Clear()
      modifies this
      ensures Valid() && accepted == []
    {
      seen, order, accepted := {}, [], [];
    }
  }
}
