/** Leases over the outbox: what one recovery does, and the object that performs it. */
module OutboxLeases {
  import opened Common
  import opened OutboxStore
  import opened Outboxes

  datatype Lease = Lease(id: nat, claimedAtMs: int, deadlineMs: int, workerId: string)

  predicate Expired(lease: Lease, now: int) {
    now > lease.deadlineMs
  }

  /** The copy of an in-flight item a recovery takes with it: one more attempt, pending again. */
  function Recovered(item: Item): Item {
    item.(state := Pending, attempts := item.attempts + 1)
  }

  /** Settling one recovered item. At the limit it is marked delivered first and then buried. */
  function RecoverOne(st: Store, item: Item): Store {
    if item.attempts >= MAX_ATTEMPTS then
      MarkFailed(Deliver(st, item.dedupeKey), item.(state := DeadLetter), "lease expired max attempts")
    else MarkFailed(st, item, "lease expired \U{2014} requeued")
  }

  function RecoverAll(st: Store, items: seq<Item>): Store
    decreases |items|
  {
    if items == [] then st else RecoverAll(RecoverOne(st, items[0]), items[1..])
  }

  /** An item recovered with at most three attempts counted has one left after the recovery counts its own. */
  predicate Retried(item: Item) {
    item.attempts + 1 < MAX_ATTEMPTS
  }

  function RetryCount(items: seq<Item>): nat {
    if items == [] then 0 else (if Retried(items[0]) then 1 else 0) + RetryCount(items[1..])
  }

  /** The entries a recovery adds to a queue with room: every retried item, in order, under the next ids. */
  function Requeued(items: seq<Item>, nextId: nat): seq<Item> {
    if items == [] then []
    else if Retried(items[0]) then
      [FailedOnce(items[0], "lease expired \U{2014} requeued").(id := nextId)] + Requeued(items[1..], nextId + 1)
    else Requeued(items[1..], nextId)
  }

  /** With room for all retries, they are queued and everything else is dead-lettered. */
  lemma {:induction false} RecoverySettlesEverything(st: Store, items: seq<Item>)
    requires |st.queue| + RetryCount(items) <= st.capacity
    ensures var st' := RecoverAll(st, items);
      && st'.queue == st.queue + Requeued(items, st.nextId)
      && st'.deadLetters == st.deadLetters + (|items| - RetryCount(items))
      && st'.failed == st.failed + |items| && st'.nextId == st.nextId + RetryCount(items)
    decreases |items|
  {
    if items != [] {
      RecoverySettlesEverything(RecoverOne(st, items[0]), items[1..]);
    }
  }

  predicate IsRetryOf(entry: Item, item: Item) {
    entry.dedupeKey == item.dedupeKey && entry.signal == item.signal && entry.attempts == item.attempts + 1
  }

  lemma {:induction false} RequeuedShape(items: seq<Item>, nextId: nat)
    ensures |Requeued(items, nextId)| == RetryCount(items)
    ensures forall k :: 0 <= k < RetryCount(items) ==>
              var entry := Requeued(items, nextId)[k];
              entry.id == nextId + k && entry.state == Pending && entry.attempts < MAX_ATTEMPTS
  {
    if items != [] { RequeuedShape(items[1..], if Retried(items[0]) then nextId + 1 else nextId); }
  }

  lemma {:induction false} RetriedIsQueued(items: seq<Item>, nextId: nat, i: nat) returns (k: nat)
    requires i < |items| && Retried(items[i])
    ensures k < |Requeued(items, nextId)| && IsRetryOf(Requeued(items, nextId)[k], items[i])
  {
    if i == 0 {
      k := 0;
    } else if Retried(items[0]) {
      k := RetriedIsQueued(items[1..], nextId + 1, i - 1);
      k := k + 1;
    } else {
      k := RetriedIsQueued(items[1..], nextId, i - 1);
    }
  }

  lemma {:induction false} QueuedIsRetried(items: seq<Item>, nextId: nat, k: nat) returns (i: nat)
    requires k < |Requeued(items, nextId)|
    ensures i < |items| && Retried(items[i]) && IsRetryOf(Requeued(items, nextId)[k], items[i])
  {
    if Retried(items[0]) {
      if k == 0 {
        i := 0;
      } else {
        i := QueuedIsRetried(items[1..], nextId + 1, k - 1);
        i := i + 1;
      }
    } else {
      i := QueuedIsRetried(items[1..], nextId, k);
      i := i + 1;
    }
  }

  predicate QueuedAgain(entry: Item, leased: Item, firstFreeId: nat) {
    && entry.dedupeKey == leased.dedupeKey && entry.signal == leased.signal
    && entry.attempts == leased.attempts + 2 && entry.state == Pending && entry.id >= firstFreeId
  }

  /** Some entry from index `from` on is the retry of a leased item. */
  ghost predicate RetryQueued(queue: seq<Item>, from: nat, leased: Item, firstFreeId: nat) {
    exists k :: from <= k < |queue| && QueuedAgain(queue[k], leased, firstFreeId)
  }

  /** A queue entry is the retry of one of the collected items, leased with at most two attempts. */
  ghost predicate RetryOfSome(entry: Item, inFlight: map<nat, Item>, order: seq<nat>, firstFreeId: nat)
    requires forall id <- order :: id in inFlight
  {
    exists i :: 0 <= i < |order| && inFlight[order[i]].attempts <= 2
                && QueuedAgain(entry, inFlight[order[i]], firstFreeId)
  }

  /** The index in the queue after a recovery with room, of the retry of the item leased as `order[i]`. */
  lemma LeasedIsQueuedAgain(st: Store, inFlight: map<nat, Item>, order: seq<nat>, i: nat) returns (k: nat)
    requires forall id <- order :: id in inFlight
    requires |st.queue| + RetryCount(Collected(inFlight, order)) <= st.capacity
    requires i < |order| && inFlight[order[i]].attempts <= 2
    ensures |st.queue| <= k < |RecoverAll(st, Collected(inFlight, order)).queue|
    ensures QueuedAgain(RecoverAll(st, Collected(inFlight, order)).queue[k], inFlight[order[i]], st.nextId)
  {
    var items := Collected(inFlight, order);
    RecoverySettlesEverything(st, items);
    RequeuedShape(items, st.nextId);
    var j := RetriedIsQueued(items, st.nextId, i);
    k := |st.queue| + j;
    assert RecoverAll(st, items).queue[k] == Requeued(items, st.nextId)[j];
  }

  /** The leased item that an entry added by a recovery with room retries. */
  lemma QueuedWasLeased(st: Store, inFlight: map<nat, Item>, order: seq<nat>, k: nat) returns (i: nat)
    requires forall id <- order :: id in inFlight
    requires |st.queue| + RetryCount(Collected(inFlight, order)) <= st.capacity
    requires |st.queue| <= k < |RecoverAll(st, Collected(inFlight, order)).queue|
    ensures i < |order| && inFlight[order[i]].attempts <= 2
    ensures QueuedAgain(RecoverAll(st, Collected(inFlight, order)).queue[k], inFlight[order[i]], st.nextId)
  {
    var items := Collected(inFlight, order);
    RecoverySettlesEverything(st, items);
    RequeuedShape(items, st.nextId);
    i := QueuedIsRetried(items, st.nextId, k - |st.queue|);
    assert items[i] == Recovered(inFlight[order[i]]);
    assert RecoverAll(st, items).queue[k] == Requeued(items, st.nextId)[k - |st.queue|];
  }

  /**
   * What a recovery with room for its retries does to the leased items it collects: an item leased with at
   * most two attempts is queued again, pending, under a fresh id, with two attempts more; every entry
   * beyond the old ones is such an item; and each of the others is dead-lettered.
   */
  lemma RecoveryOutcome(st: Store, inFlight: map<nat, Item>, order: seq<nat>)
    requires forall id <- order :: id in inFlight
    requires |st.queue| + RetryCount(Collected(inFlight, order)) <= st.capacity
    ensures var st' := RecoverAll(st, Collected(inFlight, order));
      && st.queue <= st'.queue
      && (forall i :: 0 <= i < |order| && inFlight[order[i]].attempts <= 2 ==>
            RetryQueued(st'.queue, |st.queue|, inFlight[order[i]], st.nextId))
      && (forall k :: |st.queue| <= k < |st'.queue| ==> RetryOfSome(st'.queue[k], inFlight, order, st.nextId))
      && st'.deadLetters - st.deadLetters == |order| - (|st'.queue| - |st.queue|)
  {
    var items := Collected(inFlight, order);
    var st' := RecoverAll(st, items);
    RecoverySettlesEverything(st, items);
    RequeuedShape(items, st.nextId);
    forall i | 0 <= i < |order| && inFlight[order[i]].attempts <= 2
      ensures RetryQueued(st'.queue, |st.queue|, inFlight[order[i]], st.nextId)
    {
      var k := LeasedIsQueuedAgain(st, inFlight, order, i);
    }
    forall k | |st.queue| <= k < |st'.queue| ensures RetryOfSome(st'.queue[k], inFlight, order, st.nextId) {
      var i := QueuedWasLeased(st, inFlight, order, k);
    }
  }

  /** After a recovery the key of a buried item is free again, unless it had reached the limit on the lease itself. */
  lemma BuriedKey(st: Store, item: Item)
    requires !Retried(item)
    ensures var st' := RecoverOne(st, item);
      && item.dedupeKey !in st'.pending
      && (item.attempts + 1 == MAX_ATTEMPTS ==> st'.delivered == st.delivered && st'.deliveries == st.deliveries)
      && (item.attempts >= MAX_ATTEMPTS ==> st'.deliveries == st.deliveries + 1)
      && (item.attempts >= MAX_ATTEMPTS ==> item.dedupeKey in st'.delivered || st'.delivered == {})
  {
  }

  /** Leased items in the order a recovery met their ids. */
  function Collected(inFlight: map<nat, Item>, order: seq<nat>): (items: seq<Item>)
    requires forall id <- order :: id in inFlight
    ensures |items| == |order|
    ensures forall i :: 0 <= i < |order| ==> items[i] == Recovered(inFlight[order[i]])
  {
    seq(|order|, i requires 0 <= i < |order| => Recovered(inFlight[order[i]]))
  }

  /** Leases and in-flight items have the same ids, and none of them is queued. */
  ghost predicate IdsAgree(st: Store, leases: map<nat, Lease>, inFlight: map<nat, Item>) {
    && leases.Keys == inFlight.Keys
    && (forall id <- inFlight :: inFlight[id].id == id && id < st.nextId)
    && (forall i :: 0 <= i < |st.queue| ==> st.queue[i].id < st.nextId && st.queue[i].id !in leases)
    && (forall i, j :: 0 <= i < j < |st.queue| ==> st.queue[i].id != st.queue[j].id)
  }

  lemma DequeueKeepsIds(st: Store, leases: map<nat, Lease>, inFlight: map<nat, Item>, lease: Lease, item: Item)
    requires IdsAgree(st, leases, inFlight) && st.queue != [] && item.id == st.queue[0].id
    ensures IdsAgree(Dequeue(st), leases[item.id := lease], inFlight[item.id := item])
  {
    assert forall i :: 0 <= i < |st.queue| - 1 ==> st.queue[1..][i] == st.queue[i + 1];
  }

  lemma MarkFailedKeepsIds(st: Store, leases: map<nat, Lease>, inFlight: map<nat, Item>, item: Item, error: string)
    requires IdsAgree(st, leases, inFlight)
    ensures IdsAgree(MarkFailed(st, item, error), leases, inFlight)
  {
    var q, q' := st.queue, MarkFailed(st, item, error).queue;
    assert forall i :: 0 <= i < |q| ==> q'[i] == q[i];
    assert |q'| == |q| || (|q'| == |q| + 1 && q'[|q|].id == st.nextId);
  }

  class OutboxLifecycle {
    const outbox: Outbox
    const claimTimeoutMs: int
    var leases: map<nat, Lease>
    var inFlight: map<nat, Item>
    var claims: nat
    var delivered: nat
    var failed: nat
    var recovered: nat

    ghost predicate Valid()
      reads this, outbox.Repr()
    {
      && this !in outbox.Repr() && outbox.Valid()
      && IdsAgree(outbox.View(), leases, inFlight)
    }

    constructor (outbox: Outbox, claimTimeoutMs: int)
      requires outbox.Valid() && outbox.View().queue == []
      ensures Valid() && this.outbox == outbox && this.claimTimeoutMs == claimTimeoutMs
      ensures leases == map[] && inFlight == map[]
    {
      this.outbox, this.claimTimeoutMs := outbox, claimTimeoutMs;
      leases, inFlight := map[], map[];
      claims, delivered, failed, recovered := 0, 0, 0, 0;
    }

    method ClaimWithLease(workerId: string, claimNow: int, leaseNow: int) returns (item: Option<Item>)
      requires Valid()
      modifies this, outbox.Repr()
      ensures Valid()
      ensures item.None? <==> old(outbox.View()).queue == []
      ensures item.None? ==> outbox.View() == old(outbox.View()) && leases == old(leases) && inFlight == old(inFlight)
      ensures item.Some? ==>
                var taken := old(outbox.View()).queue[0];
                && item.value == taken.(state := InFlight, claimedAtMs := claimNow)
                && outbox.View() == Dequeue(old(outbox.View()))
                && outbox.View().queue == old(outbox.View()).queue[1..]
                && leases == old(leases)[taken.id := Lease(taken.id, leaseNow, leaseNow + claimTimeoutMs, workerId)]
                && inFlight == old(inFlight)[taken.id := item.value]
      ensures claims == old(claims) + if item.Some? then 1 else 0
    {
      ghost var st := outbox.View();
      item := outbox.Claim(claimNow);
      if item.Some? {
        var taken := item.value.(state := InFlight);
        DequeueKeepsIds(st, leases, inFlight, Lease(taken.id, leaseNow, leaseNow + claimTimeoutMs, workerId), taken);
        leases := leases[taken.id := Lease(taken.id, leaseNow, leaseNow + claimTimeoutMs, workerId)];
        inFlight := inFlight[taken.id := taken];
        claims := claims + 1;
        item := Some(taken);
      }
    }

    method CompleteDelivered(item: Item, now: int)
      requires Valid()
      modifies this, outbox.Repr()
      ensures Valid() && outbox.View() == Deliver(old(outbox.View()), item.dedupeKey)
      ensures outbox.delivered == old(outbox.delivered) + 1 && outbox.failed == old(outbox.failed)
      ensures delivered == old(delivered) + 1 && failed == old(failed)
      ensures leases == old(leases) - {item.id} && inFlight == old(inFlight) - {item.id}
    {
      var _ := outbox.MarkDelivered(item, now);
      leases := leases - {item.id};
      inFlight := inFlight - {item.id};
      delivered := delivered + 1;
    }

    method CompleteFailed(item: Item, error: string)
      requires Valid()
      modifies this, outbox.Repr()
      ensures Valid() && outbox.View() == MarkFailed(old(outbox.View()), item, error)
      ensures outbox.failed == old(outbox.failed) + 1 && outbox.delivered == old(outbox.delivered)
      ensures failed == old(failed) + 1 && delivered == old(delivered)
      ensures leases == old(leases) - {item.id} && inFlight == old(inFlight) - {item.id}
    {
      MarkFailedKeepsIds(outbox.View(), leases, inFlight, item, error);
      var _ := outbox.MarkFailed(item, error);
      leases := leases - {item.id};
      inFlight := inFlight - {item.id};
      failed := failed + 1;
    }

    // The ids of the expired leases, in whatever order the hash map yields them.
    method ExpiredIds(now: int) returns (expired: seq<nat>)
      ensures NoDuplicates(expired)
      ensures forall id :: id in expired <==> id in leases && leases[id].deadlineMs < now
    {
      expired := [];
      var rest := leases.Keys;
      while rest != {}
        invariant rest <= leases.Keys && NoDuplicates(expired)
        invariant forall id :: id in expired <==> id in leases && id !in rest && Expired(leases[id], now)
      {
        var id :| id in rest;
        rest := rest - {id};
        if Expired(leases[id], now) { expired := expired + [id]; }
      }
    }

    // The locked part of a recovery: expired leases and their items are taken out.
    method TakeExpired(now: int) returns (toRequeue: seq<Item>, ghost order: seq<nat>)
      requires Valid()
      modifies this`leases, this`inFlight
      ensures Valid()
      ensures NoDuplicates(order)
      ensures forall id :: id in order <==> id in old(leases) && old(leases)[id].deadlineMs < now
      ensures leases == old(leases) - (set id | id in order) && inFlight == old(inFlight) - (set id | id in order)
      ensures forall id <- leases :: now <= leases[id].deadlineMs
      ensures toRequeue == Collected(old(inFlight), order)
    {
      var expired := ExpiredIds(now);
      order := expired;
      toRequeue := TakeAll(expired);
    }

    method TakeAll(expired: seq<nat>) returns (toRequeue: seq<Item>)
      requires NoDuplicates(expired) && forall id <- expired :: id in inFlight
      modifies this`leases, this`inFlight
      ensures leases == old(leases) - (set id | id in expired) && inFlight == old(inFlight) - (set id | id in expired)
      ensures toRequeue == Collected(old(inFlight), expired)
    {
      toRequeue := [];
      ghost var gone := {};
      for n := 0 to |expired|
        invariant forall id :: id in gone <==> id in expired[..n]
        invariant leases == old(leases) - gone && inFlight == old(inFlight) - gone
        invariant |toRequeue| == n && forall i :: 0 <= i < n ==> toRequeue[i] == Recovered(old(inFlight)[expired[i]])
      {
        var id := expired[n];
        assert id !in gone && expired[..n + 1] == expired[..n] + [id];
        if id in inFlight {
          toRequeue := toRequeue + [Recovered(inFlight[id])];
          inFlight := inFlight - {id};
        }
        leases := leases - {id};
        gone := gone + {id};
      }
      assert gone == set id | id in expired;
    }

    // One item of a recovery, outside the lock.
    method Settle(recoveredItem: Item, deliverNow: int)
      requires Valid()
      modifies this`recovered, outbox.Repr()
      ensures Valid() && outbox.View() == RecoverOne(old(outbox.View()), recoveredItem)
      ensures recovered == old(recovered) + 1
    {
      var item := recoveredItem;
      if item.attempts >= MAX_ATTEMPTS {
        item := item.(state := DeadLetter);
        var _ := outbox.MarkDelivered(item, deliverNow);
        MarkFailedKeepsIds(outbox.View(), leases, inFlight, item, "lease expired max attempts");
        var _ := outbox.MarkFailed(item, "lease expired max attempts");
      } else {
        MarkFailedKeepsIds(outbox.View(), leases, inFlight, item, "lease expired \U{2014} requeued");
        var _ := outbox.MarkFailed(item, "lease expired \U{2014} requeued");
      }
      recovered := recovered + 1;
    }

    /** Expired leases go, their items are queued again or buried; `order` is the order they were met in. */
    method RecoverExpiredLeases(now: int, deliverNow: int) returns (count: nat, ghost order: seq<nat>)
      requires Valid()
      modifies this, outbox.Repr()
      ensures Valid() && count == |order| == recovered - old(recovered)
      ensures NoDuplicates(order)
      ensures forall id :: id in order <==> id in old(leases) && old(leases)[id].deadlineMs < now
      ensures leases == old(leases) - (set id | id in order) && inFlight == old(inFlight) - (set id | id in order)
      ensures forall id <- leases :: now <= leases[id].deadlineMs
      ensures forall id <- order :: id in old(inFlight)
      ensures outbox.View() == RecoverAll(old(outbox.View()), Collected(old(inFlight), order))
    {
      var toRequeue;
      toRequeue, order := TakeExpired(now);
      count := |toRequeue|;
      ghost var goal := RecoverAll(outbox.View(), toRequeue);
      label taken:
      for n := 0 to |toRequeue|
        invariant Valid() && recovered == old(recovered) + n
        invariant leases == old@taken(leases) && inFlight == old@taken(inFlight)
        invariant RecoverAll(outbox.View(), toRequeue[n..]) == goal
      {
        assert toRequeue[n..][0] == toRequeue[n] && toRequeue[n..][1..] == toRequeue[n + 1..];
        Settle(toRequeue[n], deliverNow);
      }
    }
  }
}
