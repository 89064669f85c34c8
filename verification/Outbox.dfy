/** The outbox objects: the id-stamping queue, the outbox over it, and the delivery worker. */
module Outboxes {
  import opened Common
  import opened BoundedQueues
  import opened OutboxStore
  import M = OutboxMachine

  class OutboxQueue {
    const q: BoundedQueue<Item>
    var nextId: nat
    var enqueued: nat
    var dequeued: nat
    var drops: nat

    ghost predicate Valid()
      reads this, q
    {
      q.Valid() && !q.closed
    }

    constructor (capacity: nat)
      ensures Valid() && fresh(q) && fresh(q.buf) && q.Contents() == []
      ensures nextId == 1 && enqueued == dequeued == drops == 0
    {
      q := new BoundedQueue(capacity);
      nextId, enqueued, dequeued, drops := 1, 0, 0, 0;
    }

    /** A full queue still uses up an id. */
    method Enqueue(item: Item) returns (ok: bool)
      requires Valid()
      modifies this`nextId, this`enqueued, this`drops, q, q.buf
      ensures Valid() && nextId == old(nextId) + 1
      ensures ok == (|old(q.Contents())| < q.cap)
      ensures q.Contents() == if ok then old(q.Contents()) + [item.(id := old(nextId))] else old(q.Contents())
      ensures enqueued == old(enqueued) + (if ok then 1 else 0) && drops == old(drops) + if ok then 0 else 1
    {
      var stamped := item.(id := nextId);
      nextId := nextId + 1;
      ok := q.TryPush(stamped);
      if ok { enqueued := enqueued + 1; } else { drops := drops + 1; }
    }

    method Dequeue() returns (item: Option<Item>)
      requires Valid()
      modifies this`dequeued, q
      ensures Valid()
      ensures item == (if old(q.Contents()) == [] then None else Some(old(q.Contents())[0]))
      ensures q.Contents() == if old(q.Contents()) == [] then [] else old(q.Contents())[1..]
      ensures dequeued == old(dequeued) + if item.Some? then 1 else 0
    {
      item := q.Pop();
      if item.Some? { dequeued := dequeued + 1; }
    }
  }

  datatype PublishResult = Accepted(enqueuedCount: nat) | Duplicate | QueueFull

  class Outbox {
    const queue: OutboxQueue
    var pendingKeys: set<string>
    var deliveredKeys: set<string>
    var published: nat
    var claimed: nat
    var delivered: nat
    var failed: nat
    var duplicates: nat
    var deadLetters: nat

    ghost function Repr(): set<object> {
      {this, queue, queue.q, queue.q.buf}
    }

    ghost predicate Valid()
      reads Repr()
    {
      queue.Valid()
    }

    ghost function View(): Store
      reads Repr()
      requires Valid()
    {
      Store(queue.q.cap, queue.q.Contents(), queue.nextId, queue.enqueued, queue.dequeued, queue.drops,
            pendingKeys, deliveredKeys, published, claimed, delivered, failed, duplicates, deadLetters)
    }

    constructor (capacity: nat)
      ensures Valid() && fresh(Repr())
      ensures View().queue == [] && View().pending == View().delivered == {} && View().nextId == 1
      ensures View().published == View().claimed == View().deliveries == View().failed == View().deadLetters == 0
    {
      queue := new OutboxQueue(capacity);
      pendingKeys, deliveredKeys := {}, {};
      published, claimed, delivered, failed, duplicates, deadLetters := 0, 0, 0, 0, 0, 0;
    }

    method Publish(signal: Signal, now: int) returns (r: PublishResult)
      requires Valid()
      modifies Repr()
      ensures Valid() && View() == OutboxStore.Publish(old(View()), signal, now)
      ensures r.Duplicate? <==> KeyOf(signal) in old(pendingKeys) || KeyOf(signal) in old(deliveredKeys)
      ensures r.QueueFull? ==> |old(View().queue)| == queue.q.cap
      ensures r.Accepted? ==>
                && |old(View().queue)| < queue.q.cap
                && View().queue == old(View().queue)
                                   + [Item(old(queue.nextId), Pending, signal, now, 0, 0, 0, "", KeyOf(signal))]
                && pendingKeys == old(pendingKeys) + {KeyOf(signal)} && r.enqueuedCount == queue.enqueued
                && published == old(published) + 1
      ensures !r.Accepted? ==> View().queue == old(View().queue) && pendingKeys == old(pendingKeys)
      ensures duplicates == old(duplicates) + if r.Duplicate? then 1 else 0
    {
      ghost var before := View();
      var key := KeyOf(signal);
      if key in deliveredKeys || key in pendingKeys {
        duplicates := duplicates + 1;
        return Duplicate;
      }
      pendingKeys := pendingKeys + {key};
      assert View() == Reserve(before, key);
      var ok := Submit(key, NewItem(signal, now));
      if !ok { return QueueFull; }
      return Accepted(queue.enqueued);
    }

    // The part of `publish` after the reservation: the item is queued, or its key given back.
    method Submit(key: string, item: Item) returns (ok: bool)
      requires Valid()
      modifies this`pendingKeys, this`published, queue`nextId, queue`enqueued, queue`drops, queue.q, queue.q.buf
      ensures Valid() && ok == HasRoom(old(View()))
      ensures View() == Submitted(old(View()), key, item)
    {
      ok := queue.Enqueue(item);
      if ok { published := published + 1; } else { pendingKeys := pendingKeys - {key}; }
    }

    method Claim(now: int) returns (item: Option<Item>)
      requires Valid()
      modifies Repr()
      ensures Valid()
      ensures item.None? <==> old(View()).queue == []
      ensures item.None? ==> View() == old(View())
      ensures item.Some? ==>
                && View() == Dequeue(old(View())) && View().queue == old(View()).queue[1..]
                && claimed == old(claimed) + 1
                && item.value == old(View()).queue[0].(state := Claimed, claimedAtMs := now)
    {
      ghost var before := View();
      item := queue.Dequeue();
      if item.Some? {
        item := Some(item.value.(state := Claimed, claimedAtMs := now));
        claimed := claimed + 1;
        assert View() == Dequeue(before);
      } else {
        assert View() == before;
      }
    }

    method MarkDelivered(item: Item, now: int) returns (item': Item)
      requires Valid()
      modifies this
      ensures Valid() && View() == Deliver(old(View()), item.dedupeKey)
      ensures pendingKeys == old(pendingKeys) - {item.dedupeKey}
      ensures |old(deliveredKeys) + {item.dedupeKey}| <= DELIVERED_LIMIT ==>
                deliveredKeys == old(deliveredKeys) + {item.dedupeKey}
      ensures |old(deliveredKeys) + {item.dedupeKey}| > DELIVERED_LIMIT ==> deliveredKeys == {}
      ensures delivered == old(delivered) + 1 && failed == old(failed) && deadLetters == old(deadLetters)
      ensures item' == item.(state := Delivered, deliveredAtMs := now)
    {
      item' := item.(state := Delivered, deliveredAtMs := now);
      pendingKeys := pendingKeys - {item.dedupeKey};
      deliveredKeys := deliveredKeys + {item.dedupeKey};
      if |deliveredKeys| > DELIVERED_LIMIT { deliveredKeys := {}; }
      delivered := delivered + 1;
    }

    method MarkFailed(item: Item, error: string) returns (item': Item)
      requires Valid()
      modifies Repr()
      ensures Valid() && View() == OutboxStore.MarkFailed(old(View()), item, error)
      ensures item.attempts + 1 < MAX_ATTEMPTS ==>
                && item' == item.(lastError := error, attempts := item.attempts + 1, state := Pending)
                && View().queue == old(View().queue)
                                   + (if HasRoom(old(View())) then [item'.(id := old(queue.nextId))] else [])
                && pendingKeys == old(pendingKeys) && deadLetters == old(deadLetters)
      ensures item.attempts + 1 >= MAX_ATTEMPTS ==>
                && item' == item.(lastError := error, attempts := item.attempts + 1, state := DeadLetter)
                && View().queue == old(View().queue)
                && pendingKeys == old(pendingKeys) - {item.dedupeKey} && deadLetters == old(deadLetters) + 1
      ensures failed == old(failed) + 1 && delivered == old(delivered) && deliveredKeys == old(deliveredKeys)
    {
      ghost var before := View();
      item' := item.(lastError := error, attempts := item.attempts + 1);
      if item'.attempts >= MAX_ATTEMPTS {
        item' := item'.(state := DeadLetter);
        deadLetters := deadLetters + 1;
        pendingKeys := pendingKeys - {item.dedupeKey};
      } else {
        item' := item'.(state := Pending);
        var _ := queue.Enqueue(item');
      }
      failed := failed + 1;
      assert View() == OutboxStore.MarkFailed(before, item, error);
    }
  }

  /** What the sink made of one item, and the clock at that turn. */
  datatype Verdict = Verdict(delivered: bool, now: int)

  /** One turn of a worker: claim, call the sink, settle. A missing sink or one that throws counts as a failure. */
  function WorkOnce(st: Store, v: Verdict): Store {
    if st.queue == [] then st
    else
      var item := OutboxStore.Claim(st.queue[0], v.now).(state := InFlight);
      if v.delivered then Deliver(Dequeue(st), item.dedupeKey)
      else OutboxStore.MarkFailed(Dequeue(st), item, "delivery failed")
  }

  /** A refused item goes to the back of the queue with one attempt more, or is dead-lettered at the limit. */
  lemma RefusedGoesBack(st: Store, v: Verdict)
    requires st.queue != [] && |st.queue| <= st.capacity && !v.delivered
    ensures var front, st' := st.queue[0], WorkOnce(st, v);
      if front.attempts + 1 < MAX_ATTEMPTS then
        && st'.queue == st.queue[1..] + [front.(id := st.nextId, state := Pending, claimedAtMs := v.now,
                                                attempts := front.attempts + 1, lastError := "delivery failed")]
        && st'.pending == st.pending && st'.deadLetters == st.deadLetters
      else
        && st'.queue == st.queue[1..] && st'.pending == st.pending - {front.dedupeKey}
        && st'.deadLetters == st.deadLetters + 1
  {
    assert |st.queue[1..]| < st.capacity;
  }

  function Work(st: Store, verdicts: seq<Verdict>): Store {
    if verdicts == [] then st else WorkOnce(Work(st, verdicts[..|verdicts| - 1]), verdicts[|verdicts| - 1])
  }

  /** The verdicts of the turns that found an item. */
  function Used(st: Store, verdicts: seq<Verdict>): seq<bool> {
    if verdicts == [] then []
    else
      var before := verdicts[..|verdicts| - 1];
      Used(st, before) + if Work(st, before).queue == [] then [] else [verdicts[|verdicts| - 1].delivered]
  }

  function CountOf(flags: seq<bool>, flag: bool): nat {
    if flags == [] then 0 else CountOf(flags[..|flags| - 1], flag) + if flags[|flags| - 1] == flag then 1 else 0
  }

  lemma CountAppend(flags: seq<bool>, last: bool, flag: bool)
    ensures CountOf(flags + [last], flag) == CountOf(flags, flag) + if last == flag then 1 else 0
  {
    assert (flags + [last])[..|flags|] == flags;
  }

  lemma TurnAdds(st: Store, verdicts: seq<Verdict>, n: nat)
    requires n < |verdicts|
    ensures Work(st, verdicts[..n + 1]) == WorkOnce(Work(st, verdicts[..n]), verdicts[n])
    ensures var used, found := Used(st, verdicts[..n + 1]), Work(st, verdicts[..n]).queue != [];
      && |used| == |Used(st, verdicts[..n])| + (if found then 1 else 0)
      && CountOf(used, true) == CountOf(Used(st, verdicts[..n]), true)
                                + (if found && verdicts[n].delivered then 1 else 0)
      && CountOf(used, false) == CountOf(Used(st, verdicts[..n]), false)
                                 + (if found && !verdicts[n].delivered then 1 else 0)
  {
    assert verdicts[..n + 1][..n] == verdicts[..n];
    assert Used(st, verdicts[..n]) + [] == Used(st, verdicts[..n]);
    CountAppend(Used(st, verdicts[..n]), verdicts[n].delivered, true);
    CountAppend(Used(st, verdicts[..n]), verdicts[n].delivered, false);
  }

  /**
   * What a worker's loop does undisturbed is a run of the interleaved protocol, so all its guarantees hold for it, and
   * the k-th step that settles an item is a delivery exactly when the k-th verdict on an item says so.
   */
  lemma {:induction false} WorkIsARun(s: M.State, t: M.Tid, verdicts: seq<Verdict>)
    returns (acts: seq<M.Action>, s': M.State)
    requires t < |s.threads| && s.threads[t].Idle?
    ensures M.Leads(s, acts, s') && s'.store == Work(s.store, verdicts) && s'.threads == s.threads
    ensures M.Settlements(acts) == Used(s.store, verdicts)
    decreases |verdicts|
  {
    if verdicts == [] {
      acts, s' := [], s;
    } else {
      var v := verdicts[|verdicts| - 1];
      var before, u := WorkIsARun(s, t, verdicts[..|verdicts| - 1]);
      var turn;
      if u.store.queue == [] {
        turn, s' := [], u;
      } else if v.delivered {
        var w := M.Apply(u, M.ClaimNext(t, v.now));
        s' := M.Apply(w, M.MarkDelivered(t));
        M.StepOn(w, M.MarkDelivered(t), [], s');
        turn := [M.ClaimNext(t, v.now)] + [M.MarkDelivered(t)];
        M.SettlementsConcat([M.ClaimNext(t, v.now)], [M.MarkDelivered(t)]);
        M.StepOn(u, M.ClaimNext(t, v.now), [M.MarkDelivered(t)], s');
      } else {
        turn, s' := M.FailureIsARun(u, t, v.now, "delivery failed");
      }
      M.LeadsOn(s, before, u, turn, s');
      M.SettlementsConcat(before, turn);
      acts := before + turn;
    }
  }

  class OutboxWorker {
    const outbox: Outbox
    var processed: nat

    constructor (outbox: Outbox)
      ensures this.outbox == outbox && processed == 0
    {
      this.outbox := outbox;
      processed := 0;
    }

    /** The worker's loop until it is stopped, one verdict per turn. */
    method Run(verdicts: seq<Verdict>)
      requires outbox.Valid() && this !in outbox.Repr()
      modifies this, outbox.Repr()
      ensures outbox.Valid() && outbox.View() == Work(old(outbox.View()), verdicts)
      ensures processed == old(processed) + |Used(old(outbox.View()), verdicts)|
      ensures outbox.delivered == old(outbox.delivered) + CountOf(Used(old(outbox.View()), verdicts), true)
      ensures outbox.failed == old(outbox.failed) + CountOf(Used(old(outbox.View()), verdicts), false)
    {
      ghost var st := outbox.View();
      for n := 0 to |verdicts|
        invariant outbox.Valid() && outbox.View() == Work(st, verdicts[..n])
        invariant processed == old(processed) + |Used(st, verdicts[..n])|
        invariant outbox.delivered == old(outbox.delivered) + CountOf(Used(st, verdicts[..n]), true)
        invariant outbox.failed == old(outbox.failed) + CountOf(Used(st, verdicts[..n]), false)
      {
        TurnAdds(st, verdicts, n);
        Turn(verdicts[n]);
      }
      assert verdicts[..|verdicts|] == verdicts;
    }

    /** One pass through the loop: an item the sink takes is delivered, one it refuses is failed. */
    method Turn(v: Verdict)
      requires outbox.Valid() && this !in outbox.Repr()
      modifies this, outbox.Repr()
      ensures outbox.Valid() && outbox.View() == WorkOnce(old(outbox.View()), v)
      ensures old(outbox.View().queue) == [] ==> outbox.View() == old(outbox.View()) && processed == old(processed)
      ensures old(outbox.View().queue) != [] ==> processed == old(processed) + 1
      ensures old(outbox.View().queue) != [] && v.delivered ==>
                && outbox.delivered == old(outbox.delivered) + 1 && outbox.failed == old(outbox.failed)
                && outbox.View().queue == old(outbox.View().queue)[1..]
                && outbox.pendingKeys == old(outbox.pendingKeys) - {old(outbox.View().queue)[0].dedupeKey}
      ensures old(outbox.View().queue) != [] && !v.delivered ==>
                && outbox.failed == old(outbox.failed) + 1 && outbox.delivered == old(outbox.delivered)
                && outbox.deliveredKeys == old(outbox.deliveredKeys)
    {
      var item := outbox.Claim(v.now);
      if item.None? { return; }
      var taken := item.value.(state := InFlight);
      if v.delivered {
        var _ := outbox.MarkDelivered(taken, v.now);
      } else {
        var _ := outbox.MarkFailed(taken, "delivery failed");
      }
      processed := processed + 1;
    }
  }
}
