/** How often the lease path delivers a key: once, unless a worker and a recovery race for one item. */
module LeaseDelivery {
  import opened Common
  import opened OutboxStore
  import opened OutboxMachine
  import opened OutboxLeases
  import opened LeaseMachine

  /**
   * The live copies of keys. A worker whose item has been collected no longer holds one, and neither does a
   * recovery that has marked an item delivered and goes on to bury it.
   */
  ghost function KeyAt(s: LState, p: Place): Option<string> {
    match p
    case Queued(i) => if i < |s.box.store.queue| then Some(s.box.store.queue[i].dedupeKey) else None
    case InThread(t) =>
      if t < |s.box.threads| && t < |s.jobs| && !Outlived(s, s.jobs[t]) then Carried(s.box.threads[t]) else None
    case Todo(t, k) =>
      if t < |s.jobs| && s.jobs[t].Recovering? && k < |s.jobs[t].items| && !(s.jobs[t].stage == Marking && k == 0)
      then Some(s.jobs[t].items[k].dedupeKey) else None
  }

  ghost predicate Outlived(s: LState, job: Job) {
    match job
    case Free => false
    case Leased(id) => id in s.collected
    case Recovering(_, stage) => stage == Burying
  }

  /** Every live copy has its key reserved and to itself. */
  ghost predicate OneLiveCopy(s: LState) {
    && (forall p, q :: KeyAt(s, p).Some? && KeyAt(s, p) == KeyAt(s, q) ==> p == q)
    && (forall p :: KeyAt(s, p).Some? ==> KeyAt(s, p).value in s.box.store.pending)
  }

  /** What a recovery is about to bury has been marked delivered. */
  ghost predicate BuriesDelivered(s: LState, t: Tid)
    requires t < |s.jobs| && t < |s.box.threads|
  {
    && (s.jobs[t].Recovering? && s.jobs[t].stage == Marking && s.jobs[t].items != [] && s.box.threads[t].Idle? ==>
          s.jobs[t].items[0].dedupeKey in s.box.store.delivered)
    && (s.jobs[t].Recovering? && s.jobs[t].stage == Burying && s.box.threads[t].Holding? ==>
          s.box.threads[t].item.dedupeKey in s.box.store.delivered)
  }

  /** As long as nothing has been forgotten, every delivered key is remembered and no reserved one is delivered. */
  ghost predicate Remembers(s: LState) {
    && s.box.store.pending !! s.box.store.delivered
    && s.box.store.delivered == (set i | 0 <= i < |s.box.log| :: s.box.log[i])
    && |s.box.store.delivered| == |s.box.log|
    && |s.jobs| <= |s.box.threads| && (forall t :: 0 <= t < |s.jobs| ==> BuriesDelivered(s, t))
  }

  ghost predicate DInv(s: LState) {
    && LInv(s) && s.settled !! s.collected
    && (|s.box.log| <= DELIVERED_LIMIT ==> OneLiveCopy(s) && Remembers(s))
    && (|s.box.log| <= DELIVERED_LIMIT + 1 ==> NoDuplicates(s.box.log))
  }

  ghost predicate Unraced(s: LState, a: LAction) {
    !Late(s, a) && !Early(s, a)
  }

  lemma KeyMovesInOutbox(s: LState, b: Action, p: Place)
    requires LInv(s) && s.settled !! s.collected && LEnabled(s, InOutbox(b)) && !Late(s, InOutbox(b))
    requires KeyAt(DoInOutbox(s, b), p).Some?
    requires b.StartPublish? ==> p != InThread(b.t)
    ensures KeyAt(s, Source(s, InOutbox(b), p)) == KeyAt(DoInOutbox(s, b), p)
  {
    assert JobOk(s, b.t);
  }

  lemma KeyMovesInCollect(s: LState, a: LAction, p: Place)
    requires LInv(s) && s.settled !! s.collected && LEnabled(s, a) && a.Collect? && !Early(s, a)
    requires KeyAt(LApply(s, a), p).Some?
    ensures KeyAt(s, Source(s, a, p)) == KeyAt(LApply(s, a), p)
  {
    if p.Todo? && p.t == a.t {
      assert InFlightOk(s, a.order[p.k]);
    }
  }

  lemma KeyMoves(s: LState, a: LAction, p: Place)
    requires LInv(s) && s.settled !! s.collected && LEnabled(s, a) && Unraced(s, a) && KeyAt(LApply(s, a), p).Some?
    requires a.InOutbox? && a.a.StartPublish? ==> p != InThread(a.a.t)
    ensures KeyAt(s, Source(s, a, p)) == KeyAt(LApply(s, a), p)
  {
    match a
    case InOutbox(b) => KeyMovesInOutbox(s, b, p);
    case Collect(_, _, _) => KeyMovesInCollect(s, a, p);
    case _ => assert JobOk(s, a.t);
  }

  lemma SourcesDifferInCollect(s: LState, a: LAction, p: Place, q: Place)
    requires LInv(s) && LEnabled(s, a) && a.Collect? && KeyAt(LApply(s, a), p).Some? && KeyAt(LApply(s, a), q).Some?
    requires !Early(s, a) && Source(s, a, p) == Source(s, a, q)
    ensures p == q
  {
    if p.Todo? && p.t == a.t { assert InFlightOk(s, a.order[p.k]); }
    if q.Todo? && q.t == a.t { assert InFlightOk(s, a.order[q.k]); }
  }

  /** Nothing splits: two places never come from one. */
  lemma SourcesDiffer(s: LState, a: LAction, p: Place, q: Place)
    requires LInv(s) && LEnabled(s, a) && Unraced(s, a) && KeyAt(LApply(s, a), p).Some? && KeyAt(LApply(s, a), q).Some?
    requires a.InOutbox? && a.a.StartPublish? ==> p != InThread(a.a.t) && q != InThread(a.a.t)
    requires Source(s, a, p) == Source(s, a, q)
    ensures p == q
  {
    match a
    case InOutbox(_) =>
    case Collect(_, _, _) => SourcesDifferInCollect(s, a, p, q);
    case _ => assert JobOk(s, a.t);
  }

  // The steps that take a key off the reserved ones: its live copy, if it has one, goes in the same step.
  lemma StepKeepsReserved(s: LState, a: LAction, p: Place)
    requires DInv(s) && LEnabled(s, a) && Unraced(s, a) && OneLiveCopy(s) && Remembers(s)
    requires KeyAt(LApply(s, a), p).Some?
    ensures KeyAt(LApply(s, a), p).value in LApply(s, a).box.store.pending
  {
    if a.InOutbox? && a.a.StartPublish? && p == InThread(a.a.t) {
    } else {
      KeyMoves(s, a, p);
      if a.InOutbox? {
        assert JobOk(s, a.a.t) && BuriesDelivered(s, a.a.t);
        assert KeyAt(s, InThread(a.a.t)) == Carried(s.box.threads[a.a.t]) || Outlived(s, s.jobs[a.a.t]);
      }
    }
  }

  lemma StepKeepsCopies(s: LState, a: LAction)
    requires DInv(s) && LEnabled(s, a) && Unraced(s, a) && OneLiveCopy(s) && Remembers(s)
    ensures OneLiveCopy(LApply(s, a))
  {
    var s' := LApply(s, a);
    forall p | KeyAt(s', p).Some? ensures KeyAt(s', p).value in s'.box.store.pending { StepKeepsReserved(s, a, p); }
    var publishing := a.InOutbox? && a.a.StartPublish?;
    forall p, q | KeyAt(s', p).Some? && KeyAt(s', p) == KeyAt(s', q) ensures p == q {
      if publishing && (p == InThread(a.a.t) || q == InThread(a.a.t)) {
        assert JobOk(s, a.a.t);
        if p != InThread(a.a.t) { KeyMoves(s, a, p); }
        if q != InThread(a.a.t) { KeyMoves(s, a, q); }
      } else {
        KeyMoves(s, a, p);
        KeyMoves(s, a, q);
        SourcesDiffer(s, a, p, q);
      }
    }
  }

  // A delivery is of a live copy, so its key has not been delivered before.
  lemma DeliversNewKey(s: LState, t: Tid)
    requires DInv(s) && OneLiveCopy(s) && Remembers(s)
    requires LEnabled(s, InOutbox(MarkDelivered(t))) && !Late(s, InOutbox(MarkDelivered(t)))
    ensures s.box.threads[t].item.dedupeKey in s.box.store.pending
    ensures s.box.threads[t].item.dedupeKey !in s.box.log
  {
    var key := s.box.threads[t].item.dedupeKey;
    assert JobOk(s, t);
    assert KeyAt(s, InThread(t)) == Some(key);
    assert forall i :: 0 <= i < |s.box.log| ==> s.box.log[i] in s.box.store.delivered;
  }

  lemma DeliveryKeepsMemory(s: LState, t: Tid)
    requires DInv(s) && OneLiveCopy(s) && Remembers(s) && |s.box.log| < DELIVERED_LIMIT
    requires LEnabled(s, InOutbox(MarkDelivered(t))) && !Late(s, InOutbox(MarkDelivered(t)))
    ensures Remembers(DoInOutbox(s, MarkDelivered(t)))
  {
    var s' := DoInOutbox(s, MarkDelivered(t));
    var key := s.box.threads[t].item.dedupeKey;
    DeliversNewKey(s, t);
    var n := |s.box.log|;
    assert s'.box.log == s.box.log + [key] && s'.box.log[n] == key;
    assert forall i :: 0 <= i < n ==> s'.box.log[i] == s.box.log[i];
    assert s'.box.store.delivered == s.box.store.delivered + {key};
    assert forall k :: k in s.box.store.delivered ==> exists i :: 0 <= i < n && s'.box.log[i] == k;
    forall u | 0 <= u < |s'.jobs| ensures BuriesDelivered(s', u) { assert BuriesDelivered(s, u) && JobOk(s, u); }
  }

  lemma StepKeepsMemory(s: LState, a: LAction)
    requires DInv(s) && LEnabled(s, a) && Unraced(s, a) && OneLiveCopy(s) && Remembers(s)
    requires !(a.InOutbox? && a.a.MarkDelivered?)
    ensures Remembers(LApply(s, a))
  {
    var s' := LApply(s, a);
    forall u | 0 <= u < |s'.jobs| ensures BuriesDelivered(s', u) { assert BuriesDelivered(s, u) && JobOk(s, u); }
  }

  lemma StepKeepsDelivery(s: LState, a: LAction)
    requires DInv(s) && LEnabled(s, a) && Unraced(s, a)
    ensures DInv(LApply(s, a))
  {
    LStepKeepsInv(s, a);
    if |s.box.log| <= DELIVERED_LIMIT {
      StepKeepsCopies(s, a);
      if a.InOutbox? && a.a.MarkDelivered? {
        DeliversNewKey(s, a.a.t);
        if |s.box.log| < DELIVERED_LIMIT { DeliveryKeepsMemory(s, a.a.t); }
      } else {
        StepKeepsMemory(s, a);
      }
    }
  }

  lemma {:induction false} LLeadsKeepsDelivery(s: LState, acts: seq<LAction>, t: LState)
    requires DInv(s) && LLeads(s, acts, t) && t.late == s.late && t.early == s.early
    ensures DInv(t)
    decreases |acts|
  {
    if acts != [] {
      CollectedGrows(LApply(s, acts[0]), acts[1..], t);
      StepKeepsDelivery(s, acts[0]);
      LLeadsKeepsDelivery(LApply(s, acts[0]), acts[1..], t);
    }
  }

  /**
   * At most once on the lease path, however many leases expire, whatever the attempt limit does and however many
   * workers never come back: as long as no worker settles an item after a recovery has collected it, and no
   * recovery collects an item between its settlement and the erasure of its lease.
   */
  lemma AtMostOnceUnlessRaced(s: LState, acts: seq<LAction>, t: LState)
    requires LStart(s) && LLeads(s, acts, t) && t.late == t.early == 0
    ensures |t.box.log| <= DELIVERED_LIMIT + 1 ==> NoDuplicates(t.box.log)
  {
    LLeadsKeepsDelivery(s, acts, t);
  }

  // Three runs: a crashed worker, and one for each way to race.

  /** One lease is recorded, with a deadline, and every recovery of the run comes after that. */
  ghost predicate RecoveredAfter(acts: seq<LAction>, deadline: int) {
    && (exists a <- acts :: a.RecordLease? && a.deadline == deadline) && (exists a <- acts :: a.Collect?)
    && forall a <- acts :: (a.RecordLease? ==> a.deadline == deadline) && (a.Collect? ==> deadline < a.now)
  }

  /** One lease is recorded, and nothing is recovered. */
  ghost predicate LeasesOnly(acts: seq<LAction>) {
    && RecordLease(0, 0, 30_000, "w0") in acts
    && forall a <- acts :: !a.Collect? && (a.RecordLease? ==> a == RecordLease(0, 0, 30_000, "w0"))
  }

  /** Are there no leases recorded and no recoveries in this part of a run? */
  ghost predicate Plain(acts: seq<LAction>) {
    forall a <- acts :: !a.RecordLease? && !a.Collect?
  }

  lemma LStepAt(s: LState, acts: seq<LAction>, k: nat, t: LState)
    requires k < |acts| && LEnabled(s, acts[k]) && LLeads(LApply(s, acts[k]), acts[k + 1..], t)
    ensures LLeads(s, acts[k..], t) && (k == 0 ==> LLeads(s, acts, t))
  {
    assert acts[k..][0] == acts[k] && acts[k..][1..] == acts[k + 1..];
    assert k == 0 ==> acts[k..] == acts;
  }

  /** Outbox calls of threads without a lease or a recovery are steps of the lease path as they stand. */
  lemma {:induction false} LiftRun(s: LState, plain: seq<Action>, box: State) returns (acts: seq<LAction>)
    requires |s.jobs| == |s.box.threads| && Leads(s.box, plain, box)
    requires forall a <- plain :: a.t < |s.jobs| && s.jobs[a.t].Free?
    ensures LLeads(s, acts, s.(box := box)) && Plain(acts)
    decreases |plain|
  {
    if plain == [] {
      acts := [];
    } else {
      var s' := LApply(s, InOutbox(plain[0]));
      assert s' == s.(box := Apply(s.box, plain[0]));
      var rest := LiftRun(s', plain[1..], box);
      acts := [InOutbox(plain[0])] + rest;
      assert acts[1..] == rest;
    }
  }

  /** Worker 0 holds the item of one lease, or has settled it without erasing the lease; thread 1 is at rest. */
  ghost predicate LeasedByFirst(s: LState, item: Item) {
    && |s.box.threads| == 2 && s.box.threads[1].Idle? && s.jobs == [Leased(item.id), Free]
    && s.leases == map[item.id := Lease(item.id, 0, 30_000, "w0")] && s.inFlight == map[item.id := item]
    && item.attempts == 0 && s.box.store.capacity == 1 && s.box.store.queue == []
    && s.collected == {} && s.late == s.early == 0
  }

  ghost function AtRest(): (s: LState)
    ensures LStart(s)
  {
    LState(TwoThreads(), map[], map[], [Free, Free], map[], {}, {}, 0, 0)
  }

  lemma ClaimedByFirst() returns (acts: seq<LAction>, t: LState, item: Item)
    ensures LLeads(AtRest(), acts, t) && LeasedByFirst(t, item)
    ensures t.box.threads[0] == Holding(item) && t.settled == {} && t.box.log == []
    ensures LeasesOnly(acts)
  {
    var plain, box := OneClaimed(Signal(Prediction, "p", "r", ""));
    item := box.threads[0].item;
    var first := LiftRun(AtRest(), plain, box);
    var u := AtRest().(box := box);
    var last := [RecordLease(0, 0, 30_000, "w0")];
    t := LApply(u, last[0]);
    LStepAt(u, last, 0, t);
    LLeadsOn(AtRest(), first, u, last, t);
    acts := first + last;
  }

  // The lease expires and a recovery on thread 1 collects the item.
  lemma CollectedBySecond(s: LState, item: Item) returns (acts: seq<LAction>, t: LState)
    requires LeasedByFirst(s, item)
    ensures LLeads(s, acts, t) && t.jobs == [Leased(item.id), Recovering([], Failing)]
    ensures t.box == s.box.(threads := [s.box.threads[0], Holding(Recovered(item))])
    ensures t.collected == {item.id} && t.settled == s.settled && t.late == 0
    ensures t.early == if item.id in s.settled then 1 else 0
    ensures acts == [Collect(1, 30_001, [item.id]), Resume(1)]
  {
    acts := [Collect(1, 30_001, [item.id]), Resume(1)];
    var s1 := LApply(s, acts[0]);
    assert Collected(s.inFlight, [item.id]) == [Recovered(item)];
    assert s1.jobs == [Leased(item.id), Recovering([Recovered(item)], Failing)] && [Recovered(item)][1..] == [];
    t := LApply(s1, acts[1]);
    LStepAt(s1, acts, 1, t);
    LStepAt(s, acts, 0, t);
  }

  // It puts the item back.
  lemma RequeuedBySecond(s: LState) returns (acts: seq<LAction>, t: LState)
    requires |s.box.threads| == |s.jobs| == 2 && s.jobs[1] == Recovering([], Failing)
    requires s.box.threads[1].Holding? && s.box.threads[1].item.attempts == 1
    requires s.box.store.capacity == 1 && s.box.store.queue == []
    ensures LLeads(s, acts, t) && t.box.threads == [s.box.threads[0], Idle] && t.jobs == [s.jobs[0], Free]
    ensures |t.box.store.queue| == 1 && t.box.store.queue[0].dedupeKey == s.box.threads[1].item.dedupeKey
    ensures t.box.log == s.box.log
    ensures t.collected == s.collected && t.settled == s.settled && t.late == s.late && t.early == s.early
    ensures Plain(acts)
  {
    acts := [InOutbox(MarkAsFailed(1, "lease expired")), InOutbox(TakeQueueId(1)), InOutbox(PushToQueue(1)), Finish(1)];
    var s1 := LApply(s, acts[0]);
    var s2 := LApply(s1, acts[1]);
    var s3 := LApply(s2, acts[2]);
    t := LApply(s3, acts[3]);
    LStepAt(s3, acts, 3, t);
    LStepAt(s2, acts, 2, t);
    LStepAt(s1, acts, 1, t);
    LStepAt(s, acts, 0, t);
  }

  // And then claims and delivers it as a worker.
  lemma RequeuedIsDelivered(s: LState) returns (acts: seq<LAction>, t: LState)
    requires |s.box.threads| == |s.jobs| == 2 && s.jobs[1] == Free && s.box.threads[1] == Idle
    requires |s.box.store.queue| == 1
    ensures LLeads(s, acts, t) && Plain(acts) && t.box.threads == s.box.threads && t.jobs == s.jobs
    ensures t.box.log == s.box.log + [s.box.store.queue[0].dedupeKey]
    ensures t.collected == s.collected && t.settled == s.settled && t.late == s.late && t.early == s.early
  {
    acts := [InOutbox(ClaimNext(1, 30_002)), InOutbox(MarkDelivered(1))];
    var s1 := LApply(s, acts[0]);
    t := LApply(s1, acts[1]);
    LStepAt(s1, acts, 1, t);
    LStepAt(s, acts, 0, t);
  }

  lemma DeliveredBySecond(s: LState, item: Item) returns (acts: seq<LAction>, t: LState)
    requires LeasedByFirst(s, item)
    ensures LLeads(s, acts, t) && t.box.threads == s.box.threads && t.jobs == s.jobs
    ensures t.box.log == s.box.log + [item.dedupeKey]
    ensures t.collected == {item.id} && t.late == 0 && t.early == if item.id in s.settled then 1 else 0
    ensures acts != [] && acts[0] == Collect(1, 30_001, [item.id]) && Plain(acts[1..])
  {
    var first, u := CollectedBySecond(s, item);
    var second, v := RequeuedBySecond(u);
    var third;
    third, t := RequeuedIsDelivered(v);
    LLeadsOn(s, first, u, second, v);
    LLeadsOn(s, first + second, v, third, t);
    acts := first + second + third;
    assert acts[1..] == [first[1]] + second + third;
  }

  lemma LeasesThenRecovers(first: seq<LAction>, second: seq<LAction>, id: nat)
    requires LeasesOnly(first) && second != [] && second[0] == Collect(1, 30_001, [id]) && Plain(second[1..])
    ensures RecoveredAfter(first + second, 30_000)
  {
    assert second[0] in first + second;
    forall a <- second | a != second[0] ensures a in second[1..] { }
  }

  lemma PlainAddsNothing(acts: seq<LAction>, more: seq<LAction>)
    requires Plain(more)
    ensures LeasesOnly(acts) ==> LeasesOnly(acts + more)
    ensures RecoveredAfter(acts, 30_000) ==> RecoveredAfter(acts + more, 30_000)
  {
    forall a <- acts ensures a in acts + more { }
  }

  /** What leases are for: the first worker never comes back, its lease is recovered, and the item is delivered once. */
  lemma CrashedWorkerIsReplaced() returns (acts: seq<LAction>, t: LState)
    ensures LLeads(AtRest(), acts, t) && t.late == t.early == 0 && RecoveredAfter(acts, 30_000)
    ensures |t.collected| == 1 && |t.box.log| == 1 && |t.box.threads| == 2 && t.box.threads[0].Holding?
  {
    var first, u, item := ClaimedByFirst();
    var second;
    second, t := DeliveredBySecond(u, item);
    LLeadsOn(AtRest(), first, u, second, t);
    LeasesThenRecovers(first, second, item.id);
    acts := first + second;
  }

  // The first worker delivers the item of its lease.
  lemma DeliveredByFirst(s: LState, item: Item) returns (acts: seq<LAction>, t: LState)
    requires |s.box.threads| == |s.jobs| == 2 && s.box.threads[0] == Holding(item) && s.jobs[0] == Leased(item.id)
    ensures LLeads(s, acts, t) && Plain(acts)
    ensures t.box.log == s.box.log + [item.dedupeKey] && t.settled == s.settled + {item.id}
    ensures t.late == s.late + (if item.id in s.collected then 1 else 0) && t.early == s.early
    ensures LeasedByFirst(s, item) ==> LeasedByFirst(t, item)
  {
    acts := [InOutbox(MarkDelivered(0))];
    t := LApply(s, acts[0]);
    LStepAt(s, acts, 0, t);
  }

  /** A late worker is enough to deliver twice: its item is recovered and delivered before it finishes. */
  lemma TwiceWhenLate() returns (acts: seq<LAction>, t: LState)
    ensures LLeads(AtRest(), acts, t) && t.late == 1 && t.early == 0 && RecoveredAfter(acts, 30_000)
    ensures |t.box.log| == 2 && t.box.log[0] == t.box.log[1]
  {
    var first, u, item := ClaimedByFirst();
    var second, v := DeliveredBySecond(u, item);
    var last;
    last, t := DeliveredByFirst(v, item);
    LLeadsOn(AtRest(), first, u, second, v);
    LLeadsOn(AtRest(), first + second, v, last, t);
    LeasesThenRecovers(first, second, item.id);
    PlainAddsNothing(first + second, last);
    acts := first + second + last;
  }

  /** So is an early recovery, with no late worker: it comes between the delivery and the erasure of the lease. */
  lemma TwiceWhenEarly() returns (acts: seq<LAction>, t: LState)
    ensures LLeads(AtRest(), acts, t) && t.late == 0 && t.early == 1 && RecoveredAfter(acts, 30_000)
    ensures |t.box.log| == 2 && t.box.log[0] == t.box.log[1]
  {
    var first, u, item := ClaimedByFirst();
    var settling, u' := DeliveredByFirst(u, item);
    var second;
    second, t := DeliveredBySecond(u', item);
    LLeadsOn(AtRest(), first, u, settling, u');
    LLeadsOn(AtRest(), first + settling, u', second, t);
    PlainAddsNothing(first, settling);
    LeasesThenRecovers(first + settling, second, item.id);
    acts := first + settling + second;
  }
}
