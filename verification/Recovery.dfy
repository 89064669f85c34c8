/** A recovery that nothing interrupts does to the store, step by step, what the object's loop does. */
module LeaseRecovery {
  import opened Common
  import opened OutboxStore
  import opened OutboxMachine
  import opened OutboxLeases
  import opened LeaseMachine

  /** Two states that differ in the store, and in what thread `t` does. */
  ghost predicate Elsewhere(s: LState, s': LState, t: Tid) {
    && |s'.jobs| == |s.jobs| && |s'.box.threads| == |s.box.threads|
    && t < |s.jobs| && t < |s.box.threads|
    && s'.jobs == s.jobs[t := s'.jobs[t]] && s'.box.threads == s.box.threads[t := s'.box.threads[t]]
    && s'.leases == s.leases && s'.inFlight == s.inFlight && s'.collected == s.collected
  }

  lemma RequeueInRecovery(s: LState, t: Tid) returns (acts: seq<LAction>, s': LState)
    requires t < |s.jobs| == |s.box.threads| && s.jobs[t].Recovering? && s.box.threads[t].Requeueing?
    ensures LLeads(s, acts, s') && Elsewhere(s, s', t) && s'.jobs[t] == s.jobs[t] && s'.box.threads[t] == Idle
    ensures var st := Enqueue(s.box.store, s.box.threads[t].item); s'.box.store == st.(failed := st.failed + 1)
  {
    var takeId, push := InOutbox(TakeQueueId(t)), InOutbox(PushToQueue(t));
    var s1 := LApply(s, takeId);
    s' := LApply(s1, push);
    LStepOn(s1, push, [], s');
    LStepOn(s, takeId, [push], s');
    acts := [takeId] + [push];
  }

  lemma FailureInRecovery(s: LState, t: Tid, error: string) returns (acts: seq<LAction>, s': LState)
    requires t < |s.jobs| == |s.box.threads| && s.jobs[t].Recovering? && s.jobs[t].stage != Marking
    requires s.box.threads[t].Holding?
    ensures LLeads(s, acts, s') && Elsewhere(s, s', t) && s'.jobs[t] == s.jobs[t] && s'.box.threads[t] == Idle
    ensures s'.box.store == MarkFailed(s.box.store, s.box.threads[t].item, error)
  {
    var fail := InOutbox(MarkAsFailed(t, error));
    s' := LApply(s, fail);
    acts := [];
    if s'.box.threads[t].Requeueing? { acts, s' := RequeueInRecovery(s', t); }
    LStepOn(s, fail, acts, s');
    acts := [fail] + acts;
  }

  // At the attempt limit: marked delivered, then buried.
  lemma BurialInRecovery(s: LState, t: Tid) returns (acts: seq<LAction>, s': LState)
    requires t < |s.jobs| == |s.box.threads| && s.jobs[t].Recovering? && s.jobs[t].stage == Marking
    requires s.jobs[t].items != [] && s.box.threads[t] == Holding(s.jobs[t].items[0])
    ensures LLeads(s, acts, s') && Elsewhere(s, s', t) && s'.box.threads[t] == Idle
    ensures s'.jobs[t] == Recovering(s.jobs[t].items[1..], Burying)
    ensures var item := s.jobs[t].items[0];
      s'.box.store == MarkFailed(Deliver(s.box.store, item.dedupeKey), item, "lease expired max attempts")
  {
    var mark, resume := InOutbox(MarkDelivered(t)), Resume(t);
    var s1 := LApply(s, mark);
    var s2 := LApply(s1, resume);
    acts, s' := FailureInRecovery(s2, t, "lease expired max attempts");
    LStepOn(s1, resume, acts, s');
    LStepOn(s, mark, [resume] + acts, s');
    acts := [mark] + ([resume] + acts);
  }

  lemma OneIsRecovered(s: LState, t: Tid) returns (acts: seq<LAction>, s': LState)
    requires t < |s.jobs| == |s.box.threads| && s.jobs[t].Recovering? && s.jobs[t].stage != Marking
    requires s.jobs[t].items != [] && s.box.threads[t].Idle?
    ensures LLeads(s, acts, s') && Elsewhere(s, s', t) && s'.box.threads[t] == Idle
    ensures s'.jobs[t].Recovering? && s'.jobs[t].stage != Marking && s'.jobs[t].items == s.jobs[t].items[1..]
    ensures s'.box.store == RecoverOne(s.box.store, s.jobs[t].items[0])
  {
    var u := LApply(s, Resume(t));
    if s.jobs[t].items[0].attempts >= MAX_ATTEMPTS {
      acts, s' := BurialInRecovery(u, t);
    } else {
      acts, s' := FailureInRecovery(u, t, "lease expired \U{2014} requeued");
    }
    LStepOn(s, Resume(t), acts, s');
    acts := [Resume(t)] + acts;
  }

  lemma {:induction false} AllAreRecovered(s: LState, t: Tid, items: seq<Item>)
    returns (acts: seq<LAction>, s': LState)
    requires t < |s.jobs| == |s.box.threads| && s.jobs[t].Recovering? && s.jobs[t].stage != Marking
    requires s.jobs[t].items == items && s.box.threads[t].Idle?
    ensures LLeads(s, acts, s') && Elsewhere(s, s', t) && s'.box.threads[t] == Idle
    ensures s'.jobs[t] == Free && s'.box.store == RecoverAll(s.box.store, items)
    decreases |items|
  {
    if items == [] {
      s' := LApply(s, Finish(t));
      LStepOn(s, Finish(t), [], s');
      acts := [Finish(t)] + [];
    } else {
      var first, u := OneIsRecovered(s, t);
      var rest;
      rest, s' := AllAreRecovered(u, t, items[1..]);
      LLeadsOn(s, first, u, rest, s');
      acts := first + rest;
    }
  }

  /** `recoverExpiredLeases` on its own is a run of the interleaved steps, with the effect the object has. */
  lemma RecoveryIsARun(s: LState, t: Tid, now: int, order: seq<nat>) returns (acts: seq<LAction>, s': LState)
    requires LEnabled(s, Collect(t, now, order)) && |s.jobs| == |s.box.threads|
    ensures LLeads(s, acts, s') && s'.jobs == s.jobs && s'.box.threads == s.box.threads
    ensures s'.box.store == RecoverAll(s.box.store, Collected(s.inFlight, order))
    ensures s'.leases == s.leases - (set id | id in order) && s'.inFlight == s.inFlight - (set id | id in order)
  {
    var u := LApply(s, Collect(t, now, order));
    acts, s' := AllAreRecovered(u, t, Collected(s.inFlight, order));
    LStepOn(s, Collect(t, now, order), acts, s');
    acts := [Collect(t, now, order)] + acts;
  }
}
