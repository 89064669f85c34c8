/**
 * The lease path interleaved: workers that record a lease on what they claimed, settle it in time, late or
 * never, and recoveries that put the items of expired leases back. Every locked section is one step.
 */
module LeaseMachine {
  import opened Common
  import opened OutboxStore
  import opened OutboxMachine
  import opened OutboxLeases

  /** Where a recovery stands with an item: at the attempt limit it marks it delivered, and then buries a copy. */
  datatype Stage = Failing | Marking | Burying

  /** What a thread is doing beside its outbox call: nothing, a leased item, or the rest of a recovery. */
  datatype Job = Free | Leased(id: nat) | Recovering(items: seq<Item>, stage: Stage)

  /**
   * `owner` is the thread that leased an id, `settled` the leased ids whose worker has begun to settle them,
   * `collected` those a recovery has taken out. `late` counts the workers that settled a collected item,
   * `early` the recoveries that collected a settled one. The lifecycle keeps none of the five.
   */
  datatype LState = LState(
    box: State, leases: map<nat, Lease>, inFlight: map<nat, Item>, jobs: seq<Job>,
    owner: map<nat, Tid>, settled: set<nat>, collected: set<nat>, late: nat, early: nat)

  datatype LAction =
    | InOutbox(a: Action)
    | RecordLease(t: Tid, now: int, deadline: int, workerId: string)
    | Erase(t: Tid)
    | Collect(t: Tid, now: int, order: seq<nat>)
    | Resume(t: Tid)
    | Finish(t: Tid)

  ghost predicate LStart(s: LState) {
    && Start(s.box) && s.leases == map[] && s.inFlight == map[] && s.owner == map[]
    && s.settled == s.collected == {} && s.late == s.early == 0
    && |s.jobs| == |s.box.threads| && (forall t :: 0 <= t < |s.jobs| ==> s.jobs[t] == Free)
  }

  function ThreadOf(a: LAction): Tid {
    if a.InOutbox? then a.a.t else a.t
  }

  predicate Settles(a: Action) {
    a.MarkDelivered? || a.MarkAsFailed?
  }

  /** A worker with a lease, or a recovery, starts nothing new, and a recovery settles as its stage says. */
  predicate Allowed(job: Job, a: Action) {
    && (!job.Free? ==> !a.StartPublish? && !a.ClaimNext?)
    && (job.Recovering? && Settles(a) ==> (a.MarkDelivered? <==> job.stage == Marking))
  }

  ghost predicate LEnabled(s: LState, a: LAction) {
    && var t := ThreadOf(a);
    && t < |s.jobs| && t < |s.box.threads|
    && match a
       case InOutbox(b) => Enabled(s.box, b) && Allowed(s.jobs[t], b)
       case RecordLease(_, _, _, _) => s.jobs[t].Free? && s.box.threads[t].Holding?
       case Erase(_) => s.jobs[t].Leased? && s.box.threads[t].Idle?
       case Collect(_, now, order) =>
         && s.jobs[t].Free? && s.box.threads[t].Idle? && NoDuplicates(order)
         && (forall id :: id in order <==> id in s.leases && Expired(s.leases[id], now))
         && (forall id <- order :: id in s.inFlight)
       case Resume(_) => s.jobs[t].Recovering? && s.jobs[t].items != [] && s.box.threads[t].Idle?
       case Finish(_) => s.jobs[t].Recovering? && s.jobs[t].items == [] && s.box.threads[t].Idle?
  }

  /** A worker settles an item that a recovery has already collected. */
  ghost predicate Late(s: LState, a: LAction) {
    a.InOutbox? && Settles(a.a) && a.a.t < |s.jobs| && s.jobs[a.a.t].Leased? && s.jobs[a.a.t].id in s.collected
  }

  /** A recovery collects an item that its worker has already settled but whose lease it has not erased. */
  ghost predicate Early(s: LState, a: LAction) {
    a.Collect? && exists id <- a.order :: id in s.settled
  }

  ghost function DoInOutbox(s: LState, b: Action): LState
    requires LEnabled(s, InOutbox(b))
  {
    var job := s.jobs[b.t];
    s.(box := Apply(s.box, b),
       settled := if job.Leased? && Settles(b) then s.settled + {job.id} else s.settled,
       late := s.late + if Late(s, InOutbox(b)) then 1 else 0)
  }

  ghost function DoRecordLease(s: LState, t: Tid, now: int, deadline: int, workerId: string): LState
    requires LEnabled(s, RecordLease(t, now, deadline, workerId))
  {
    var item := s.box.threads[t].item;
    s.(leases := s.leases[item.id := Lease(item.id, now, deadline, workerId)], inFlight := s.inFlight[item.id := item],
       jobs := s.jobs[t := Leased(item.id)], owner := s.owner[item.id := t])
  }

  ghost function DoErase(s: LState, t: Tid): LState
    requires LEnabled(s, Erase(t))
  {
    var id := s.jobs[t].id;
    s.(leases := s.leases - {id}, inFlight := s.inFlight - {id}, jobs := s.jobs[t := Free])
  }

  ghost function DoCollect(s: LState, t: Tid, now: int, order: seq<nat>): LState
    requires LEnabled(s, Collect(t, now, order))
  {
    var gone := set id | id in order;
    s.(leases := s.leases - gone, inFlight := s.inFlight - gone, collected := s.collected + gone,
       jobs := s.jobs[t := Recovering(Collected(s.inFlight, order), Failing)],
       early := s.early + if Early(s, Collect(t, now, order)) then 1 else 0)
  }

  ghost function DoResume(s: LState, t: Tid): LState
    requires LEnabled(s, Resume(t))
  {
    var Recovering(items, stage) := s.jobs[t];
    var job :=
      if stage == Marking then Recovering(items[1..], Burying)
      else if items[0].attempts >= MAX_ATTEMPTS then Recovering(items, Marking)
      else Recovering(items[1..], Failing);
    s.(box := s.box.(threads := s.box.threads[t := Holding(items[0])]), jobs := s.jobs[t := job])
  }

  ghost function LApply(s: LState, a: LAction): LState
    requires LEnabled(s, a)
  {
    match a
    case InOutbox(b) => DoInOutbox(s, b)
    case RecordLease(t, now, deadline, workerId) => DoRecordLease(s, t, now, deadline, workerId)
    case Erase(t) => DoErase(s, t)
    case Collect(t, now, order) => DoCollect(s, t, now, order)
    case Resume(t) => DoResume(s, t)
    case Finish(t) => s.(jobs := s.jobs[t := Free])
  }

  ghost predicate LLeads(s: LState, acts: seq<LAction>, t: LState)
    decreases |acts|
  {
    if acts == [] then s == t
    else LEnabled(s, acts[0]) && LLeads(LApply(s, acts[0]), acts[1..], t)
  }

  lemma LStepOn(s: LState, a: LAction, acts: seq<LAction>, t: LState)
    requires LEnabled(s, a) && LLeads(LApply(s, a), acts, t)
    ensures LLeads(s, [a] + acts, t)
  {
    assert ([a] + acts)[1..] == acts;
  }

  lemma {:induction false} LLeadsOn(s: LState, first: seq<LAction>, t: LState, second: seq<LAction>, u: LState)
    requires LLeads(s, first, t) && LLeads(t, second, u)
    ensures LLeads(s, first + second, u)
    decreases |first|
  {
    if first == [] {
      assert first + second == second;
    } else {
      assert (first + second)[0] == first[0] && (first + second)[1..] == first[1..] + second;
      LLeadsOn(LApply(s, first[0]), first[1..], t, second, u);
    }
  }

  // Where an item can be, and what a step moves where.

  datatype Place = Queued(i: nat) | InThread(t: nat) | Todo(t: nat, k: nat)

  /** The ids still to be leased: queued ones, stamped ones on their way there, and claimed ones without a lease. */
  ghost function IdAt(s: LState, p: Place): Option<nat> {
    match p
    case Queued(i) => if i < |s.box.store.queue| then Some(s.box.store.queue[i].id) else None
    case InThread(t) =>
      if t < |s.box.threads| && t < |s.jobs| then
        match s.box.threads[t]
        case Enqueueing(item) => Some(item.id)
        case ReEnqueueing(item) => Some(item.id)
        case Holding(item) => if s.jobs[t].Free? then Some(item.id) else None
        case _ => None
      else None
    case Todo(_, _) => None
  }

  ghost predicate DistinctIds(s: LState) {
    && (forall p, q :: IdAt(s, p).Some? && IdAt(s, p) == IdAt(s, q) ==> p == q)
    && (forall p :: IdAt(s, p).Some? ==> IdAt(s, p).value < s.box.store.nextId && IdAt(s, p).value !in s.owner)
  }

  ghost predicate JobOk(s: LState, t: Tid)
    requires t < |s.jobs| && t < |s.box.threads|
  {
    var thread := s.box.threads[t];
    match s.jobs[t]
    case Free => true
    case Leased(id) =>
      && id in s.owner && s.owner[id] == t && (thread.Holding? <==> id !in s.settled)
      && (thread.Idle? || InHand(thread))
    case Recovering(items, stage) =>
      match stage
      case Failing => thread.Idle? || InHand(thread)
      case Marking => items != [] && items[0].attempts >= MAX_ATTEMPTS && (thread.Idle? || thread == Holding(items[0]))
      case Burying => thread.Idle? || (thread.Holding? && thread.item.attempts >= MAX_ATTEMPTS)
  }

  /** An in-flight item that is not settled is still with the worker that leased it. */
  ghost predicate InFlightOk(s: LState, id: nat)
    requires id in s.inFlight && id in s.owner
  {
    && s.inFlight[id].id == id
    && (id !in s.settled ==>
          && s.owner[id] < |s.jobs| && s.jobs[s.owner[id]] == Leased(id)
          && s.owner[id] < |s.box.threads| && s.box.threads[s.owner[id]] == Holding(s.inFlight[id]))
  }

  ghost predicate LInv(s: LState) {
    && |s.jobs| == |s.box.threads|
    && s.leases.Keys == s.inFlight.Keys && s.inFlight.Keys <= s.owner.Keys
    && s.settled <= s.owner.Keys && s.collected <= s.owner.Keys && s.collected !! s.leases.Keys
    && (forall id <- s.owner :: id < s.box.store.nextId)
    && DistinctIds(s)
    && (forall t :: 0 <= t < |s.jobs| ==> JobOk(s, t))
    && (forall id <- s.inFlight :: InFlightOk(s, id))
  }

  /** Where what a step leaves at `p` was before it. */
  ghost function Source(s: LState, a: LAction, p: Place): Place
    requires LEnabled(s, a)
  {
    match a
    case InOutbox(PushToQueue(t)) => if p == Queued(|s.box.store.queue|) then InThread(t) else p
    case InOutbox(ClaimNext(t, _)) =>
      if p == InThread(t) then Queued(0) else if p.Queued? then Queued(p.i + 1) else p
    case Collect(t, _, order) =>
      if p.Todo? && p.t == t && p.k < |order| && order[p.k] in s.owner then InThread(s.owner[order[p.k]]) else p
    case Resume(t) =>
      var Recovering(items, stage) := s.jobs[t];
      if p == InThread(t) then Todo(t, 0)
      else if p.Todo? && p.t == t && (stage == Marking || items[0].attempts < MAX_ATTEMPTS) then Todo(t, p.k + 1)
      else p
    case _ => p
  }

  lemma IdMovesInOutbox(s: LState, b: Action, p: Place)
    requires LInv(s) && LEnabled(s, InOutbox(b)) && IdAt(DoInOutbox(s, b), p).Some?
    requires b.TakeQueueId? ==> p != InThread(b.t)
    ensures IdAt(s, Source(s, InOutbox(b), p)) == IdAt(DoInOutbox(s, b), p)
  {
  }

  lemma IdMoves(s: LState, a: LAction, p: Place)
    requires LInv(s) && LEnabled(s, a) && IdAt(LApply(s, a), p).Some?
    requires a.InOutbox? && a.a.TakeQueueId? ==> p != InThread(a.a.t)
    ensures IdAt(s, Source(s, a, p)) == IdAt(LApply(s, a), p)
  {
    match a
    case InOutbox(b) => IdMovesInOutbox(s, b, p);
    case _ =>
  }

  lemma StepKeepsIds(s: LState, a: LAction)
    requires LInv(s) && LEnabled(s, a)
    ensures DistinctIds(LApply(s, a))
  {
    var s' := LApply(s, a);
    var stamping := a.InOutbox? && a.a.TakeQueueId?;
    if a.RecordLease? { assert IdAt(s, InThread(a.t)) == Some(s.box.threads[a.t].item.id); }
    forall p | IdAt(s', p).Some? ensures IdAt(s', p).value < s'.box.store.nextId && IdAt(s', p).value !in s'.owner {
      if !(stamping && p == InThread(a.a.t)) { IdMoves(s, a, p); }
    }
    forall p, q | IdAt(s', p).Some? && IdAt(s', p) == IdAt(s', q) ensures p == q {
      if stamping && (p == InThread(a.a.t) || q == InThread(a.a.t)) {
        if p != InThread(a.a.t) { IdMoves(s, a, p); }
        if q != InThread(a.a.t) { IdMoves(s, a, q); }
      } else {
        IdMoves(s, a, p);
        IdMoves(s, a, q);
      }
    }
  }

  lemma OutboxStepKeepsJobs(s: LState, b: Action)
    requires LInv(s) && LEnabled(s, InOutbox(b))
    ensures var s' := DoInOutbox(s, b);
      && (forall t :: 0 <= t < |s'.jobs| ==> JobOk(s', t))
      && (forall id <- s'.inFlight :: InFlightOk(s', id))
  {
    var s' := DoInOutbox(s, b);
    forall t | 0 <= t < |s'.jobs| ensures JobOk(s', t) { assert JobOk(s, t) && JobOk(s, b.t); }
    forall id <- s'.inFlight ensures InFlightOk(s', id) { assert InFlightOk(s, id) && JobOk(s, b.t); }
  }

  lemma OtherStepKeepsJobs(s: LState, a: LAction)
    requires LInv(s) && LEnabled(s, a) && !a.InOutbox?
    ensures var s' := LApply(s, a);
      && (forall t :: 0 <= t < |s'.jobs| ==> JobOk(s', t))
      && (forall id <- s'.inFlight :: id in s'.owner && InFlightOk(s', id))
  {
    var s' := LApply(s, a);
    if a.RecordLease? { assert IdAt(s, InThread(a.t)).Some?; }
    forall t | 0 <= t < |s'.jobs| ensures JobOk(s', t) { assert JobOk(s, t); }
    forall id <- s'.inFlight ensures id in s'.owner && InFlightOk(s', id) {
      if id in s.inFlight { assert InFlightOk(s, id) && JobOk(s, a.t); }
    }
  }

  lemma LStepKeepsInv(s: LState, a: LAction)
    requires LInv(s) && LEnabled(s, a)
    ensures LInv(LApply(s, a))
  {
    StepKeepsIds(s, a);
    assert JobOk(s, ThreadOf(a));
    if a.RecordLease? { assert IdAt(s, InThread(a.t)).Some?; }
    if a.InOutbox? { OutboxStepKeepsJobs(s, a.a); } else { OtherStepKeepsJobs(s, a); }
  }

  lemma {:induction false} LLeadsKeepsInv(s: LState, acts: seq<LAction>, t: LState)
    requires LInv(s) && LLeads(s, acts, t)
    ensures LInv(t)
    decreases |acts|
  {
    if acts != [] {
      LStepKeepsInv(s, acts[0]);
      LLeadsKeepsInv(LApply(s, acts[0]), acts[1..], t);
    }
  }

  /**
   * Over any run: leases and in-flight items always have the same ids, none of those ids is queued, and a recovery
   * takes exactly the leases whose deadline is before the clock value it captured.
   */
  lemma LeasesAgree(s: LState, acts: seq<LAction>, t: LState, u: Tid, now: int, order: seq<nat>)
    requires LStart(s) && LLeads(s, acts, t)
    ensures t.leases.Keys == t.inFlight.Keys
    ensures forall i :: 0 <= i < |t.box.store.queue| ==> t.box.store.queue[i].id !in t.leases
    ensures LEnabled(t, Collect(u, now, order)) ==>
              var t' := LApply(t, Collect(u, now, order));
              && (forall id <- order :: id in t.leases && id !in t'.leases && t.leases[id].deadlineMs < now)
              && (forall id <- t'.leases :: id in t.leases && t'.leases[id] == t.leases[id]
                                            && now <= t.leases[id].deadlineMs)
  {
    LLeadsKeepsInv(s, acts, t);
    assert forall i :: 0 <= i < |t.box.store.queue| ==> IdAt(t, Queued(i)) == Some(t.box.store.queue[i].id);
  }

  // A lease is recorded once, and no step changes it.
  lemma {:induction false} LeaseStays(s: LState, acts: seq<LAction>, t: LState, id: nat)
    requires LInv(s) && LLeads(s, acts, t) && id in s.owner
    ensures id in t.owner && (id in t.leases ==> id in s.leases && t.leases[id] == s.leases[id])
    decreases |acts|
  {
    if acts != [] {
      var a := acts[0];
      if a.RecordLease? { assert IdAt(s, InThread(a.t)).Some?; }
      LStepKeepsInv(s, a);
      LeaseStays(LApply(s, a), acts[1..], t, id);
    }
  }

  /**
   * Whatever happens in between, a recovery at `now` that still meets a lease recorded at `leaseNow` takes it exactly
   * when its time is over.
   */
  lemma TakenExactlyWhenOverdue(
      s: LState, u: Tid, leaseNow: int, timeoutMs: int, workerId: string, acts: seq<LAction>, t: LState,
      v: Tid, now: int, order: seq<nat>)
    requires LInv(s) && LEnabled(s, RecordLease(u, leaseNow, leaseNow + timeoutMs, workerId))
    requires LLeads(LApply(s, RecordLease(u, leaseNow, leaseNow + timeoutMs, workerId)), acts, t)
    requires s.box.threads[u].item.id in t.leases && LEnabled(t, Collect(v, now, order))
    ensures var id, t' := s.box.threads[u].item.id, LApply(t, Collect(v, now, order));
      && (id in order <==> now > leaseNow + timeoutMs)
      && (id in t'.leases && id in t'.inFlight <==> now <= leaseNow + timeoutMs)
  {
    var a, id := RecordLease(u, leaseNow, leaseNow + timeoutMs, workerId), s.box.threads[u].item.id;
    LStepKeepsInv(s, a);
    LeaseStays(LApply(s, a), acts, t, id);
    LLeadsKeepsInv(LApply(s, a), acts, t);
  }

  ghost predicate NothingTodo(s: LState) {
    forall t :: 0 <= t < |s.jobs| && s.jobs[t].Recovering? ==> s.jobs[t].items == []
  }

  lemma {:induction false} CollectedGrows(s: LState, acts: seq<LAction>, t: LState)
    requires LLeads(s, acts, t)
    ensures s.collected <= t.collected && s.late <= t.late && s.early <= t.early
    decreases |acts|
  {
    if acts != [] { CollectedGrows(LApply(s, acts[0]), acts[1..], t); }
  }

  // What is collected was leased, and so was not collected before.
  lemma NothingExpired(s: LState, a: LAction)
    requires LInv(s) && LEnabled(s, a) && a.Collect? && LApply(s, a).collected == s.collected
    ensures a.order == []
  {
    var first := if a.order == [] then 0 else a.order[0];
    assert first in a.order || a.order == [];
  }

  /** As long as recoveries find nothing expired, the lease path is the worker path. */
  lemma {:induction false} WithoutExpiryAWorkerRun(s: LState, acts: seq<LAction>, t: LState)
    returns (plain: seq<Action>)
    requires LInv(s) && NothingTodo(s) && LLeads(s, acts, t) && t.collected == s.collected
    ensures Leads(s.box, plain, t.box)
    decreases |acts|
  {
    if acts == [] {
      plain := [];
    } else {
      var s', a := LApply(s, acts[0]), acts[0];
      CollectedGrows(s', acts[1..], t);
      LStepKeepsInv(s, a);
      if a.Collect? { NothingExpired(s, a); }
      plain := WithoutExpiryAWorkerRun(s', acts[1..], t);
      if a.InOutbox? { plain := [a.a] + plain; }
    }
  }
}
