/** Any number of publishers and delivery workers on one outbox, interleaved between locked sections. */
module OutboxMachine {
  import opened Common
  import opened OutboxStore

  type Tid = nat

  datatype Thread =
    | Idle
    | Publishing(item: Item)
    | Enqueueing(item: Item)
    | RollingBack(key: string)
    | Holding(item: Item)
    | Requeueing(item: Item)
    | ReEnqueueing(item: Item)

  /**
   * `log` lists the keys in the order they were marked delivered, `since` is how much of it came before
   * the delivered keys were last forgotten, `lost` the keys of items that met a full queue on the way
   * back, and `claims` counts how often the current publication of a key was claimed. The outbox keeps
   * none of the four.
   */
  datatype State = State(store: Store, threads: seq<Thread>,
                         log: seq<string>, since: nat, lost: set<string>, lostCount: nat, claims: map<string, nat>)

  datatype Action =
    | StartPublish(t: Tid, signal: Signal, now: int)
    | TakeQueueId(t: Tid)
    | PushToQueue(t: Tid)
    | RollBack(t: Tid)
    | ClaimNext(t: Tid, now: int)
    | MarkDelivered(t: Tid)
    | MarkAsFailed(t: Tid, error: string)

  ghost predicate Start(s: State) {
    && s.store.queue == [] && s.store.pending == s.store.delivered == {}
    && s.store.published == s.store.claimed == s.store.deliveries == s.store.failed == s.store.deadLetters == 0
    && (forall t :: 0 <= t < |s.threads| ==> s.threads[t].Idle?)
    && s.log == [] && s.since == 0 && s.lost == {} && s.lostCount == 0 && s.claims == map[]
  }

  predicate Enabled(s: State, a: Action) {
    a.t < |s.threads| &&
    var thread := s.threads[a.t];
    match a
    case StartPublish(_, _, _) => thread.Idle?
    case TakeQueueId(_) => thread.Publishing? || thread.Requeueing?
    case PushToQueue(_) => thread.Enqueueing? || thread.ReEnqueueing?
    case RollBack(_) => thread.RollingBack?
    case ClaimNext(_, _) => thread.Idle? && s.store.queue != []
    case MarkDelivered(_) => thread.Holding?
    case MarkAsFailed(_, _) => thread.Holding?
  }

  // One step each. The thread is known to stand where the step needs it.

  function DoStartPublish(s: State, t: Tid, signal: Signal, now: int): State
    requires t < |s.threads|
  {
    var key := KeyOf(signal);
    if Taken(s.store, key) then s.(store := Reserve(s.store, key))
    else s.(store := Reserve(s.store, key), threads := s.threads[t := Publishing(NewItem(signal, now))],
            claims := s.claims[key := 0])
  }

  function DoTakeQueueId(s: State, t: Tid): State
    requires t < |s.threads| && (s.threads[t].Publishing? || s.threads[t].Requeueing?)
  {
    var item := s.threads[t].item.(id := s.store.nextId);
    var next := if s.threads[t].Publishing? then Enqueueing(item) else ReEnqueueing(item);
    s.(store := TakeId(s.store), threads := s.threads[t := next])
  }

  function DoPushNew(s: State, t: Tid): State
    requires t < |s.threads| && s.threads[t].Enqueueing?
  {
    var item := s.threads[t].item;
    var st' := PushItem(s.store, item);
    if HasRoom(s.store) then s.(store := st'.(published := st'.published + 1), threads := s.threads[t := Idle])
    else s.(store := st', threads := s.threads[t := RollingBack(item.dedupeKey)])
  }

  function DoPushAgain(s: State, t: Tid): State
    requires t < |s.threads| && s.threads[t].ReEnqueueing?
  {
    var item := s.threads[t].item;
    var st' := PushItem(s.store, item);
    var s' := s.(store := st'.(failed := st'.failed + 1), threads := s.threads[t := Idle]);
    if HasRoom(s.store) then s' else s'.(lost := s.lost + {item.dedupeKey}, lostCount := s.lostCount + 1)
  }

  function DoRollBack(s: State, t: Tid): State
    requires t < |s.threads| && s.threads[t].RollingBack?
  {
    s.(store := Release(s.store, s.threads[t].key), threads := s.threads[t := Idle])
  }

  function DoClaim(s: State, t: Tid, now: int): State
    requires t < |s.threads| && s.store.queue != []
  {
    var item := Claim(s.store.queue[0], now).(state := InFlight);
    var key := item.dedupeKey;
    s.(store := Dequeue(s.store), threads := s.threads[t := Holding(item)],
       claims := s.claims[key := (if key in s.claims then s.claims[key] else 0) + 1])
  }

  function DoDeliver(s: State, t: Tid): State
    requires t < |s.threads| && s.threads[t].Holding?
  {
    var key := s.threads[t].item.dedupeKey;
    var log := s.log + [key];
    s.(store := Deliver(s.store, key), threads := s.threads[t := Idle], log := log,
       since := if |s.store.delivered + {key}| > DELIVERED_LIMIT then |log| else s.since)
  }

  function DoFail(s: State, t: Tid, error: string): State
    requires t < |s.threads| && s.threads[t].Holding?
  {
    var item := FailedOnce(s.threads[t].item, error);
    if item.state.DeadLetter? then s.(store := Bury(s.store, item.dedupeKey), threads := s.threads[t := Idle])
    else s.(threads := s.threads[t := Requeueing(item)])
  }

  function Apply(s: State, a: Action): State
    requires Enabled(s, a)
  {
    match a
    case StartPublish(t, signal, now) => DoStartPublish(s, t, signal, now)
    case TakeQueueId(t) => DoTakeQueueId(s, t)
    case PushToQueue(t) => if s.threads[t].Enqueueing? then DoPushNew(s, t) else DoPushAgain(s, t)
    case RollBack(t) => DoRollBack(s, t)
    case ClaimNext(t, now) => DoClaim(s, t, now)
    case MarkDelivered(t) => DoDeliver(s, t)
    case MarkAsFailed(t, error) => DoFail(s, t, error)
  }

  /** The key a thread has a live copy of. */
  function Carried(thread: Thread): Option<string> {
    match thread
    case Idle => None
    case RollingBack(key) => Some(key)
    case Publishing(item) => Some(item.dedupeKey)
    case Enqueueing(item) => Some(item.dedupeKey)
    case Holding(item) => Some(item.dedupeKey)
    case Requeueing(item) => Some(item.dedupeKey)
    case ReEnqueueing(item) => Some(item.dedupeKey)
  }

  /** A claimed item that has not been settled yet. */
  predicate InHand(thread: Thread) {
    thread.Holding? || thread.Requeueing? || thread.ReEnqueueing?
  }

  function Total(threads: seq<Thread>, weight: Thread -> nat): nat {
    if threads == [] then 0 else weight(threads[0]) + Total(threads[1..], weight)
  }

  lemma {:induction false} TotalUpdate(threads: seq<Thread>, t: nat, next: Thread, weight: Thread -> nat)
    requires t < |threads|
    ensures Total(threads[t := next], weight) + weight(threads[t]) == Total(threads, weight) + weight(next)
  {
    if t == 0 {
      assert threads[t := next][1..] == threads[1..];
    } else {
      TotalUpdate(threads[1..], t - 1, next, weight);
      assert threads[t := next][1..] == threads[1..][t - 1 := next];
    }
  }

  function HandWeight(thread: Thread): nat {
    if InHand(thread) then 1 else 0
  }

  function Hands(s: State): nat {
    Total(s.threads, HandWeight)
  }

  function AttemptsLeft(item: Item): nat {
    if item.attempts < MAX_ATTEMPTS then MAX_ATTEMPTS - item.attempts else 0
  }

  function QueueLeft(queue: seq<Item>): nat {
    if queue == [] then 0 else AttemptsLeft(queue[0]) + QueueLeft(queue[1..])
  }

  lemma {:induction false} QueueLeftAppend(queue: seq<Item>, item: Item)
    ensures QueueLeft(queue + [item]) == QueueLeft(queue) + AttemptsLeft(item)
  {
    if queue == [] {
      assert queue + [item] == [item];
    } else {
      assert (queue + [item])[1..] == queue[1..] + [item];
      QueueLeftAppend(queue[1..], item);
    }
  }

  /** Attempts a claimed item may still use up, the running one included. */
  function WorkWeight(thread: Thread): nat {
    if InHand(thread) then AttemptsLeft(thread.item) else 0
  }

  /** Claims a claimed item may still cause. */
  function ClaimWeight(thread: Thread): nat {
    if thread.Holding? && AttemptsLeft(thread.item) > 0 then AttemptsLeft(thread.item) - 1 else WorkWeight(thread)
  }

  /** Attempts all published and unsettled items may still use up together. */
  function WorkLeft(s: State): nat {
    QueueLeft(s.store.queue) + Total(s.threads, WorkWeight)
  }

  /** At most one live copy of a key: queued once, or with one thread, and then its key is reserved. */
  ghost predicate OneCopy(s: State) {
    && (forall i, j :: 0 <= i < j < |s.store.queue| ==> s.store.queue[i].dedupeKey != s.store.queue[j].dedupeKey)
    && (forall t, u :: 0 <= t < |s.threads| && 0 <= u < |s.threads| && t != u && Carried(s.threads[t]).Some? ==>
          Carried(s.threads[t]) != Carried(s.threads[u]))
    && (forall i, t :: 0 <= i < |s.store.queue| && 0 <= t < |s.threads| ==>
          Carried(s.threads[t]) != Some(s.store.queue[i].dedupeKey))
    && (forall i :: 0 <= i < |s.store.queue| ==> Reserved(s, s.store.queue[i].dedupeKey))
    && (forall t :: 0 <= t < |s.threads| && Carried(s.threads[t]).Some? ==> Reserved(s, Carried(s.threads[t]).value))
  }

  predicate Reserved(s: State, key: string) {
    key in s.store.pending && key !in s.lost
  }

  ghost predicate LogInv(s: State) {
    && s.store.pending !! s.store.delivered
    && s.lost <= s.store.pending
    && s.since <= |s.log| && s.store.deliveries == |s.log|
    && s.store.delivered == (set i | s.since <= i < |s.log| :: s.log[i])
    && |s.store.delivered| == |s.log| - s.since <= DELIVERED_LIMIT
    && (forall i, j :: s.since <= i < j < |s.log| ==> s.log[i] != s.log[j])
    && (|s.log| <= DELIVERED_LIMIT ==> s.since == 0)
    && (|s.log| <= DELIVERED_LIMIT + 1 ==> NoDuplicates(s.log))
  }

  /** Attempts made so far, and claims of this publication. */
  ghost predicate AttemptsInv(s: State) {
    && (forall i :: 0 <= i < |s.store.queue| ==> Attempted(s, s.store.queue[i], 0))
    && (forall t :: 0 <= t < |s.threads| ==>
          match s.threads[t]
          case Publishing(item) => Attempted(s, item, 0)
          case Enqueueing(item) => Attempted(s, item, 0)
          case Holding(item) => Attempted(s, item, 1)
          case Requeueing(item) => Attempted(s, item, 0)
          case ReEnqueueing(item) => Attempted(s, item, 0)
          case _ => true)
    && (forall key <- s.claims :: s.claims[key] <= MAX_ATTEMPTS)
  }

  predicate Attempted(s: State, item: Item, running: nat) {
    && item.attempts < MAX_ATTEMPTS
    && item.dedupeKey in s.claims && s.claims[item.dedupeKey] == item.attempts + running
  }

  ghost predicate CountInv(s: State) {
    var st, hands := s.store, Hands(s);
    && st.published == |st.queue| + hands + st.deliveries + st.deadLetters + s.lostCount
    && st.claimed == st.deliveries + st.failed + hands
  }

  ghost predicate BudgetInv(s: State) {
    s.store.claimed + QueueLeft(s.store.queue) + Total(s.threads, ClaimWeight) <= MAX_ATTEMPTS * s.store.published
  }

  ghost predicate Inv(s: State) {
    OneCopy(s) && LogInv(s) && AttemptsInv(s) && CountInv(s) && BudgetInv(s)
  }

  lemma {:induction false} IdleTotal(threads: seq<Thread>, weight: Thread -> nat)
    requires weight(Idle) == 0 && forall t :: 0 <= t < |threads| ==> threads[t].Idle?
    ensures Total(threads, weight) == 0
  {
    if threads != [] { IdleTotal(threads[1..], weight); }
  }

  lemma StartInv(s: State)
    requires Start(s)
    ensures Inv(s)
  {
    IdleTotal(s.threads, HandWeight);
    IdleTotal(s.threads, ClaimWeight);
  }

  // An item with a thread goes to the end of the queue.
  lemma AppendKeepsOneCopy(s: State, s': State, t: Tid, item: Item)
    requires OneCopy(s) && t < |s.threads| && Carried(s.threads[t]) == Some(item.dedupeKey)
    requires s'.threads == s.threads[t := Idle] && s'.store.queue == s.store.queue + [item]
    requires s'.store.pending == s.store.pending && s'.lost == s.lost
    ensures OneCopy(s')
  {
    var n := |s.store.queue|;
    assert forall i :: 0 <= i < n ==> s'.store.queue[i] == s.store.queue[i];
    assert s'.store.queue[n] == item;
    assert forall u :: 0 <= u < |s.threads| && u != t ==> s'.threads[u] == s.threads[u];
  }

  lemma PushKeeps(s: State, t: Tid)
    requires Inv(s) && Enabled(s, PushToQueue(t))
    ensures var s' := Apply(s, PushToQueue(t)); OneCopy(s') && AttemptsInv(s')
  {
    if HasRoom(s.store) { AppendKeepsOneCopy(s, Apply(s, PushToQueue(t)), t, s.threads[t].item); }
  }

  lemma StartPublishKeeps(s: State, t: Tid, signal: Signal, now: int)
    requires Inv(s) && t < |s.threads| && s.threads[t].Idle?
    ensures var s' := DoStartPublish(s, t, signal, now); OneCopy(s') && AttemptsInv(s')
  {
  }

  lemma TakeQueueIdKeeps(s: State, t: Tid)
    requires Inv(s) && t < |s.threads| && (s.threads[t].Publishing? || s.threads[t].Requeueing?)
    ensures var s' := DoTakeQueueId(s, t); OneCopy(s') && AttemptsInv(s')
  {
  }

  lemma RollBackKeeps(s: State, t: Tid)
    requires Inv(s) && t < |s.threads| && s.threads[t].RollingBack?
    ensures var s' := DoRollBack(s, t); OneCopy(s') && AttemptsInv(s')
  {
  }

  lemma ClaimKeeps(s: State, t: Tid, now: int)
    requires Inv(s) && t < |s.threads| && s.threads[t].Idle? && s.store.queue != []
    ensures var s' := DoClaim(s, t, now); OneCopy(s') && AttemptsInv(s')
  {
  }

  lemma FailKeeps(s: State, t: Tid, error: string)
    requires Inv(s) && t < |s.threads| && s.threads[t].Holding?
    ensures var s' := DoFail(s, t, error); OneCopy(s') && AttemptsInv(s')
  {
  }

  lemma DeliverKeeps(s: State, t: Tid)
    requires Inv(s) && t < |s.threads| && s.threads[t].Holding?
    ensures var s' := DoDeliver(s, t); OneCopy(s') && AttemptsInv(s')
  {
  }

  lemma DeliverLogs(s: State, t: Tid)
    requires Inv(s) && t < |s.threads| && s.threads[t].Holding?
    ensures var s', key := DoDeliver(s, t), s.threads[t].item.dedupeKey;
      && s'.log == s.log + [key] && s'.store.delivered == (set i | s'.since <= i < |s'.log| :: s'.log[i])
      && key !in s'.store.pending && key !in s.store.delivered
      && forall i :: s.since <= i < |s.log| ==> s.log[i] != key
  {
    var s', key := DoDeliver(s, t), s.threads[t].item.dedupeKey;
    assert Carried(s.threads[t]) == Some(key);
    assert Reserved(s, key) && key !in s.store.delivered;
    assert s'.log[|s.log|] == key && forall i :: 0 <= i < |s.log| ==> s'.log[i] == s.log[i];
    forall i | s.since <= i < |s.log| ensures s.log[i] != key { assert s.log[i] in s.store.delivered; }
  }

  lemma DeliverKeepsLog(s: State, t: Tid)
    requires Inv(s) && t < |s.threads| && s.threads[t].Holding?
    ensures LogInv(DoDeliver(s, t))
  {
    DeliverLogs(s, t);
  }

  lemma StepKeepsLog(s: State, a: Action)
    requires Inv(s) && Enabled(s, a)
    ensures LogInv(Apply(s, a))
  {
    var t := a.t;
    match a
    case MarkDelivered(_) => DeliverKeepsLog(s, t);
    case RollBack(_) => assert Carried(s.threads[t]) == Some(s.threads[t].key);
    case MarkAsFailed(_, _) => assert Carried(s.threads[t]) == Some(s.threads[t].item.dedupeKey);
    case PushToQueue(_) => assert Carried(s.threads[t]) == Some(s.threads[t].item.dedupeKey);
    case _ =>
  }

  lemma StepMovesOne(s: State, a: Action, weight: Thread -> nat)
    requires Enabled(s, a)
    ensures var now := Apply(s, a).threads;
      |now| == |s.threads| && Total(now, weight) + weight(s.threads[a.t]) == Total(s.threads, weight) + weight(now[a.t])
  {
    var now := Apply(s, a).threads;
    TotalUpdate(s.threads, a.t, now[a.t], weight);
    assert now == s.threads[a.t := now[a.t]];
  }

  lemma StepKeepsCounts(s: State, a: Action)
    requires CountInv(s) && Enabled(s, a)
    ensures CountInv(Apply(s, a))
  {
    StepMovesOne(s, a, HandWeight);
  }

  lemma QueueLeftStep(s: State, a: Action)
    requires Enabled(s, a)
    ensures QueueLeft(Apply(s, a).store.queue) ==
              if a.ClaimNext? then QueueLeft(s.store.queue) - AttemptsLeft(s.store.queue[0])
              else if a.PushToQueue? && HasRoom(s.store) then
                QueueLeft(s.store.queue) + AttemptsLeft(s.threads[a.t].item)
              else QueueLeft(s.store.queue)
  {
    if a.PushToQueue? { QueueLeftAppend(s.store.queue, s.threads[a.t].item); }
  }

  lemma StepKeepsBudget(s: State, a: Action)
    requires BudgetInv(s) && Enabled(s, a)
    requires a.ClaimNext? ==> s.store.queue[0].attempts < MAX_ATTEMPTS
    ensures BudgetInv(Apply(s, a))
  {
    QueueLeftStep(s, a);
    StepMovesOne(s, a, ClaimWeight);
  }

  lemma StepUsesWork(s: State, a: Action)
    requires Enabled(s, a)
    requires a.MarkDelivered? || a.MarkAsFailed? ==> s.threads[a.t].item.attempts < MAX_ATTEMPTS
    ensures a.MarkDelivered? || a.MarkAsFailed? ==> WorkLeft(Apply(s, a)) < WorkLeft(s)
    ensures WorkLeft(Apply(s, a)) <= WorkLeft(s) + MAX_ATTEMPTS * (Apply(s, a).store.published - s.store.published)
  {
    QueueLeftStep(s, a);
    StepMovesOne(s, a, WorkWeight);
  }

  lemma StepKeepsInv(s: State, a: Action)
    requires Inv(s) && Enabled(s, a)
    ensures Inv(Apply(s, a))
  {
    StepKeepsLog(s, a);
    StepKeepsCounts(s, a);
    assert a.ClaimNext? ==> Attempted(s, s.store.queue[0], 0);
    StepKeepsBudget(s, a);
    match a
    case StartPublish(t, signal, now) => StartPublishKeeps(s, t, signal, now);
    case TakeQueueId(t) => TakeQueueIdKeeps(s, t);
    case PushToQueue(t) => PushKeeps(s, t);
    case RollBack(t) => RollBackKeeps(s, t);
    case ClaimNext(t, now) => ClaimKeeps(s, t, now);
    case MarkDelivered(t) => DeliverKeeps(s, t);
    case MarkAsFailed(t, error) => FailKeeps(s, t, error);
  }

  /** Some steps lead from one state to another. */
  ghost predicate Leads(s: State, acts: seq<Action>, t: State)
    decreases |acts|
  {
    if acts == [] then s == t
    else Enabled(s, acts[0]) && Leads(Apply(s, acts[0]), acts[1..], t)
  }

  lemma {:induction false} LeadsKeepsInv(s: State, acts: seq<Action>, t: State)
    requires Inv(s) && Leads(s, acts, t)
    ensures Inv(t)
    decreases |acts|
  {
    if acts != [] {
      StepKeepsInv(s, acts[0]);
      LeadsKeepsInv(Apply(s, acts[0]), acts[1..], t);
    }
  }

  /**
   * At most once: over any run of any number of publishers and workers that delivers at most 50,001 times,
   * no key is marked delivered twice. Over longer runs the same holds between two forgettings.
   */
  lemma AtMostOnce(s: State, acts: seq<Action>, t: State)
    requires Start(s) && Leads(s, acts, t)
    ensures |t.log| <= DELIVERED_LIMIT + 1 ==> NoDuplicates(t.log)
    ensures t.since <= |t.log| && NoDuplicates(t.log[t.since..])
    ensures |t.log| <= DELIVERED_LIMIT ==> t.since == 0
  {
    StartInv(s);
    LeadsKeepsInv(s, acts, t);
    assert forall i :: 0 <= i < |t.log| - t.since ==> t.log[t.since..][i] == t.log[t.since + i];
  }

  /** Nothing disappears unaccounted for, and no publication is claimed more than five times. */
  lemma Conservation(s: State, acts: seq<Action>, t: State)
    requires Start(s) && Leads(s, acts, t)
    ensures var st := t.store;
      && st.published == |st.queue| + Hands(t) + st.deliveries + st.deadLetters + t.lostCount
      && st.claimed == st.deliveries + st.failed + Hands(t)
      && st.claimed <= MAX_ATTEMPTS * st.published
    ensures forall key <- t.claims :: t.claims[key] <= MAX_ATTEMPTS
    ensures forall i :: 0 <= i < |t.store.queue| ==> t.store.queue[i].attempts < MAX_ATTEMPTS
  {
    StartInv(s);
    LeadsKeepsInv(s, acts, t);
    assert forall i :: 0 <= i < |t.store.queue| ==> Attempted(t, t.store.queue[i], 0);
  }

  /** Settlement wears out: each delivery or failure uses up work, and only a new publication adds any. */
  lemma SettlementWearsOut(s: State, acts: seq<Action>, t: State, a: Action)
    requires Start(s) && Leads(s, acts, t) && Enabled(t, a)
    ensures a.MarkDelivered? || a.MarkAsFailed? ==> WorkLeft(Apply(t, a)) < WorkLeft(t)
    ensures WorkLeft(Apply(t, a)) <= WorkLeft(t) + MAX_ATTEMPTS * (Apply(t, a).store.published - t.store.published)
  {
    StartInv(s);
    LeadsKeepsInv(s, acts, t);
    StepUsesWork(t, a);
  }

  lemma LostStaysLost(s: State, a: Action, key: string)
    requires Inv(s) && Enabled(s, a) && key in s.lost
    ensures key in Apply(s, a).lost
    ensures s.log <= Apply(s, a).log
    ensures |s.log| < |Apply(s, a).log| ==> Apply(s, a).log[|s.log|] != key
  {
    if a.MarkDelivered? { assert Carried(s.threads[a.t]) == Some(s.threads[a.t].item.dedupeKey); }
  }

  /**
   * An item that meets a full queue on its way back is gone for good: its key stays reserved, so it is
   * never delivered again and every later publish of it is refused as a duplicate.
   */
  lemma {:induction false} LostForever(s: State, acts: seq<Action>, t: State, key: string)
    requires Inv(s) && key in s.lost && Leads(s, acts, t)
    ensures key in t.lost && Taken(t.store, key)
    ensures s.log <= t.log && forall i :: |s.log| <= i < |t.log| ==> t.log[i] != key
    decreases |acts|
  {
    if acts != [] {
      var s' := Apply(s, acts[0]);
      StepKeepsInv(s, acts[0]);
      LostStaysLost(s, acts[0], key);
      LostForever(s', acts[1..], t, key);
    }
  }

  /** Somewhere there is an item, or a roll-back under way, that will give the key back or deliver it. */
  ghost predicate HasCopy(s: State, key: string) {
    || (exists i :: 0 <= i < |s.store.queue| && s.store.queue[i].dedupeKey == key)
    || (exists t :: 0 <= t < |s.threads| && Carried(s.threads[t]) == Some(key))
  }

  /** The reserved keys nothing will ever free: no item of theirs is queued or with a thread. */
  ghost function Stranded(s: State): set<string> {
    set key | key in s.store.pending && !HasCopy(s, key)
  }

  // Where the copy of a key goes in one step, when its reservation stays.
  lemma QueuedCopyStays(s: State, a: Action, i: nat)
    requires Enabled(s, a) && i < |s.store.queue|
    ensures HasCopy(Apply(s, a), s.store.queue[i].dedupeKey)
  {
    var s' := Apply(s, a);
    if a.ClaimNext? && i == 0 {
      assert Carried(s'.threads[a.t]) == Some(s.store.queue[0].dedupeKey);
    } else {
      assert s'.store.queue[if a.ClaimNext? then i - 1 else i] == s.store.queue[i];
    }
  }

  lemma CarriedCopyStays(s: State, a: Action, t: Tid, key: string)
    requires Enabled(s, a) && t < |s.threads| && Carried(s.threads[t]) == Some(key) && key in Apply(s, a).store.pending
    ensures HasCopy(Apply(s, a), key) || key in Apply(s, a).lost
  {
    var s' := Apply(s, a);
    if t != a.t {
      assert s'.threads[t] == s.threads[t];
    } else if a.PushToQueue? {
      if HasRoom(s.store) {
        assert s'.store.queue[|s.store.queue|] == s.threads[t].item;
      } else {
        assert Carried(s'.threads[t]) == Some(key) || key in s'.lost;
      }
    } else {
      assert Carried(s'.threads[t]) == Some(key);
    }
  }

  lemma StepStrandsOnlyLost(s: State, a: Action)
    requires Enabled(s, a) && Stranded(s) <= s.lost
    ensures Stranded(Apply(s, a)) <= Apply(s, a).lost
  {
    var s' := Apply(s, a);
    forall key | key in s'.store.pending ensures HasCopy(s', key) || key in s'.lost {
      if key !in s.store.pending {
        assert Carried(s'.threads[a.t]) == Some(key);
      } else if key !in s.lost {
        assert key !in Stranded(s);
        if i :| 0 <= i < |s.store.queue| && s.store.queue[i].dedupeKey == key {
          QueuedCopyStays(s, a, i);
        } else {
          var t :| 0 <= t < |s.threads| && Carried(s.threads[t]) == Some(key);
          CarriedCopyStays(s, a, t, key);
        }
      }
    }
  }

  lemma {:induction false} RunStrandsOnlyLost(s: State, acts: seq<Action>, t: State)
    requires Leads(s, acts, t) && Stranded(s) <= s.lost
    ensures Stranded(t) <= t.lost
    decreases |acts|
  {
    if acts != [] {
      StepStrandsOnlyLost(s, acts[0]);
      RunStrandsOnlyLost(Apply(s, acts[0]), acts[1..], t);
    }
  }

  /** Over any run, the reserved keys without a live copy are exactly those of the items that were lost. */
  lemma LostMeansStranded(s: State, acts: seq<Action>, t: State)
    requires Start(s) && Leads(s, acts, t)
    ensures Stranded(t) == t.lost
  {
    StartInv(s);
    LeadsKeepsInv(s, acts, t);
    RunStrandsOnlyLost(s, acts, t);
    forall key <- t.lost ensures !HasCopy(t, key) { }
  }

  /**
   * The one way to lose an item: the step that strands a key is a failed attempt's second push, below the limit,
   * onto a full queue.
   */
  lemma LostExactlyWhenRequeueFindsFull(s: State, acts: seq<Action>, t: State, a: Action)
    requires Start(s) && Leads(s, acts, t) && Enabled(t, a)
    ensures Stranded(Apply(t, a)) != Stranded(t) <==>
              a.PushToQueue? && t.threads[a.t].ReEnqueueing? && |t.store.queue| >= t.store.capacity
  {
    StartInv(s);
    LeadsKeepsInv(s, acts, t);
    var u := Apply(t, a);
    StepOn(t, a, [], u);
    LeadsOn(s, acts, t, [a], u);
    LostMeansStranded(s, acts, t);
    LostMeansStranded(s, acts + [a], u);
    if a.PushToQueue? { assert Carried(t.threads[a.t]) == Some(t.threads[a.t].item.dedupeKey); }
  }

  /** Two threads at rest, and a queue of one. */
  ghost function TwoThreads(): (s: State)
    ensures Start(s)
  {
    State(Store(1, [], 1, 0, 0, 0, {}, {}, 0, 0, 0, 0, 0, 0), [Idle, Idle], [], 0, {}, 0, map[])
  }

  lemma OneClaimed(p: Signal) returns (acts: seq<Action>, t: State)
    ensures Leads(TwoThreads(), acts, t) && |t.threads| == 2 && t.threads[0].Holding? && t.threads[1].Idle?
    ensures t.threads[0].item.attempts == 0 && t.lost == {} && t.log == [] && t.store.failed == 0
    ensures forall a <- acts :: a.t == 0
    ensures t.store.capacity == 1 && t.store.queue == [] && t.store.pending == {KeyOf(p)} && t.store.delivered == {}
  {
    var first, u := PublishIsARun(TwoThreads(), 0, p, 0);
    t := Apply(u, ClaimNext(0, 0));
    StepOn(u, ClaimNext(0, 0), [], t);
    LeadsOn(TwoThreads(), first, u, [ClaimNext(0, 0)], t);
    acts := first + [ClaimNext(0, 0)];
  }

  // A failed item meets a full queue.
  lemma LostByFailing(s: State) returns (acts: seq<Action>, t: State)
    requires |s.threads| == 2 && s.threads[0].Holding? && s.threads[0].item.attempts == 0
    requires !HasRoom(s.store) && s.lost == {}
    ensures Leads(s, acts, t) && |t.lost| == 1 && t.store.failed == s.store.failed + 1
  {
    var fail, takeId, push := MarkAsFailed(0, "delivery failed"), TakeQueueId(0), PushToQueue(0);
    var s1 := Apply(s, fail);
    var s2 := Apply(s1, takeId);
    t := Apply(s2, push);
    StepOn(s2, push, [], t);
    StepOn(s1, takeId, [push], t);
    StepOn(s, fail, [takeId] + [push], t);
    acts := [fail] + ([takeId] + [push]);
  }

  /** An item is lost: claimed from a queue of one, overtaken by another publication, and failed. */
  lemma ItemLost() returns (acts: seq<Action>, t: State)
    ensures Leads(TwoThreads(), acts, t) && |t.lost| == 1 && t.store.failed == 1
  {
    var p, q := Signal(Prediction, "p", "r", ""), Signal(Prediction, "q", "r", "");
    KeyIdentifies(p, q);
    var first, u := OneClaimed(p);
    var second, v := PublishIsARun(u, 1, q, 0);
    assert v.store == Submitted(Reserve(u.store, KeyOf(q)), KeyOf(q), NewItem(q, 0));
    var third, w := LostByFailing(v);
    LeadsOn(TwoThreads(), first, u, second, v);
    LeadsOn(TwoThreads(), first + second, v, third, w);
    acts, t := first + second + third, w;
  }

  // The bound on at-most-once is exact: a run of 50,002 deliveries that repeats a key.

  lemma StepOn(s: State, a: Action, acts: seq<Action>, t: State)
    requires Enabled(s, a) && Leads(Apply(s, a), acts, t)
    ensures Leads(s, [a] + acts, t)
  {
    assert ([a] + acts)[1..] == acts;
  }

  lemma {:induction false} LeadsOn(s: State, first: seq<Action>, t: State, second: seq<Action>, u: State)
    requires Leads(s, first, t) && Leads(t, second, u)
    ensures Leads(s, first + second, u)
    decreases |first|
  {
    if first == [] {
      assert first + second == second;
    } else {
      assert (first + second)[0] == first[0] && (first + second)[1..] == first[1..] + second;
      LeadsOn(Apply(s, first[0]), first[1..], t, second, u);
    }
  }

  // What an uninterrupted call does is what its steps do one after the other.

  lemma PublishIsARun(s: State, t: Tid, signal: Signal, now: int) returns (acts: seq<Action>, s': State)
    requires t < |s.threads| && s.threads[t].Idle?
    ensures Leads(s, acts, s') && s'.store == Publish(s.store, signal, now) && s'.threads == s.threads
    ensures s'.log == s.log && s'.since == s.since && s'.lost == s.lost && forall a <- acts :: a.t == t
  {
    var s1 := Apply(s, StartPublish(t, signal, now));
    acts, s' := [], s1;
    if !Taken(s.store, KeyOf(signal)) {
      var s2 := Apply(s1, TakeQueueId(t));
      var s3 := Apply(s2, PushToQueue(t));
      s' := s3;
      if !HasRoom(s.store) {
        s' := Apply(s3, RollBack(t));
        StepOn(s3, RollBack(t), [], s');
        acts := [RollBack(t)];
      }
      StepOn(s2, PushToQueue(t), acts, s');
      acts := [PushToQueue(t)] + acts;
      StepOn(s1, TakeQueueId(t), acts, s');
      acts := [TakeQueueId(t)] + acts;
    }
    StepOn(s, StartPublish(t, signal, now), acts, s');
    acts := [StartPublish(t, signal, now)] + acts;
  }

  /** The settling steps of a run in order: was it a delivery? */
  function Settlements(acts: seq<Action>): seq<bool> {
    if acts == [] then []
    else
      Settlements(acts[..|acts| - 1])
      + match acts[|acts| - 1]
        case MarkDelivered(_) => [true]
        case MarkAsFailed(_, _) => [false]
        case _ => []
  }

  lemma {:induction false} SettlementsConcat(a: seq<Action>, b: seq<Action>)
    ensures Settlements(a + b) == Settlements(a) + Settlements(b)
  {
    if b == [] {
      assert a + b == a;
    } else {
      SettlementsConcat(a, b[..|b| - 1]);
      assert (a + b)[..|a + b| - 1] == a + b[..|b| - 1];
    }
  }

  lemma FailureIsARun(s: State, t: Tid, now: int, error: string) returns (acts: seq<Action>, s': State)
    requires t < |s.threads| && s.threads[t].Idle? && s.store.queue != []
    ensures Leads(s, acts, s') && s'.threads == s.threads && Settlements(acts) == [false]
    ensures s'.store == MarkFailed(Dequeue(s.store), Claim(s.store.queue[0], now).(state := InFlight), error)
  {
    var s1 := Apply(s, ClaimNext(t, now));
    var s2 := Apply(s1, MarkAsFailed(t, error));
    acts, s' := [], s2;
    if s2.threads[t].Requeueing? {
      var s3 := Apply(s2, TakeQueueId(t));
      s' := Apply(s3, PushToQueue(t));
      StepOn(s3, PushToQueue(t), [], s');
      acts := [PushToQueue(t)];
      StepOn(s2, TakeQueueId(t), acts, s');
      acts := [TakeQueueId(t)] + acts;
      assert acts[..1] == [TakeQueueId(t)] && [TakeQueueId(t)][..0] == [];
    }
    StepOn(s1, MarkAsFailed(t, error), acts, s');
    SettlementsConcat([MarkAsFailed(t, error)], acts);
    acts := [MarkAsFailed(t, error)] + acts;
    StepOn(s, ClaimNext(t, now), acts, s');
    SettlementsConcat([ClaimNext(t, now)], acts);
    acts := [ClaimNext(t, now)] + acts;
  }

  ghost predicate Quiet(s: State) {
    s.threads == [Idle] && s.store.queue == [] && s.store.pending == {} && s.store.capacity >= 1 && Inv(s)
  }

  lemma PublishedAlone(s: State, signal: Signal) returns (acts: seq<Action>, u: State)
    requires Quiet(s) && KeyOf(signal) !in s.store.delivered
    ensures Leads(s, acts, u) && u.threads == [Idle] && u.log == s.log && u.since == s.since
    ensures u.store.queue == [NewItem(signal, 0).(id := s.store.nextId)] && u.store.pending == {KeyOf(signal)}
    ensures u.store.delivered == s.store.delivered && u.store.capacity == s.store.capacity
  {
    acts, u := PublishIsARun(s, 0, signal, 0);
  }

  // One signal published, claimed and delivered without anything in between.
  lemma Round(s: State, signal: Signal) returns (acts: seq<Action>, t: State)
    requires Quiet(s) && KeyOf(signal) !in s.store.delivered
    ensures Leads(s, acts, t) && Quiet(t) && t.log == s.log + [KeyOf(signal)]
    ensures t.since == if |s.store.delivered| == DELIVERED_LIMIT then |t.log| else s.since
  {
    var first, u := PublishedAlone(s, signal);
    var v := Apply(u, ClaimNext(0, 0));
    t := Apply(v, MarkDelivered(0));
    var second := [ClaimNext(0, 0)] + [MarkDelivered(0)];
    StepOn(v, MarkDelivered(0), [], t);
    StepOn(u, ClaimNext(0, 0), [MarkDelivered(0)], t);
    LeadsOn(s, first, u, second, t);
    acts := first + second;
    LeadsKeepsInv(s, acts, t);
    assert |s.store.delivered + {KeyOf(signal)}| == |s.store.delivered| + 1;
  }

  function Numbered(n: nat): Signal {
    Signal(Prediction, seq(n, _ => 'x'), "", "")
  }

  lemma NumberedDiffer(m: nat, n: nat)
    requires m != n
    ensures KeyOf(Numbered(m)) != KeyOf(Numbered(n))
  {
    assert |KeyOf(Numbered(m))| == m + 2 && |KeyOf(Numbered(n))| == n + 2;
  }

  ghost predicate NumberedLog(s: State, n: nat) {
    |s.log| == n && s.since == 0 && forall i :: 0 <= i < n ==> s.log[i] == KeyOf(Numbered(i))
  }

  lemma NextIsFresh(s: State, n: nat)
    requires LogInv(s) && NumberedLog(s, n)
    ensures KeyOf(Numbered(n)) !in s.store.delivered && |s.store.delivered| == n
  {
    forall i | 0 <= i < n ensures s.log[i] != KeyOf(Numbered(n)) { NumberedDiffer(i, n); }
  }

  lemma DeliverNext(s: State, n: nat) returns (acts: seq<Action>, t: State)
    requires Quiet(s) && NumberedLog(s, n) && n < DELIVERED_LIMIT
    ensures Leads(s, acts, t) && Quiet(t) && NumberedLog(t, n + 1)
  {
    NextIsFresh(s, n);
    acts, t := Round(s, Numbered(n));
  }

  lemma {:induction false} Deliveries(s: State, n: nat) returns (acts: seq<Action>, t: State)
    requires Quiet(s) && Start(s) && n <= DELIVERED_LIMIT
    ensures Leads(s, acts, t) && Quiet(t) && NumberedLog(t, n)
  {
    if n == 0 {
      acts, t := [], s;
    } else {
      var before, u := Deliveries(s, n - 1);
      var more, v := DeliverNext(u, n - 1);
      LeadsOn(s, before, u, more, v);
      acts, t := before + more, v;
    }
  }

  lemma FullRun() returns (s: State, acts: seq<Action>, t: State)
    ensures Start(s) && Leads(s, acts, t) && Quiet(t) && |t.log| == t.since == DELIVERED_LIMIT + 1
    ensures t.log[0] == KeyOf(Numbered(0))
  {
    s := State(Store(1, [], 1, 0, 0, 0, {}, {}, 0, 0, 0, 0, 0, 0), [Idle], [], 0, {}, 0, map[]);
    StartInv(s);
    var first, u := Deliveries(s, DELIVERED_LIMIT);
    NextIsFresh(u, DELIVERED_LIMIT);
    var second, v := Round(u, Numbered(DELIVERED_LIMIT));
    LeadsOn(s, first, u, second, v);
    acts, t := first + second, v;
  }

  /** With 50,002 deliveries a key can be delivered twice: the 50,001st delivery makes the outbox forget. */
  lemma TwiceBeyondTheLimit() returns (s: State, acts: seq<Action>, t: State)
    ensures Start(s) && Leads(s, acts, t)
    ensures |t.log| == DELIVERED_LIMIT + 2 && !NoDuplicates(t.log)
  {
    var first, u, second;
    s, first, u := FullRun();
    second, t := Round(u, Numbered(0));
    LeadsOn(s, first, u, second, t);
    acts := first + second;
    assert t.log[0] == KeyOf(Numbered(0)) == t.log[DELIVERED_LIMIT + 1];
  }
}
