/** The batch writer against a writer that writes every item at once. An item stands for its SQL statement. */
module BatchWriters {
  import opened Common
  import opened Recency
  import opened BoundedQueues

  const OFFLINE_LIMIT := 1000

  /** What the database makes of one statement; `Offline` when there is no connection. */
  datatype Answer = Done | Refused | Offline

  /** The answer to each attempt, by its number. */
  type Database = nat -> Answer

  datatype Sink = Sink(written: nat, errors: nat, offlineDrops: nat, offlineLog: seq<string>)

  function WriteItem(k: Sink, item: string, answer: Answer): Sink {
    match answer
    case Done => k.(written := k.written + 1)
    case Refused => k.(errors := k.errors + 1)
    case Offline =>
      var log := k.offlineLog + [item];
      k.(offlineLog := if |log| > OFFLINE_LIMIT then log[1..] else log, offlineDrops := k.offlineDrops + 1)
  }

  /** The direct writer: one item after the other. */
  function WriteAll(items: seq<string>, db: Database): Sink {
    if items == [] then Sink(0, 0, 0, [])
    else WriteItem(WriteAll(items[..|items| - 1], db), items[|items| - 1], db(|items| - 1))
  }

  function AnsweredCount(n: nat, db: Database, a: Answer): nat {
    if n == 0 then 0 else AnsweredCount(n - 1, db, a) + if db(n - 1) == a then 1 else 0
  }

  function OfflineItems(items: seq<string>, db: Database): seq<string> {
    if items == [] then []
    else OfflineItems(items[..|items| - 1], db) + if db(|items| - 1) == Offline then [items[|items| - 1]] else []
  }

  /** Every attempt is counted once, under its answer, and the log is the newest 1,000 items met offline. */
  lemma {:induction false} WriteAllCounts(items: seq<string>, db: Database)
    ensures var k := WriteAll(items, db);
      && k.written == AnsweredCount(|items|, db, Done) && k.errors == AnsweredCount(|items|, db, Refused)
      && k.offlineDrops == AnsweredCount(|items|, db, Offline) == |OfflineItems(items, db)|
      && k.written + k.errors + k.offlineDrops == |items|
      && k.offlineLog == Newest(OfflineItems(items, db), OFFLINE_LIMIT)
  {
    if items != [] {
      var before := items[..|items| - 1];
      WriteAllCounts(before, db);
      NewestAppend(OfflineItems(before, db), items[|items| - 1], OFFLINE_LIMIT);
    }
  }

  lemma WriteAllNext(items: seq<string>, item: string, db: Database)
    ensures WriteAll(items + [item], db) == WriteItem(WriteAll(items, db), item, db(|items|))
  {
    var all := items + [item];
    assert all[..|all| - 1] == items && all[|all| - 1] == item;
  }

  // The protocol: producers enqueue at any time, the worker takes its steps, `stop` drains after the worker, and any
  // other thread may call `flush`.

  datatype Stage = Running | Closing | Flushing | Stopped

  datatype Mode = Idle | Holding(item: string) | Draining | Writing

  datatype Config = Config(batchSize: nat, capacity: nat, db: Database)

  /** A call of `flush` from outside: what it has taken and not yet attempted. */
  datatype FlushCall = FlushCall(batch: seq<string>, draining: bool)

  /** `batch` is what the worker, or `stop`, has taken out of the buffer and the queue and not yet attempted. */
  datatype BState = BState(
    queue: seq<string>, buffer: seq<string>, batch: seq<string>, mode: Mode, stage: Stage, calls: seq<FlushCall>,
    accepted: seq<string>, drops: nat, attempted: seq<string>, sink: Sink)

  datatype BAction =
    | Enqueue(item: string)
    | Pop
    | IdleFlush
    | BufferItem
    | DrainOne
    | DrainEnd
    | WriteOne
    | WriteEnd
    | Close
    | FinalFlush
    | CallFlush
    | CallDrainOne(call: nat)
    | CallDrainEnd(call: nat)
    | CallWriteOne(call: nat)

  ghost predicate BStart(s: BState) {
    s == BState([], [], [], Idle, Running, [], [], 0, [], Sink(0, 0, 0, []))
  }

  ghost predicate BEnabled(c: Config, s: BState, a: BAction) {
    match a
    case Enqueue(_) => true
    case Pop => s.mode == Idle && s.stage in {Running, Closing} && s.queue != []
    case IdleFlush => s.mode == Idle && s.stage in {Running, Closing} && |s.buffer| >= c.batchSize
    case BufferItem => s.mode.Holding?
    case DrainOne => s.mode == Draining && s.queue != []
    case DrainEnd => s.mode == Draining && s.queue == []
    case WriteOne => s.mode == Writing && s.batch != []
    case WriteEnd => s.mode == Writing && s.batch == []
    case Close => s.stage == Running
    case FinalFlush => s.stage == Closing && s.mode == Idle
    case CallFlush => true
    case CallDrainOne(i) => i < |s.calls| && s.calls[i].draining && s.queue != []
    case CallDrainEnd(i) => i < |s.calls| && s.calls[i].draining && s.queue == []
    case CallWriteOne(i) => i < |s.calls| && !s.calls[i].draining && s.calls[i].batch != []
  }

  ghost function StartFlush(s: BState): BState {
    s.(batch := s.buffer, buffer := [], mode := Draining)
  }

  ghost function Attempt(c: Config, s: BState, item: string): BState {
    s.(attempted := s.attempted + [item], sink := WriteItem(s.sink, item, c.db(|s.attempted|)))
  }

  ghost function BApply(c: Config, s: BState, a: BAction): BState
    requires BEnabled(c, s, a)
  {
    match a
    case Enqueue(item) =>
      if s.stage != Running || |s.queue| >= c.capacity then s.(drops := s.drops + 1)
      else s.(queue := s.queue + [item], accepted := s.accepted + [item])
    case Pop => s.(queue := s.queue[1..], mode := Holding(s.queue[0]))
    case IdleFlush => StartFlush(s)
    case BufferItem =>
      var buffer := s.buffer + [s.mode.item];
      if |buffer| >= c.batchSize then s.(batch := buffer, buffer := [], mode := Writing)
      else s.(buffer := buffer, mode := Idle)
    case DrainOne => s.(queue := s.queue[1..], batch := s.batch + [s.queue[0]])
    case DrainEnd => s.(mode := Writing)
    case WriteOne => Attempt(c, s, s.batch[0]).(batch := s.batch[1..])
    case WriteEnd => s.(mode := Idle, stage := if s.stage == Flushing then Stopped else s.stage)
    case Close => s.(stage := Closing)
    case FinalFlush => StartFlush(s).(stage := Flushing)
    case CallFlush => s.(calls := s.calls + [FlushCall(s.buffer, true)], buffer := [])
    case CallDrainOne(i) =>
      s.(queue := s.queue[1..], calls := s.calls[i := FlushCall(s.calls[i].batch + [s.queue[0]], true)])
    case CallDrainEnd(i) => s.(calls := s.calls[i := s.calls[i].(draining := false)])
    case CallWriteOne(i) =>
      var batch := s.calls[i].batch;
      Attempt(c, s, batch[0]).(calls := s.calls[i := s.calls[i].(batch := batch[1..])])
  }

  function Hand(m: Mode): seq<string> {
    if m.Holding? then [m.item] else []
  }

  function Called(calls: seq<FlushCall>): seq<string> {
    if calls == [] then [] else Called(calls[..|calls| - 1]) + calls[|calls| - 1].batch
  }

  lemma {:induction false} CalledAt(calls: seq<FlushCall>, i: nat)
    requires i < |calls|
    ensures Called(calls) == Called(calls[..i]) + calls[i].batch + Called(calls[i + 1..])
  {
    var n := |calls| - 1;
    if i < n {
      CalledAt(calls[..n], i);
      assert calls[..n][..i] == calls[..i];
      assert calls[..n][i + 1..] == calls[i + 1..][..n - i - 1];
    }
  }

  /** Everything accepted and not yet attempted: what calls of `flush` hold, what the worker holds, and the queue. */
  function Waiting(s: BState): seq<string> {
    Called(s.calls) + s.batch + s.buffer + Hand(s.mode) + s.queue
  }

  /** Where the worker, and `stop` after it, may be. */
  ghost predicate ModesOk(s: BState) {
    && (s.mode == Idle || s.mode.Holding? ==> s.batch == [])
    && (s.mode == Draining || s.mode == Writing ==> s.buffer == [])
    && (s.stage == Flushing ==> s.mode == Draining || (s.mode == Writing && s.queue == []))
    && (s.stage == Stopped ==> s.mode == Idle && s.buffer == [] && s.queue == [])
  }

  /** Each item, with its repetitions, is either done or waiting. */
  predicate Conserved(all: seq<string>, done: seq<string>, waiting: seq<string>) {
    multiset(all) == multiset(done) + multiset(waiting)
  }

  /** Nothing is lost or repeated on the way to the database. */
  ghost predicate BInv(c: Config, s: BState) {
    && Conserved(s.accepted, s.attempted, Waiting(s))
    && s.sink == WriteAll(s.attempted, c.db) && ModesOk(s)
  }

  /** Nor reordered. */
  ghost predicate Ordered(s: BState) {
    s.accepted == s.attempted + Waiting(s)
  }

  /** What waits between the items of one call and the queue. */
  function Behind(s: BState, i: nat): seq<string>
    requires i < |s.calls|
  {
    Called(s.calls[i + 1..]) + s.batch + s.buffer + Hand(s.mode)
  }

  /** Does this step take an item past an older one that another thread holds? */
  ghost predicate Overtakes(s: BState, a: BAction) {
    match a
    case WriteOne => Called(s.calls) != []
    case CallWriteOne(i) => i < |s.calls| && Called(s.calls[..i]) != []
    case CallDrainOne(i) => i < |s.calls| && Behind(s, i) != []
    case _ => false
  }

  // What a step does to the items that wait: they stay as they are, one comes last, one leaves, or one moves.

  lemma FirstLeaves(l: seq<string>, b: seq<string>, r: seq<string>)
    requires b != []
    ensures multiset(l + b + r) == multiset(l + b[1..] + r) + multiset{b[0]}
    ensures l == [] ==> l + b + r == [b[0]] + (l + b[1..] + r)
  {
    assert b == [b[0]] + b[1..];
  }

  lemma FirstMoves(l: seq<string>, mid: seq<string>, q: seq<string>)
    requires q != []
    ensures multiset(l + mid + q) == multiset(l + [q[0]] + mid + q[1..])
    ensures mid == [] ==> l + mid + q == l + [q[0]] + mid + q[1..]
  {
    assert q == [q[0]] + q[1..];
  }

  lemma WaitingAt(s: BState, i: nat)
    requires i < |s.calls|
    ensures Waiting(s) == Called(s.calls[..i]) + s.calls[i].batch + Behind(s, i) + s.queue
    ensures Waiting(s) == Called(s.calls[..i]) + s.calls[i].batch + (Behind(s, i) + s.queue)
  {
    CalledAt(s.calls, i);
    var l, b, c := Called(s.calls[..i]), s.calls[i].batch, Called(s.calls[i + 1..]);
    assert l + b + c + s.batch + s.buffer + Hand(s.mode) == l + b + (c + s.batch + s.buffer + Hand(s.mode));
  }

  lemma OtherCalls(calls: seq<FlushCall>, i: nat, call: FlushCall)
    requires i < |calls|
    ensures calls[i := call][..i] == calls[..i] && calls[i := call][i + 1..] == calls[i + 1..]
  {
  }

  lemma StepKeepsWaiting(c: Config, s: BState, a: BAction)
    requires ModesOk(s) && BEnabled(c, s, a)
    requires !a.Enqueue? && !a.WriteOne? && !a.CallWriteOne? && !a.CallDrainOne?
    ensures Waiting(BApply(c, s, a)) == Waiting(s)
  {
    var s' := BApply(c, s, a);
    match a
    case CallFlush => assert s'.calls[..|s.calls|] == s.calls;
    case CallDrainEnd(i) =>
      WaitingAt(s, i);
      WaitingAt(s', i);
      OtherCalls(s.calls, i, s'.calls[i]);
    case _ =>
  }

  lemma DrainStep(c: Config, s: BState, i: nat)
    requires BEnabled(c, s, CallDrainOne(i))
    ensures multiset(Waiting(BApply(c, s, CallDrainOne(i)))) == multiset(Waiting(s))
    ensures !Overtakes(s, CallDrainOne(i)) ==> Waiting(BApply(c, s, CallDrainOne(i))) == Waiting(s)
  {
    var s' := BApply(c, s, CallDrainOne(i));
    var l, b, mid := Called(s.calls[..i]), s.calls[i].batch, Behind(s, i);
    assert Waiting(s) == l + b + mid + s.queue by { WaitingAt(s, i); }
    assert Waiting(s') == l + (b + [s.queue[0]]) + mid + s.queue[1..] by {
      WaitingAt(s', i);
      OtherCalls(s.calls, i, s'.calls[i]);
    }
    Regroup(l, b, [s.queue[0]]);
    FirstMoves(l + b, mid, s.queue);
  }

  lemma WriteStep(c: Config, s: BState)
    requires BEnabled(c, s, WriteOne)
    ensures multiset(Waiting(s)) == multiset(Waiting(BApply(c, s, WriteOne))) + multiset{s.batch[0]}
    ensures !Overtakes(s, WriteOne) ==> Waiting(s) == [s.batch[0]] + Waiting(BApply(c, s, WriteOne))
  {
    var l, r := Called(s.calls), s.buffer + Hand(s.mode) + s.queue;
    FirstLeaves(l, s.batch, r);
    assert Waiting(s) == l + s.batch + r;
    assert Waiting(BApply(c, s, WriteOne)) == l + s.batch[1..] + r;
  }

  lemma CallWriteStep(c: Config, s: BState, i: nat)
    requires BEnabled(c, s, CallWriteOne(i))
    ensures var s', item := BApply(c, s, CallWriteOne(i)), s.calls[i].batch[0];
      && multiset(Waiting(s)) == multiset(Waiting(s')) + multiset{item}
      && (!Overtakes(s, CallWriteOne(i)) ==> Waiting(s) == [item] + Waiting(s'))
  {
    var s' := BApply(c, s, CallWriteOne(i));
    WaitingAt(s, i);
    WaitingAt(s', i);
    OtherCalls(s.calls, i, s'.calls[i]);
    FirstLeaves(Called(s.calls[..i]), s.calls[i].batch, Behind(s, i) + s.queue);
  }

  lemma AttemptKeeps(c: Config, s: BState, item: string, s': BState)
    requires BInv(c, s) && multiset(Waiting(s)) == multiset(Waiting(s')) + multiset{item} && ModesOk(s')
    requires s' == Attempt(c, s, item).(batch := s'.batch, calls := s'.calls)
    ensures BInv(c, s') && (Ordered(s) && Waiting(s) == [item] + Waiting(s') ==> Ordered(s'))
  {
    WriteAllNext(s.attempted, item, c.db);
    if Ordered(s) && Waiting(s) == [item] + Waiting(s') { Regroup(s.attempted, [item], Waiting(s')); }
  }

  lemma WaitingGrows(s: BState, item: string, s': BState)
    requires s' == s.(queue := s.queue + [item], accepted := s'.accepted)
    ensures Waiting(s') == Waiting(s) + [item]
  {
    Regroup(Called(s.calls) + s.batch + s.buffer + Hand(s.mode), s.queue, [item]);
  }

  lemma EnqueueKeeps(c: Config, s: BState, item: string)
    requires BInv(c, s)
    ensures BInv(c, BApply(c, s, Enqueue(item))) && (Ordered(s) ==> Ordered(BApply(c, s, Enqueue(item))))
  {
    var s' := BApply(c, s, Enqueue(item));
    if s'.accepted != s.accepted {
      WaitingGrows(s, item, s');
      Regroup(s.attempted, Waiting(s), [item]);
      OneMore(s.accepted, s.attempted, Waiting(s), item);
    }
  }

  lemma OneMore(all: seq<string>, done: seq<string>, waiting: seq<string>, item: string)
    requires Conserved(all, done, waiting)
    ensures Conserved(all + [item], done, waiting + [item])
  {
  }

  lemma StepKeepsModes(c: Config, s: BState, a: BAction)
    requires ModesOk(s) && BEnabled(c, s, a)
    ensures ModesOk(BApply(c, s, a))
  {
  }

  // A step that only passes items on.
  lemma PassingKeeps(c: Config, s: BState, a: BAction)
    requires BInv(c, s) && BEnabled(c, s, a)
    requires !a.Enqueue? && !a.WriteOne? && !a.CallWriteOne? && !a.CallDrainOne?
    ensures BInv(c, BApply(c, s, a)) && (Ordered(s) ==> Ordered(BApply(c, s, a)))
  {
    StepKeepsModes(c, s, a);
    StepKeepsWaiting(c, s, a);
    PassingKeepsLogs(c, s, a);
  }

  lemma PassingKeepsLogs(c: Config, s: BState, a: BAction)
    requires BEnabled(c, s, a) && !a.Enqueue? && !a.WriteOne? && !a.CallWriteOne?
    ensures var s' := BApply(c, s, a); s'.accepted == s.accepted && s'.attempted == s.attempted && s'.sink == s.sink
  {
  }

  lemma DrainKeeps(c: Config, s: BState, a: BAction)
    requires BInv(c, s) && BEnabled(c, s, a) && a.CallDrainOne?
    ensures BInv(c, BApply(c, s, a)) && (Ordered(s) && !Overtakes(s, a) ==> Ordered(BApply(c, s, a)))
  {
    StepKeepsModes(c, s, a);
    DrainStep(c, s, a.call);
  }

  lemma BStepKeeps(c: Config, s: BState, a: BAction)
    requires BInv(c, s) && BEnabled(c, s, a)
    ensures BInv(c, BApply(c, s, a))
    ensures Ordered(s) && !Overtakes(s, a) ==> Ordered(BApply(c, s, a))
  {
    match a
    case Enqueue(item) => EnqueueKeeps(c, s, item);
    case WriteOne =>
      WriteStep(c, s);
      StepKeepsModes(c, s, a);
      AttemptKeeps(c, s, s.batch[0], BApply(c, s, a));
    case CallWriteOne(i) =>
      CallWriteStep(c, s, i);
      StepKeepsModes(c, s, a);
      AttemptKeeps(c, s, s.calls[i].batch[0], BApply(c, s, a));
    case CallDrainOne(_) => DrainKeeps(c, s, a);
    case _ => PassingKeeps(c, s, a);
  }

  ghost predicate BLeads(c: Config, s: BState, acts: seq<BAction>, t: BState)
    decreases |acts|
  {
    if acts == [] then s == t else BEnabled(c, s, acts[0]) && BLeads(c, BApply(c, s, acts[0]), acts[1..], t)
  }

  ghost predicate NeverOvertakes(c: Config, s: BState, acts: seq<BAction>)
    decreases |acts|
  {
    acts != [] ==>
      !Overtakes(s, acts[0]) && (BEnabled(c, s, acts[0]) ==> NeverOvertakes(c, BApply(c, s, acts[0]), acts[1..]))
  }

  lemma {:induction false} BLeadsKeeps(c: Config, s: BState, acts: seq<BAction>, t: BState)
    requires BInv(c, s) && BLeads(c, s, acts, t)
    ensures BInv(c, t) && (Ordered(s) && NeverOvertakes(c, s, acts) ==> Ordered(t))
    decreases |acts|
  {
    if acts != [] {
      BStepKeeps(c, s, acts[0]);
      BLeadsKeeps(c, BApply(c, s, acts[0]), acts[1..], t);
    }
  }

  lemma ConservedCount(all: seq<string>, done: seq<string>, waiting: seq<string>)
    requires Conserved(all, done, waiting)
    ensures |all| == |done| + |waiting|
  {
    assert |multiset(all)| == |multiset(done) + multiset(waiting)|;
  }

  /**
   * Whoever calls `flush`, and when: every accepted item is attempted once or still waits in one place, and the
   * attempts are counted as the direct writer would. After `stop` only what a call of `flush` still holds is missing.
   */
  lemma EachAttemptedOnce(c: Config, s: BState, acts: seq<BAction>, t: BState)
    requires BStart(s) && BLeads(c, s, acts, t)
    ensures Conserved(t.accepted, t.attempted, Waiting(t))
    ensures t.sink == WriteAll(t.attempted, c.db)
    ensures |t.accepted| == t.sink.written + t.sink.errors + t.sink.offlineDrops + |Waiting(t)|
    ensures t.stage == Stopped ==> Waiting(t) == Called(t.calls)
  {
    BLeadsKeeps(c, s, acts, t);
    WriteAllCounts(t.attempted, c.db);
    ConservedCount(t.accepted, t.attempted, Waiting(t));
    if t.stage == Stopped { assert Waiting(t) == Called(t.calls) + [] + [] + [] + []; }
  }

  /**
   * At every moment of every run in which no step overtakes, the items attempted so far are a prefix of those
   * accepted, written as the direct writer would have. After `stop`, and the last call of `flush`, they are all.
   */
  lemma BatchedIsDirect(c: Config, s: BState, acts: seq<BAction>, t: BState)
    requires BStart(s) && BLeads(c, s, acts, t) && NeverOvertakes(c, s, acts)
    ensures t.accepted == t.attempted + Waiting(t) && t.sink == WriteAll(t.attempted, c.db)
    ensures t.stage == Stopped && Called(t.calls) == [] ==>
              t.attempted == t.accepted && t.sink == WriteAll(t.accepted, c.db)
  {
    BLeadsKeeps(c, s, acts, t);
  }

  /** The buffer never reaches a whole batch, so the worker's flush on an idle queue finds none. */
  lemma {:induction false} LessThanABatchIsBuffered(c: Config, s: BState, acts: seq<BAction>, t: BState)
    requires BLeads(c, s, acts, t) && |s.buffer| < c.batchSize
    ensures |t.buffer| < c.batchSize && IdleFlush !in acts
    decreases |acts|
  {
    if acts != [] {
      LessThanABatchIsBuffered(c, BApply(c, s, acts[0]), acts[1..], t);
      assert acts == [acts[0]] + acts[1..];
    }
  }

  /** Nothing overtakes as long as only the worker and `stop` flush. */
  lemma {:induction false} AloneNeverOvertakes(c: Config, s: BState, acts: seq<BAction>, t: BState)
    requires BLeads(c, s, acts, t) && s.calls == [] && CallFlush !in acts
    ensures NeverOvertakes(c, s, acts)
    decreases |acts|
  {
    if acts != [] { AloneNeverOvertakes(c, BApply(c, s, acts[0]), acts[1..], t); }
  }

  lemma BStepAt(c: Config, s: BState, acts: seq<BAction>, k: nat, t: BState)
    requires k < |acts| && BEnabled(c, s, acts[k]) && BLeads(c, BApply(c, s, acts[k]), acts[k + 1..], t)
    ensures BLeads(c, s, acts[k..], t) && (k == 0 ==> BLeads(c, s, acts, t))
  {
    assert acts[k..][0] == acts[k] && acts[k..][1..] == acts[k + 1..];
    assert k == 0 ==> acts[k..] == acts;
  }

  lemma {:induction false} BLeadsOn(
      c: Config, s: BState, first: seq<BAction>, t: BState, second: seq<BAction>, u: BState)
    requires BLeads(c, s, first, t) && BLeads(c, t, second, u)
    ensures BLeads(c, s, first + second, u)
    decreases |first|
  {
    if first == [] {
      assert first + second == second;
    } else {
      assert (first + second)[0] == first[0] && (first + second)[1..] == first[1..] + second;
      BLeadsOn(c, BApply(c, s, first[0]), first[1..], t, second, u);
    }
  }

  // Two items accepted, the first in the worker's hands.
  lemma OneInHand(c: Config) returns (acts: seq<BAction>, t: BState)
    requires c.capacity >= 2
    ensures BLeads(c, BState([], [], [], Idle, Running, [], [], 0, [], Sink(0, 0, 0, [])), acts, t)
    ensures t == BState(["y"], [], [], Holding("x"), Running, [], ["x", "y"], 0, [], Sink(0, 0, 0, []))
  {
    var s := BState([], [], [], Idle, Running, [], [], 0, [], Sink(0, 0, 0, []));
    acts := [Enqueue("x"), Enqueue("y"), Pop];
    var s1 := BApply(c, s, acts[0]);
    var s2 := BApply(c, s1, acts[1]);
    t := BApply(c, s2, acts[2]);
    BStepAt(c, s2, acts, 2, t);
    BStepAt(c, s1, acts, 1, t);
    BStepAt(c, s, acts, 0, t);
  }

  /** A call of `flush` while the worker holds an item does overtake it. */
  lemma FlushOvertakes(c: Config) returns (s: BState, acts: seq<BAction>, t: BState)
    requires c.capacity >= 2
    ensures BStart(s) && BLeads(c, s, acts, t) && t.accepted == ["x", "y"] && t.attempted == ["y"]
  {
    var first, u := OneInHand(c);
    s := BState([], [], [], Idle, Running, [], [], 0, [], Sink(0, 0, 0, []));
    var second := [CallFlush, CallDrainOne(0), CallDrainEnd(0), CallWriteOne(0)];
    var u1 := BApply(c, u, second[0]);
    var u2 := BApply(c, u1, second[1]);
    var u3 := BApply(c, u2, second[2]);
    t := BApply(c, u3, second[3]);
    BStepAt(c, u3, second, 3, t);
    BStepAt(c, u2, second, 2, t);
    BStepAt(c, u1, second, 1, t);
    BStepAt(c, u, second, 0, t);
    BLeadsOn(c, s, first, u, second, t);
    acts := first + second;
  }

  /**
   * Two stopped writers that accepted the same items did the same work, whatever their batch sizes and schedules,
   * if nothing overtook.
   */
  lemma BatchSizeIsIrrelevant(
      c: Config, acts: seq<BAction>, t: BState, c': Config, acts': seq<BAction>, t': BState, s: BState)
    requires BStart(s) && BLeads(c, s, acts, t) && BLeads(c', s, acts', t')
    requires NeverOvertakes(c, s, acts) && NeverOvertakes(c', s, acts')
    requires Called(t.calls) == Called(t'.calls) == []
    requires c.db == c'.db && t.stage == t'.stage == Stopped && t.accepted == t'.accepted
    ensures t.attempted == t'.attempted && t.sink == t'.sink
  {
    BatchedIsDirect(c, s, acts, t);
    BatchedIsDirect(c', s, acts', t');
  }

  lemma TakeFirst(a: seq<string>, b: seq<string>)
    requires b != []
    ensures a + b == a + [b[0]] + b[1..]
  {
  }

  lemma Regroup(a: seq<string>, b: seq<string>, c: seq<string>)
    ensures a + (b + c) == a + b + c
  {
  }

  lemma AllAttempted(a: seq<string>, b: seq<string>, c: seq<string>)
    ensures a + b + c == a + (b + c) && a + [] + [] == a
  {
  }

  /** The object; between two calls nothing is in hand. */
  class BatchWriter {
    const batchSize: nat
    const queue: BoundedQueue<string>
    const database: Database
    var buffer: seq<string>
    var offlineLog: seq<string>
    var written: nat
    var enqueued: nat
    var drops: nat
    var errors: nat
    var offlineDrops: nat
    ghost var accepted: seq<string>
    ghost var attempted: seq<string>

    ghost function Counters(): Sink
      reads this
    {
      Sink(written, errors, offlineDrops, offlineLog)
    }

    ghost predicate Valid()
      reads this, queue, queue.buf
    {
      && queue.Valid() && enqueued == |accepted|
      && accepted == attempted + buffer + queue.Contents()
      && Counters() == WriteAll(attempted, database)
    }

    constructor (database: Database, batchSize: nat, queueCapacity: nat)
      ensures Valid() && accepted == [] && drops == 0 && this.database == database && this.batchSize == batchSize
      ensures fresh(queue) && fresh(queue.buf)
    {
      this.database, this.batchSize := database, batchSize;
      queue := new BoundedQueue(queueCapacity);
      buffer, offlineLog, accepted, attempted := [], [], [], [];
      written, enqueued, drops, errors, offlineDrops := 0, 0, 0, 0, 0;
    }

    method Enqueue(item: string) returns (ok: bool)
      requires Valid()
      modifies this`enqueued, this`drops, this`accepted, queue, queue.buf
      ensures Valid() && queue.closed == old(queue.closed)
      ensures ok == (!old(queue.closed) && |old(queue.Contents())| < queue.cap)
      ensures accepted == (if ok then old(accepted) + [item] else old(accepted))
      ensures drops == old(drops) + if ok then 0 else 1
    {
      ok := queue.TryPush(item);
      if !ok {
        drops := drops + 1;
        return;
      }
      enqueued := enqueued + 1;
      accepted := accepted + [item];
    }

    /** Writes a batch item by item, as the direct writer would after the items attempted so far. */
    method WriteBatch(batch: seq<string>) returns (n: nat)
      requires Counters() == WriteAll(attempted, database)
      modifies this`written, this`errors, this`offlineDrops, this`offlineLog, this`attempted
      ensures attempted == old(attempted) + batch && Counters() == WriteAll(attempted, database)
      ensures n == written - old(written)
    {
      n := 0;
      for i := 0 to |batch|
        invariant attempted == old(attempted) + batch[..i] && Counters() == WriteAll(attempted, database)
        invariant n == written - old(written)
      {
        var wrote := WriteStatement(batch[i]);
        if wrote { n := n + 1; }
        assert batch[..i + 1] == batch[..i] + [batch[i]];
      }
      assert batch[..|batch|] == batch;
    }

    // One turn of the loop.
    method WriteStatement(item: string) returns (wrote: bool)
      requires Counters() == WriteAll(attempted, database)
      modifies this`written, this`errors, this`offlineDrops, this`offlineLog, this`attempted
      ensures attempted == old(attempted) + [item] && Counters() == WriteAll(attempted, database)
      ensures written == old(written) + if wrote then 1 else 0
    {
      WriteAllNext(attempted, item, database);
      WriteAllCounts(attempted, database);
      var answer := database(written + errors + offlineDrops);
      attempted := attempted + [item];
      wrote := Execute(item, answer);
    }

    // The effect of one answer.
    method Execute(item: string, answer: Answer) returns (wrote: bool)
      modifies this`written, this`errors, this`offlineDrops, this`offlineLog
      ensures Counters() == WriteItem(old(Counters()), item, answer) && wrote == (answer == Done)
    {
      match answer {
        case Refused => errors := errors + 1;
        case Offline =>
          offlineLog := offlineLog + [item];
          if |offlineLog| > OFFLINE_LIMIT { offlineLog := offlineLog[1..]; }
          offlineDrops := offlineDrops + 1;
        case Done => written := written + 1;
      }
      wrote := answer == Done;
    }

    /** Writes everything that is buffered or queued. */
    method Flush() returns (n: nat)
      requires Valid()
      modifies this`buffer, this`written, this`errors, this`offlineDrops, this`offlineLog, this`attempted
      modifies queue`head, queue`size, queue`pops
      ensures Valid() && attempted == accepted && buffer == [] && queue.Contents() == [] && n == written - old(written)
      ensures old(attempted) <= attempted
    {
      var batch := TakeAll();
      n := WriteBatch(batch);
      AllAttempted(attempted, [], []);
    }

    // The buffer is swapped out and the queue drained behind it.
    method TakeAll() returns (batch: seq<string>)
      requires Valid()
      modifies this`buffer, queue`head, queue`size, queue`pops
      ensures queue.Valid() && buffer == [] && queue.Contents() == [] && accepted == attempted + batch
    {
      AllAttempted(attempted, buffer, queue.Contents());
      batch := buffer;
      buffer := [];
      batch := Drain(batch);
    }

    // The drain loop.
    method Drain(batch: seq<string>) returns (items: seq<string>)
      requires queue.Valid()
      modifies queue`head, queue`size, queue`pops
      ensures queue.Valid() && items == batch + old(queue.Contents()) && queue.Contents() == []
    {
      items := batch;
      while true
        invariant queue.Valid() && items + queue.Contents() == batch + old(queue.Contents())
        decreases |queue.Contents()|
      {
        ghost var left := queue.Contents();
        var item := queue.TryPop();
        if item.None? { break; }
        TakeFirst(items, left);
        items := items + [item.value];
      }
      assert items + [] == items;
    }

    /** One turn of the worker: with a positive batch size, less than one batch stays buffered. */
    method Turn()
      requires Valid()
      modifies this, queue`head, queue`size, queue`pops
      ensures Valid() && accepted == old(accepted) && old(attempted) <= attempted
      ensures old(queue.Contents()) == [] ==>
                queue.Contents() == [] && buffer == if |old(buffer)| >= batchSize then [] else old(buffer)
      ensures old(queue.Contents()) != [] ==>
                && queue.Contents() == old(queue.Contents())[1..]
                && buffer == (if |old(buffer)| + 1 >= batchSize then [] else old(buffer) + [old(queue.Contents())[0]])
      ensures drops == old(drops)
    {
      var got := TakeItem();
      if |buffer| >= batchSize {
        if got { WriteBuffer(); } else { var _ := Flush(); }
      }
    }

    method TakeItem() returns (got: bool)
      requires Valid()
      modifies this`buffer, queue`head, queue`size, queue`pops
      ensures Valid() && got == (old(queue.Contents()) != [])
      ensures queue.Contents() == if got then old(queue.Contents())[1..] else []
      ensures buffer == if got then old(buffer) + [old(queue.Contents())[0]] else old(buffer)
    {
      var item := queue.Pop();
      if item.None? { return false; }
      TakeFirst(attempted + buffer, old(queue.Contents()));
      Regroup(attempted, buffer, [item.value]);
      buffer := buffer + [item.value];
      return true;
    }

    // The buffer is swapped out and written.
    method WriteBuffer()
      requires Valid()
      modifies this`buffer, this`written, this`errors, this`offlineDrops, this`offlineLog, this`attempted
      ensures Valid() && buffer == [] && old(attempted) <= attempted == old(attempted + buffer)
    {
      var toWrite := buffer;
      buffer := [];
      var _ := WriteBatch(toWrite);
      assert attempted + [] == attempted;
    }

    /** The worker's loop until it is told to stop. */
    method Run(turns: nat)
      requires Valid()
      modifies this, queue`head, queue`size, queue`pops
      ensures Valid() && accepted == old(accepted) && old(attempted) <= attempted
    {
      for n := 0 to turns
        invariant Valid() && accepted == old(accepted) && old(attempted) <= attempted
      {
        Turn();
      }
    }

    /** After `stop` every accepted item has been attempted, in order, and nothing is left behind. */
    method Stop()
      requires Valid()
      modifies this, queue`head, queue`size, queue`pops, queue`closed
      ensures Valid() && queue.closed && accepted == old(accepted) && attempted == accepted
      ensures Counters() == WriteAll(accepted, database) && buffer == [] && queue.Contents() == []
      ensures enqueued == written + errors + offlineDrops
    {
      queue.Close();
      var _ := Flush();
      WriteAllCounts(attempted, database);
    }
  }
}
