/** Prediction attempts and their generation fence, over every interleaving of the calls. */
module Attempts {
  import opened Common
  import opened Events

  datatype AttemptState = Idle | InFlight | Completed | TimedOut | Fenced | Failed

  datatype Response = Response(correlationId: string, targetRoundId: string, payload: string)

  datatype Attempt = Attempt(
    target: string, generation: nat, state: AttemptState, startedAtMs: int, completedAtMs: int,
    response: Option<Response>)

  type Gens = map<string, nat>
  type Records = map<string, Attempt>

  function Current(gens: Gens, key: string): nat {
    if key in gens then gens[key] else 0
  }

  function Bump(gens: Gens, key: string): Gens {
    gens[key := Current(gens, key) + 1]
  }

  function AttemptId(target: string, correlationId: string, now: int): string {
    if correlationId == "" then target + "-" + Decimal(now) else correlationId
  }

  /** The records a response may be applied to: the one it names, or else any in flight for its target. */
  predicate Addressed(records: Records, resp: Response, id: string) {
    && id in records
    && (id == resp.correlationId
        || (resp.correlationId !in records
            && records[id].target == resp.targetRoundId && records[id].state == InFlight))
  }

  predicate Late(a: Attempt, now: int, timeoutMs: int) {
    a.state == InFlight && now - a.startedAtMs > timeoutMs
  }

  function TimeOut(a: Attempt, now: int, timeoutMs: int): Attempt {
    if Late(a, now, timeoutMs) then a.(state := TimedOut, completedAtMs := now) else a
  }

  function TimeOutAll(records: Records, now: int, timeoutMs: int): Records {
    map id | id in records :: TimeOut(records[id], now, timeoutMs)
  }

  /** A call of `begin`: the generation has been bumped, the record inserted, or the request submitted. */
  datatype Phase = Bumped | Inserted | Returned

  datatype Call = Call(id: string, attempt: Attempt, phase: Phase)

  /**
   * `filed` is the call whose record sits under an id, `log` the calls whose records completed, in order.
   * `checked` is the completion that holds the coordinator's lock and has passed its fence check.
   */
  datatype AState = AState(
    gens: Gens, records: Records, filed: map<string, nat>, calls: seq<Call>,
    checked: Option<string>, response: Option<Response>, log: seq<nat>)

  datatype AAction =
    | Begin(target: string, correlationId: string, idNow: int, startNow: int)
    | InsertRecord(call: nat)
    | SubmitOk(call: nat)
    | SubmitFailed(call: nat, now: int)
    | Check(resp: Response, id: string, now: int)
    | Finish(now: int)
    | Expire(now: int, timeoutMs: int)
    | Clear(key: string)

  ghost predicate AStart(s: AState) {
    s == AState(map[], map[], map[], [], None, None, [])
  }

  /** Everything that takes the coordinator's lock waits for a completion in progress; the fence has its own lock. */
  ghost predicate AEnabled(s: AState, a: AAction) {
    match a
    case Begin(_, _, _, _) => true
    case InsertRecord(i) => s.checked.None? && i < |s.calls| && s.calls[i].phase == Bumped
    case SubmitOk(i) => i < |s.calls| && s.calls[i].phase == Inserted
    case SubmitFailed(i, _) =>
      s.checked.None? && i < |s.calls| && s.calls[i].phase == Inserted && s.calls[i].id in s.records
    case Check(resp, id, _) => s.checked.None? && Addressed(s.records, resp, id)
    case Finish(_) => s.checked.Some? && s.checked.value in s.records && s.checked.value in s.filed
    case Expire(_, _) => s.checked.None?
    case Clear(_) => true
  }

  ghost function ABegin(s: AState, target: string, correlationId: string, idNow: int, startNow: int): AState {
    var gens := Bump(s.gens, target);
    s.(gens := gens, calls := s.calls + [Call(AttemptId(target, correlationId, idNow),
                                              Attempt(target, gens[target], InFlight, startNow, 0, None), Bumped)])
  }

  ghost function AInsert(s: AState, i: nat): AState
    requires AEnabled(s, InsertRecord(i))
  {
    var c := s.calls[i];
    s.(records := s.records[c.id := c.attempt], filed := s.filed[c.id := i],
       calls := s.calls[i := c.(phase := Inserted)])
  }

  ghost function AFail(s: AState, i: nat, now: int): AState
    requires AEnabled(s, SubmitFailed(i, now))
  {
    var c := s.calls[i];
    s.(records := s.records[c.id := s.records[c.id].(state := Failed, completedAtMs := now)],
       calls := s.calls[i := c.(phase := Returned)])
  }

  ghost function ACheck(s: AState, resp: Response, id: string, now: int): AState
    requires AEnabled(s, Check(resp, id, now))
  {
    var a := s.records[id];
    if a.state != InFlight then s
    else if Current(s.gens, a.target) != a.generation then
      s.(records := s.records[id := a.(state := Fenced, completedAtMs := now)])
    else s.(checked := Some(id), response := Some(resp))
  }

  ghost function AFinish(s: AState, now: int): AState
    requires AEnabled(s, Finish(now))
  {
    var id := s.checked.value;
    s.(records := s.records[id := s.records[id].(state := Completed, completedAtMs := now, response := s.response)],
       checked := None, response := None, log := s.log + [s.filed[id]])
  }

  ghost function AApply(s: AState, a: AAction): AState
    requires AEnabled(s, a)
  {
    match a
    case Begin(target, correlationId, idNow, startNow) => ABegin(s, target, correlationId, idNow, startNow)
    case InsertRecord(i) => AInsert(s, i)
    case SubmitOk(i) => s.(calls := s.calls[i := s.calls[i].(phase := Returned)])
    case SubmitFailed(i, now) => AFail(s, i, now)
    case Check(resp, id, now) => ACheck(s, resp, id, now)
    case Finish(now) => AFinish(s, now)
    case Expire(now, timeoutMs) => s.(records := TimeOutAll(s.records, now, timeoutMs))
    case Clear(key) => s.(gens := s.gens - {key})
  }

  // The invariant: what holds on any run, and what holds of a target until its fence is cleared.

  ghost predicate FiledBy(s: AState, id: string)
    requires id in s.records
  {
    && id in s.filed && s.filed[id] < |s.calls|
    && var c := s.calls[s.filed[id]];
      && c.id == id && c.phase != Bumped
      && c.attempt.target == s.records[id].target && c.attempt.generation == s.records[id].generation
  }

  /** Every record was put there by the call it is filed under; one in flight has not completed, a completed one has. */
  ghost predicate Filing(s: AState) {
    && (forall id <- s.records :: FiledBy(s, id))
    && (forall id <- s.records :: s.records[id].state == InFlight ==> s.filed[id] !in s.log)
    && (forall id <- s.records :: s.records[id].state == Completed ==> s.filed[id] in s.log)
    && (forall i :: 0 <= i < |s.calls| && s.calls[i].phase != Bumped ==> s.calls[i].id in s.records)
  }

  ghost predicate AInv(s: AState) {
    && Filing(s) && NoDuplicates(s.log)
    && (forall i :: 0 <= i < |s.calls| ==> s.calls[i].attempt.state == InFlight)
    && (forall j :: 0 <= j < |s.log| ==> s.log[j] < |s.calls| && s.calls[s.log[j]].phase != Bumped)
    && (s.checked.Some? ==> s.checked.value in s.records && s.records[s.checked.value].state == InFlight)
  }

  /** A call for the target, counted from a moment when `since` calls had begun. */
  predicate For(calls: seq<Call>, i: nat, target: string, since: nat) {
    since <= i < |calls| && calls[i].attempt.target == target
  }

  /** Every such call holds its own generation, and none is ahead of the fence. */
  ghost predicate Tickets(gens: Gens, calls: seq<Call>, target: string, since: nat) {
    && (forall i: nat :: For(calls, i, target, since) ==> 1 <= calls[i].attempt.generation <= Current(gens, target))
    && (forall i: nat, j: nat :: i < j && For(calls, i, target, since) && For(calls, j, target, since) ==>
          calls[i].attempt.generation != calls[j].attempt.generation)
  }

  /** Those that completed carry ever larger generations. */
  ghost predicate Rising(calls: seq<Call>, log: seq<nat>, target: string, since: nat) {
    forall i, j :: 0 <= i < j < |log| && For(calls, log[i], target, since) && For(calls, log[j], target, since) ==>
      calls[log[i]].attempt.generation < calls[log[j]].attempt.generation
  }

  /** The one that has passed its fence check is newer than all of them that completed. */
  ghost predicate Leading(s: AState, target: string, since: nat) {
    s.checked.Some? && s.checked.value in s.filed && For(s.calls, s.filed[s.checked.value], target, since) ==>
      forall j :: 0 <= j < |s.log| && For(s.calls, s.log[j], target, since) ==>
        s.calls[s.log[j]].attempt.generation < s.calls[s.filed[s.checked.value]].attempt.generation
  }

  ghost predicate TInv(s: AState, target: string, since: nat) {
    Tickets(s.gens, s.calls, target, since) && Rising(s.calls, s.log, target, since) && Leading(s, target, since)
  }

  lemma CheckKeeps(s: AState, a: AAction)
    requires AInv(s) && AEnabled(s, a) && a.Check?
    ensures AInv(AApply(s, a))
  {
    var s' := AApply(s, a);
    forall id <- s'.records ensures FiledBy(s', id) { assert FiledBy(s, id); }
  }

  lemma InsertKeeps(s: AState, i: nat)
    requires AInv(s) && AEnabled(s, InsertRecord(i))
    ensures AInv(AInsert(s, i))
  {
    var s' := AInsert(s, i);
    forall id <- s'.records ensures FiledBy(s', id) {
      if id != s.calls[i].id { assert FiledBy(s, id); }
    }
    assert forall j :: 0 <= j < |s.log| ==> s.log[j] != i;
  }

  // A call that returns only changes phase.
  lemma ReturnKeeps(s: AState, i: nat)
    requires AInv(s) && i < |s.calls| && s.calls[i].phase == Inserted
    ensures AInv(s.(calls := s.calls[i := s.calls[i].(phase := Returned)]))
  {
    var s' := s.(calls := s.calls[i := s.calls[i].(phase := Returned)]);
    forall id <- s'.records ensures FiledBy(s', id) { assert FiledBy(s, id); }
  }

  lemma FailKeeps(s: AState, id: string, now: int)
    requires AInv(s) && s.checked.None? && id in s.records
    ensures AInv(s.(records := s.records[id := s.records[id].(state := Failed, completedAtMs := now)]))
  {
    var s' := s.(records := s.records[id := s.records[id].(state := Failed, completedAtMs := now)]);
    forall k <- s'.records ensures FiledBy(s', k) { assert FiledBy(s, k); }
  }

  lemma FinishKeeps(s: AState, now: int)
    requires AInv(s) && AEnabled(s, Finish(now))
    ensures AInv(AFinish(s, now))
  {
    var s', done := AFinish(s, now), s.checked.value;
    assert FiledBy(s, done);
    forall id <- s'.records ensures FiledBy(s', id) { assert FiledBy(s, id); }
    forall id <- s'.records | s'.records[id].state == InFlight ensures s'.filed[id] !in s'.log {
      assert FiledBy(s, id) && id != done;
    }
  }

  lemma AStepKeeps(s: AState, a: AAction)
    requires AInv(s) && AEnabled(s, a)
    ensures AInv(AApply(s, a))
  {
    var s' := AApply(s, a);
    match a
    case InsertRecord(i) => InsertKeeps(s, i);
    case SubmitOk(i) => ReturnKeeps(s, i);
    case SubmitFailed(i, now) =>
      ReturnKeeps(s, i);
      FailKeeps(s.(calls := s.calls[i := s.calls[i].(phase := Returned)]), s.calls[i].id, now);
    case Check(_, _, _) => CheckKeeps(s, a);
    case Finish(now) => FinishKeeps(s, now);
    case _ => forall id <- s'.records ensures FiledBy(s', id) { assert FiledBy(s, id); }
  }

  // What the steps keep of one target.

  lemma SameCalls(calls: seq<Call>, calls': seq<Call>, target: string, since: nat)
    requires |calls'| >= |calls| && forall i :: 0 <= i < |calls| ==> calls'[i].attempt == calls[i].attempt
    ensures forall i: nat :: For(calls, i, target, since) ==> For(calls', i, target, since)
    ensures forall i: nat :: i < |calls| && For(calls', i, target, since) ==> For(calls, i, target, since)
  {
  }

  lemma StepKeepsTickets(s: AState, a: AAction, target: string, since: nat)
    requires AInv(s) && TInv(s, target, since) && AEnabled(s, a) && a != Clear(target)
    ensures Tickets(AApply(s, a).gens, AApply(s, a).calls, target, since)
  {
    SameCalls(s.calls, AApply(s, a).calls, target, since);
  }

  lemma CheckKeepsTarget(s: AState, a: AAction, target: string, since: nat)
    requires AInv(s) && TInv(s, target, since) && AEnabled(s, a) && a.Check?
    ensures Leading(AApply(s, a), target, since)
  {
    var s' := AApply(s, a);
    assert FiledBy(s, a.id);
    var i := s.filed[a.id];
    if s'.checked.Some? && For(s.calls, i, target, since) {
      forall j | 0 <= j < |s.log| && For(s.calls, s.log[j], target, since)
        ensures s.calls[s.log[j]].attempt.generation < s.calls[i].attempt.generation
      {
        assert s.log[j] in s.log && s.log[j] != i;
      }
    }
  }

  lemma FinishKeepsTarget(s: AState, now: int, target: string, since: nat)
    requires AInv(s) && TInv(s, target, since) && AEnabled(s, Finish(now))
    ensures Rising(AFinish(s, now).calls, AFinish(s, now).log, target, since)
  {
    var s' := AFinish(s, now);
    assert forall j :: 0 <= j < |s.log| ==> s'.log[j] == s.log[j];
  }

  lemma OthersKeepTarget(s: AState, a: AAction, target: string, since: nat)
    requires AInv(s) && TInv(s, target, since) && AEnabled(s, a) && !a.Finish? && !a.Check?
    ensures Rising(AApply(s, a).calls, AApply(s, a).log, target, since) && Leading(AApply(s, a), target, since)
  {
    SameCalls(s.calls, AApply(s, a).calls, target, since);
    assert AApply(s, a).log == s.log;
    if s.checked.Some? { assert FiledBy(s, s.checked.value); }
  }

  lemma TStepKeeps(s: AState, a: AAction, target: string, since: nat)
    requires AInv(s) && TInv(s, target, since) && AEnabled(s, a) && a != Clear(target)
    ensures TInv(AApply(s, a), target, since)
  {
    StepKeepsTickets(s, a, target, since);
    match a
    case Check(_, _, _) => CheckKeepsTarget(s, a, target, since);
    case Finish(now) => FinishKeepsTarget(s, now, target, since);
    case _ => OthersKeepTarget(s, a, target, since);
  }

  ghost predicate ALeads(s: AState, acts: seq<AAction>, t: AState)
    decreases |acts|
  {
    if acts == [] then s == t else AEnabled(s, acts[0]) && ALeads(AApply(s, acts[0]), acts[1..], t)
  }

  lemma AStepAt(s: AState, acts: seq<AAction>, k: nat, t: AState)
    requires k < |acts| && AEnabled(s, acts[k]) && ALeads(AApply(s, acts[k]), acts[k + 1..], t)
    ensures ALeads(s, acts[k..], t) && (k == 0 ==> ALeads(s, acts, t))
  {
    assert acts[k..][0] == acts[k] && acts[k..][1..] == acts[k + 1..];
    assert k == 0 ==> acts[k..] == acts;
  }

  ghost predicate NeverCleared(acts: seq<AAction>, target: string) {
    Clear(target) !in acts
  }

  lemma {:induction false} ALeadsKeeps(s: AState, acts: seq<AAction>, t: AState)
    requires AInv(s) && ALeads(s, acts, t)
    ensures AInv(t)
    decreases |acts|
  {
    if acts != [] {
      AStepKeeps(s, acts[0]);
      ALeadsKeeps(AApply(s, acts[0]), acts[1..], t);
    }
  }

  lemma {:induction false} TLeadsKeeps(s: AState, acts: seq<AAction>, t: AState, target: string, since: nat)
    requires AInv(s) && TInv(s, target, since) && ALeads(s, acts, t) && NeverCleared(acts, target)
    ensures TInv(t, target, since)
    decreases |acts|
  {
    if acts != [] {
      AStepKeeps(s, acts[0]);
      TStepKeeps(s, acts[0], target, since);
      TLeadsKeeps(AApply(s, acts[0]), acts[1..], t, target, since);
    }
  }

  /**
   * From any moment after which a target's fence is not cleared, the completed generations of that target strictly
   * increase over the calls begun since. With `first` empty these are all calls of the run.
   */
  lemma CompletedGenerationsRise(
      s: AState, first: seq<AAction>, u: AState, second: seq<AAction>, t: AState, target: string)
    requires AStart(s) && ALeads(s, first, u) && ALeads(u, second, t) && NeverCleared(second, target)
    ensures forall j :: 0 <= j < |t.log| ==> t.log[j] < |t.calls|
    ensures forall i, j :: 0 <= i < j < |t.log| && |u.calls| <= t.log[i] && |u.calls| <= t.log[j]
                           && t.calls[t.log[i]].attempt.target == t.calls[t.log[j]].attempt.target == target ==>
              t.calls[t.log[i]].attempt.generation < t.calls[t.log[j]].attempt.generation
  {
    ALeadsKeeps(s, first, u);
    ALeadsKeeps(u, second, t);
    if u.checked.Some? { assert FiledBy(u, u.checked.value); }
    TLeadsKeeps(u, second, t, target, |u.calls|);
    assert forall j :: 0 <= j < |t.log| && |u.calls| <= t.log[j] && t.calls[t.log[j]].attempt.target == target ==>
        For(t.calls, t.log[j], target, |u.calls|);
  }

  lemma {:induction false} ALeadsOn(s: AState, first: seq<AAction>, t: AState, second: seq<AAction>, u: AState)
    requires ALeads(s, first, t) && ALeads(t, second, u)
    ensures ALeads(s, first + second, u)
    decreases |first|
  {
    if first == [] {
      assert first + second == second;
    } else {
      assert (first + second)[0] == first[0] && (first + second)[1..] == first[1..] + second;
      ALeadsOn(AApply(s, first[0]), first[1..], t, second, u);
    }
  }

  // One attempt begun, its record inserted and its fence check passed, without anything in between.
  lemma BegunAndChecked(s: AState, target: string, id: string) returns (acts: seq<AAction>, t: AState)
    requires s.checked.None? && id != ""
    ensures ALeads(s, acts, t) && t.gens == Bump(s.gens, target) && t.log == s.log
    ensures t.checked == Some(id) && id in t.records && id in t.filed && t.filed[id] == |s.calls|
    ensures |t.calls| == |s.calls| + 1 && t.calls[..|s.calls|] == s.calls && t.calls[|s.calls|].attempt.target == target
    ensures t.calls[|s.calls|].attempt.generation == Current(s.gens, target) + 1
  {
    acts := [Begin(target, id, 0, 0), InsertRecord(|s.calls|), Check(Response(id, target, ""), id, 1)];
    var s1 := AApply(s, acts[0]);
    var s2 := AApply(s1, acts[1]);
    t := AApply(s2, acts[2]);
    AStepAt(s2, acts, 2, t);
    AStepAt(s1, acts, 1, t);
    AStepAt(s, acts, 0, t);
  }

  /** A clear does break the rise: generation 2 completes, the fence is cleared, and generation 1 completes next. */
  lemma FallsAfterClear() returns (s: AState, acts: seq<AAction>, t: AState)
    ensures AStart(s) && ALeads(s, acts, t) && |t.calls| == 3 && t.log == [1, 2]
    ensures t.calls[1].attempt.target == t.calls[2].attempt.target
    ensures t.calls[1].attempt.generation == 2 && t.calls[2].attempt.generation == 1
  {
    s := AState(map[], map[], map[], [], None, None, []);
    var first, u := [Begin("r", "a", 0, 0)], AApply(s, Begin("r", "a", 0, 0));
    AStepAt(s, first, 0, u);
    var second, v := BegunAndChecked(u, "r", "b");
    var third := [Finish(2), Clear("r")];
    var v1 := AApply(v, third[0]);
    var w := AApply(v1, third[1]);
    AStepAt(v1, third, 1, w);
    AStepAt(v, third, 0, w);
    var fourth, x := BegunAndChecked(w, "r", "c");
    var fifth := [Finish(3)];
    t := AApply(x, fifth[0]);
    AStepAt(x, fifth, 0, t);
    ALeadsOn(s, first, u, second, v);
    ALeadsOn(s, first + second, v, third, w);
    ALeadsOn(s, first + second + third, w, fourth, x);
    ALeadsOn(s, first + second + third + fourth, x, fifth, t);
    acts := first + second + third + fourth + fifth;
  }

  ghost predicate Superseded(s: AState, call: nat)
    requires call < |s.calls|
  {
    s.calls[call].attempt.generation < Current(s.gens, s.calls[call].attempt.target)
  }

  /** Has this call's record passed its fence check, so that the completion now finishes under the lock? */
  ghost predicate PassedCheck(s: AState, call: nat) {
    s.checked.Some? && s.checked.value in s.filed && s.filed[s.checked.value] == call
  }

  lemma SupersededStep(s: AState, a: AAction, call: nat)
    requires AInv(s) && AEnabled(s, a) && call < |s.calls| && Superseded(s, call)
    requires a != Clear(s.calls[call].attempt.target)
    ensures var s' := AApply(s, a);
      && call < |s'.calls| && s'.calls[call].attempt == s.calls[call].attempt && Superseded(s', call)
      && (call in s'.log <==> call in s.log || (PassedCheck(s, call) && a.Finish?))
      && (PassedCheck(s', call) <==> PassedCheck(s, call) && !a.Finish?)
  {
    if a.Check? { assert FiledBy(s, a.id); }
  }

  /**
   * Until its target's fence is cleared, a superseded attempt completes exactly when its fence check had already
   * passed and the completion ends.
   */
  lemma {:induction false} SupersededCompletesIff(s: AState, acts: seq<AAction>, t: AState, call: nat)
    requires AInv(s) && ALeads(s, acts, t) && call < |s.calls| && NeverCleared(acts, s.calls[call].attempt.target)
    requires Superseded(s, call) && call !in s.log
    ensures call in t.log <==> PassedCheck(s, call) && exists a <- acts :: a.Finish?
    decreases |acts|
  {
    if acts != [] {
      var a, s' := acts[0], AApply(s, acts[0]);
      assert acts == [a] + acts[1..];
      AStepKeeps(s, a);
      SupersededStep(s, a, call);
      if call in s'.log { LogStays(s', acts[1..], t, call); } else { SupersededCompletesIff(s', acts[1..], t, call); }
    }
  }

  lemma {:induction false} LogStays(s: AState, acts: seq<AAction>, t: AState, call: nat)
    requires ALeads(s, acts, t) && call in s.log
    ensures call in t.log
    decreases |acts|
  {
    if acts != [] { LogStays(AApply(s, acts[0]), acts[1..], t, call); }
  }

  /** It can: the fence may move on between a completion's check and its end. */
  lemma OvertakenAfterItsCheck() returns (s: AState, acts: seq<AAction>, t: AState)
    ensures AStart(s) && ALeads(s, acts, t) && t.log == [0] && |t.calls| == 2 && Superseded(t, 0)
  {
    s := AState(map[], map[], map[], [], None, None, []);
    var first, u := BegunAndChecked(s, "r", "a");
    var second := [Begin("r", "b", 1, 1), Finish(2)];
    var v := AApply(u, second[0]);
    t := AApply(v, second[1]);
    AStepAt(v, second, 1, t);
    AStepAt(u, second, 0, t);
    ALeadsOn(s, first, u, second, t);
    acts := first + second;
  }

  // Two attempts begun for one target, the first with its record inserted.
  lemma TwoBegun() returns (s: AState, acts: seq<AAction>, u: AState)
    ensures AStart(s) && ALeads(s, acts, u) && |u.calls| == 2 && Superseded(u, 0) && u.checked.None? && u.log == []
    ensures "a" in u.records && "a" in u.filed && u.filed["a"] == 0
    ensures u.records["a"].state == InFlight && u.records["a"].target == "r" && u.records["a"].generation == 1
  {
    s := AState(map[], map[], map[], [], None, None, []);
    acts := [Begin("r", "a", 0, 0), InsertRecord(0), Begin("r", "b", 1, 1)];
    var s1 := AApply(s, acts[0]);
    var s2 := AApply(s1, acts[1]);
    u := AApply(s2, acts[2]);
    AStepAt(s2, acts, 2, u);
    AStepAt(s1, acts, 1, u);
    AStepAt(s, acts, 0, u);
  }

  // The fence is cleared, and the first attempt after that brings it back to one.
  lemma ClearedAndBegun(s: AState) returns (acts: seq<AAction>, t: AState)
    ensures ALeads(s, acts, t) && Clear("r") in acts && Current(t.gens, "r") == 1
    ensures t.records == s.records && t.filed == s.filed && t.checked == s.checked && t.log == s.log
  {
    acts := [Clear("r"), Begin("r", "c", 2, 2)];
    var s1 := AApply(s, acts[0]);
    t := AApply(s1, acts[1]);
    AStepAt(s1, acts, 1, t);
    AStepAt(s, acts, 0, t);
  }

  /** A clear revives it: superseded and not yet checked, it completes once the fence counts from one again. */
  lemma RevivedByClear() returns (s: AState, acts: seq<AAction>, u: AState, acts': seq<AAction>, t: AState)
    ensures AStart(s) && ALeads(s, acts, u) && ALeads(u, acts', t) && Clear("r") in acts'
    ensures |u.calls| == 2 && Superseded(u, 0) && !PassedCheck(u, 0) && 0 !in u.log && t.log == [0]
  {
    s, acts, u := TwoBegun();
    var first, v := ClearedAndBegun(u);
    var second := [Check(Response("a", "r", ""), "a", 3), Finish(4)];
    var v1 := AApply(v, second[0]);
    t := AApply(v1, second[1]);
    AStepAt(v1, second, 1, t);
    AStepAt(v, second, 0, t);
    ALeadsOn(u, first, v, second, t);
    acts' := first + second;
  }

  predicate Settled(st: AttemptState) {
    st == Completed || st == TimedOut || st == Fenced
  }

  lemma SettledStep(s: AState, a: AAction, id: string)
    requires AInv(s) && AEnabled(s, a) && id in s.records && Settled(s.records[id].state)
    requires a.InsertRecord? || a.SubmitFailed? ==> s.calls[a.call].id != id
    ensures id in AApply(s, a).records && AApply(s, a).records[id] == s.records[id]
  {
  }

  lemma {:induction false} CallsPersist(s: AState, acts: seq<AAction>, t: AState, i: nat)
    requires ALeads(s, acts, t) && i < |s.calls|
    ensures i < |t.calls| && t.calls[i].id == s.calls[i].id && t.calls[i].attempt == s.calls[i].attempt
    decreases |acts|
  {
    if acts != [] { CallsPersist(AApply(s, acts[0]), acts[1..], t, i); }
  }

  /** Inserting a record, and failing its submission, are the only steps of `begin` that write under an id. */
  ghost predicate WritesOnlyElsewhere(acts: seq<AAction>, calls: seq<Call>, id: string) {
    forall a <- acts :: a.InsertRecord? || a.SubmitFailed? ==> a.call < |calls| ==> calls[a.call].id != id
  }

  /** No completion or expiry, in any run, ever changes a completed, timed-out or fenced record. */
  lemma {:induction false} SettledStays(s: AState, acts: seq<AAction>, t: AState, id: string)
    requires AInv(s) && ALeads(s, acts, t) && WritesOnlyElsewhere(acts, t.calls, id)
    requires id in s.records && Settled(s.records[id].state)
    ensures id in t.records && t.records[id] == s.records[id]
    decreases |acts|
  {
    if acts != [] {
      var a := acts[0];
      if a.InsertRecord? || a.SubmitFailed? { CallsPersist(s, acts, t, a.call); }
      AStepKeeps(s, a);
      SettledStep(s, a, id);
      SettledStays(AApply(s, a), acts[1..], t, id);
    }
  }

  /** The expiry that timed a record out, if one did: it came when the record had been in flight for too long. */
  ghost predicate TimedOutBy(acts: seq<AAction>, a: Attempt) {
    exists e <- acts :: e.Expire? && e.now == a.completedAtMs && e.now - a.startedAtMs > e.timeoutMs
  }

  lemma TimedOutStep(s: AState, a: AAction, id: string)
    requires AInv(s) && AEnabled(s, a) && id in AApply(s, a).records && AApply(s, a).records[id].state == TimedOut
    ensures (id in s.records && AApply(s, a).records[id] == s.records[id]) || TimedOutBy([a], AApply(s, a).records[id])
  {
    assert a in [a];
  }

  /** No record times out, in any run, but by an expiry that finds it in flight for longer than the limit. */
  lemma {:induction false} TimedOutOnlyWhenLate(s: AState, acts: seq<AAction>, t: AState, id: string)
    requires ALeads(s, acts, t) && id in t.records && t.records[id].state == TimedOut
    requires AInv(s)
    ensures (id in s.records && t.records[id] == s.records[id]) || TimedOutBy(acts, t.records[id])
    decreases |acts|
  {
    if acts != [] {
      var s' := AApply(s, acts[0]);
      AStepKeeps(s, acts[0]);
      TimedOutOnlyWhenLate(s', acts[1..], t, id);
      assert acts == [acts[0]] + acts[1..];
      if id in s'.records && t.records[id] == s'.records[id] { TimedOutStep(s, acts[0], id); }
    }
  }

  /** And an expiry leaves nothing in flight that has been there for longer. */
  lemma NothingLateStaysInFlight(s: AState, now: int, timeoutMs: int, id: string)
    requires AEnabled(s, Expire(now, timeoutMs)) && id in s.records && s.records[id].state == InFlight
    ensures var s' := AApply(s, Expire(now, timeoutMs));
      && id in s'.records
      && s'.records[id] == (if now - s.records[id].startedAtMs > timeoutMs
                            then s.records[id].(state := TimedOut, completedAtMs := now) else s.records[id])
  {
  }

  /** Each call of `begin` completes at most once; what completed is no longer in flight, and a completed record did. */
  lemma EachCompletesOnce(s: AState, acts: seq<AAction>, t: AState)
    requires AStart(s) && ALeads(s, acts, t)
    ensures forall i, j :: 0 <= i < j < |t.log| ==> t.log[i] != t.log[j]
    ensures forall id <- t.records ::
              && id in t.filed
              && (t.records[id].state == InFlight ==> t.filed[id] !in t.log)
              && (t.records[id].state == Completed ==> t.filed[id] in t.log)
  {
    ALeadsKeeps(s, acts, t);
    forall id <- t.records ensures id in t.filed { assert FiledBy(t, id); }
  }
}
