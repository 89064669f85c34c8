/** The fence and the coordinator as objects; each method is one call that runs undisturbed. */
module Coordinators {
  import opened Common
  import opened Events
  import opened Attempts

  class GenerationFence {
    var gens: Gens

    constructor ()
      ensures gens == map[]
    {
      gens := map[];
    }

    method Bump(key: string) returns (g: nat)
      modifies this
      ensures gens == Attempts.Bump(old(gens), key) && g == Current(gens, key) == Current(old(gens), key) + 1
    {
      g := (if key in gens then gens[key] else 0) + 1;
      gens := gens[key := g];
    }

    method IsCurrent(key: string, generation: nat) returns (yes: bool)
      ensures yes == (Current(gens, key) == generation)
    {
      yes := Current(gens, key) == generation;
    }

    method Clear(key: string)
      modifies this
      ensures gens == old(gens) - {key} && Current(gens, key) == 0
    {
      gens := gens - {key};
    }
  }

  datatype BeginResult = Started(id: string) | SubmitError(message: string)

  function Addressees(records: Records, resp: Response): set<string> {
    set id | id in records && Addressed(records, resp, id)
  }

  function LateIds(records: Records, now: int, timeoutMs: int): set<string> {
    set id | id in records && Late(records[id], now, timeoutMs)
  }

  // An expiry that has still to visit the records in `rest`.
  ghost function HalfExpired(records: Records, rest: set<string>, now: int, timeoutMs: int): Records {
    map id | id in records :: if id in rest then records[id] else TimeOut(records[id], now, timeoutMs)
  }

  lemma HalfEnds(records: Records, now: int, timeoutMs: int)
    ensures HalfExpired(records, records.Keys, now, timeoutMs) == records
    ensures HalfExpired(records, {}, now, timeoutMs) == TimeOutAll(records, now, timeoutMs)
    ensures LateIds(records, now, timeoutMs) - records.Keys == {}
    ensures LateIds(records, now, timeoutMs) - {} == LateIds(records, now, timeoutMs)
  {
  }

  lemma HalfStep(records: Records, rest: set<string>, k: string, now: int, timeoutMs: int)
    requires k in rest && k in records
    ensures k in HalfExpired(records, rest, now, timeoutMs)
    ensures HalfExpired(records, rest, now, timeoutMs)[k] == records[k]
    ensures HalfExpired(records, rest - {k}, now, timeoutMs) ==
              HalfExpired(records, rest, now, timeoutMs)[k := TimeOut(records[k], now, timeoutMs)]
    ensures !Late(records[k], now, timeoutMs) ==>
              HalfExpired(records, rest - {k}, now, timeoutMs) == HalfExpired(records, rest, now, timeoutMs)
  {
  }

  /** Applying a response completes a record, or fences it, or leaves one that is no longer in flight. */
  function Applied(before: Records, id: string, resp: Response, now: int, ok: bool): Records
    requires id in before
  {
    var a := before[id];
    if a.state != InFlight then before
    else if ok then before[id := a.(response := Some(resp), state := Completed, completedAtMs := now)]
    else before[id := a.(state := Fenced, completedAtMs := now)]
  }

  /** What a call of `begin` leaves under its id. */
  function Begun(target: string, generation: nat, now: int, submitted: bool): Attempt {
    var rec := Attempt(target, generation, InFlight, now, 0, None);
    if submitted then rec else rec.(state := Failed, completedAtMs := now)
  }

  class PredictionAttemptCoordinator {
    const fence: GenerationFence
    const timeoutMs: int
    var attempts: Records
    var started: nat
    var completed: nat
    var timeouts: nat
    var fenced: nat
    var failed: nat

    constructor (fence: GenerationFence, timeoutMs: int)
      ensures this.fence == fence && this.timeoutMs == timeoutMs && attempts == map[]
      ensures started == completed == timeouts == fenced == failed == 0
    {
      this.fence, this.timeoutMs, attempts := fence, timeoutMs, map[];
      started, completed, timeouts, fenced, failed := 0, 0, 0, 0, 0;
    }

    /** `submitError` is the client's answer. The new attempt supersedes every earlier one of its target. */
    method Begin(target: string, correlationId: string, now: int, submitError: Option<string>) returns (r: BeginResult)
      modifies this, fence
      ensures fence.gens == Attempts.Bump(old(fence.gens), target)
      ensures var id := if correlationId != "" then correlationId else target + "-" + Decimal(now);
        && r == (if submitError.None? then Started(id) else SubmitError(submitError.value))
        && attempts == old(attempts)[id := Begun(target, Current(fence.gens, target), now, submitError.None?)]
        && attempts[id].target == target && attempts[id].startedAtMs == now && attempts[id].response == None
        && attempts[id].generation == Current(old(fence.gens), target) + 1
        && attempts[id].state == if submitError.None? then InFlight else Failed
      ensures started == old(started) + if submitError.None? then 1 else 0
      ensures failed == old(failed) + if submitError.None? then 0 else 1
      ensures completed == old(completed) && timeouts == old(timeouts) && fenced == old(fenced)
    {
      var generation := fence.Bump(target);
      var id := AttemptId(target, correlationId, now);
      attempts := attempts[id := Attempt(target, generation, InFlight, now, 0, None)];
      if submitError.Some? {
        attempts := attempts[id := attempts[id].(state := Failed, completedAtMs := now)];
        failed := failed + 1;
        return SubmitError(submitError.value);
      }
      started := started + 1;
      return Started(id);
    }

    /** `id` is the record the response was applied to, when one is addressed. */
    method Complete(resp: Response, now: int) returns (ok: bool, ghost id: string)
      modifies this
      ensures Addressees(old(attempts), resp) == {} ==> !ok && attempts == old(attempts) && fenced == old(fenced)
      ensures Addressees(old(attempts), resp) != {} ==>
                Addressed(old(attempts), resp, id) && AppliedTo(old(attempts), id, resp, now, ok)
      ensures resp.correlationId in old(attempts) ==> id == resp.correlationId && id in Addressees(old(attempts), resp)
      ensures resp.correlationId !in old(attempts) ==>
                Addressees(old(attempts), resp) ==
                  set k | k in old(attempts) && old(attempts)[k].target == resp.targetRoundId
                          && old(attempts)[k].state == InFlight
      ensures ok ==>
                && old(attempts)[id].state == InFlight
                && attempts[id].state == Completed && attempts[id].response == Some(resp)
                && attempts[id].completedAtMs == now
      ensures !ok && Addressees(old(attempts), resp) != {} && old(attempts)[id].state == InFlight ==>
                attempts[id].state == Fenced && attempts[id].response == old(attempts)[id].response
      ensures Addressees(old(attempts), resp) != {} ==>
                fenced == old(fenced) + if !ok && old(attempts)[id].state == InFlight then 1 else 0
      ensures completed == old(completed) + if ok then 1 else 0
      ensures started == old(started) && timeouts == old(timeouts) && failed == old(failed)
    {
      ghost var whom := Addressees(attempts, resp);
      if resp.correlationId in attempts {
        id := resp.correlationId;
        assert id in whom;
        ok := CompleteLocked(resp.correlationId, resp, now);
        return;
      }
      var rest := attempts.Keys;
      while rest != {}
        invariant rest <= attempts.Keys && forall k <- attempts.Keys - rest :: !Addressed(attempts, resp, k)
      {
        var k :| k in rest;
        if attempts[k].target == resp.targetRoundId && attempts[k].state == InFlight {
          assert k in whom;
          ok := CompleteLocked(k, resp, now);
          id := k;
          return;
        }
        rest := rest - {k};
      }
      assert whom == {};
      return false, "";
    }

    ghost predicate AppliedTo(before: Records, id: string, resp: Response, now: int, ok: bool)
      requires id in before
      reads this, fence
    {
      && (ok <==> before[id].state == InFlight && Current(fence.gens, before[id].target) == before[id].generation)
      && attempts == Applied(before, id, resp, now, ok)
    }

    method CompleteLocked(id: string, resp: Response, now: int) returns (ok: bool)
      requires id in attempts
      modifies this`attempts, this`completed, this`fenced
      ensures AppliedTo(old(attempts), id, resp, now, ok)
      ensures completed == old(completed) + if ok then 1 else 0
      ensures fenced == old(fenced) + if !ok && old(attempts)[id].state == InFlight then 1 else 0
    {
      var a := attempts[id];
      if a.state != InFlight { return false; }
      var current := fence.IsCurrent(a.target, a.generation);
      if !current {
        attempts := attempts[id := a.(state := Fenced, completedAtMs := now)];
        fenced := fenced + 1;
        return false;
      }
      attempts := attempts[id := a.(response := Some(resp), state := Completed, completedAtMs := now)];
      completed := completed + 1;
      return true;
    }

    /** Times out exactly the records in flight for longer than the limit. */
    method ExpireTimeouts(now: int) returns (n: nat)
      modifies this`attempts, this`timeouts
      ensures attempts == TimeOutAll(old(attempts), now, timeoutMs) && attempts.Keys == old(attempts).Keys
      ensures forall id <- attempts ::
                var before := old(attempts)[id];
                attempts[id] == if before.state == InFlight && now - before.startedAtMs > timeoutMs
                                then before.(state := TimedOut, completedAtMs := now) else before
      ensures n == |set id | id in old(attempts) && old(attempts)[id].state == InFlight
                              && now - old(attempts)[id].startedAtMs > timeoutMs|
      ensures timeouts == old(timeouts) + n
    {
      n := 0;
      ghost var before := attempts;
      var rest := attempts.Keys;
      HalfEnds(before, now, timeoutMs);
      while rest != {}
        invariant rest <= before.Keys && attempts == HalfExpired(before, rest, now, timeoutMs)
        invariant n == |LateIds(before, now, timeoutMs) - rest| && timeouts == old(timeouts) + n
      {
        var k :| k in rest;
        LateStep(before, rest, k, now, timeoutMs);
        HalfStep(before, rest, k, now, timeoutMs);
        var a := attempts[k];
        if a.state == InFlight && now - a.startedAtMs > timeoutMs {
          attempts := attempts[k := a.(state := TimedOut, completedAtMs := now)];
          timeouts := timeouts + 1;
          n := n + 1;
        }
        rest := rest - {k};
      }
      assert LateIds(before, now, timeoutMs) ==
        set id | id in before && before[id].state == InFlight && now - before[id].startedAtMs > timeoutMs;
    }
  }

  lemma LateStep(records: Records, rest: set<string>, k: string, now: int, timeoutMs: int)
    requires k in rest && k in records
    ensures |LateIds(records, now, timeoutMs) - (rest - {k})| ==
              |LateIds(records, now, timeoutMs) - rest| + if Late(records[k], now, timeoutMs) then 1 else 0
  {
    var late := LateIds(records, now, timeoutMs);
    assert late - (rest - {k}) == (late - rest) + if Late(records[k], now, timeoutMs) then {k} else {};
  }

  /** A completion that runs undisturbed is a run of the interleaved calls, with the effect of `complete`. */
  lemma CompleteIsARun(s: AState, resp: Response, id: string, now: int)
    returns (ok: bool, acts: seq<AAction>, t: AState)
    requires AInv(s) && AEnabled(s, Check(resp, id, now))
    ensures ALeads(s, acts, t) && t.gens == s.gens && t.checked.None?
    ensures ok <==> s.records[id].state == InFlight
                    && Current(s.gens, s.records[id].target) == s.records[id].generation
    ensures t.records == Applied(s.records, id, resp, now, ok)
    ensures id in s.filed && t.log == if ok then s.log + [s.filed[id]] else s.log
  {
    assert FiledBy(s, id);
    acts := [Check(resp, id, now)];
    t := AApply(s, acts[0]);
    AStepAt(s, acts, 0, t);
    ok := t.checked.Some?;
    if ok {
      var u, finish := t, [Finish(now)];
      t := AApply(u, finish[0]);
      AStepAt(u, finish, 0, t);
      ALeadsOn(s, acts, u, finish, t);
      acts := acts + finish;
    }
  }

  /** So is an undisturbed `begin`. */
  lemma BeginIsARun(s: AState, target: string, correlationId: string, now: int, submitted: bool)
    returns (acts: seq<AAction>, t: AState)
    requires s.checked.None?
    ensures ALeads(s, acts, t) && t.checked.None? && t.log == s.log && t.gens == Attempts.Bump(s.gens, target)
    ensures t.records == s.records[AttemptId(target, correlationId, now) :=
                                     Begun(target, Current(t.gens, target), now, submitted)]
  {
    var n := |s.calls|;
    acts := [Begin(target, correlationId, now, now), InsertRecord(n),
             if submitted then SubmitOk(n) else SubmitFailed(n, now)];
    var s1 := AApply(s, acts[0]);
    var s2 := AApply(s1, acts[1]);
    t := AApply(s2, acts[2]);
    AStepAt(s2, acts, 2, t);
    AStepAt(s1, acts, 1, t);
    AStepAt(s, acts, 0, t);
  }
}
