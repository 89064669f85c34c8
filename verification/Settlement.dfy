/** Settlement over whole runs: which registration an end event settles, and how often. */
module Settlements {
  import opened Common
  import opened Events
  import opened Predictions
  import opened Recency
  import opened Registry

  const END_WINDOW := 5000

  /** One outcome: the number of the registration it settles, and of the taking of a round that issued it. */
  datatype Settlement = Settlement(registration: nat, take: nat, outcome: Outcome)

  /** A successful registration: how many ends had been accepted, and taken, before it, and which were accepted only. */
  datatype Registration = Registration(prediction: Prediction, accepted: nat, taken: nat, open: set<nat>)

  /**
   * `ends` and `crashes` list the accepted ends and their crash points, `open` the ends whose round is still to be
   * taken, `takes` the others in the order in which that happened. `number` says which registration a pending
   * prediction is. The validator keeps only the registry and the newest ends.
   */
  datatype VState = VState(
    reg: Reg, max: nat, ends: seq<string>, crashes: seq<real>, open: set<nat>, takes: seq<nat>,
    registered: seq<Registration>, number: map<(string, string), nat>, settled: seq<Settlement>)

  /** An end is accepted under the validator's lock, its round taken under the registry's: two steps. */
  datatype VAction =
    | Register(ev: Prediction, entries: seq<Prediction>)
    | AcceptEnd(event: CrashEvent)
    | TakeRound(end: nat, now: int)
    | ExpireStale(now: int, maxAgeMs: int)

  function EndRound(ev: CrashEvent): string {
    if ev.roundId != "" then ev.roundId else ev.gameId
  }

  /** A valid end event of some round that is not among the last 5,000 accepted ends. */
  predicate Accepts(ends: seq<string>, ev: CrashEvent) {
    ev.kind == End && ev.valid && EndRound(ev) != "" && EndRound(ev) !in Newest(ends, END_WINDOW)
  }

  predicate Succeeds(reg: Reg, ev: Prediction) {
    ev.targetRoundId != "" && !HasId(ListOf(reg, ev.targetRoundId), ev.predictionId)
  }

  function Key(e: Prediction): (string, string) {
    (e.targetRoundId, e.predictionId)
  }

  ghost predicate VStart(s: VState) {
    && s.reg == Reg(map[], map[]) && s.ends == [] && s.crashes == [] && s.open == {} && s.takes == []
    && s.registered == [] && s.number == map[] && s.settled == []
  }

  ghost predicate VEnabled(s: VState, a: VAction) {
    match a
    case Register(ev, entries) => Succeeds(s.reg, ev) ==> Lists(entries, Add(s.reg, ev))
    case TakeRound(end, _) => end in s.open && end < |s.ends| && end < |s.crashes|
    case _ => true
  }

  /** The outcomes the taking of a round issues, in the order of the round's list. */
  ghost function Issued(s: VState, end: nat, now: int): (issued: seq<Settlement>)
    requires VEnabled(s, TakeRound(end, now))
    ensures |issued| == |ListOf(s.reg, s.ends[end])|
  {
    var list := ListOf(s.reg, s.ends[end]);
    seq(|list|, i requires 0 <= i < |list| =>
      Settlement(if Key(list[i]) in s.number then s.number[Key(list[i])] else 0, |s.takes|,
                 MakeOutcome(list[i], s.crashes[end], now)))
  }

  ghost function VApply(s: VState, a: VAction): VState
    requires VEnabled(s, a)
  {
    match a
    case Register(ev, entries) =>
      if !Succeeds(s.reg, ev) then s
      else s.(reg := DropAll(Add(s.reg, ev), Oldest(Ages(entries), s.max)),
              registered := s.registered + [Registration(ev, |s.ends|, |s.takes|, s.open)],
              number := s.number[Key(ev) := |s.registered|])
    case AcceptEnd(ev) =>
      if !Accepts(s.ends, ev) then s
      else s.(ends := s.ends + [EndRound(ev)], crashes := s.crashes + [ev.crashPoint], open := s.open + {|s.ends|})
    case TakeRound(end, now) =>
      s.(reg := Take(s.reg, s.ends[end]), open := s.open - {end}, takes := s.takes + [end],
         settled := s.settled + Issued(s, end, now))
    case ExpireStale(now, maxAgeMs) => s.(reg := Expire(s.reg, now, maxAgeMs))
  }

  /** Accepted ends are taken once each, or still open. */
  ghost predicate TakesOk(s: VState) {
    && |s.crashes| == |s.ends| && NoDuplicates(s.takes)
    && (forall n <- s.open :: n < |s.ends|)
    && (forall k :: 0 <= k < |s.takes| ==> s.takes[k] < |s.ends| && s.takes[k] !in s.open)
    && (forall n: nat :: n < |s.ends| && n !in s.open ==> n in s.takes)
  }

  /** What a registration noted of the ends before it. */
  ghost predicate NotedWell(s: VState, r: Registration) {
    && r.accepted <= |s.ends| && r.taken <= |s.takes|
    && (forall k :: 0 <= k < r.taken ==> s.takes[k] < r.accepted)
    && (forall n: nat :: n in r.open <==> n < r.accepted && n !in s.takes[..r.taken])
  }

  /** A pending prediction is a registration whose round has not been taken since. */
  ghost predicate Numbered(s: VState, e: Prediction) {
    && Key(e) in s.number && s.number[Key(e)] < |s.registered| && s.registered[s.number[Key(e)]].prediction == e
    && (forall k :: s.registered[s.number[Key(e)]].taken <= k < |s.takes| ==>
          s.takes[k] < |s.ends| && s.ends[s.takes[k]] != e.targetRoundId)
    && (forall j :: 0 <= j < |s.settled| ==> s.settled[j].registration != s.number[Key(e)])
  }

  /** A settlement belongs to the first taking of the target round after the registration. */
  ghost predicate WellSettled(s: VState, t: Settlement) {
    && t.registration < |s.registered| && t.take < |s.takes| && s.takes[t.take] < |s.ends| == |s.crashes|
    && var r, end := s.registered[t.registration], s.takes[t.take];
      && r.taken <= t.take && s.ends[end] == r.prediction.targetRoundId
      && (forall k :: r.taken <= k < t.take ==>
            s.takes[k] < |s.ends| && s.ends[s.takes[k]] != r.prediction.targetRoundId)
      && t.outcome == MakeOutcome(r.prediction, s.crashes[end], t.outcome.resolvedAtMs)
  }

  ghost predicate RightVerdict(s: VState, t: Settlement)
    requires WellSettled(s, t)
  {
    var p, crash, o := s.registered[t.registration].prediction, s.crashes[s.takes[t.take]], t.outcome;
    && (o.result == Win <==> p.decision == Enter && crash >= p.targetMult > 0.0)
    && (o.result == Void <==> p.decision != Enter)
    && o.result in {Win, Loss, Void} && (o.isWin <==> o.result == Win)
    && o.predictionId == p.predictionId && o.roundId == p.targetRoundId
    && o.actualMult == crash && o.targetMult == p.targetMult
  }

  ghost predicate VInv(s: VState) {
    && Shaped(s.reg) && TakesOk(s)
    && (forall i :: 0 <= i < |s.registered| ==> NotedWell(s, s.registered[i]))
    && (forall e :: PendingIn(s.reg, e) ==> Numbered(s, e))
    && (forall j :: 0 <= j < |s.settled| ==> WellSettled(s, s.settled[j]))
    && (forall i, j :: 0 <= i < j < |s.settled| ==> s.settled[i].registration != s.settled[j].registration)
  }

  lemma OtherKey(reg: Reg, ev: Prediction, e: Prediction)
    requires Succeeds(reg, ev) && PendingIn(reg, e)
    ensures Key(e) != Key(ev)
  {
    var list := ListOf(reg, ev.targetRoundId);
    assert forall i :: 0 <= i < |list| ==> list[i].predictionId != ev.predictionId;
  }

  lemma RegisterKeeps(s: VState, a: VAction)
    requires VInv(s) && VEnabled(s, a) && a.Register? && Succeeds(s.reg, a.ev)
    ensures VInv(VApply(s, a))
  {
    var s', ev := VApply(s, a), a.ev;
    var added := Add(s.reg, ev);
    AddShaped(s.reg, ev);
    DropAllShrinks(added, Oldest(Ages(a.entries), s.max));
    forall e | PendingIn(s'.reg, e) ensures Numbered(s', e) {
      assert PendingIn(added, e);
      if e != ev {
        assert PendingIn(s.reg, e) && Numbered(s, e);
        OtherKey(s.reg, ev, e);
      }
    }
    forall j | 0 <= j < |s'.settled| ensures WellSettled(s', s'.settled[j]) { assert WellSettled(s, s.settled[j]); }
    forall i | 0 <= i < |s'.registered| ensures NotedWell(s', s'.registered[i]) {
      if i < |s.registered| { assert NotedWell(s, s.registered[i]); } else { assert s.takes[..|s.takes|] == s.takes; }
    }
  }

  lemma AcceptKeeps(s: VState, ev: CrashEvent)
    requires VInv(s) && Accepts(s.ends, ev)
    ensures VInv(VApply(s, AcceptEnd(ev)))
  {
    var s' := VApply(s, AcceptEnd(ev));
    assert forall n :: 0 <= n < |s.ends| ==> s'.ends[n] == s.ends[n] && s'.crashes[n] == s.crashes[n];
    forall e | PendingIn(s'.reg, e) ensures Numbered(s', e) { assert Numbered(s, e); }
    forall j | 0 <= j < |s'.settled| ensures WellSettled(s', s'.settled[j]) { assert WellSettled(s, s.settled[j]); }
    forall i | 0 <= i < |s'.registered| ensures NotedWell(s', s'.registered[i]) {
      assert NotedWell(s, s.registered[i]);
    }
  }

  lemma TakeKeepsTakes(s: VState, end: nat, now: int)
    requires VInv(s) && VEnabled(s, TakeRound(end, now))
    ensures TakesOk(VApply(s, TakeRound(end, now)))
  {
    var s', n := VApply(s, TakeRound(end, now)), |s.takes|;
    assert s'.takes[n] == end && forall k :: 0 <= k < n ==> s'.takes[k] == s.takes[k];
    forall m: nat | m < |s'.ends| && m !in s'.open ensures m in s'.takes {
      if m != end { assert m in s.takes; }
    }
  }

  /** The pending predictions the taking of a round finds, in the terms of the run. */
  lemma Found(s: VState, end: nat, now: int, i: nat)
    requires VInv(s) && VEnabled(s, TakeRound(end, now)) && i < |ListOf(s.reg, s.ends[end])|
    ensures var list := ListOf(s.reg, s.ends[end]);
      && list[i].targetRoundId == s.ends[end] && Numbered(s, list[i])
      && Issued(s, end, now)[i] ==
           Settlement(s.number[Key(list[i])], |s.takes|, MakeOutcome(list[i], s.crashes[end], now))
  {
    assert PendingIn(s.reg, ListOf(s.reg, s.ends[end])[i]);
  }

  lemma TakeKeepsPending(s: VState, end: nat, now: int, e: Prediction)
    requires VInv(s) && VEnabled(s, TakeRound(end, now)) && PendingIn(VApply(s, TakeRound(end, now)).reg, e)
    ensures Numbered(VApply(s, TakeRound(end, now)), e)
  {
    var s', issued := VApply(s, TakeRound(end, now)), Issued(s, end, now);
    TakeKeepsTakes(s, end, now);
    assert PendingIn(s.reg, e) && Numbered(s, e) && e.targetRoundId != s.ends[end];
    forall j | 0 <= j < |s'.settled| ensures s'.settled[j].registration != s.number[Key(e)] {
      if j >= |s.settled| {
        Found(s, end, now, j - |s.settled|);
        assert s'.settled[j] == issued[j - |s.settled|];
      }
    }
  }

  lemma TakeSettlesWell(s: VState, end: nat, now: int, j: nat)
    requires VInv(s) && VEnabled(s, TakeRound(end, now)) && j < |VApply(s, TakeRound(end, now)).settled|
    ensures var s' := VApply(s, TakeRound(end, now)); WellSettled(s', s'.settled[j])
  {
    var s', issued := VApply(s, TakeRound(end, now)), Issued(s, end, now);
    TakeKeepsTakes(s, end, now);
    if j < |s.settled| {
      assert s'.settled[j] == s.settled[j] && WellSettled(s, s.settled[j]);
    } else {
      var i := j - |s.settled|;
      Found(s, end, now, i);
      assert s'.settled[j] == issued[i];
      assert NotedWell(s, s.registered[s.number[Key(ListOf(s.reg, s.ends[end])[i])]]);
    }
  }

  lemma TakeSettlesOthers(s: VState, end: nat, now: int, i: nat, j: nat)
    requires VInv(s) && VEnabled(s, TakeRound(end, now)) && i < j < |VApply(s, TakeRound(end, now)).settled|
    ensures var settled := VApply(s, TakeRound(end, now)).settled; settled[i].registration != settled[j].registration
  {
    var settled, before, issued := VApply(s, TakeRound(end, now)).settled, |s.settled|, Issued(s, end, now);
    if j >= before {
      Found(s, end, now, j - before);
      assert settled[j] == issued[j - before];
      if i >= before {
        Found(s, end, now, i - before);
        assert settled[i] == issued[i - before];
      }
    }
  }

  lemma TakeKeeps(s: VState, end: nat, now: int)
    requires VInv(s) && VEnabled(s, TakeRound(end, now))
    ensures VInv(VApply(s, TakeRound(end, now)))
  {
    var s' := VApply(s, TakeRound(end, now));
    TakeKeepsTakes(s, end, now);
    forall i | 0 <= i < |s'.registered| ensures NotedWell(s', s'.registered[i]) {
      assert NotedWell(s, s.registered[i]);
      assert s'.takes[..s.registered[i].taken] == s.takes[..s.registered[i].taken];
    }
    forall e | PendingIn(s'.reg, e) ensures Numbered(s', e) { TakeKeepsPending(s, end, now, e); }
    forall j | 0 <= j < |s'.settled| ensures WellSettled(s', s'.settled[j]) { TakeSettlesWell(s, end, now, j); }
    forall i, j | 0 <= i < j < |s'.settled| ensures s'.settled[i].registration != s'.settled[j].registration {
      TakeSettlesOthers(s, end, now, i, j);
    }
  }

  lemma VStepKeeps(s: VState, a: VAction)
    requires VInv(s) && VEnabled(s, a)
    ensures VInv(VApply(s, a))
  {
    match a
    case Register(ev, _) => if Succeeds(s.reg, ev) { RegisterKeeps(s, a); }
    case AcceptEnd(ev) => if Accepts(s.ends, ev) { AcceptKeeps(s, ev); }
    case TakeRound(end, now) => TakeKeeps(s, end, now);
    case ExpireStale(now, maxAgeMs) =>
      ExpirePending(s.reg, now, maxAgeMs);
      var s' := VApply(s, a);
      forall e | PendingIn(s'.reg, e) ensures Numbered(s', e) { assert Numbered(s, e); }
      forall j | 0 <= j < |s'.settled| ensures WellSettled(s', s'.settled[j]) { assert WellSettled(s, s.settled[j]); }
      forall i | 0 <= i < |s'.registered| ensures NotedWell(s', s'.registered[i]) {
        assert NotedWell(s, s.registered[i]);
      }
  }

  ghost predicate VLeads(s: VState, acts: seq<VAction>, t: VState)
    decreases |acts|
  {
    if acts == [] then s == t else VEnabled(s, acts[0]) && VLeads(VApply(s, acts[0]), acts[1..], t)
  }

  lemma {:induction false} VLeadsKeeps(s: VState, acts: seq<VAction>, t: VState)
    requires VInv(s) && VLeads(s, acts, t)
    ensures VInv(t)
    decreases |acts|
  {
    if acts != [] {
      VStepKeeps(s, acts[0]);
      VLeadsKeeps(VApply(s, acts[0]), acts[1..], t);
    }
  }

  /**
   * Under every interleaving of registrations, ends and expiries, every registration yields at most one outcome.
   * It comes from the first taking of its own round after it, with the verdict of that end's crash point: a win
   * exactly when the decision was to enter and the crash point reached a positive target.
   */
  lemma SettledAtMostOnce(s: VState, acts: seq<VAction>, t: VState)
    requires VStart(s) && VLeads(s, acts, t)
    ensures forall i, j :: 0 <= i < j < |t.settled| ==> t.settled[i].registration != t.settled[j].registration
    ensures forall j :: 0 <= j < |t.settled| ==> WellSettled(t, t.settled[j]) && RightVerdict(t, t.settled[j])
  {
    VLeadsKeeps(s, acts, t);
  }

  /** A valid end of the round, by its round id or, when it has none, by its game id, with this crash point. */
  ghost predicate EndedBy(acts: seq<VAction>, round: string, crashPoint: real) {
    exists a <- acts :: a.AcceptEnd? && a.event.kind == End && a.event.valid && a.event.crashPoint == crashPoint
                        && round != "" && round == if a.event.roundId != "" then a.event.roundId else a.event.gameId
  }

  lemma {:induction false} EndsStay(s: VState, acts: seq<VAction>, t: VState)
    requires VLeads(s, acts, t) && |s.ends| == |s.crashes|
    ensures s.ends <= t.ends && s.crashes <= t.crashes && |t.ends| == |t.crashes|
    ensures forall n :: |s.ends| <= n < |t.ends| ==> EndedBy(acts, t.ends[n], t.crashes[n])
    decreases |acts|
  {
    if acts != [] {
      var s' := VApply(s, acts[0]);
      EndsStay(s', acts[1..], t);
      assert acts == [acts[0]] + acts[1..];
      forall n | |s.ends| <= n < |t.ends| ensures EndedBy(acts, t.ends[n], t.crashes[n]) {
        if n < |s'.ends| {
          assert t.ends[n] == s'.ends[n] && t.crashes[n] == s'.crashes[n] && acts[0] in acts;
        } else {
          assert EndedBy(acts[1..], t.ends[n], t.crashes[n]);
        }
      }
    }
  }

  /** A registration is only ever settled by an end of its own round, at that end's crash point. */
  lemma SettledByItsOwnRound(s: VState, acts: seq<VAction>, t: VState, j: nat)
    requires VStart(s) && VLeads(s, acts, t) && j < |t.settled|
    ensures t.settled[j].registration < |t.registered|
    ensures var p, o := t.registered[t.settled[j].registration].prediction, t.settled[j].outcome;
      o.roundId == p.targetRoundId && EndedBy(acts, p.targetRoundId, o.actualMult)
  {
    SettledAtMostOnce(s, acts, t);
    EndsStay(s, acts, t);
    assert WellSettled(t, t.settled[j]) && RightVerdict(t, t.settled[j]);
  }

  // The taking of a round settles what it finds.
  lemma TakingSettles(s: VState, end: nat, now: int, e: Prediction) returns (j: nat)
    requires VInv(s) && VEnabled(s, TakeRound(end, now)) && PendingIn(s.reg, e) && e.targetRoundId == s.ends[end]
    ensures Key(e) in s.number && s.number[Key(e)] < |s.registered| && s.registered[s.number[Key(e)]].prediction == e
    ensures var s' := VApply(s, TakeRound(end, now));
      && !PendingIn(s'.reg, e) && |s.settled| <= j < |s'.settled|
      && s'.settled[j] == Settlement(s.number[Key(e)], |s.takes|, MakeOutcome(e, s.crashes[end], now))
  {
    assert Numbered(s, e);
    var list := ListOf(s.reg, s.ends[end]);
    var i :| 0 <= i < |list| && list[i] == e;
    j := |s.settled| + i;
    assert VApply(s, TakeRound(end, now)).settled[j] == Issued(s, end, now)[i];
  }

  /**
   * And the other way round: once an end has been accepted, taking its round settles every prediction then pending
   * for the round it names, whatever has happened in between.
   */
  lemma AcceptedEndSettles(
      s: VState, acts: seq<VAction>, t: VState, ev: CrashEvent, after: seq<VAction>, u: VState, now: int, e: Prediction)
    requires VStart(s) && VLeads(s, acts, t) && Accepts(t.ends, ev)
    requires VLeads(VApply(t, AcceptEnd(ev)), after, u) && |t.ends| in u.open
    requires PendingIn(u.reg, e) && e.targetRoundId == if ev.roundId != "" then ev.roundId else ev.gameId
    ensures VEnabled(u, TakeRound(|t.ends|, now))
    ensures var u' := VApply(u, TakeRound(|t.ends|, now));
      && !PendingIn(u'.reg, e) && Key(e) in u.number
      && exists j :: |u.settled| <= j < |u'.settled| && u'.settled[j].registration == u.number[Key(e)]
                     && u'.settled[j].outcome == MakeOutcome(e, ev.crashPoint, now)
  {
    var t1 := VApply(t, AcceptEnd(ev));
    VLeadsKeeps(s, acts, t);
    AcceptKeeps(t, ev);
    VLeadsKeeps(t1, after, u);
    EndsStay(t1, after, u);
    assert u.ends[|t.ends|] == t1.ends[|t.ends|] && u.crashes[|t.ends|] == t1.crashes[|t.ends|];
    var j := TakingSettles(u, |t.ends|, now, e);
  }

  /** Accepted ends of one round lie more than a window apart. */
  ghost predicate EndsApart(ends: seq<string>) {
    forall i, j :: 0 <= i < j < |ends| && ends[i] == ends[j] ==> j - i > END_WINDOW
  }

  lemma AcceptKeepsApart(ends: seq<string>, ev: CrashEvent)
    requires EndsApart(ends) && Accepts(ends, ev)
    ensures EndsApart(ends + [EndRound(ev)])
  {
    var window := Newest(ends, END_WINDOW);
    forall i | 0 <= i < |ends| && |ends| - i <= END_WINDOW ensures ends[i] != EndRound(ev) {
      assert window[i - (|ends| - |window|)] == ends[i];
    }
  }

  lemma {:induction false} VLeadsKeepsApart(s: VState, acts: seq<VAction>, t: VState)
    requires EndsApart(s.ends) && VLeads(s, acts, t)
    ensures EndsApart(t.ends)
    decreases |acts|
  {
    if acts != [] {
      if acts[0].AcceptEnd? && Accepts(s.ends, acts[0].event) { AcceptKeepsApart(s.ends, acts[0].event); }
      VLeadsKeepsApart(VApply(s, acts[0]), acts[1..], t);
    }
  }

  /** Is an end of the prediction's own round still to be taken when it is registered? */
  ghost predicate RoundOpen(ends: seq<string>, r: Registration) {
    exists n :: n in r.open && n < |ends| && ends[n] == r.prediction.targetRoundId
  }

  /**
   * A registration is settled by an end accepted before it exactly when an end of its round is still to be taken at
   * that moment; only a run of more than 5,001 ends, in which the round can end again, leaves another possibility.
   */
  lemma SettledByEarlierEndIff(s: VState, acts: seq<VAction>, t: VState, j: nat)
    requires VStart(s) && VLeads(s, acts, t) && j < |t.settled|
    ensures t.settled[j].registration < |t.registered| && t.settled[j].take < |t.takes|
    ensures var r, end := t.registered[t.settled[j].registration], t.takes[t.settled[j].take];
      && (end < r.accepted <==> end in r.open) && (end < r.accepted ==> RoundOpen(t.ends, r))
      && (|t.ends| <= END_WINDOW + 1 ==> (end < r.accepted <==> RoundOpen(t.ends, r)))
      && forall n <- r.open :: n < |t.ends| && t.ends[n] == r.prediction.targetRoundId ==>
           end < r.accepted || end > n + END_WINDOW
  {
    VLeadsKeeps(s, acts, t);
    VLeadsKeepsApart(s, acts, t);
    var settlement := t.settled[j];
    assert WellSettled(t, settlement);
    var r, end := t.registered[settlement.registration], t.takes[settlement.take];
    assert NotedWell(t, r);
    forall k | 0 <= k < r.taken ensures t.takes[..r.taken][k] != end { }
  }

  // One prediction registered with an empty registry.
  lemma RegisteredAlone(s: VState, p: Prediction)
    requires s.reg == Reg(map[], map[]) && s.max > 0 && p.targetRoundId != ""
    ensures Succeeds(s.reg, p) && VEnabled(s, Register(p, [p]))
    ensures VApply(s, Register(p, [p])).reg == Reg(map[p.targetRoundId := [p]], map[p.predictionId := p.targetRoundId])
  {
    assert ListOf(s.reg, p.targetRoundId) + [p] == [p];
    assert Lists([p], Add(s.reg, p)) && Oldest(Ages([p]), s.max) == [];
  }

  /** Such a settlement happens: the end of a round is accepted, a prediction registered, and the round taken. */
  lemma SettledByEarlierEnd() returns (s: VState, acts: seq<VAction>, t: VState)
    ensures VStart(s) && VLeads(s, acts, t) && |t.settled| == |t.registered| == |t.takes| == 1
    ensures t.settled[0].registration == 0 && t.settled[0].take == 0 && t.takes[0] < t.registered[0].accepted
  {
    var ev := CrashEvent(End, "r", "g", 2.0, 0, 0, 0, true);
    var p := Prediction("p", "r", Enter, 1.0, 1.5, 0);
    s := VState(Reg(map[], map[]), 10, [], [], {}, [], [], map[], []);
    acts := [AcceptEnd(ev), Register(p, [p]), TakeRound(0, 1)];
    var s1 := VApply(s, acts[0]);
    RegisteredAlone(s1, p);
    var s2 := VApply(s1, acts[1]);
    t := VApply(s2, acts[2]);
    assert acts[1..] == [acts[1], acts[2]] && acts[2..] == [acts[2]] && acts[3..] == [];
    assert VLeads(s2, [acts[2]], t);
    assert VLeads(s1, [acts[1], acts[2]], t);
  }

  // Calls one after the other: nothing is registered or accepted while an end is open.

  ghost predicate Serial(s: VState, acts: seq<VAction>)
    decreases |acts|
  {
    acts != [] ==>
      && (acts[0].Register? || acts[0].AcceptEnd? ==> s.open == {})
      && (VEnabled(s, acts[0]) ==> Serial(VApply(s, acts[0]), acts[1..]))
  }

  ghost predicate InOrder(s: VState) {
    && (forall k :: 0 <= k < |s.takes| ==> s.takes[k] == k)
    && (if s.open == {} then |s.takes| == |s.ends| else s.open == {|s.takes|} && |s.takes| + 1 == |s.ends|)
    && (forall i :: 0 <= i < |s.registered| ==> s.registered[i].open == {})
  }

  lemma {:induction false} SerialKeepsOrder(s: VState, acts: seq<VAction>, t: VState)
    requires InOrder(s) && VLeads(s, acts, t) && Serial(s, acts)
    ensures InOrder(t)
    decreases |acts|
  {
    if acts != [] {
      var s' := VApply(s, acts[0]);
      assert acts[0].TakeRound? ==> s.open - {acts[0].end} == {};
      SerialKeepsOrder(s', acts[1..], t);
    }
  }

  /** With calls one after the other, a registration is settled by the first accepted end of its round after it. */
  lemma SerialSettlesAtFirstEnd(s: VState, acts: seq<VAction>, t: VState, j: nat)
    requires VStart(s) && VLeads(s, acts, t) && Serial(s, acts) && j < |t.settled|
    ensures t.settled[j].registration < |t.registered| && t.settled[j].take < |t.takes| <= |t.ends|
    ensures var r, end := t.registered[t.settled[j].registration], t.takes[t.settled[j].take];
      && r.accepted <= end < |t.ends| && t.ends[end] == r.prediction.targetRoundId
      && forall n :: r.accepted <= n < end ==> t.ends[n] != r.prediction.targetRoundId
  {
    VLeadsKeeps(s, acts, t);
    SerialKeepsOrder(s, acts, t);
    SettledByEarlierEndIff(s, acts, t, j);
    assert WellSettled(t, t.settled[j]);
    var r, end := t.registered[t.settled[j].registration], t.takes[t.settled[j].take];
    assert NotedWell(t, r);
    forall n | r.accepted <= n < end ensures t.ends[n] != r.prediction.targetRoundId {
      assert t.takes[n] == n && n >= r.taken;
    }
  }

  /** The taking leaves nothing of its round pending: each of those predictions is settled by this very end. */
  lemma EndSettlesItsRound(s: VState, acts: seq<VAction>, t: VState, end: nat, now: int, e: Prediction)
    requires VStart(s) && VLeads(s, acts, t) && VEnabled(t, TakeRound(end, now))
    requires PendingIn(t.reg, e) && e.targetRoundId == t.ends[end]
    ensures var t' := VApply(t, TakeRound(end, now));
      && !PendingIn(t'.reg, e) && t'.takes == t.takes + [end]
      && Key(e) in t.number && t.number[Key(e)] < |t.registered| && t.registered[t.number[Key(e)]].prediction == e
      && exists j :: |t.settled| <= j < |t'.settled|
                     && t'.settled[j].registration == t.number[Key(e)] && t'.settled[j].take == |t.takes|
  {
    VLeadsKeeps(s, acts, t);
    var j := TakingSettles(t, end, now, e);
  }
}
