/** The matcher that settles a finished round, and the validator that lets each round end once. */
module Validators {
  import opened Common
  import opened Events
  import opened Predictions
  import opened Recency
  import opened Registry
  import opened Registries
  import opened Settlements

  /** What settling a list of predictions at one crash point yields, in the list's order. */
  function Outcomes(preds: seq<Prediction>, crashPoint: real, now: int): (os: seq<Outcome>)
    ensures |os| == |preds|
  {
    seq(|preds|, i requires 0 <= i < |preds| => MakeOutcome(preds[i], crashPoint, now))
  }

  function CountOf(os: seq<Outcome>, v: Verdict): nat {
    if os == [] then 0 else CountOf(os[..|os| - 1], v) + if os[|os| - 1].result == v then 1 else 0
  }

  /** The confidence of the predictions that were entered. */
  function EnteredConfidence(preds: seq<Prediction>): real {
    if preds == [] then 0.0
    else
      var last := preds[|preds| - 1];
      EnteredConfidence(preds[..|preds| - 1]) + if last.decision == Enter then last.confidence else 0.0
  }

  lemma {:induction false} OnlyThreeVerdicts(preds: seq<Prediction>, crashPoint: real, now: int)
    ensures var os := Outcomes(preds, crashPoint, now);
      && CountOf(os, Win) + CountOf(os, Loss) + CountOf(os, Void) == |os|
      && CountOf(os, Stale) == CountOf(os, Pending) == CountOf(os, Duplicate) == 0
      && forall i :: 0 <= i < |preds| ==>
           && os[i].predictionId == preds[i].predictionId && os[i].resolvedAtMs == now
           && (os[i].result == Win <==> preds[i].decision == Enter && crashPoint >= preds[i].targetMult > 0.0)
           && (os[i].result == Void <==> preds[i].decision != Enter)
  {
    if preds != [] {
      OnlyThreeVerdicts(preds[..|preds| - 1], crashPoint, now);
      assert Outcomes(preds, crashPoint, now)[..|preds| - 1] == Outcomes(preds[..|preds| - 1], crashPoint, now);
    }
  }

  /** How many outcomes are a win or a loss. */
  function Decided(os: seq<Outcome>): nat {
    CountOf(os, Win) + CountOf(os, Loss)
  }

  lemma DecidedStep(preds: seq<Prediction>, crashPoint: real, now: int)
    requires preds != []
    ensures Decided(Outcomes(preds, crashPoint, now)) ==
              Decided(Outcomes(preds[..|preds| - 1], crashPoint, now))
              + if preds[|preds| - 1].decision == Enter then 1 else 0
  {
    assert Outcomes(preds, crashPoint, now)[..|preds| - 1] == Outcomes(preds[..|preds| - 1], crashPoint, now);
  }

  /** With confidences between 0 and 1 it is at most the number of those decided, and that number if all are 1. */
  lemma {:induction false} EnteredConfidenceBounds(preds: seq<Prediction>, crashPoint: real, now: int)
    requires forall p <- preds :: 0.0 <= p.confidence <= 1.0
    ensures 0.0 <= EnteredConfidence(preds) <= Decided(Outcomes(preds, crashPoint, now)) as real
    ensures (forall p <- preds :: p.confidence == 1.0) ==>
              EnteredConfidence(preds) == Decided(Outcomes(preds, crashPoint, now)) as real
  {
    if preds != [] {
      EnteredConfidenceBounds(preds[..|preds| - 1], crashPoint, now);
      DecidedStep(preds, crashPoint, now);
      assert preds[|preds| - 1] in preds;
    }
  }

  /** The settlements the taking of a round adds to a run carry exactly the outcomes the matcher computes. */
  lemma IssuedAreMatched(s: VState, end: nat, now: int)
    requires VEnabled(s, TakeRound(end, now))
    ensures var added, list := VApply(s, TakeRound(end, now)).settled[|s.settled|..], ListOf(s.reg, s.ends[end]);
      && |added| == |list|
      && forall i :: 0 <= i < |added| ==> added[i].outcome == Outcomes(list, s.crashes[end], now)[i]
  {
    assert VApply(s, TakeRound(end, now)).settled[|s.settled|..] == Issued(s, end, now);
  }

  /** An end that runs undisturbed is a run of the interleaved calls, with the effect of `onGameEnd`. */
  lemma EndIsARun(s: VState, ev: CrashEvent, now: int) returns (acts: seq<VAction>, t: VState)
    requires TakesOk(s)
    ensures VLeads(s, acts, t) && t.open == s.open
    ensures !Accepts(s.ends, ev) ==> t == s
    ensures Accepts(s.ends, ev) ==>
              var round := if ev.roundId != "" then ev.roundId else ev.gameId;
              && t.ends == s.ends + [round] && t.reg == Take(s.reg, round)
              && s.settled <= t.settled && var added := t.settled[|s.settled|..];
                 var os := Outcomes(ListOf(s.reg, round), ev.crashPoint, now);
                 |added| == |os| && forall i :: 0 <= i < |added| ==> added[i].outcome == os[i]
  {
    acts := [AcceptEnd(ev)];
    var u := VApply(s, acts[0]);
    t := u;
    assert VLeads(u, [], u);
    if Accepts(s.ends, ev) {
      var take := TakeRound(|s.ends|, now);
      IssuedAreMatched(u, |s.ends|, now);
      acts, t := [AcceptEnd(ev), take], VApply(u, take);
      assert VLeads(t, [], t) && acts[1..] == [take] && [take][1..] == [];
      assert VLeads(u, [take], t);
      assert t.open == s.open;
    }
  }

  datatype WinLossStats = WinLossStats(wins: nat, losses: nat, voids: nat, stale: nat, sumConfidence: real)

  function Record(stats: WinLossStats, o: Outcome, confidence: real): WinLossStats {
    var st := stats.(sumConfidence := stats.sumConfidence + confidence);
    match o.result
    case Win => st.(wins := st.wins + 1)
    case Loss => st.(losses := st.losses + 1)
    case Void => st.(voids := st.voids + 1)
    case Stale => st.(stale := st.stale + 1)
    case _ => st
  }

  // The matcher's statistics after settling some predictions: wins, losses and confidence grow, nothing else does.
  ghost function Grown(stats: WinLossStats, os: seq<Outcome>, preds: seq<Prediction>): WinLossStats {
    stats.(wins := stats.wins + CountOf(os, Win), losses := stats.losses + CountOf(os, Loss),
           sumConfidence := stats.sumConfidence + EnteredConfidence(preds))
  }

  lemma CountOfAppend(os: seq<Outcome>, o: Outcome, v: Verdict)
    ensures CountOf(os + [o], v) == CountOf(os, v) + if o.result == v then 1 else 0
  {
    assert (os + [o])[..|os|] == os;
  }

  lemma GrownStep(stats: WinLossStats, preds: seq<Prediction>, i: nat, crashPoint: real, now: int)
    requires i < |preds|
    ensures var os, o := Outcomes(preds[..i], crashPoint, now), MakeOutcome(preds[i], crashPoint, now);
      && Outcomes(preds[..i + 1], crashPoint, now) == os + [o]
      && CountOf(os + [o], Void) == CountOf(os, Void) + (if o.result == Void then 1 else 0)
      && Grown(stats, os + [o], preds[..i + 1]) ==
           if o.result == Void then Grown(stats, os, preds[..i])
           else Record(Grown(stats, os, preds[..i]), o, preds[i].confidence)
  {
    var os, o := Outcomes(preds[..i], crashPoint, now), MakeOutcome(preds[i], crashPoint, now);
    CountOfAppend(os, o, Win);
    CountOfAppend(os, o, Loss);
    CountOfAppend(os, o, Void);
    assert preds[..i + 1][..i] == preds[..i];
  }

  class OutcomeMatcher {
    const registry: PredictionRegistry
    var stats: WinLossStats
    var matched: nat
    var unmatchedEnds: nat
    var voids: nat
    var stales: nat

    constructor (registry: PredictionRegistry)
      ensures this.registry == registry && stats == WinLossStats(0, 0, 0, 0, 0.0)
      ensures matched == unmatchedEnds == voids == stales == 0
    {
      this.registry := registry;
      stats := WinLossStats(0, 0, 0, 0, 0.0);
      matched, unmatchedEnds, voids, stales := 0, 0, 0, 0;
    }

    /**
     * Takes the round's predictions and settles each; wins and losses enter the statistics, voids only their
     * counter.
     */
    method Match(ev: CrashEvent, now: int) returns (results: seq<Outcome>)
      requires registry.Valid()
      modifies this, registry
      ensures registry.Valid() && (old(registry.Healthy()) ==> registry.Healthy())
      ensures ev.kind != End || !ev.valid ==>
                results == [] && registry.View() == old(registry.View()) && unmatchedEnds == old(unmatchedEnds)
      ensures ev.kind == End && ev.valid ==>
                var round := if ev.roundId != "" then ev.roundId else ev.gameId;
                && results == Outcomes(ListOf(old(registry.View()), round), ev.crashPoint, now)
                && registry.View() == Take(old(registry.View()), round)
                && unmatchedEnds == old(unmatchedEnds) + (if results == [] then 1 else 0)
                && stats.sumConfidence ==
                     old(stats.sumConfidence) + EnteredConfidence(ListOf(old(registry.View()), round))
      ensures matched == old(matched) + |results|
      ensures voids == old(voids) + CountOf(results, Void) && stales == old(stales)
      ensures stats.wins == old(stats.wins) + CountOf(results, Win)
      ensures stats.losses == old(stats.losses) + CountOf(results, Loss)
      ensures stats.voids == old(stats.voids) && stats.stale == old(stats.stale)
    {
      results := [];
      if ev.kind != End || !ev.valid { return; }
      var preds := registry.TakeForRound(EndRound(ev));
      results := Settle(preds, ev.crashPoint, now);
      if preds == [] { unmatchedEnds := unmatchedEnds + 1; }
    }

    // The settlement loop.
    method Settle(preds: seq<Prediction>, crashPoint: real, now: int) returns (results: seq<Outcome>)
      modifies this`stats, this`matched, this`voids, this`stales
      ensures results == Outcomes(preds, crashPoint, now) && matched == old(matched) + |results|
      ensures voids == old(voids) + CountOf(results, Void) && stales == old(stales)
      ensures stats == Grown(old(stats), results, preds)
    {
      results := [];
      for i := 0 to |preds|
        invariant results == Outcomes(preds[..i], crashPoint, now) && matched == old(matched) + i
        invariant voids == old(voids) + CountOf(results, Void) && stales == old(stales)
        invariant stats == Grown(old(stats), results, preds[..i])
      {
        GrownStep(old(stats), preds, i, crashPoint, now);
        var o := MakeOutcome(preds[i], crashPoint, now);
        if o.result == Void {
          voids := voids + 1;
        } else if o.result == Stale {
          stales := stales + 1;
        } else {
          stats := Record(stats, o, preds[i].confidence);
        }
        results := results + [o];
        matched := matched + 1;
      }
      assert preds[..|preds|] == preds;
    }
  }

  /** The validator's own statistics: every outcome counted under its verdict. */
  ghost predicate Tallied(before: WinLossStats, after: WinLossStats, os: seq<Outcome>) {
    && after.wins == before.wins + CountOf(os, Win) && after.losses == before.losses + CountOf(os, Loss)
    && after.voids == before.voids + CountOf(os, Void) && after.stale == before.stale + CountOf(os, Stale)
    && after.sumConfidence == before.sumConfidence
  }

  datatype ValidateKind = Matched | NoPending | DuplicateEnd | Invalid

  datatype GameEndResult = GameEndResult(kind: ValidateKind, outcomes: seq<Outcome>, gameId: string)

  // While old ends are evicted, the set holds the list's rounds except the new one at the back.
  ghost predicate Evicting(
      list: seq<Node<string>>, index: map<string, nat>, nextNode: nat, ends: set<string>, gameId: string)
  {
    && Linked(list, index, nextNode) && list != [] && list[|list| - 1].key == gameId
    && gameId !in ends && ends + {gameId} == Elements(Keys(list))
  }

  lemma EvictingStep(list: seq<Node<string>>, index: map<string, nat>, nextNode: nat, ends: set<string>, gameId: string)
    requires Evicting(list, index, nextNode, ends, gameId) && |index| >= 2
    ensures Evicting(list[1..], index - {list[0].key}, nextNode, ends - {list[0].key}, gameId)
  {
    FrontLeaves(list, index, nextNode);
  }

  lemma FrontLeaves<V>(list: seq<Node<V>>, index: map<string, nat>, nextNode: nat)
    requires Linked(list, index, nextNode) && |list| >= 2
    ensures Linked(list[1..], index - {list[0].key}, nextNode)
    ensures Elements(Keys(list[1..])) == Elements(Keys(list)) - {list[0].key}
    ensures list[0].key != list[|list| - 1].key
  {
    PopFrontLinks(list, index, nextNode);
    LinkedKeys(list, index, nextNode);
    var keys := Keys(list);
    assert forall i :: 1 <= i < |keys| ==> keys[i] == keys[1..][i - 1];
    assert keys[0] !in keys[1..];
  }

  lemma KeysOfNewest<V>(list: seq<Node<V>>, n: nat)
    ensures Keys(Newest(list, n)) == Newest(Keys(list), n)
  {
  }

  // Appending a new end: it has no node yet, and evicting the surplus leaves the newest ends.
  lemma AppendEnd(list: seq<Node<string>>, index: map<string, nat>, nextNode: nat, history: seq<string>, gameId: string)
    requires Linked(list, index, nextNode)
    requires gameId !in Elements(Keys(list)) && Keys(list) == Newest(history, END_WINDOW)
    ensures gameId !in index
    ensures var list' := list + [Node(nextNode, gameId, gameId)];
      && Evicting(list', index[gameId := nextNode], nextNode + 1, Elements(Keys(list)), gameId)
      && Keys(Newest(list', END_WINDOW)) == Newest(history + [gameId], END_WINDOW)
  {
    LinkedKeys(list, index, nextNode);
    PushBackLinks(list, index, nextNode, gameId, gameId);
    KeysOfNewest(list + [Node(nextNode, gameId, gameId)], END_WINDOW);
    NewestAppend(history, gameId, END_WINDOW);
    assert Elements(Keys(list) + [gameId]) == Elements(Keys(list)) + {gameId};
  }

  class LiveValidator {
    const registry: PredictionRegistry
    const matcher: OutcomeMatcher
    var stats: WinLossStats
    var resolvedEnds: set<string>
    var resolvedOrder: seq<Node<string>>
    var resolvedMap: map<string, nat>
    var nextNode: nat
    var matchedRounds: nat
    var noPending: nat
    var duplicateEnds: nat
    ghost var ends: seq<string>

    /** List, map and set hold the same distinct rounds, and the list is the newest accepted ends. */
    ghost predicate Window()
      reads this
    {
      && Linked(resolvedOrder, resolvedMap, nextNode) && resolvedEnds == Elements(Keys(resolvedOrder))
      && Keys(resolvedOrder) == Newest(ends, END_WINDOW)
    }

    ghost predicate Valid()
      reads this, registry
    {
      Window() && registry.Valid() && matcher.registry == registry
    }

    constructor (maxEntries: nat)
      ensures Valid() && ends == [] && registry.View() == Reg(map[], map[])
      ensures fresh(registry) && fresh(matcher) && registry.Healthy()
    {
      var reg := new PredictionRegistry(maxEntries);
      registry := reg;
      matcher := new OutcomeMatcher(reg);
      stats := WinLossStats(0, 0, 0, 0, 0.0);
      resolvedEnds, resolvedOrder, resolvedMap, nextNode := {}, [], map[], 0;
      matchedRounds, noPending, duplicateEnds, ends := 0, 0, 0, [];
    }

    /**
     * A valid end is accepted exactly when its round is not among the last 5,000 accepted; an accepted end
     * settles its round.
     */
    method OnGameEnd(ev: CrashEvent, now: int) returns (r: GameEndResult)
      requires Valid()
      modifies this, registry, matcher
      ensures Valid() && (old(registry.Healthy()) ==> registry.Healthy())
      ensures r.kind in {Matched, NoPending} <==> Accepts(old(ends), ev)
      ensures r.kind == Invalid <==> ev.kind != End || !ev.valid || (ev.roundId == "" && ev.gameId == "")
      ensures r.kind in {Invalid, DuplicateEnd} ==>
                ends == old(ends) && registry.View() == old(registry.View()) && r.outcomes == []
      ensures r.kind != Invalid ==>
                var round := if ev.roundId != "" then ev.roundId else ev.gameId;
                r.kind == DuplicateEnd <==> round in Newest(old(ends), END_WINDOW)
      ensures r.kind in {Matched, NoPending} ==>
                var round := if ev.roundId != "" then ev.roundId else ev.gameId;
                && ends == old(ends) + [round] && registry.View() == Take(old(registry.View()), round)
                && r.outcomes == Outcomes(ListOf(old(registry.View()), round), ev.crashPoint, now)
                && (r.kind == Matched <==> r.outcomes != [])
      ensures Tallied(old(stats), stats, r.outcomes)
      ensures matchedRounds == old(matchedRounds) + if r.kind == Matched then 1 else 0
      ensures noPending == old(noPending) + if r.kind == NoPending then 1 else 0
      ensures duplicateEnds == old(duplicateEnds) + if r.kind == DuplicateEnd then 1 else 0
    {
      var gameId := EndRound(ev);
      if ev.kind != End || !ev.valid { return GameEndResult(Invalid, [], ""); }
      if gameId == "" { return GameEndResult(Invalid, [], ""); }
      if gameId in resolvedEnds {
        duplicateEnds := duplicateEnds + 1;
        return GameEndResult(DuplicateEnd, [], gameId);
      }
      NoteEnd(gameId);
      r := Conclude(ev, gameId, now);
    }

    // What follows the mutex-guarded block of an accepted end.
    method Conclude(ev: CrashEvent, gameId: string, now: int) returns (r: GameEndResult)
      requires registry.Valid() && matcher.registry == registry && ev.kind == End && ev.valid
      modifies this`stats, this`noPending, this`matchedRounds, registry, matcher
      ensures registry.Valid() && (old(registry.Healthy()) ==> registry.Healthy())
      ensures registry.View() == Take(old(registry.View()), EndRound(ev))
      ensures r == GameEndResult(if r.outcomes == [] then NoPending else Matched,
                                 Outcomes(ListOf(old(registry.View()), EndRound(ev)), ev.crashPoint, now), gameId)
      ensures Tallied(old(stats), stats, r.outcomes)
      ensures matchedRounds == old(matchedRounds) + if r.kind == Matched then 1 else 0
      ensures noPending == old(noPending) + if r.kind == NoPending then 1 else 0
    {
      var outcomes := matcher.Match(ev, now);
      var kind := Note(outcomes);
      return GameEndResult(kind, outcomes, gameId);
    }

    method Note(outcomes: seq<Outcome>) returns (kind: ValidateKind)
      modifies this`stats, this`noPending, this`matchedRounds
      ensures kind == (if outcomes == [] then NoPending else Matched) && Tallied(old(stats), stats, outcomes)
      ensures matchedRounds == old(matchedRounds) + if kind == Matched then 1 else 0
      ensures noPending == old(noPending) + if kind == NoPending then 1 else 0
    {
      if outcomes == [] {
        noPending := noPending + 1;
        return NoPending;
      }
      RecordAll(outcomes);
      matchedRounds := matchedRounds + 1;
      return Matched;
    }

    // The mutex-guarded block: the window takes the new end. The branch that would move an old node is never reached.
    method NoteEnd(gameId: string)
      requires Window() && gameId !in resolvedEnds
      modifies this`resolvedEnds, this`resolvedOrder, this`resolvedMap, this`nextNode, this`ends
      ensures Window() && ends == old(ends) + [gameId]
    {
      AppendEnd(resolvedOrder, resolvedMap, nextNode, ends, gameId);
      if gameId in resolvedMap {
        assert false;
      } else {
        resolvedOrder, resolvedMap, nextNode :=
          resolvedOrder + [Node(nextNode, gameId, gameId)], resolvedMap[gameId := nextNode], nextNode + 1;
        Evict(gameId);
      }
      resolvedEnds := resolvedEnds + {gameId};
      ends := ends + [gameId];
    }

    // The eviction loop; the set does not hold the new end yet.
    method Evict(ghost gameId: string)
      requires Evicting(resolvedOrder, resolvedMap, nextNode, resolvedEnds, gameId)
      modifies this`resolvedEnds, this`resolvedOrder, this`resolvedMap
      ensures Evicting(resolvedOrder, resolvedMap, nextNode, resolvedEnds, gameId)
      ensures resolvedOrder == Newest(old(resolvedOrder), END_WINDOW)
    {
      while |resolvedMap| > END_WINDOW
        invariant Evicting(resolvedOrder, resolvedMap, nextNode, resolvedEnds, gameId)
        invariant Newest(resolvedOrder, END_WINDOW) == Newest(old(resolvedOrder), END_WINDOW)
        decreases |resolvedMap|
      {
        assert Newest(resolvedOrder[1..], END_WINDOW) == Newest(resolvedOrder, END_WINDOW);
        EvictOldest(gameId);
      }
    }

    method EvictOldest(ghost gameId: string)
      requires Evicting(resolvedOrder, resolvedMap, nextNode, resolvedEnds, gameId) && |resolvedMap| >= 2
      modifies this`resolvedEnds, this`resolvedOrder, this`resolvedMap
      ensures Evicting(resolvedOrder, resolvedMap, nextNode, resolvedEnds, gameId)
      ensures resolvedOrder == old(resolvedOrder)[1..] && |resolvedMap| == old(|resolvedMap|) - 1
    {
      EvictingStep(resolvedOrder, resolvedMap, nextNode, resolvedEnds, gameId);
      var oldest := resolvedOrder[0].key;
      resolvedMap := resolvedMap - {oldest};
      resolvedEnds := resolvedEnds - {oldest};
      resolvedOrder := resolvedOrder[1..];
    }

    method RecordAll(outcomes: seq<Outcome>)
      modifies this`stats
      ensures Tallied(old(stats), stats, outcomes)
    {
      for i := 0 to |outcomes|
        invariant Tallied(old(stats), stats, outcomes[..i])
      {
        assert outcomes[..i + 1][..i] == outcomes[..i];
        stats := Record(stats, outcomes[i], 0.0);
      }
      assert outcomes[..|outcomes|] == outcomes;
    }
  }
}
