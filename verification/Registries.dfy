/** The registry object: both indexes changed in place. */
module Registries {
  import opened Common
  import opened Predictions
  import opened Recency
  import opened Sorting
  import opened Registry

  datatype RegisterResult = Registered | EmptyTarget | AlreadyRegistered

  // Appending one whole round to a listing of the rounds before it.
  lemma AppendRound(reg: Reg, entries: seq<Prediction>, rest: set<string>, r: string)
    requires Shaped(reg) && r in reg.byRound && r in rest
    requires NoDuplicates(entries)
    requires forall e :: e in entries <==> PendingIn(reg, e) && e.targetRoundId !in rest
    ensures NoDuplicates(entries + reg.byRound[r])
    ensures forall e :: e in entries + reg.byRound[r] <==> PendingIn(reg, e) && e.targetRoundId !in rest - {r}
  {
    var list := reg.byRound[r];
    var all := entries + list;
    forall i, j | 0 <= i < j < |all| ensures all[i] != all[j] {
      if j >= |entries| {
        assert all[j] == list[j - |entries|] && all[j].targetRoundId == r;
        if i < |entries| {
          assert all[i] in entries;
        } else {
          assert all[i] == list[i - |entries|];
        }
      }
    }
  }

  /** The indexes agree, the limit is kept, and every registration is accounted for, `gone` of them no longer there. */
  ghost predicate Accounted(reg: Reg, max: nat, registered: nat, gone: nat) {
    Agree(reg) && |reg.byId| <= max && registered == |reg.byId| + gone
  }

  // What registering and pruning make of an agreeing registry.
  lemma RegisterEffect(reg: Reg, ev: Prediction, entries: seq<Prediction>, max: nat)
    requires Agree(reg) && !HasId(ListOf(reg, ev.targetRoundId), ev.predictionId) && Lists(entries, Add(reg, ev))
    ensures var reg' := DropAll(Add(reg, ev), Oldest(Ages(entries), max));
      && (SharedId(reg, ev) ==> !Agree(reg'))
      && (!SharedId(reg, ev) ==>
            Agree(reg') && Agree(Add(reg, ev)) && |Add(reg, ev).byId| == |reg.byId| + 1 && |reg'.byId| <= max)
  {
    if SharedId(reg, ev) {
      var e := AddSharedOrphans(reg, ev);
      DropAllKeepsOrphan(Add(reg, ev), Oldest(Ages(entries), max), e);
    } else {
      AddAgrees(reg, ev);
      PruneKeepsNewest(Add(reg, ev), entries, max);
    }
  }

  lemma RegisterAccounts(
      reg: Reg, ev: Prediction, entries: seq<Prediction>, max: nat, registered: nat, gone: nat, pruned: int)
    requires Accounted(reg, max, registered, gone) && gone + pruned >= 0
    requires !HasId(ListOf(reg, ev.targetRoundId), ev.predictionId) && Lists(entries, Add(reg, ev))
    requires Agree(Add(reg, ev)) ==>
               pruned == |Add(reg, ev).byId| - |DropAll(Add(reg, ev), Oldest(Ages(entries), max)).byId|
    ensures var reg' := DropAll(Add(reg, ev), Oldest(Ages(entries), max));
      Accounted(reg', max, registered + 1, gone + pruned) <==> !SharedId(reg, ev)
  {
    RegisterEffect(reg, ev, entries, max);
  }

  lemma {:induction false} IdsCount(list: seq<Prediction>)
    requires DistinctIds(list)
    ensures |IdsOf(list)| == |list|
  {
    if list != [] {
      IdsCount(list[1..]);
      assert IdsOf(list) == {list[0].predictionId} + IdsOf(list[1..]);
      forall e | e in list[1..] ensures e.predictionId != list[0].predictionId {
        var i :| 0 <= i < |list[1..]| && list[1..][i] == e;
        assert list[i + 1] == e;
      }
    }
  }

  lemma TakeCount(reg: Reg, round: string)
    requires Agree(reg)
    ensures Agree(Take(reg, round)) && |Take(reg, round).byId| == |reg.byId| - |ListOf(reg, round)|
  {
    TakeAgrees(reg, round);
    var list := ListOf(reg, round);
    if list != [] { IdsCount(list); }
    forall e | e in list ensures e.predictionId in reg.byId {
      assert PendingIn(reg, e) && Filed(reg, e);
    }
    assert Take(reg, round).byId.Keys == reg.byId.Keys - IdsOf(list);
    assert IdsOf(list) <= reg.byId.Keys;
  }

  lemma TakeEffect(reg: Reg, round: string, max: nat, registered: nat, gone: nat)
    requires Shaped(reg)
    ensures Shaped(Take(reg, round))
    ensures Accounted(reg, max, registered, gone) ==>
              Accounted(Take(reg, round), max, registered, gone + |ListOf(reg, round)|)
  {
    if Agree(reg) { TakeCount(reg, round); }
  }

  /** The ids a round loses to an expiry. */
  function Expiring(list: seq<Prediction>, test: Test): set<string> {
    set i | 0 <= i < |list| && !Passes(test, list[i]) :: list[i].predictionId
  }

  lemma ExpiringFirst(list: seq<Prediction>, test: Test)
    requires list != []
    ensures Expiring(list, test) ==
              (if Passes(test, list[0]) then {} else {list[0].predictionId}) + Expiring(list[1..], test)
  {
    var rest := list[1..];
    assert forall i :: 0 <= i < |rest| ==> rest[i] == list[i + 1];
    forall id | id in Expiring(rest, test) ensures id in Expiring(list, test) {
      var i :| 0 <= i < |rest| && !Passes(test, rest[i]) && rest[i].predictionId == id;
      assert list[i + 1].predictionId == id;
    }
    forall id | id in Expiring(list, test) && (Passes(test, list[0]) || id != list[0].predictionId)
      ensures id in Expiring(rest, test)
    {
      var i :| 0 <= i < |list| && !Passes(test, list[i]) && list[i].predictionId == id;
      assert rest[i - 1].predictionId == id;
    }
  }

  lemma {:induction false} ExpiringCount(list: seq<Prediction>, test: Test)
    requires DistinctIds(list)
    ensures |Expiring(list, test)| == |list| - |KeepIf(list, test)|
  {
    if list != [] {
      var rest := list[1..];
      ExpiringCount(rest, test);
      ExpiringFirst(list, test);
      forall i | 0 <= i < |rest| ensures rest[i].predictionId != list[0].predictionId {
        assert rest[i] == list[i + 1];
      }
    }
  }

  // In an agreeing registry the ids of one round are filed, and filed for that round only.
  lemma ExpiringFiled(reg: Reg, r: string, test: Test)
    requires Agree(reg) && r in reg.byRound
    ensures forall id <- Expiring(reg.byRound[r], test) :: id in reg.byId && reg.byId[id] == r
  {
    var list := reg.byRound[r];
    forall i | 0 <= i < |list| ensures Filed(reg, list[i]) { assert PendingIn(reg, list[i]); }
  }

  lemma ExpireEffect(
      reg: Reg, now: int, maxAgeMs: int, reg': Reg, count: nat, max: nat, registered: nat, gone: nat)
    requires Shaped(reg) && reg' == Expire(reg, now, maxAgeMs) && (Agree(reg) ==> count == |reg.byId| - |reg'.byId|)
    ensures Shaped(reg')
    ensures Accounted(reg, max, registered, gone) ==> Accounted(reg', max, registered, gone + count)
  {
    ExpirePending(reg, now, maxAgeMs);
    if Agree(reg) { ExpireAgrees(reg, now, maxAgeMs); }
  }

  // An expiry that has still to visit the rounds in `rest`: its round lists, and the ids gone so far.

  ghost function HalfRounds(byRound: Rounds, rest: set<string>, test: Test): Rounds {
    map r | r in byRound && (r in rest || KeepIf(byRound[r], test) != []) ::
      if r in rest then byRound[r] else KeepIf(byRound[r], test)
  }

  ghost function HalfGone(byRound: Rounds, rest: set<string>, test: Test): set<string> {
    set r, i | r in byRound && r !in rest && 0 <= i < |byRound[r]| && !Passes(test, byRound[r][i]) ::
      byRound[r][i].predictionId
  }

  lemma HalfRoundsStep(byRound: Rounds, rest: set<string>, r: string, test: Test)
    requires r in rest && r in byRound
    ensures HalfRounds(byRound, rest - {r}, test) ==
              PutList(HalfRounds(byRound, rest, test), r, KeepIf(byRound[r], test))
  {
  }

  lemma HalfGoneStep(byRound: Rounds, byId: Ids, rest: set<string>, r: string, test: Test)
    requires r in rest && r in byRound
    ensures byId - HalfGone(byRound, rest - {r}, test) ==
              byId - HalfGone(byRound, rest, test) - Expiring(byRound[r], test)
  {
    var before, now := HalfGone(byRound, rest, test), Expiring(byRound[r], test);
    forall id | id in HalfGone(byRound, rest - {r}, test) ensures id in before + now {
      var q, i :| q in byRound && q !in rest - {r} && 0 <= i < |byRound[q]|
                  && !Passes(test, byRound[q][i]) && byRound[q][i].predictionId == id;
    }
    assert HalfGone(byRound, rest - {r}, test) == before + now;
    assert byId - (before + now) == byId - before - now;
  }

  lemma HalfEnds(reg: Reg, now: int, maxAgeMs: int)
    ensures var test := NoOlder(now, maxAgeMs);
      && HalfRounds(reg.byRound, reg.byRound.Keys, test) == reg.byRound
      && reg.byId - HalfGone(reg.byRound, reg.byRound.Keys, test) == reg.byId
      && Reg(HalfRounds(reg.byRound, {}, test), reg.byId - HalfGone(reg.byRound, {}, test)) ==
           Expire(reg, now, maxAgeMs)
  {
    var test := NoOlder(now, maxAgeMs);
    assert HalfGone(reg.byRound, reg.byRound.Keys, test) == {};
    assert HalfRounds(reg.byRound, {}, test) == Expire(reg, now, maxAgeMs).byRound;
    assert reg.byId - HalfGone(reg.byRound, {}, test) == Expire(reg, now, maxAgeMs).byId;
  }

  // In an agreeing registry a round's stale ids are still filed when the expiry reaches it.
  lemma HalfGoneCount(reg: Reg, rest: set<string>, r: string, test: Test)
    requires Agree(reg) && r in rest && r in reg.byRound
    ensures var byId := reg.byId - HalfGone(reg.byRound, rest, test);
      |byId - Expiring(reg.byRound[r], test)| == |byId| - (|reg.byRound[r]| - |KeepIf(reg.byRound[r], test)|)
  {
    var byId, gone := reg.byId - HalfGone(reg.byRound, rest, test), Expiring(reg.byRound[r], test);
    ExpiringFiled(reg, r, test);
    ExpiringCount(reg.byRound[r], test);
    forall q, i | q in reg.byRound && q !in rest && 0 <= i < |reg.byRound[q]|
      ensures reg.byRound[q][i].predictionId !in gone
    {
      assert PendingIn(reg, reg.byRound[q][i]) && Filed(reg, reg.byRound[q][i]);
    }
    assert (byId - gone).Keys == byId.Keys - gone && gone <= byId.Keys;
  }

  class PredictionRegistry {
    const max: nat
    var byRound: Rounds
    var byId: Ids
    var registered: nat
    var duplicates: nat
    var pruned: nat
    ghost var taken: nat
    ghost var expired: nat

    ghost function View(): Reg
      reads this
    {
      Reg(byRound, byId)
    }

    ghost predicate Valid()
      reads this
    {
      Shaped(View())
    }

    ghost predicate Healthy()
      reads this
    {
      Accounted(View(), max, registered, taken + expired + pruned)
    }

    constructor (maxEntries: nat)
      ensures Valid() && Healthy() && View() == Reg(map[], map[]) && max == maxEntries && registered == 0
    {
      max := maxEntries;
      byRound, byId := map[], map[];
      registered, duplicates, pruned, taken, expired := 0, 0, 0, 0, 0;
    }

    method Size() returns (n: nat)
      requires Valid()
      ensures n == |Outstanding(View())|
      ensures Agree(View()) ==> n == |byId|
    {
      n := 0;
      var rest := byRound.Keys;
      ghost var entries := [];
      while rest != {}
        invariant rest <= byRound.Keys && n == |entries| && NoDuplicates(entries)
        invariant forall e :: e in entries <==> PendingIn(View(), e) && e.targetRoundId !in rest
      {
        var r :| r in rest;
        AppendRound(View(), entries, rest, r);
        n := n + |byRound[r]|;
        entries := entries + byRound[r];
        rest := rest - {r};
      }
      ListsCount(entries, View());
    }

    method CollectAges() returns (ages: seq<Age>, ghost entries: seq<Prediction>)
      requires Valid()
      ensures Lists(entries, View()) && ages == Ages(entries)
    {
      ages, entries := [], [];
      var rest := byRound.Keys;
      while rest != {}
        invariant rest <= byRound.Keys && NoDuplicates(entries) && ages == Ages(entries)
        invariant forall e :: e in entries <==> PendingIn(View(), e) && e.targetRoundId !in rest
      {
        var r :| r in rest;
        AppendRound(View(), entries, rest, r);
        var list := byRound[r];
        ghost var before := entries;
        for i := 0 to |list|
          invariant entries == before + list[..i] && ages == Ages(entries)
        {
          ages := ages + [AgeOf(list[i])];
          entries := entries + [list[i]];
        }
        assert list[..|list|] == list;
        rest := rest - {r};
      }
    }

    /** Drops the oldest predictions beyond the limit; `entries` is the order the rounds were walked in. */
    method PruneIfNeeded() returns (ghost entries: seq<Prediction>)
      requires Valid()
      modifies this`byRound, this`byId, this`pruned
      ensures Valid() && Lists(entries, old(View()))
      ensures View() == DropAll(old(View()), Oldest(Ages(entries), max))
      ensures old(Agree(View())) ==> pruned - old(pruned) == old(|byId|) - |byId|
    {
      var total := Size();
      var ages;
      ages, entries := CollectAges();
      ListsCount(entries, View());
      if total <= max {
        assert Oldest(ages, max) == [];
        return;
      }
      var sorted := Sort(ages, AgeLe);
      ghost var ids := Oldest(ages, max);
      ghost var goal := DropAll(View(), ids);
      var toDrop := total - max;
      for i := 0 to toDrop
        invariant Valid() && DropAll(View(), ids[i..]) == goal
        invariant old(Agree(View())) ==> Agree(View()) && pruned - old(pruned) == old(|byId|) - |byId|
      {
        assert ids[i..][0] == ids[i] == sorted[i].1 && ids[i..][1..] == ids[i + 1..];
        DropOne(sorted[i].1);
      }
    }

    // One turn of the pruning loop.
    method DropOne(pid: string)
      requires Valid()
      modifies this`byRound, this`byId, this`pruned
      ensures Valid() && View() == Drop(old(View()), pid)
      ensures old(Agree(View())) ==> Agree(View()) && pruned - old(pruned) == old(|byId|) - |byId|
    {
      ghost var reg := View();
      if pid !in byId { return; }
      if Agree(reg) { DropAgrees(reg, pid); }
      var round := byId[pid];
      byId := byId - {pid};
      assert reg.byId.Keys == byId.Keys + {pid};
      if round in byRound {
        DropPending(reg, pid);
        byRound := PutList(byRound, round, KeepIf(byRound[round], OtherThan(pid)));
      }
      pruned := pruned + 1;
    }

    /** A healthy registry stays healthy exactly when the new id is not pending for another round. */
    method RegisterPrediction(ev: Prediction) returns (r: RegisterResult, ghost entries: seq<Prediction>)
      requires Valid()
      modifies this
      ensures Valid() && taken == old(taken) && expired == old(expired)
      ensures r.EmptyTarget? <==> ev.targetRoundId == ""
      ensures r.AlreadyRegistered? <==>
                ev.targetRoundId != "" && HasId(ListOf(old(View()), ev.targetRoundId), ev.predictionId)
      ensures !r.Registered? ==> View() == old(View()) && (old(Healthy()) ==> Healthy())
      ensures r.Registered? ==> Lists(entries, Add(old(View()), ev))
      ensures r.Registered? ==> View() == DropAll(Add(old(View()), ev), Oldest(Ages(entries), max))
      ensures r.Registered? && old(Healthy()) ==> (Healthy() <==> !SharedId(old(View()), ev))
      ensures registered == old(registered) + if r.Registered? then 1 else 0
      ensures duplicates == old(duplicates) + if r.AlreadyRegistered? then 1 else 0
    {
      entries := [];
      if ev.targetRoundId == "" { return EmptyTarget, entries; }
      var listed := IsListed(ev);
      if listed {
        duplicates := duplicates + 1;
        return AlreadyRegistered, entries;
      }
      entries := Insert(ev);
      return Registered, entries;
    }

    // The scan of the target round's list.
    method IsListed(ev: Prediction) returns (yes: bool)
      ensures yes == HasId(ListOf(View(), ev.targetRoundId), ev.predictionId)
    {
      var list := if ev.targetRoundId in byRound then byRound[ev.targetRoundId] else [];
      for i := 0 to |list|
        invariant forall j :: 0 <= j < i ==> list[j].predictionId != ev.predictionId
      {
        if list[i].predictionId == ev.predictionId { return true; }
      }
      return false;
    }

    // Both indexes take the new prediction.
    method File(ev: Prediction)
      requires Valid() && !HasId(ListOf(View(), ev.targetRoundId), ev.predictionId)
      modifies this`byRound, this`byId, this`registered
      ensures Valid() && View() == Add(old(View()), ev) && registered == old(registered) + 1
    {
      AddShaped(View(), ev);
      byRound := byRound[ev.targetRoundId := ListOf(Reg(byRound, byId), ev.targetRoundId) + [ev]];
      byId := byId[ev.predictionId := ev.targetRoundId];
      registered := registered + 1;
    }

    method Insert(ev: Prediction) returns (ghost entries: seq<Prediction>)
      requires Valid() && !HasId(ListOf(View(), ev.targetRoundId), ev.predictionId)
      modifies this`byRound, this`byId, this`registered, this`pruned
      ensures Valid() && Lists(entries, Add(old(View()), ev))
      ensures View() == DropAll(Add(old(View()), ev), Oldest(Ages(entries), max))
      ensures old(Healthy()) ==> (Healthy() <==> !SharedId(old(View()), ev))
      ensures registered == old(registered) + 1
    {
      ghost var reg, before, gone, was := View(), registered, taken + expired + pruned, pruned;
      File(ev);
      entries := PruneIfNeeded();
      assert taken + expired + pruned == gone + (pruned - was);
      if Accounted(reg, max, before, gone) { RegisterAccounts(reg, ev, entries, max, before, gone, pruned - was); }
    }

    method FindById(id: string) returns (r: Option<Prediction>)
      ensures r == Find(View(), id)
    {
      if id !in byId || byId[id] !in byRound { return None; }
      var list := byRound[byId[id]];
      for i := 0 to |list|
        invariant FindIn(list, id) == FindIn(list[i..], id)
      {
        if list[i].predictionId == id { return Some(list[i]); }
        assert list[i..][1..] == list[i + 1..];
      }
      return None;
    }

    method TakeForRound(round: string) returns (out: seq<Prediction>)
      requires Valid()
      modifies this`byRound, this`byId, this`taken
      ensures Valid() && out == ListOf(old(View()), round) && View() == Take(old(View()), round)
      ensures old(Healthy()) ==> Healthy()
      ensures taken == old(taken) + |out|
    {
      TakeEffect(View(), round, max, registered, taken + expired + pruned);
      out := MoveOut(round);
      taken := taken + |out|;
    }

    method MoveOut(round: string) returns (out: seq<Prediction>)
      modifies this`byRound, this`byId
      ensures out == ListOf(old(View()), round) && View() == Take(old(View()), round)
    {
      if round !in byRound {
        assert View() == Take(View(), round);
        return [];
      }
      out := byRound[round];
      Unfile(out);
      byRound := byRound - {round};
    }

    method Unfile(out: seq<Prediction>)
      modifies this`byId
      ensures byId == old(byId) - IdsOf(out)
    {
      for i := 0 to |out|
        invariant byId == old(byId) - IdsOf(out[..i])
      {
        assert out[..i + 1] == out[..i] + [out[i]];
        assert IdsOf(out[..i + 1]) == IdsOf(out[..i]) + {out[i].predictionId};
        byId := byId - {out[i].predictionId};
      }
      assert out[..|out|] == out;
    }

    method ExpireStale(now: int, maxAgeMs: int) returns (count: nat)
      requires Valid()
      modifies this`byRound, this`byId, this`expired
      ensures Valid() && View() == Expire(old(View()), now, maxAgeMs)
      ensures old(Healthy()) ==> Healthy()
      ensures expired == old(expired) + count
    {
      ghost var reg, gone := View(), taken + expired + pruned;
      count := ExpireRounds(now, maxAgeMs);
      ExpireEffect(reg, now, maxAgeMs, View(), count, max, registered, gone);
      expired := expired + count;
    }

    // The loop over the rounds; `rest` are those it has not reached.
    method ExpireRounds(now: int, maxAgeMs: int) returns (count: nat)
      modifies this`byRound, this`byId
      ensures View() == Expire(old(View()), now, maxAgeMs)
      ensures old(Agree(View())) ==> count == old(|byId|) - |byId|
    {
      ghost var reg, test := View(), NoOlder(now, maxAgeMs);
      ghost var agree := Agree(reg);
      count := 0;
      var rest := byRound.Keys;
      HalfEnds(reg, now, maxAgeMs);
      while rest != {}
        invariant rest <= reg.byRound.Keys
        invariant byRound == HalfRounds(reg.byRound, rest, test)
        invariant byId == reg.byId - HalfGone(reg.byRound, rest, test)
        invariant agree ==> count == |reg.byId| - |byId|
      {
        var r :| r in rest;
        ghost var before := byId;
        HalfRoundsStep(reg.byRound, rest, r, test);
        HalfGoneStep(reg.byRound, reg.byId, rest, r, test);
        if agree { HalfGoneCount(reg, rest, r, test); }
        assert r in byRound && byRound[r] == reg.byRound[r];
        var lost, kept := ExpireRound(r, now, maxAgeMs);
        count := count + lost;
        rest := rest - {r};
      }
    }

    // One round of an expiry: its stale predictions leave both indexes.
    method ExpireRound(r: string, now: int, maxAgeMs: int) returns (lost: nat, kept: seq<Prediction>)
      requires r in byRound
      modifies this`byRound, this`byId
      ensures kept == KeepIf(old(byRound)[r], NoOlder(now, maxAgeMs)) && lost == |old(byRound)[r]| - |kept|
      ensures byId == old(byId) - Expiring(old(byRound)[r], NoOlder(now, maxAgeMs))
      ensures byRound == PutList(old(byRound), r, kept)
    {
      lost, kept := Sift(byRound[r], now, maxAgeMs);
      byRound := PutList(byRound, r, kept);
    }

    // The `remove_if` over one list.
    method Sift(list: seq<Prediction>, now: int, maxAgeMs: int) returns (lost: nat, kept: seq<Prediction>)
      modifies this`byId
      ensures kept == KeepIf(list, NoOlder(now, maxAgeMs)) && lost == |list| - |kept|
      ensures byId == old(byId) - Expiring(list, NoOlder(now, maxAgeMs))
    {
      ghost var test, before := NoOlder(now, maxAgeMs), byId;
      lost, kept := 0, [];
      for i := 0 to |list|
        invariant kept == KeepIf(list[..i], test) && lost == i - |kept|
        invariant byId == before - Expiring(list[..i], test)
      {
        SiftStep(list, i, test);
        LeavesNext(before, Expiring(list[..i], test), list[i].predictionId);
        if now - list[i].createdAtMs > maxAgeMs {
          byId := byId - {list[i].predictionId};
          lost := lost + 1;
        } else {
          kept := kept + [list[i]];
        }
      }
      assert list[..|list|] == list;
    }
  }

  lemma LeavesNext(byId: Ids, gone: set<string>, id: string)
    ensures byId - gone - {id} == byId - (gone + {id}) && gone + {} == gone
  {
  }

  lemma SiftStep(list: seq<Prediction>, i: nat, test: Test)
    requires i < |list|
    ensures KeepIf(list[..i + 1], test) == KeepIf(list[..i], test) + if Passes(test, list[i]) then [list[i]] else []
    ensures Expiring(list[..i + 1], test) ==
              Expiring(list[..i], test) + if Passes(test, list[i]) then {} else {list[i].predictionId}
  {
    assert list[..i + 1] == list[..i] + [list[i]];
    KeepIfAppend(list[..i], list[i], test);
    ExpiringAppend(list, i, test);
  }

  lemma {:induction false} KeepIfAppend(list: seq<Prediction>, e: Prediction, test: Test)
    ensures KeepIf(list + [e], test) == KeepIf(list, test) + if Passes(test, e) then [e] else []
  {
    if list == [] {
      assert list + [e] == [e];
    } else {
      assert (list + [e])[1..] == list[1..] + [e];
      KeepIfAppend(list[1..], e, test);
    }
  }

  lemma ExpiringAppend(list: seq<Prediction>, i: nat, test: Test)
    requires i < |list|
    ensures Expiring(list[..i + 1], test) ==
              Expiring(list[..i], test) + if Passes(test, list[i]) then {} else {list[i].predictionId}
  {
    var longer, shorter := list[..i + 1], list[..i];
    assert forall j :: 0 <= j < i ==> longer[j] == shorter[j];
    assert longer[i] == list[i];
    forall id | id in Expiring(shorter, test) ensures id in Expiring(longer, test) {
      var j :| 0 <= j < i && !Passes(test, shorter[j]) && shorter[j].predictionId == id;
      assert longer[j].predictionId == id;
    }
  }
}
