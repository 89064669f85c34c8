/** Outstanding predictions, indexed by target round and by id. */
module Registry {
  import opened Common
  import opened Predictions
  import opened Recency
  import opened Sorting

  type Rounds = map<string, seq<Prediction>>
  type Ids = map<string, string>

  datatype Reg = Reg(byRound: Rounds, byId: Ids)

  ghost predicate PendingIn(reg: Reg, e: Prediction) {
    e.targetRoundId in reg.byRound && e in reg.byRound[e.targetRoundId]
  }

  ghost function Outstanding(reg: Reg): set<Prediction> {
    set r, i | r in reg.byRound && 0 <= i < |reg.byRound[r]| :: reg.byRound[r][i]
  }

  /**
   * What holds of the round lists on any run: none empty, each prediction under its own round, ids distinct in
   * a round.
   */
  ghost predicate Shaped(reg: Reg) {
    && (forall r <- reg.byRound :: reg.byRound[r] != [])
    && (forall r, i :: r in reg.byRound && 0 <= i < |reg.byRound[r]| ==> reg.byRound[r][i].targetRoundId == r)
    && (forall r <- reg.byRound :: DistinctIds(reg.byRound[r]))
  }

  ghost predicate DistinctIds(list: seq<Prediction>) {
    forall i, j :: 0 <= i < j < |list| ==> list[i].predictionId != list[j].predictionId
  }

  predicate HasId(list: seq<Prediction>, id: string) {
    exists i :: 0 <= i < |list| && list[i].predictionId == id
  }

  predicate Filed(reg: Reg, e: Prediction) {
    e.predictionId in reg.byId && reg.byId[e.predictionId] == e.targetRoundId
  }

  ghost predicate IdPending(reg: Reg, id: string)
    requires id in reg.byId
  {
    exists e :: PendingIn(reg, e) && e.predictionId == id && e.targetRoundId == reg.byId[id]
  }

  /** The two indexes agree: every pending prediction is filed under its id, and every filed id is pending. */
  ghost predicate Agree(reg: Reg) {
    && Shaped(reg)
    && (forall e :: PendingIn(reg, e) ==> Filed(reg, e))
    && (forall id {:trigger IdPending(reg, id)} | id in reg.byId :: IdPending(reg, id))
  }

  lemma SameIdSamePrediction(reg: Reg, e: Prediction, f: Prediction)
    requires Agree(reg) && PendingIn(reg, e) && PendingIn(reg, f) && e.predictionId == f.predictionId
    ensures e == f
  {
    assert Filed(reg, e) && Filed(reg, f);
    var list := reg.byRound[e.targetRoundId];
    var i :| 0 <= i < |list| && list[i] == e;
    var j :| 0 <= j < |list| && list[j] == f;
  }

  function FindIn(list: seq<Prediction>, id: string): Option<Prediction> {
    if list == [] then None else if list[0].predictionId == id then Some(list[0]) else FindIn(list[1..], id)
  }

  function Find(reg: Reg, id: string): Option<Prediction> {
    if id !in reg.byId || reg.byId[id] !in reg.byRound then None else FindIn(reg.byRound[reg.byId[id]], id)
  }

  lemma {:induction false} FindInFinds(list: seq<Prediction>, id: string)
    requires DistinctIds(list)
    ensures FindIn(list, id).Some? <==> HasId(list, id)
    ensures forall i :: 0 <= i < |list| && list[i].predictionId == id ==> FindIn(list, id) == Some(list[i])
    ensures FindIn(list, id).Some? ==> FindIn(list, id).value in list && FindIn(list, id).value.predictionId == id
  {
    if list != [] {
      assert forall i :: 1 <= i < |list| ==> list[i] == list[1..][i - 1];
      assert forall i :: 0 <= i < |list| - 1 ==> list[1..][i] == list[i + 1];
      FindInFinds(list[1..], id);
      if HasId(list, id) {
        var i :| 0 <= i < |list| && list[i].predictionId == id;
        if i > 0 { assert list[1..][i - 1].predictionId == id; }
      }
    }
  }

  lemma PendingMeans(reg: Reg)
    requires Shaped(reg)
    ensures forall e :: e in Outstanding(reg) <==> PendingIn(reg, e)
  {
    forall e | PendingIn(reg, e) ensures e in Outstanding(reg) {
      var i :| 0 <= i < |reg.byRound[e.targetRoundId]| && reg.byRound[e.targetRoundId][i] == e;
    }
  }

  /** `find` answers exactly what a scan over all pending predictions would. */
  lemma FindIsAScan(reg: Reg, id: string)
    requires Agree(reg)
    ensures forall e :: Find(reg, id) == Some(e) <==> e in Outstanding(reg) && e.predictionId == id
  {
    PendingMeans(reg);
    if id in reg.byId {
      var list := ListOf(reg, reg.byId[id]);
      if list != [] { FindInFinds(list, id); }
    }
    forall e | e in Outstanding(reg) && e.predictionId == id ensures Find(reg, id) == Some(e) {
      assert PendingIn(reg, e) && Filed(reg, e);
    }
    if Find(reg, id).Some? { assert PendingIn(reg, Find(reg, id).value); }
  }

  // Registration.

  function ListOf(reg: Reg, round: string): seq<Prediction> {
    if round in reg.byRound then reg.byRound[round] else []
  }

  function Add(reg: Reg, ev: Prediction): Reg {
    Reg(reg.byRound[ev.targetRoundId := ListOf(reg, ev.targetRoundId) + [ev]],
        reg.byId[ev.predictionId := ev.targetRoundId])
  }

  /** Is a prediction with this id pending for another round? */
  predicate SharedId(reg: Reg, ev: Prediction) {
    ev.predictionId in reg.byId && reg.byId[ev.predictionId] != ev.targetRoundId
  }

  lemma AddShaped(reg: Reg, ev: Prediction)
    requires Shaped(reg) && !HasId(ListOf(reg, ev.targetRoundId), ev.predictionId)
    ensures Shaped(Add(reg, ev))
  {
    var list := ListOf(reg, ev.targetRoundId);
    assert forall i :: 0 <= i < |list| ==> (list + [ev])[i] == list[i];
  }

  lemma AddAgrees(reg: Reg, ev: Prediction)
    requires Agree(reg) && !HasId(ListOf(reg, ev.targetRoundId), ev.predictionId) && !SharedId(reg, ev)
    ensures Agree(Add(reg, ev)) && ev.predictionId !in reg.byId
    ensures ListOf(Add(reg, ev), ev.targetRoundId) == ListOf(reg, ev.targetRoundId) + [ev]
    ensures forall e :: PendingIn(Add(reg, ev), e) <==> PendingIn(reg, e) || e == ev
  {
    var reg', list := Add(reg, ev), ListOf(reg, ev.targetRoundId);
    assert ev.predictionId in reg.byId ==> IdPending(reg, ev.predictionId);
    assert forall i :: 0 <= i < |list| ==> (list + [ev])[i] == list[i];
    assert (list + [ev])[|list|] == ev;
    forall e | PendingIn(reg', e) ensures Filed(reg', e) {
      assert e != ev ==> PendingIn(reg, e) && Filed(reg, e);
    }
    forall id <- reg'.byId ensures IdPending(reg', id) {
      if id == ev.predictionId {
        assert PendingIn(reg', ev);
      } else {
        assert IdPending(reg, id);
        var e :| PendingIn(reg, e) && e.predictionId == id && e.targetRoundId == reg.byId[id];
        assert PendingIn(reg', e);
      }
    }
  }

  /** A pending prediction its own id does not lead back to. */
  ghost predicate Orphan(reg: Reg, e: Prediction) {
    PendingIn(reg, e) && !Filed(reg, e)
  }

  lemma AddSharedOrphans(reg: Reg, ev: Prediction) returns (e: Prediction)
    requires Agree(reg) && SharedId(reg, ev)
    ensures Orphan(Add(reg, ev), e)
  {
    assert IdPending(reg, ev.predictionId);
    e :| PendingIn(reg, e) && e.predictionId == ev.predictionId && e.targetRoundId == reg.byId[ev.predictionId];
  }

  // Removal.

  /** The tests the two `remove_if` loops keep by. */
  datatype Test = OtherThan(id: string) | NoOlder(now: int, maxAgeMs: int)

  predicate Passes(test: Test, e: Prediction) {
    match test
    case OtherThan(id) => e.predictionId != id
    case NoOlder(now, maxAgeMs) => now - e.createdAtMs <= maxAgeMs
  }

  function KeepIf(list: seq<Prediction>, test: Test): (kept: seq<Prediction>)
    ensures forall e :: e in kept <==> e in list && Passes(test, e)
    ensures |kept| <= |list|
  {
    if list == [] then []
    else
      assert list == [list[0]] + list[1..];
      if Passes(test, list[0]) then [list[0]] + KeepIf(list[1..], test) else KeepIf(list[1..], test)
  }

  lemma {:induction false} KeepIfDistinct(list: seq<Prediction>, test: Test)
    requires DistinctIds(list)
    ensures DistinctIds(KeepIf(list, test))
  {
    if list != [] {
      KeepIfDistinct(list[1..], test);
      var rest := KeepIf(list[1..], test);
      forall j | 0 <= j < |rest| ensures rest[j].predictionId != list[0].predictionId {
        assert rest[j] in list[1..];
      }
    }
  }

  /** A round's list after a removal: gone when empty. */
  function PutList(byRound: Rounds, round: string, list: seq<Prediction>): Rounds {
    if list == [] then byRound - {round} else byRound[round := list]
  }

  /** Dropping one id, as the pruning loop does. */
  function Drop(reg: Reg, id: string): Reg {
    if id !in reg.byId then reg
    else
      var round := reg.byId[id];
      Reg(if round in reg.byRound then PutList(reg.byRound, round, KeepIf(reg.byRound[round], OtherThan(id)))
          else reg.byRound,
          reg.byId - {id})
  }

  lemma DropPending(reg: Reg, id: string)
    requires Shaped(reg) && id in reg.byId && reg.byId[id] in reg.byRound
    ensures Shaped(Drop(reg, id))
    ensures forall e :: PendingIn(Drop(reg, id), e) <==>
              PendingIn(reg, e) && !(e.targetRoundId == reg.byId[id] && e.predictionId == id)
  {
    var round := reg.byId[id];
    KeepIfDistinct(reg.byRound[round], OtherThan(id));
    forall r, i | r in Drop(reg, id).byRound && 0 <= i < |Drop(reg, id).byRound[r]|
      ensures Drop(reg, id).byRound[r][i].targetRoundId == r
    {
      assert Drop(reg, id).byRound[r][i] in reg.byRound[r];
    }
  }

  lemma DropShrinks(reg: Reg, id: string)
    requires Shaped(reg)
    ensures Shaped(Drop(reg, id)) && forall e :: PendingIn(Drop(reg, id), e) ==> PendingIn(reg, e)
  {
    if id in reg.byId && reg.byId[id] in reg.byRound { DropPending(reg, id); }
  }

  lemma DropAgrees(reg: Reg, id: string)
    requires Agree(reg) && id in reg.byId
    ensures Agree(Drop(reg, id)) && Drop(reg, id).byId == reg.byId - {id}
    ensures forall e :: PendingIn(Drop(reg, id), e) <==> PendingIn(reg, e) && e.predictionId != id
  {
    var reg' := Drop(reg, id);
    assert IdPending(reg, id);
    DropPending(reg, id);
    forall e | PendingIn(reg', e) ensures Filed(reg', e) { assert Filed(reg, e); }
    forall x <- reg'.byId ensures IdPending(reg', x) {
      assert IdPending(reg, x);
      var e :| PendingIn(reg, e) && e.predictionId == x && e.targetRoundId == reg.byId[x];
      assert PendingIn(reg', e);
    }
    forall e | PendingIn(reg, e) && e.predictionId != id ensures PendingIn(reg', e) { }
    forall e | PendingIn(reg', e) ensures e.predictionId != id { assert Filed(reg, e); }
  }

  lemma DropKeepsOrphan(reg: Reg, id: string, e: Prediction)
    requires Orphan(reg, e)
    ensures Orphan(Drop(reg, id), e)
  {
    if id in reg.byId {
      var round := reg.byId[id];
      if round in reg.byRound && round == e.targetRoundId {
        assert e in KeepIf(reg.byRound[round], OtherThan(id));
      }
    }
  }

  function DropAll(reg: Reg, ids: seq<string>): Reg
    decreases |ids|
  {
    if ids == [] then reg else DropAll(Drop(reg, ids[0]), ids[1..])
  }

  lemma {:induction false} DropAllShrinks(reg: Reg, ids: seq<string>)
    requires Shaped(reg)
    ensures Shaped(DropAll(reg, ids)) && forall e :: PendingIn(DropAll(reg, ids), e) ==> PendingIn(reg, e)
    decreases |ids|
  {
    if ids != [] {
      DropShrinks(reg, ids[0]);
      DropAllShrinks(Drop(reg, ids[0]), ids[1..]);
    }
  }

  lemma {:induction false} DropAllAgrees(reg: Reg, ids: seq<string>)
    requires Agree(reg)
    ensures Agree(DropAll(reg, ids)) && DropAll(reg, ids).byId == reg.byId - Elements(ids)
    ensures forall e :: PendingIn(DropAll(reg, ids), e) <==> PendingIn(reg, e) && e.predictionId !in ids
    decreases |ids|
  {
    if ids != [] {
      assert Elements(ids) == {ids[0]} + Elements(ids[1..]);
      if ids[0] in reg.byId { DropAgrees(reg, ids[0]); }
      assert forall e :: PendingIn(reg, e) ==> Filed(reg, e);
      DropAllAgrees(Drop(reg, ids[0]), ids[1..]);
    }
  }

  lemma {:induction false} DropAllKeepsOrphan(reg: Reg, ids: seq<string>, e: Prediction)
    requires Orphan(reg, e)
    ensures Orphan(DropAll(reg, ids), e)
    decreases |ids|
  {
    if ids != [] {
      DropKeepsOrphan(reg, ids[0], e);
      DropAllKeepsOrphan(Drop(reg, ids[0]), ids[1..], e);
    }
  }

  // Pruning by age.

  type Age = (int, string)

  function AgeOf(e: Prediction): Age {
    (e.createdAtMs, e.predictionId)
  }

  predicate AgeLe(a: Age, b: Age) {
    a.0 < b.0 || (a.0 == b.0 && LexLe(a.1, b.1))
  }

  lemma AgesAreOrdered()
    ensures TotalOrder(AgeLe)
  {
    forall a: Age, b: Age
      ensures AgeLe(a, a) && (AgeLe(a, b) || AgeLe(b, a)) && (AgeLe(a, b) && AgeLe(b, a) ==> a == b)
    {
      LexReflexive(a.1);
      LexTotal(a.1, b.1);
      if LexLe(a.1, b.1) && LexLe(b.1, a.1) { LexAntisymmetric(a.1, b.1); }
    }
    forall a: Age, b: Age, c: Age | AgeLe(a, b) && AgeLe(b, c) ensures AgeLe(a, c) {
      if LexLe(a.1, b.1) && LexLe(b.1, c.1) { LexTransitive(a.1, b.1, c.1); }
    }
  }

  /** The ids the pruning loop goes through: the oldest ones, as many as there are too many. */
  function Oldest(ages: seq<Age>, max: nat): seq<string> {
    var sorted := Sort(ages, AgeLe);
    seq(if |ages| > max then |ages| - max else 0, i requires 0 <= i < |ages| => sorted[i].1)
  }

  /** All pending predictions in some order. */
  ghost predicate Lists(entries: seq<Prediction>, reg: Reg) {
    && NoDuplicates(entries)
    && (forall e :: e in entries <==> PendingIn(reg, e))
  }

  function Ages(entries: seq<Prediction>): (ages: seq<Age>)
    ensures |ages| == |entries| && forall i :: 0 <= i < |ages| ==> ages[i] == AgeOf(entries[i])
  {
    seq(|entries|, i requires 0 <= i < |entries| => AgeOf(entries[i]))
  }

  /** Created earlier, or at the same time with the smaller id. */
  ghost predicate Older(e: Prediction, f: Prediction) {
    || e.createdAtMs < f.createdAtMs
    || (e.createdAtMs == f.createdAtMs && e.predictionId != f.predictionId && LexLe(e.predictionId, f.predictionId))
  }

  lemma ListsCount(entries: seq<Prediction>, reg: Reg)
    requires Shaped(reg) && Lists(entries, reg)
    ensures |Outstanding(reg)| == |entries|
    ensures Agree(reg) ==> |reg.byId| == |entries|
  {
    PendingMeans(reg);
    assert Outstanding(reg) == Elements(entries);
    DistinctCount(entries);
    if Agree(reg) {
      var ids := seq(|entries|, i requires 0 <= i < |entries| => entries[i].predictionId);
      forall i, j | 0 <= i < j < |ids| ensures ids[i] != ids[j] {
        if ids[i] == ids[j] { SameIdSamePrediction(reg, entries[i], entries[j]); }
      }
      DistinctCount(ids);
      forall id <- reg.byId ensures id in ids {
        assert IdPending(reg, id);
        var e :| PendingIn(reg, e) && e.predictionId == id;
        assert e in entries;
        var i :| 0 <= i < |entries| && entries[i] == e;
        assert ids[i] == id;
      }
      forall i | 0 <= i < |ids| ensures ids[i] in reg.byId { assert Filed(reg, entries[i]); }
      assert Elements(ids) == reg.byId.Keys;
    }
  }

  /** Pruning an agreeing registry keeps exactly its newest `max` predictions by (createdAtMs, id). */
  lemma PruneKeepsNewest(reg: Reg, entries: seq<Prediction>, max: nat)
    requires Agree(reg) && Lists(entries, reg)
    ensures var reg' := DropAll(reg, Oldest(Ages(entries), max));
      && Agree(reg') && |reg'.byId| == (if |reg.byId| <= max then |reg.byId| else max)
      && (forall e :: PendingIn(reg', e) ==> PendingIn(reg, e))
      && (forall e, f :: PendingIn(reg', e) && PendingIn(reg, f) && !PendingIn(reg', f) ==> Older(f, e))
  {
    var ids := Oldest(Ages(entries), max);
    var reg' := DropAll(reg, ids);
    DropAllAgrees(reg, ids);
    OldestAreFiled(reg, entries, max);
    assert reg'.byId.Keys == reg.byId.Keys - Elements(ids);
    forall e, f | PendingIn(reg', e) && PendingIn(reg, f) && !PendingIn(reg', f) ensures Older(f, e) {
      DroppedIsOlder(reg, entries, max, e, f);
    }
  }

  lemma OldestAreFiled(reg: Reg, entries: seq<Prediction>, max: nat)
    requires Agree(reg) && Lists(entries, reg)
    ensures var ids := Oldest(Ages(entries), max);
      Elements(ids) <= reg.byId.Keys && |Elements(ids)| == if |reg.byId| > max then |reg.byId| - max else 0
  {
    var ids, sorted := Oldest(Ages(entries), max), Sort(Ages(entries), AgeLe);
    ListsCount(entries, reg);
    SortedIdsDistinct(reg, entries);
    forall i, j | 0 <= i < j < |ids| ensures ids[i] != ids[j] {
      assert ids[i] == sorted[i].1 && ids[j] == sorted[j].1;
    }
    DistinctCount(ids);
    forall id <- ids ensures id in reg.byId {
      var i :| 0 <= i < |ids| && ids[i] == id;
      var e := EntryOfAge(entries, sorted[i]);
      assert Filed(reg, e);
    }
  }

  // A prediction whose id is among the oldest is older than one whose id is not.
  lemma DroppedIsOlder(reg: Reg, entries: seq<Prediction>, max: nat, e: Prediction, f: Prediction)
    requires Agree(reg) && Lists(entries, reg) && PendingIn(reg, e) && PendingIn(reg, f)
    requires e.predictionId !in Oldest(Ages(entries), max) && f.predictionId in Oldest(Ages(entries), max)
    ensures Older(f, e)
  {
    var ages := Ages(entries);
    var ids, sorted := Oldest(ages, max), Sort(ages, AgeLe);
    AgesAreOrdered();
    SortSorted(ages, AgeLe);
    var i :| 0 <= i < |ids| && ids[i] == f.predictionId;
    var g := EntryOfAge(entries, sorted[i]);
    SameIdSamePrediction(reg, f, g);
    var k := PlaceOfEntry(entries, e);
    assert forall j :: 0 <= j < |ids| ==> ids[j] == sorted[j].1 && ids[j] in ids;
    assert AgeLe(sorted[i], sorted[k]);
  }

  lemma EntryOfAge(entries: seq<Prediction>, age: Age) returns (e: Prediction)
    requires age in Sort(Ages(entries), AgeLe)
    ensures e in entries && AgeOf(e) == age
  {
    assert age in multiset(Ages(entries));
    var i :| 0 <= i < |entries| && Ages(entries)[i] == age;
    e := entries[i];
  }

  lemma PlaceOfEntry(entries: seq<Prediction>, e: Prediction) returns (k: nat)
    requires e in entries
    ensures k < |entries| && Sort(Ages(entries), AgeLe)[k] == AgeOf(e)
  {
    var i :| 0 <= i < |entries| && entries[i] == e;
    assert Ages(entries)[i] in multiset(Sort(Ages(entries), AgeLe));
    k :| 0 <= k < |entries| && Sort(Ages(entries), AgeLe)[k] == AgeOf(e);
  }

  lemma SortedIdsDistinct(reg: Reg, entries: seq<Prediction>)
    requires Agree(reg) && Lists(entries, reg)
    ensures NoSharedIds(Sort(Ages(entries), AgeLe))
  {
    var ages, sorted := Ages(entries), Sort(Ages(entries), AgeLe);
    forall i, j | 0 <= i < j < |ages| ensures ages[i].1 != ages[j].1 {
      if ages[i].1 == ages[j].1 { SameIdSamePrediction(reg, entries[i], entries[j]); }
    }
    OneOfEach(ages);
    forall i, j | 0 <= i < j < |sorted| ensures sorted[i].1 != sorted[j].1 {
      if sorted[i].1 == sorted[j].1 {
        var e := EntryOfAge(entries, sorted[i]);
        var f := EntryOfAge(entries, sorted[j]);
        SameIdSamePrediction(reg, e, f);
        assert multiset(sorted)[sorted[i]] == multiset(ages)[sorted[i]] <= 1;
        TwiceInMultiset(sorted, i, j);
      }
    }
  }

  ghost predicate NoSharedIds(ages: seq<Age>) {
    forall i, j :: 0 <= i < j < |ages| ==> ages[i].1 != ages[j].1
  }

  lemma {:induction false} OneOfEach(ages: seq<Age>)
    requires NoSharedIds(ages)
    ensures forall a :: multiset(ages)[a] <= 1
  {
    if ages != [] {
      assert ages == [ages[0]] + ages[1..];
      OneOfEach(ages[1..]);
      assert ages[0] !in ages[1..];
    }
  }

  lemma TwiceInMultiset<T>(xs: seq<T>, i: nat, j: nat)
    requires i < j < |xs| && xs[i] == xs[j]
    ensures multiset(xs)[xs[i]] >= 2
  {
    assert xs == xs[..i] + [xs[i]] + xs[i + 1..j] + [xs[j]] + xs[j + 1..];
  }

  // Taking a round, and expiring by age.

  function IdsOf(list: seq<Prediction>): set<string> {
    set e | e in list :: e.predictionId
  }

  function Take(reg: Reg, round: string): Reg {
    Reg(reg.byRound - {round}, reg.byId - IdsOf(ListOf(reg, round)))
  }

  lemma TakeAgrees(reg: Reg, round: string)
    requires Agree(reg)
    ensures Agree(Take(reg, round))
    ensures forall e :: PendingIn(Take(reg, round), e) <==> PendingIn(reg, e) && e.targetRoundId != round
    ensures forall e :: e in ListOf(reg, round) <==> PendingIn(reg, e) && e.targetRoundId == round
  {
    var reg' := Take(reg, round);
    forall e | PendingIn(reg', e) ensures Filed(reg', e) {
      assert Filed(reg, e);
      forall f | f in ListOf(reg, round) ensures f.predictionId != e.predictionId {
        assert PendingIn(reg, f);
        assert Filed(reg, f);
      }
    }
    forall id <- reg'.byId ensures IdPending(reg', id) {
      assert IdPending(reg, id);
      var e :| PendingIn(reg, e) && e.predictionId == id && e.targetRoundId == reg.byId[id];
      assert PendingIn(reg', e);
    }
  }

  function Expire(reg: Reg, now: int, maxAgeMs: int): Reg {
    var test := NoOlder(now, maxAgeMs);
    Reg(map r | r in reg.byRound && KeepIf(reg.byRound[r], test) != [] :: KeepIf(reg.byRound[r], test),
        reg.byId - (set r, i | r in reg.byRound && 0 <= i < |reg.byRound[r]| && !Passes(test, reg.byRound[r][i])
                    :: reg.byRound[r][i].predictionId))
  }

  lemma ExpirePending(reg: Reg, now: int, maxAgeMs: int)
    requires Shaped(reg)
    ensures Shaped(Expire(reg, now, maxAgeMs))
    ensures forall e :: PendingIn(Expire(reg, now, maxAgeMs), e) <==>
                          PendingIn(reg, e) && now - e.createdAtMs <= maxAgeMs
  {
    var reg', test := Expire(reg, now, maxAgeMs), NoOlder(now, maxAgeMs);
    forall r <- reg'.byRound ensures DistinctIds(reg'.byRound[r]) { KeepIfDistinct(reg.byRound[r], test); }
    forall r, i | r in reg'.byRound && 0 <= i < |reg'.byRound[r]| ensures reg'.byRound[r][i].targetRoundId == r {
      assert reg'.byRound[r][i] in reg.byRound[r];
    }
    forall e | PendingIn(reg, e) && Passes(test, e) ensures PendingIn(reg', e) {
      assert e in KeepIf(reg.byRound[e.targetRoundId], test);
    }
  }

  lemma ExpireAgrees(reg: Reg, now: int, maxAgeMs: int)
    requires Agree(reg)
    ensures Agree(Expire(reg, now, maxAgeMs))
    ensures forall e :: PendingIn(Expire(reg, now, maxAgeMs), e) <==>
                          PendingIn(reg, e) && now - e.createdAtMs <= maxAgeMs
  {
    var reg', test := Expire(reg, now, maxAgeMs), NoOlder(now, maxAgeMs);
    ExpirePending(reg, now, maxAgeMs);
    forall e | PendingIn(reg', e) ensures Filed(reg', e) {
      assert Filed(reg, e);
      forall r, i | r in reg.byRound && 0 <= i < |reg.byRound[r]| && !Passes(test, reg.byRound[r][i])
        ensures reg.byRound[r][i].predictionId != e.predictionId
      {
        assert PendingIn(reg, reg.byRound[r][i]);
        if reg.byRound[r][i].predictionId == e.predictionId { SameIdSamePrediction(reg, reg.byRound[r][i], e); }
      }
    }
    forall id <- reg'.byId ensures IdPending(reg', id) {
      assert IdPending(reg, id);
      var e :| PendingIn(reg, e) && e.predictionId == id && e.targetRoundId == reg.byId[id];
      var i :| 0 <= i < |reg.byRound[e.targetRoundId]| && reg.byRound[e.targetRoundId][i] == e;
      assert Passes(test, e);
      assert PendingIn(reg', e);
    }
  }
}
