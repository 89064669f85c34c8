/** The hot-path router: least-recently-used duplicate check, then fan-out to three bounded lanes. */
module Routers {
  import opened Common
  import opened Events
  import opened Recency
  import opened RingMask

  const DEDUPE_LIMIT := 10_000

  /** Is this arrival dropped as a duplicate, by the history of keyed arrivals before it? */
  predicate IsDuplicate(arrivals: seq<string>, ev: CrashEvent) {
    ev.valid && ev.gameId != "" && Fresh(arrivals, RouterKey(ev), DEDUPE_LIMIT)
  }

  function Arrive(arrivals: seq<string>, ev: CrashEvent): seq<string> {
    if ev.valid && ev.gameId != "" then arrivals + [RouterKey(ev)] else arrivals
  }

  /** A lane takes an event if it has room; each lane is a ring that keeps one slot free. */
  function Offer(lane: seq<CrashEvent>, room: nat, ev: CrashEvent): seq<CrashEvent> {
    if |lane| < room then lane + [ev] else lane
  }

  datatype Lanes = Lanes(
    prediction: seq<CrashEvent>, validation: seq<CrashEvent>, persistence: seq<CrashEvent>,
    routedPred: nat, routedVal: nat, routedPers: nat, dropsPred: nat, dropsVal: nat, duplicates: nat, rejected: nat)

  /** Where an event that is neither invalid nor a duplicate goes: ends to all three lanes, starts to one. */
  function Dispatch(l: Lanes, room: nat, ev: CrashEvent): Lanes {
    match ev.kind
    case End =>
      var val, pred := |l.validation| < room, |l.prediction| < room;
      l.(validation := Offer(l.validation, room, ev), prediction := Offer(l.prediction, room, ev),
         persistence := Offer(l.persistence, room, ev), routedPers := l.routedPers + 1,
         routedVal := l.routedVal + (if val then 1 else 0), dropsVal := l.dropsVal + (if val then 0 else 1),
         routedPred := l.routedPred + (if pred then 1 else 0), dropsPred := l.dropsPred + (if pred then 0 else 1))
    case Start => l.(persistence := Offer(l.persistence, room, ev), routedPers := l.routedPers + 1)
    case _ => l
  }

  /** Does the caller hear of a full lane? Both lanes of an end event matter, the persistence lane never does. */
  predicate Accepted(l: Lanes, room: nat, ev: CrashEvent) {
    ev.kind == End ==> |l.validation| < room && |l.prediction| < room
  }

  /** Is the event forwarded at all, given the keyed arrivals before it? */
  predicate Passes(arrivals: seq<string>, ev: CrashEvent) {
    ev.valid && !IsDuplicate(arrivals, ev)
  }

  /** Everything one call does to lanes and counters; `t0` is the clock it stamps on a forwarded event. */
  function Routed(l: Lanes, arrivals: seq<string>, room: nat, ev: CrashEvent, t0: int): Lanes {
    if !ev.valid then l.(rejected := l.rejected + 1)
    else if IsDuplicate(arrivals, ev) then l.(duplicates := l.duplicates + 1)
    else Dispatch(l, room, ev.(routedAtNs := t0))
  }

  /**
   * What a caller sees of one call. It answers false exactly when one of the two drop counters grows; an event that
   * is invalid or a duplicate is only counted; any other is stamped and goes to the lanes meant for it that have room.
   */
  lemma RouteAnswers(l: Lanes, arrivals: seq<string>, room: nat, event: CrashEvent, t0: int)
    ensures var l', ev := Routed(l, arrivals, room, event, t0), event.(routedAtNs := t0);
      var passes := Passes(arrivals, event);
      && ((passes ==> Accepted(l, room, event)) <==> l'.dropsVal == l.dropsVal && l'.dropsPred == l.dropsPred)
      && (!event.valid ==> l' == l.(rejected := l.rejected + 1))
      && (event.valid && !passes ==> l' == l.(duplicates := l.duplicates + 1))
      && (event.valid && event.gameId == "" ==> passes)
      && (passes ==>
            && l'.validation == l.validation + (if ev.kind == End && |l.validation| < room then [ev] else [])
            && l'.prediction == l.prediction + (if ev.kind == End && |l.prediction| < room then [ev] else [])
            && l'.persistence == l.persistence
                                 + (if ev.kind in {End, Start} && |l.persistence| < room then [ev] else [])
            && l'.rejected == l.rejected && l'.duplicates == l.duplicates)
      && l'.dropsVal == l.dropsVal + (if passes && ev.kind == End && |l.validation| >= room then 1 else 0)
      && l'.dropsPred == l.dropsPred + (if passes && ev.kind == End && |l.prediction| >= room then 1 else 0)
  {
  }

  class EventRouter {
    const room: nat
    var toPrediction: seq<CrashEvent>
    var toValidation: seq<CrashEvent>
    var toPersistence: seq<CrashEvent>
    var seenOrder: seq<Node<()>>
    var seenMap: map<string, nat>
    var nextNode: nat
    var routedPred: nat
    var routedVal: nat
    var routedPers: nat
    var dropsPred: nat
    var dropsVal: nat
    var duplicates: nat
    var rejected: nat
    ghost var arrivals: seq<string>

    /** List and map hold the same distinct keys: the newest 10,000 of everything that arrived. */
    ghost predicate Valid()
      reads this
    {
      && Linked(seenOrder, seenMap, nextNode)
      && Keys(seenOrder) == Newest(Recent(arrivals), DEDUPE_LIMIT)
      && WithinRoom()
    }

    ghost predicate WithinRoom()
      reads this`toPrediction, this`toValidation, this`toPersistence
    {
      |toPrediction| <= room && |toValidation| <= room && |toPersistence| <= room
    }

    constructor (queueCapacity: nat)
      requires queueCapacity <= WORD / 2
      ensures Valid() && arrivals == [] && toPrediction == toValidation == toPersistence == []
      ensures queueCapacity <= room + 1
    {
      var c := RoundUpCapacity(queueCapacity);
      room := c - 1;
      toPrediction, toValidation, toPersistence := [], [], [];
      seenOrder, seenMap, nextNode, arrivals := [], map[], 0, [];
      routedPred, routedVal, routedPers, dropsPred, dropsVal, duplicates, rejected := 0, 0, 0, 0, 0, 0, 0;
    }

    ghost function View(): Lanes
      reads this
    {
      Lanes(toPrediction, toValidation, toPersistence, routedPred, routedVal, routedPers, dropsPred, dropsVal,
            duplicates, rejected)
    }

    // The duplicate check: refreshes a known key, remembers a new one.
    method Check(key: string) returns (known: bool)
      requires Valid()
      modifies this`seenOrder, this`seenMap, this`nextNode, this`arrivals
      ensures Valid() && arrivals == old(arrivals) + [key]
      ensures known == Fresh(old(arrivals), key, DEDUPE_LIMIT)
    {
      LinkedKeys(seenOrder, seenMap, nextNode);
      InWindowIffFresh(arrivals, key, DEDUPE_LIMIT);
      WindowFollowsHistory(arrivals, key, DEDUPE_LIMIT);
      known := key in seenMap;
      if known { Refresh(key); } else { Remember(key); }
      arrivals := arrivals + [key];
    }

    method Refresh(key: string)
      requires Linked(seenOrder, seenMap, nextNode) && key in seenMap
      modifies this`seenOrder
      ensures Linked(seenOrder, seenMap, nextNode)
      ensures Keys(seenOrder) == Without(Keys(old(seenOrder)), key) + [key]
    {
      SpliceMovesToBack(seenOrder, seenMap, nextNode, key);
      seenOrder := Splice(seenOrder, seenMap[key]);
    }

    method Remember(key: string)
      requires Linked(seenOrder, seenMap, nextNode) && key !in seenMap
      modifies this`seenOrder, this`seenMap, this`nextNode
      ensures Linked(seenOrder, seenMap, nextNode)
      ensures Keys(seenOrder) == Newest(Keys(old(seenOrder)) + [key], DEDUPE_LIMIT)
    {
      PushBackLinks(seenOrder, seenMap, nextNode, key, ());
      seenOrder, seenMap, nextNode := seenOrder + [Node(nextNode, key, ())], seenMap[key := nextNode], nextNode + 1;
      Evict();
    }

    // Evicts the oldest keys beyond the limit.
    method Evict()
      requires Linked(seenOrder, seenMap, nextNode)
      modifies this`seenOrder, this`seenMap
      ensures Linked(seenOrder, seenMap, nextNode)
      ensures Keys(seenOrder) == Newest(Keys(old(seenOrder)), DEDUPE_LIMIT)
    {
      ghost var all := Keys(seenOrder);
      while |seenMap| > DEDUPE_LIMIT
        invariant Linked(seenOrder, seenMap, nextNode)
        invariant |seenOrder| <= |all| && Keys(seenOrder) == all[|all| - |seenOrder|..]
        invariant |seenOrder| >= if |all| < DEDUPE_LIMIT then |all| else DEDUPE_LIMIT
        decreases |seenOrder|
      {
        PopFrontLinks(seenOrder, seenMap, nextNode);
        seenMap := seenMap - {seenOrder[0].key};
        seenOrder := seenOrder[1..];
      }
    }

    // The first half of a call: is the event to be forwarded?
    method Admit(ev: CrashEvent) returns (passed: bool)
      requires Valid()
      modifies this`seenOrder, this`seenMap, this`nextNode, this`arrivals, this`rejected, this`duplicates
      ensures Valid() && arrivals == Arrive(old(arrivals), ev)
      ensures passed == Passes(old(arrivals), ev)
      ensures passed ==> View() == old(View())
      ensures !passed ==> View() == Routed(old(View()), old(arrivals), room, ev, 0)
    {
      if !ev.valid {
        rejected := rejected + 1;
        return false;
      }
      if ev.gameId != "" {
        var known := Check(RouterKey(ev));
        if known {
          duplicates := duplicates + 1;
          return false;
        }
      }
      return true;
    }

    // The second half: the lanes.
    method FanOut(ev: CrashEvent) returns (ok: bool)
      requires WithinRoom()
      modifies this`toValidation, this`toPrediction, this`toPersistence
      modifies this`routedVal, this`routedPred, this`routedPers, this`dropsVal, this`dropsPred
      ensures WithinRoom() && View() == Dispatch(old(View()), room, ev) && ok == Accepted(old(View()), room, ev)
    {
      ok := true;
      if ev.kind == End {
        if |toValidation| >= room {
          dropsVal := dropsVal + 1;
          ok := false;
        } else {
          toValidation := toValidation + [ev];
          routedVal := routedVal + 1;
        }
        if |toPrediction| >= room {
          dropsPred := dropsPred + 1;
          ok := false;
        } else {
          toPrediction := toPrediction + [ev];
          routedPred := routedPred + 1;
        }
        toPersistence := Offer(toPersistence, room, ev);
        routedPers := routedPers + 1;
      } else if ev.kind == Start {
        toPersistence := Offer(toPersistence, room, ev);
        routedPers := routedPers + 1;
      }
    }

    /** False means that the validation or the prediction lane dropped the event: an end, no duplicate, met it full. */
    method Route(event: CrashEvent, t0: int) returns (ok: bool)
      requires Valid()
      modifies this
      ensures Valid() && arrivals == Arrive(old(arrivals), event)
      ensures View() == Routed(old(View()), old(arrivals), room, event, t0)
      ensures ok == (Passes(old(arrivals), event) ==> Accepted(old(View()), room, event))
      ensures ok <==> dropsVal == old(dropsVal) && dropsPred == old(dropsPred)
    {
      RouteAnswers(View(), arrivals, room, event, t0);
      ok := true;
      var passed := Admit(event);
      if passed { ok := FanOut(event.(routedAtNs := t0)); }
    }
  }

  /** A lane keeps what it holds and takes the event, at the back, exactly when it is meant for it and has room. */
  ghost predicate Delivered(before: seq<CrashEvent>, after: seq<CrashEvent>, room: nat, meant: bool, ev: CrashEvent) {
    if meant && |before| < room then |after| == |before| + 1 && before < after && after[|before|] == ev
    else after == before
  }

  /**
   * End events go to all three lanes, start events to the persistence lane, anything else nowhere; every end
   * event is counted once for each of the two lanes that matter, as routed or as dropped.
   */
  lemma NothingUncounted(l: Lanes, room: nat, ev: CrashEvent)
    requires |l.validation| <= room && |l.prediction| <= room && |l.persistence| <= room
    ensures var l' := Dispatch(l, room, ev);
      var ends := if ev.kind == End then 1 else 0;
      && l'.routedVal + l'.dropsVal == l.routedVal + l.dropsVal + ends
      && l'.routedPred + l'.dropsPred == l.routedPred + l.dropsPred + ends
      && |l'.validation| - |l.validation| == l'.routedVal - l.routedVal
      && |l'.prediction| - |l.prediction| == l'.routedPred - l.routedPred
      && Delivered(l.validation, l'.validation, room, ev.kind == End, ev)
      && Delivered(l.prediction, l'.prediction, room, ev.kind == End, ev)
      && Delivered(l.persistence, l'.persistence, room, ev.kind == End || ev.kind == Start, ev)
      && l'.routedPers == l.routedPers + (if ev.kind == End || ev.kind == Start then 1 else 0)
      && |l'.validation| <= room && |l'.prediction| <= room && |l'.persistence| <= room
  {
  }

  // Whole runs: events arrive, and the three consumers take from their lanes.

  datatype RouterStep = Arrival(ev: CrashEvent, t0: int) | TakeValidation | TakePrediction | TakePersistence

  datatype RouterRun = RouterRun(lanes: Lanes, arrivals: seq<string>, takenVal: nat, takenPred: nat)

  function Front(lane: seq<CrashEvent>): nat {
    if lane == [] then 0 else 1
  }

  function RouterNext(r: RouterRun, room: nat, step: RouterStep): RouterRun {
    var l := r.lanes;
    match step
    case Arrival(ev, t0) => r.(lanes := Routed(l, r.arrivals, room, ev, t0), arrivals := Arrive(r.arrivals, ev))
    case TakeValidation =>
      r.(lanes := l.(validation := l.validation[Front(l.validation)..]), takenVal := r.takenVal + Front(l.validation))
    case TakePrediction =>
      r.(lanes := l.(prediction := l.prediction[Front(l.prediction)..]), takenPred := r.takenPred + Front(l.prediction))
    case TakePersistence => r.(lanes := l.(persistence := l.persistence[Front(l.persistence)..]))
  }

  /** An empty router after some steps. */
  function RouterAfter(room: nat, steps: seq<RouterStep>): RouterRun {
    if steps == [] then RouterRun(Lanes([], [], [], 0, 0, 0, 0, 0, 0, 0), [], 0, 0)
    else RouterNext(RouterAfter(room, steps[..|steps| - 1]), room, steps[|steps| - 1])
  }

  /** How many of these steps are arrivals of ends that are valid and no duplicates of what arrived before them? */
  function EndsPassed(room: nat, steps: seq<RouterStep>): nat {
    if steps == [] then 0
    else
      var before, last := steps[..|steps| - 1], steps[|steps| - 1];
      EndsPassed(room, before) +
      if last.Arrival? && last.ev.kind == End && Passes(RouterAfter(room, before).arrivals, last.ev) then 1 else 0
  }

  /**
   * Over any run, each of the two lanes that matter accounts for every end that was not a duplicate: it was dropped,
   * is still in the lane, or has been taken out.
   */
  lemma {:induction false} EveryEndAccountedFor(room: nat, steps: seq<RouterStep>)
    ensures var r, ends := RouterAfter(room, steps), EndsPassed(room, steps); var l := r.lanes;
      && |l.validation| <= room && |l.prediction| <= room && |l.persistence| <= room
      && l.dropsVal + |l.validation| + r.takenVal == l.dropsPred + |l.prediction| + r.takenPred == ends
      && l.routedVal == |l.validation| + r.takenVal && l.routedPred == |l.prediction| + r.takenPred
  {
    if steps != [] {
      var before, last := steps[..|steps| - 1], steps[|steps| - 1];
      EveryEndAccountedFor(room, before);
      if last.Arrival? {
        NothingUncounted(RouterAfter(room, before).lanes, room, last.ev.(routedAtNs := last.t0));
      }
    }
  }

  /** One full lane of three is enough for `false`, although the other two took the event. */
  lemma OneFullLaneRefuses() returns (l: Lanes, room: nat, ev: CrashEvent)
    ensures |l.validation| == room && |l.prediction| < room && |l.persistence| < room && Passes([], ev)
    ensures !Accepted(l, room, ev)
    ensures var l' := Routed(l, [], room, ev, 0);
      && l'.validation == l.validation && l'.dropsVal == l.dropsVal + 1
      && |l'.prediction| == |l.prediction| + 1 && |l'.persistence| == |l.persistence| + 1
  {
    ev := CrashEvent(End, "r", "g", 2.0, 0, 0, 0, true);
    l, room := Lanes([], [ev], [], 0, 0, 0, 0, 0, 0, 0), 1;
  }

  /** Over any sequence of arrivals: the keyed history so far. */
  function History(events: seq<CrashEvent>): seq<string> {
    if events == [] then [] else Arrive(History(events[..|events| - 1]), events[|events| - 1])
  }

  lemma {:induction false} InHistory(events: seq<CrashEvent>, ev: CrashEvent)
    requires ev.gameId != ""
    ensures RouterKey(ev) in History(events) <==>
              exists i :: 0 <= i < |events| && events[i].valid && SameEvent(events[i], ev)
  {
    if events != [] {
      var before, last := events[..|events| - 1], events[|events| - 1];
      InHistory(before, ev);
      RouterKeyIdentifies(last, ev);
      if RouterKey(ev) in History(events) && RouterKey(ev) !in History(before) {
        assert events[|events| - 1].valid && SameEvent(events[|events| - 1], ev);
      }
      if i :| 0 <= i < |events| && events[i].valid && SameEvent(events[i], ev) {
        if i < |before| { assert before[i] == events[i]; }
      }
    }
  }

  predicate SameEvent(e: CrashEvent, f: CrashEvent) {
    e.gameId == f.gameId && e.kind == f.kind && e.sequence == f.sequence
  }

  /** No event is dropped as a duplicate unless a valid event of the same game, kind and sequence came before it. */
  lemma DuplicatesAreRepeats(events: seq<CrashEvent>, ev: CrashEvent)
    requires IsDuplicate(History(events), ev)
    ensures exists i :: 0 <= i < |events| && events[i].valid && SameEvent(events[i], ev)
  {
    InHistory(events, ev);
  }

  /** A repeat is dropped for certain while no more than 10,000 valid events of games have arrived in all. */
  lemma RecentRepeatsAreDropped(events: seq<CrashEvent>, ev: CrashEvent, i: nat)
    requires i < |events| && events[i].valid && SameEvent(events[i], ev)
    requires ev.valid && ev.gameId != "" && |History(events)| <= DEDUPE_LIMIT
    ensures IsDuplicate(History(events), ev)
  {
    InHistory(events, ev);
    SinceIsShorter(History(events), RouterKey(ev));
  }

  lemma {:induction false} SinceIsShorter(h: seq<string>, k: string)
    requires k in h
    ensures |Elements(Since(h, k))| <= |Since(h, k)| < |h|
  {
    ElementsCount(Since(h, k));
    if h[|h| - 1] != k { SinceIsShorter(h[..|h| - 1], k); }
  }

  lemma {:induction false} ElementsCount(xs: seq<string>)
    ensures |Elements(xs)| <= |xs|
  {
    if xs != [] {
      ElementsCount(xs[1..]);
      assert Elements(xs) == {xs[0]} + Elements(xs[1..]);
    }
  }
}
