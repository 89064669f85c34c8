/** What the calls of the multi-producer queue answer, over any run, and what a call does that nothing interrupts. */
module MpscCalls {
  import opened Common
  import opened RingMask
  import opened MpscMachine

  predicate ByConsumer<T>(a: Action<T>) {
    a.LoadHead? || a.LoadHeadSequence? || a.TakeData? || a.ReleaseSlot? || a.StoreHead?
  }

  /** A pop answers with an item at its store of the head, with nothing at its sequence load, and nowhere else. */
  lemma PopAnswers<T>(states: seq<State<T>>, acts: seq<Action<T>>, i: nat)
    requires Run(states, acts) && i < |acts|
    ensures acts[i] == StoreHead ==>
              && states[i].head < |states[i].claims| && states[i + 1].head == states[i].head + 1
              && states[i + 1].consumer == Popped(states[i].claims[states[i].head])
    ensures ByConsumer(acts[i]) ==> (states[i + 1].consumer.Popped? <==> acts[i] == StoreHead)
    ensures ByConsumer(acts[i]) && states[i + 1].consumer.Empty? ==> acts[i] == LoadHeadSequence
    ensures !ByConsumer(acts[i]) ==> states[i + 1].consumer == states[i].consumer
  {
    RunKeepsInv(states, acts, i);
  }

  /** The items `try_pop` has answered with, in order. */
  ghost function Answers<T>(states: seq<State<T>>, acts: seq<Action<T>>, n: nat): seq<T>
    requires n <= |acts| < |states|
  {
    if n == 0 then []
    else
      Answers(states, acts, n - 1)
      + if ByConsumer(acts[n - 1]) && states[n].consumer.Popped? then [states[n].consumer.item] else []
  }

  /** What the callers of `try_pop` get, in order, is what was lined up at the tail, from the very first item on. */
  lemma {:induction false} AnswersAreFifo<T>(states: seq<State<T>>, acts: seq<Action<T>>, n: nat)
    requires Run(states, acts) && n <= |acts|
    ensures Answers(states, acts, n) == states[n].popped <= states[n].claims
  {
    if n > 0 {
      AnswersAreFifo(states, acts, n - 1);
      PopAnswers(states, acts, n - 1);
      RunKeepsInv(states, acts, n - 1);
      assert states[n] == Apply(states[n - 1], acts[n - 1]);
    }
    RunKeepsInv(states, acts, n);
  }

  /** Is a producer inside `try_push`? */
  predicate Pushing<T>(pc: Producer<T>) {
    !pc.Idle? && !pc.Returned?
  }

  /** The item of the latest push that `p` has begun. */
  ghost function LatestPush<T>(acts: seq<Action<T>>, n: nat, p: Pid): Option<T>
    requires n <= |acts|
  {
    if n == 0 then None
    else if acts[n - 1].StartPush? && acts[n - 1].p == p then Some(acts[n - 1].item)
    else LatestPush(acts, n - 1, p)
  }

  lemma {:induction false} CarriesItsItem<T>(states: seq<State<T>>, acts: seq<Action<T>>, n: nat, p: Pid)
    requires Run(states, acts) && n < |states| && p in states[n].producers && Pushing(states[n].producers[p])
    ensures LatestPush(acts, n, p) == Some(states[n].producers[p].item)
  {
    if n > 0 {
      var s := states[n - 1];
      assert states[n] == Apply(s, acts[n - 1]);
      if p in s.producers && Pushing(s.producers[p]) { CarriesItsItem(states, acts, n - 1, p); }
    }
  }

  predicate ByProducer<T>(a: Action<T>, p: Pid) {
    !ByConsumer(a) && a.p == p
  }

  /** A push answers true at its sequence store, false at its sequence load, and nowhere else. */
  lemma PushAnswers<T>(states: seq<State<T>>, acts: seq<Action<T>>, i: nat, p: Pid)
    requires Run(states, acts) && i < |acts| && p in states[i].producers
    ensures p in states[i + 1].producers
    ensures !ByProducer(acts[i], p) ==> states[i + 1].producers[p] == states[i].producers[p]
    ensures ByProducer(acts[i], p) ==>
              && (states[i + 1].producers[p] == Returned(true) <==> acts[i] == StoreSequence(p))
              && (states[i + 1].producers[p] == Returned(false) ==> acts[i] == LoadSequence(p))
  {
    assert states[i + 1] == Apply(states[i], acts[i]);
  }

  /** What a push lines up at the tail, by a compare-and-swap that wins, is the item it was called with. */
  lemma PushLinesUp<T>(states: seq<State<T>>, acts: seq<Action<T>>, i: nat)
    requires Run(states, acts) && i < |acts| && states[i + 1].claims != states[i].claims
    ensures acts[i].CompareExchange?
    ensures LatestPush(acts, i, acts[i].p).Some?
    ensures states[i + 1].claims == states[i].claims + [LatestPush(acts, i, acts[i].p).value]
  {
    assert states[i + 1] == Apply(states[i], acts[i]);
    CarriesItsItem(states, acts, i, acts[i].p);
  }

  /** And that item is published, at the position it claimed, when the push answers true. */
  lemma PushPublishes<T>(states: seq<State<T>>, acts: seq<Action<T>>, i: nat, p: Pid)
    requires Run(states, acts) && i < |acts| && acts[i] == StoreSequence(p)
    ensures var pos := states[i].producers[p].pos;
      && pos < |states[i + 1].claims| && Published(states[i + 1], pos)
      && LatestPush(acts, i, p) == Some(states[i + 1].claims[pos])
  {
    CarriesItsItem(states, acts, i, p);
    PushSucceedsInPlace(states, acts, i, p);
  }

  // Calls that nothing interrupts, with the other threads anywhere in theirs.

  lemma Follow<T>(states: seq<State<T>>, acts: seq<Action<T>>, a: Action<T>)
    returns (states': seq<State<T>>, acts': seq<Action<T>>)
    requires Chained(states, acts) && Shaped(states[|acts|]) && Enabled(states[|acts|], a)
    ensures Chained(states', acts') && states'[0] == states[0] && acts' == acts + [a]
    ensures states'[|acts'|] == Apply(states[|acts|], a)
  {
    ChainOn(states, acts, a);
    states', acts' := states + [Apply(states[|acts|], a)], acts + [a];
  }

  // The slot behind the tail is free exactly if it has been released.
  lemma TailSequence<T>(s: State<T>)
    requires Inv(s)
    ensures SequenceOf(s, s.tail) == s.tail <==> s.tail < Released(s) + s.cap
    ensures SequenceOf(s, s.tail) <= s.tail
  {
    SequenceTells(s, s.tail);
    if s.tail < Released(s) + s.cap {
      assert SequenceOf(s, s.tail) == if Published(s, s.tail) then s.tail + 1 else s.tail;
    }
  }

  // From a sequence load that found the slot free to the end of the call.
  lemma FreeSlotIsFilled<T>(states: seq<State<T>>, acts: seq<Action<T>>, s: State<T>, p: Pid, item: T)
    returns (states': seq<State<T>>, acts': seq<Action<T>>)
    requires Chained(states, acts) && Shaped(s) && p in s.producers && s.tail !in s.writer
    requires states[|acts|] == At(s, p, AtCompareExchange(item, s.tail)) && forall a <- acts :: ByProducer(a, p)
    ensures Chained(states', acts') && states'[0] == states[0] && forall a <- acts' :: ByProducer(a, p)
    ensures var t := states'[|acts'|];
      && t.producers == s.producers[p := Returned(true)] && t.consumer == s.consumer && t.popped == s.popped
      && t.claims == s.claims + [item] && Published(t, s.tail)
  {
    states', acts' := Follow(states, acts, CompareExchange(p, false));
    states', acts' := Follow(states', acts', WriteData(p));
    states', acts' := Follow(states', acts', StoreSequence(p));
  }

  /** Alone, a push succeeds exactly when one of the `cap` positions behind the tail has been released. */
  lemma PushIsARun<T>(s: State<T>, p: Pid, item: T) returns (states: seq<State<T>>, acts: seq<Action<T>>, ok: bool)
    requires Inv(s) && Enabled(s, StartPush(p, item))
    ensures Chained(states, acts) && states[0] == s && forall a <- acts :: ByProducer(a, p)
    ensures ok <==> s.tail < Released(s) + s.cap
    ensures var t := states[|acts|];
      && t.producers == s.producers[p := Returned(ok)] && t.consumer == s.consumer && t.popped == s.popped
      && t.claims == (if ok then s.claims + [item] else s.claims) && (ok ==> Published(t, s.tail))
  {
    TailSequence(s);
    assert s.tail in s.writer ==> WriterInv(s, s.tail);
    ok := s.tail < Released(s) + s.cap;
    states, acts := Follow([s], [], StartPush(p, item));
    states, acts := Follow(states, acts, LoadTail(p));
    states, acts := Follow(states, acts, LoadSequence(p));
    if ok { states, acts := FreeSlotIsFilled(states, acts, s, p, item); }
  }

  /** Alone, a pop answers with the item of the head position if that is published, and with nothing otherwise. */
  lemma PopIsARun<T>(s: State<T>, moved: T) returns (states: seq<State<T>>, acts: seq<Action<T>>)
    requires Inv(s) && Enabled(s, LoadHead)
    ensures Chained(states, acts) && states[0] == s && forall a <- acts :: ByConsumer(a)
    ensures Published(s, s.head) ==> s.head < |s.claims|
    ensures var t := states[|acts|];
      && t.producers == s.producers && t.claims == s.claims
      && t.consumer == (if Published(s, s.head) then Popped(s.claims[s.head]) else Empty)
      && t.popped == if Published(s, s.head) then s.popped + [s.claims[s.head]] else s.popped
  {
    assert SequenceOf(s, s.head) == if Published(s, s.head) then s.head + 1 else s.head;
    assert Published(s, s.head) ==> Peek(s.data, s.head) == s.claims[s.head];
    states, acts := Follow([s], [], LoadHead);
    states, acts := Follow(states, acts, LoadHeadSequence);
    if Published(s, s.head) {
      states, acts := Follow(states, acts, TakeData(moved));
      states, acts := Follow(states, acts, ReleaseSlot);
      states, acts := Follow(states, acts, StoreHead);
    }
  }
}
