/**
 * The single-producer single-consumer ring. Its two threads interleave at every load, write and
 * store; the stored indices are already masked, so one slot always stays free.
 */
module SpscMachine {
  import opened RingMask

  datatype Producer<T> =
    | Idle
    | AtLoadTail(item: T)
    | AtLoadHead(item: T, t: nat)
    | AtWrite(item: T, t: nat, next: nat)
    | AtStoreTail(item: T, next: nat)
    | Returned(ok: bool)

  datatype Consumer<T> =
    | Resting
    | AtCompareTail(h: nat)
    | AtTake(h: nat)
    | AtStoreHead(h: nat, item: T)
    | Empty
    | Popped(item: T)

  /** `pushed` and `popped` list the items whose tail and head stores have happened; the queue keeps neither. */
  datatype State<T> = State(
    cap: nat, buf: seq<T>, head: nat, tail: nat, producer: Producer<T>, consumer: Consumer<T>,
    pushed: seq<T>, popped: seq<T>)

  datatype Action<T> =
    | StartPush(item: T) | LoadTail | LoadHead | Write | StoreTail
    | StartPop | CompareTail | Take(moved: T) | StoreHead

  ghost predicate Shaped<T>(s: State<T>) {
    Ring(s.buf) && |s.buf| == s.cap && s.head < s.cap && s.tail < s.cap
  }

  ghost predicate Start<T>(s: State<T>) {
    && Shaped(s) && s.head == s.tail == 0 && s.pushed == s.popped == []
    && s.producer.Idle? && s.consumer.Resting?
  }

  predicate Enabled<T>(s: State<T>, a: Action<T>) {
    match a
    case StartPush(_) => s.producer.Idle? || s.producer.Returned?
    case LoadTail => s.producer.AtLoadTail?
    case LoadHead => s.producer.AtLoadHead?
    case Write => s.producer.AtWrite? && s.producer.t < |s.buf|
    case StoreTail => s.producer.AtStoreTail?
    case StartPop => s.consumer.Resting? || s.consumer.Empty? || s.consumer.Popped?
    case CompareTail => s.consumer.AtCompareTail?
    case Take(_) => s.consumer.AtTake? && s.consumer.h < |s.buf|
    case StoreHead => s.consumer.AtStoreHead?
  }

  function Apply<T>(s: State<T>, a: Action<T>): State<T>
    requires Shaped(s) && Enabled(s, a)
  {
    match a
    case StartPush(item) => s.(producer := AtLoadTail(item))
    case LoadTail => s.(producer := AtLoadHead(s.producer.item, s.tail))
    case LoadHead =>
      var AtLoadHead(item, t) := s.producer;
      var next := Slot(t + 1, s.cap);
      s.(producer := if next == s.head then Returned(false) else AtWrite(item, t, next))
    case Write =>
      var AtWrite(item, t, next) := s.producer;
      s.(producer := AtStoreTail(item, next), buf := s.buf[t := item])
    case StoreTail =>
      var AtStoreTail(item, next) := s.producer;
      s.(producer := Returned(true), tail := next, pushed := s.pushed + [item])
    case StartPop => s.(consumer := AtCompareTail(s.head))
    case CompareTail =>
      var h := s.consumer.h;
      s.(consumer := if h == s.tail then Empty else AtTake(h))
    case Take(moved) =>
      // The item is moved out; what it leaves behind in the slot is unspecified.
      var h := s.consumer.h;
      s.(consumer := AtStoreHead(h, s.buf[h]), buf := s.buf[h := moved])
    case StoreHead =>
      var AtStoreHead(h, item) := s.consumer;
      s.(consumer := Popped(item), head := Slot(h + 1, s.cap), popped := s.popped + [item])
  }

  /** The FIFO queue a client sees. */
  ghost function Contents<T>(s: State<T>): seq<T>
    requires |s.popped| <= |s.pushed|
  {
    s.pushed[|s.popped|..]
  }

  ghost predicate BufferInv<T>(s: State<T>)
    requires Shaped(s)
  {
    forall i: nat :: |s.popped| <= i < |s.pushed| && !(s.consumer.AtStoreHead? && i == |s.popped|) ==>
      Peek(s.buf, i) == s.pushed[i]
  }

  ghost predicate Inv<T>(s: State<T>) {
    var first, last := |s.popped|, |s.pushed|;
    && Shaped(s)
    && s.popped <= s.pushed && last - first <= s.cap - 1
    && s.head == Slot(first, s.cap) && s.tail == Slot(last, s.cap)
    && BufferInv(s)
    && (match s.producer
        case AtLoadHead(_, t) => t == s.tail
        case AtWrite(_, t, next) => t == s.tail && next == Slot(last + 1, s.cap) && last - first <= s.cap - 2
        case AtStoreTail(item, next) =>
          next == Slot(last + 1, s.cap) && last - first <= s.cap - 2 && Peek(s.buf, last) == item
        case _ => true)
    && (match s.consumer
        case AtCompareTail(h) => h == s.head
        case AtTake(h) => h == s.head && first < last
        case AtStoreHead(h, item) => h == s.head && first < last && item == s.pushed[first]
        case _ => true)
  }

  lemma StartInv<T>(s: State<T>)
    requires Start(s)
    ensures Inv(s)
  {
    SlotFirstLap(0, s.cap);
  }

  /** The producer's test `next == head` is exactly "cap - 1 items", the consumer's `h == tail` exactly "none". */
  lemma IndexTests<T>(s: State<T>)
    requires Inv(s)
    ensures Slot(s.tail + 1, s.cap) == Slot(|s.pushed| + 1, s.cap)
    ensures Slot(s.head + 1, s.cap) == Slot(|s.popped| + 1, s.cap)
    ensures Slot(s.tail + 1, s.cap) == s.head <==> |Contents(s)| == s.cap - 1
    ensures s.head == s.tail <==> Contents(s) == []
  {
    var first, last, cap := |s.popped|, |s.pushed|, s.cap;
    SlotSuccessor(last, cap);
    SlotSuccessor(first, cap);
    if last + 1 - first == cap { SlotLap(first, cap); }
    if Slot(last + 1, cap) == Slot(first, cap) { SharedSlot(first, last + 1, cap); }
    if first < last && Slot(first, cap) == Slot(last, cap) { SharedSlot(first, last, cap); }
  }

  lemma WriteKeepsInv<T>(s: State<T>)
    requires Inv(s) && Enabled(s, Write)
    ensures Inv(Apply(s, Write))
  {
    var t := Apply(s, Write);
    var last, item := |s.pushed|, s.producer.item;
    forall i: nat | |s.popped| <= i <= last
      ensures Peek(t.buf, i) == if i == last then item else Peek(s.buf, i)
    {
      PokePeek(s.buf, last, item, i);
    }
  }

  lemma TakeKeepsInv<T>(s: State<T>, moved: T)
    requires Inv(s) && Enabled(s, Take(moved))
    ensures Inv(Apply(s, Take(moved)))
  {
    var t := Apply(s, Take(moved));
    var first := |s.popped|;
    assert Peek(s.buf, first) == s.pushed[first];
    forall i: nat | first < i <= |s.pushed|
      ensures Peek(t.buf, i) == Peek(s.buf, i)
    {
      PokePeek(s.buf, first, moved, i);
    }
  }

  lemma StoreKeepsInv<T>(s: State<T>, a: Action<T>)
    requires Inv(s) && Enabled(s, a) && (a.StoreTail? || a.StoreHead?)
    ensures Inv(Apply(s, a))
  {
    SlotInRange(|s.pushed| + 1, s.cap);
    SlotInRange(|s.popped| + 1, s.cap);
    SlotSuccessor(|s.pushed|, s.cap);
    SlotSuccessor(|s.popped|, s.cap);
  }

  lemma LoadKeepsInv<T>(s: State<T>, a: Action<T>)
    requires Inv(s) && Enabled(s, a)
    requires a.StartPush? || a.LoadTail? || a.LoadHead? || a.StartPop? || a.CompareTail?
    ensures Inv(Apply(s, a))
  {
    IndexTests(s);
  }

  lemma StepKeepsInv<T>(s: State<T>, a: Action<T>)
    requires Inv(s) && Enabled(s, a)
    ensures Inv(Apply(s, a))
  {
    match a
    case Write => WriteKeepsInv(s);
    case Take(moved) => TakeKeepsInv(s, moved);
    case StoreTail => StoreKeepsInv(s, a);
    case StoreHead => StoreKeepsInv(s, a);
    case _ => LoadKeepsInv(s, a);
  }

  /**
   * The ring refines a FIFO of capacity `cap - 1`: a tail store appends its item to a queue with room and answers
   * true, a head store removes the front item and answers it, a refused push saw `cap - 1` items, a refused pop saw
   * none, and every other access leaves the queue as it is and answers nothing.
   */
  lemma RefinesFifo<T>(s: State<T>, a: Action<T>)
    requires Inv(s) && Enabled(s, a)
    ensures Inv(Apply(s, a))
    ensures var t := Apply(s, a);
      match a
      case StoreTail =>
        |Contents(s)| < s.cap - 1 && Contents(t) == Contents(s) + [s.producer.item] && t.producer == Returned(true)
      case StoreHead => Contents(s) != [] && Contents(t) == Contents(s)[1..] && t.consumer == Popped(Contents(s)[0])
      case LoadHead =>
        && Contents(t) == Contents(s)
        && if |Contents(s)| == s.cap - 1 then t.producer == Returned(false) else !t.producer.Returned?
      case CompareTail =>
        Contents(t) == Contents(s) && (t.consumer.Empty? <==> Contents(s) == []) && !t.consumer.Popped?
      case _ =>
        && Contents(t) == Contents(s) && (t.producer.Returned? ==> t.producer == s.producer)
        && (t.consumer.Empty? || t.consumer.Popped? ==> t.consumer == s.consumer)
  {
    StepKeepsInv(s, a);
    IndexTests(s);
  }

  ghost predicate Run<T>(states: seq<State<T>>, acts: seq<Action<T>>) {
    && |states| == |acts| + 1
    && Start(states[0])
    && forall i :: 0 <= i < |acts| ==>
         Shaped(states[i]) && Enabled(states[i], acts[i]) && states[i + 1] == Apply(states[i], acts[i])
  }

  lemma {:induction false} RunKeepsInv<T>(states: seq<State<T>>, acts: seq<Action<T>>, i: nat)
    requires Run(states, acts) && i < |states|
    ensures Inv(states[i])
  {
    if i == 0 {
      StartInv(states[0]);
    } else {
      RunKeepsInv(states, acts, i - 1);
      StepKeepsInv(states[i - 1], acts[i - 1]);
    }
  }

  /** Over any run: what was popped is a prefix of what was pushed, and neither log is ever taken back. */
  lemma {:induction false} RunIsFifo<T>(states: seq<State<T>>, acts: seq<Action<T>>, i: nat, j: nat)
    requires Run(states, acts) && i <= j < |states|
    ensures states[j].popped <= states[j].pushed
    ensures states[i].pushed <= states[j].pushed && states[i].popped <= states[j].popped
  {
    RunKeepsInv(states, acts, j);
    if i < j {
      RunIsFifo(states, acts, i, j - 1);
      assert states[j] == Apply(states[j - 1], acts[j - 1]);
    }
  }

  /** Read with neither thread in between its loads, `(t - h) & mask` on 64-bit words is the true length. */
  lemma SizeIsLength<T>(s: State<T>)
    requires Inv(s) && s.cap <= WORD / 2
    ensures BitAnd(WordMinus(s.tail, s.head), s.cap - 1) == |Contents(s)|
  {
    SlotDistance(|s.popped|, |s.pushed| - |s.popped|, s.cap);
  }
}

/** The queue object, one method per thread, one call per atomic access. */
module SpscQueues {
  import opened RingMask
  import opened SpscMachine

  class SpscQueue<T(0)> {
    const buf: array<T>
    const cap: nat
    var head: nat
    var tail: nat
    var producer: Producer<T>
    var consumer: Consumer<T>
    ghost var pushed: seq<T>
    ghost var popped: seq<T>

    ghost function View(): State<T>
      reads this, buf
    {
      State(cap, buf[..], head, tail, producer, consumer, pushed, popped)
    }

    ghost predicate Valid()
      reads this, buf
    {
      cap <= WORD / 2 && Inv(View())
    }

    constructor (request: nat)
      requires request <= WORD / 2
      ensures Start(View()) && Valid() && fresh(buf)
      ensures request <= cap && forall d: nat :: IsPow2(d) && 2 <= d && request <= d ==> cap <= d
    {
      var c := RoundUpCapacity(request);
      cap := c;
      buf := new T[c];
      head, tail, producer, consumer, pushed, popped := 0, 0, Idle, Resting, [], [];
      new;
      WordIsPow2();
      assert Pow2(63) == WORD / 2;
      assert IsPow2(WORD / 2);
      StartInv(View());
    }

    method ProducerAccess(a: Action<T>)
      requires Valid() && Enabled(View(), a)
      requires a.StartPush? || a.LoadTail? || a.LoadHead? || a.Write? || a.StoreTail?
      modifies this, buf
      ensures Valid() && View() == Apply(old(View()), a)
    {
      ghost var s := View();
      StepKeepsInv(s, a);
      match a
      case StartPush(item) => producer := AtLoadTail(item);
      case LoadTail => producer := AtLoadHead(producer.item, tail);
      case LoadHead =>
        var AtLoadHead(item, t) := producer;
        var next := Slot(t + 1, cap);
        producer := if next == head then Returned(false) else AtWrite(item, t, next);
      case Write =>
        var AtWrite(item, t, next) := producer;
        buf[t] := item;
        producer := AtStoreTail(item, next);
      case StoreTail =>
        var AtStoreTail(item, next) := producer;
        tail := next;
        pushed := pushed + [item];
        producer := Returned(true);
      assert View() == Apply(s, a);
    }

    method ConsumerAccess(a: Action<T>)
      requires Valid() && Enabled(View(), a)
      requires a.StartPop? || a.CompareTail? || a.Take? || a.StoreHead?
      modifies this, buf
      ensures Valid() && View() == Apply(old(View()), a)
    {
      ghost var s := View();
      StepKeepsInv(s, a);
      match a
      case StartPop => consumer := AtCompareTail(head);
      case CompareTail =>
        var h := consumer.h;
        consumer := if h == tail then Empty else AtTake(h);
      case Take(moved) =>
        var h := consumer.h;
        consumer := AtStoreHead(h, buf[h]);
        buf[h] := moved;
      case StoreHead =>
        var AtStoreHead(h, item) := consumer;
        head := Slot(h + 1, cap);
        popped := popped + [item];
        consumer := Popped(item);
      assert View() == Apply(s, a);
    }

    /** A push that nothing interrupts: the accesses above in their order. */
    method TryPush(item: T) returns (ok: bool)
      requires Valid() && Enabled(View(), StartPush(item))
      modifies this, buf
      ensures Valid() && consumer == old(consumer) && popped == old(popped)
      ensures ok == (|old(Contents(View()))| < cap - 1)
      ensures Contents(View()) == old(Contents(View())) + if ok then [item] else []
    {
      IndexTests(View());
      ProducerAccess(StartPush(item));
      ProducerAccess(LoadTail);
      ProducerAccess(LoadHead);
      if producer.Returned? { return producer.ok; }
      ProducerAccess(Write);
      ProducerAccess(StoreTail);
      return producer.ok;
    }

    /** A pop that nothing interrupts; `moved` is what the item leaves behind in its slot. */
    method TryPop(moved: T) returns (answer: Consumer<T>)
      requires Valid() && Enabled(View(), StartPop)
      modifies this, buf
      ensures Valid() && producer == old(producer) && pushed == old(pushed)
      ensures old(Contents(View())) == [] ==> answer == Empty && Contents(View()) == []
      ensures old(Contents(View())) != [] ==>
                && answer == Popped(old(Contents(View()))[0])
                && Contents(View()) == old(Contents(View()))[1..]
    {
      IndexTests(View());
      ConsumerAccess(StartPop);
      ConsumerAccess(CompareTail);
      if consumer.AtTake? {
        ConsumerAccess(Take(moved));
        ConsumerAccess(StoreHead);
      }
      answer := consumer;
    }

    /** `size_approx` with both threads at rest. */
    method SizeApprox() returns (n: nat)
      requires Valid()
      ensures n == |Contents(View())|
    {
      SizeIsLength(View());
      n := BitAnd(WordMinus(tail, head), cap - 1);
    }
  }
}
