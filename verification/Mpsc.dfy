/**
 * The multi-producer single-consumer ring: every atomic load, store and compare-and-swap of
 * any number of producers and of the one consumer is a step, and steps interleave freely.
 */
module MpscMachine {
  import opened RingMask

  type Pid = nat

  /** Where a producer stands inside `try_push`; `Returned` is its last answer. */
  datatype Producer<T> =
    | Idle
    | AtLoadTail(item: T)
    | AtLoadSequence(item: T, pos: nat)
    | AtCompareExchange(item: T, pos: nat)
    | AtWriteData(item: T, pos: nat)
    | AtStoreSequence(item: T, pos: nat)
    | Returned(ok: bool)

  /** Where the consumer stands inside `try_pop`. */
  datatype Consumer<T> =
    | Resting
    | AtHeadSequence(pos: nat)
    | AtTakeData(pos: nat)
    | AtReleaseSlot(pos: nat, item: T)
    | AtStoreHead(pos: nat, item: T)
    | Empty
    | Popped(item: T)

  /**
   * `claims` lists the items in the order in which their compare-and-swap on the tail succeeded,
   * `writer` the producer of each claimed position that is not published yet, `popped` what
   * the consumer has returned. The queue itself keeps none of these three.
   */
  datatype State<T> = State(
    cap: nat, sequences: seq<nat>, data: seq<T>, head: nat, tail: nat,
    producers: map<Pid, Producer<T>>, consumer: Consumer<T>,
    claims: seq<T>, writer: map<nat, Pid>, popped: seq<T>)

  datatype Action<T> =
    | StartPush(p: Pid, item: T)
    | LoadTail(p: Pid)
    | LoadSequence(p: Pid)
    | CompareExchange(p: Pid, spurious: bool)
    | WriteData(p: Pid)
    | StoreSequence(p: Pid)
    | LoadHead
    | LoadHeadSequence
    | TakeData(moved: T)
    | ReleaseSlot
    | StoreHead

  ghost predicate Shaped<T>(s: State<T>) {
    Ring(s.sequences) && Ring(s.data) && |s.sequences| == |s.data| == s.cap
  }

  ghost predicate Start<T>(s: State<T>) {
    && Shaped(s)
    && (forall i :: 0 <= i < s.cap ==> s.sequences[i] == i)
    && s.head == s.tail == 0
    && (forall p <- s.producers :: s.producers[p].Idle?)
    && s.consumer.Resting?
    && s.claims == s.popped == [] && s.writer == map[]
  }

  predicate Enabled<T>(s: State<T>, a: Action<T>) {
    match a
    case StartPush(p, _) => p in s.producers && (s.producers[p].Idle? || s.producers[p].Returned?)
    case LoadTail(p) => p in s.producers && s.producers[p].AtLoadTail?
    case LoadSequence(p) => p in s.producers && s.producers[p].AtLoadSequence?
    case CompareExchange(p, _) => p in s.producers && s.producers[p].AtCompareExchange?
    case WriteData(p) => p in s.producers && s.producers[p].AtWriteData?
    case StoreSequence(p) => p in s.producers && s.producers[p].AtStoreSequence?
    case LoadHead => s.consumer.Resting? || s.consumer.Empty? || s.consumer.Popped?
    case LoadHeadSequence => s.consumer.AtHeadSequence?
    case TakeData(_) => s.consumer.AtTakeData?
    case ReleaseSlot => s.consumer.AtReleaseSlot?
    case StoreHead => s.consumer.AtStoreHead?
  }

  function At<T>(s: State<T>, p: Pid, pc: Producer<T>): State<T> {
    s.(producers := s.producers[p := pc])
  }

  /** The sequence number of the slot a position falls on. */
  function SequenceOf<T>(s: State<T>, pos: nat): nat
    requires Shaped(s)
  {
    Peek(s.sequences, pos)
  }

  function Apply<T>(s: State<T>, a: Action<T>): State<T>
    requires Shaped(s) && Enabled(s, a)
  {
    match a
    case StartPush(p, item) => At(s, p, AtLoadTail(item))
    case LoadTail(p) => At(s, p, AtLoadSequence(s.producers[p].item, s.tail))
    case LoadSequence(p) =>
      var AtLoadSequence(item, pos) := s.producers[p];
      var seen := SequenceOf(s, pos);
      if seen == pos then At(s, p, AtCompareExchange(item, pos))
      else if seen < pos then At(s, p, Returned(false))
      else At(s, p, AtLoadTail(item))
    case CompareExchange(p, spurious) =>
      var AtCompareExchange(item, pos) := s.producers[p];
      if s.tail == pos && !spurious then
        At(s, p, AtWriteData(item, pos)).(tail := pos + 1, claims := s.claims + [item], writer := s.writer[pos := p])
      else At(s, p, AtLoadSequence(item, s.tail))
    case WriteData(p) =>
      var AtWriteData(item, pos) := s.producers[p];
      At(s, p, AtStoreSequence(item, pos)).(data := Poke(s.data, pos, item))
    case StoreSequence(p) =>
      var AtStoreSequence(item, pos) := s.producers[p];
      At(s, p, Returned(true)).(sequences := Poke(s.sequences, pos, pos + 1), writer := s.writer - {pos})
    case LoadHead => s.(consumer := AtHeadSequence(s.head))
    case LoadHeadSequence =>
      var pos := s.consumer.pos;
      s.(consumer := if SequenceOf(s, pos) != pos + 1 then Empty else AtTakeData(pos))
    case TakeData(moved) =>
      // The item is moved out; what it leaves behind in the slot is unspecified.
      var pos := s.consumer.pos;
      s.(consumer := AtReleaseSlot(pos, Peek(s.data, pos)), data := Poke(s.data, pos, moved))
    case ReleaseSlot =>
      var AtReleaseSlot(pos, item) := s.consumer;
      s.(consumer := AtStoreHead(pos, item), sequences := Poke(s.sequences, pos, pos + s.cap))
    case StoreHead =>
      var AtStoreHead(pos, item) := s.consumer;
      s.(consumer := Popped(item), head := pos + 1, popped := s.popped + [item])
  }

  /** Positions the consumer has handed back for the next lap; it runs ahead of `head` by one store. */
  function Released<T>(s: State<T>): nat {
    if s.consumer.AtStoreHead? then s.head + 1 else s.head
  }

  predicate Published<T>(s: State<T>, pos: nat) {
    pos < s.tail && pos !in s.writer
  }

  predicate Writing<T>(pc: Producer<T>) {
    pc.AtWriteData? || pc.AtStoreSequence?
  }

  /** Slot `p & mask` carries p while free or being written, then p+1 once published, then p+cap. */
  ghost predicate SequencesInv<T>(s: State<T>)
    requires Shaped(s)
  {
    forall q: nat :: Released(s) <= q < Released(s) + s.cap ==>
      SequenceOf(s, q) == if Published(s, q) then q + 1 else q
  }

  /** A published item stays in its slot until the consumer has taken it. */
  ghost predicate DataInv<T>(s: State<T>)
    requires Shaped(s) && |s.claims| == s.tail
  {
    forall q: nat :: Released(s) <= q < s.tail && Published(s, q) && !(s.consumer.AtReleaseSlot? && q == s.head) ==>
      Peek(s.data, q) == s.claims[q]
  }

  ghost predicate ProducerInv<T>(s: State<T>, p: Pid)
    requires Shaped(s) && p in s.producers && |s.claims| == s.tail
  {
    match s.producers[p]
    case AtLoadSequence(_, pos) => pos <= s.tail
    case AtCompareExchange(_, pos) => pos <= s.tail && pos < Released(s) + s.cap
    case AtWriteData(item, pos) => pos in s.writer && s.writer[pos] == p && pos < s.tail && s.claims[pos] == item
    case AtStoreSequence(item, pos) =>
      && pos in s.writer && s.writer[pos] == p && pos < s.tail && s.claims[pos] == item
      && Peek(s.data, pos) == item
    case _ => true
  }

  predicate WriterInv<T>(s: State<T>, q: nat)
    requires q in s.writer
  {
    && Released(s) <= q < s.tail && s.writer[q] in s.producers
    && Writing(s.producers[s.writer[q]]) && s.producers[s.writer[q]].pos == q
  }

  ghost predicate ConsumerInv<T>(s: State<T>)
    requires |s.claims| == s.tail
  {
    match s.consumer
    case AtHeadSequence(pos) => pos == s.head
    case AtTakeData(pos) => pos == s.head && Published(s, pos)
    case AtReleaseSlot(pos, item) => pos == s.head && Published(s, pos) && item == s.claims[pos]
    case AtStoreHead(pos, item) => pos == s.head && pos < s.tail && item == s.claims[pos]
    case _ => true
  }

  ghost predicate Inv<T>(s: State<T>) {
    && Shaped(s)
    && |s.claims| == s.tail && |s.popped| == s.head
    && Released(s) <= s.tail <= Released(s) + s.cap
    && s.popped == s.claims[..s.head]
    && SequencesInv(s)
    && DataInv(s)
    && (forall q <- s.writer :: WriterInv(s, q))
    && (forall p <- s.producers :: ProducerInv(s, p))
    && ConsumerInv(s)
  }

  lemma StartInv<T>(s: State<T>)
    requires Start(s)
    ensures Inv(s)
  {
    forall q: nat | q < s.cap
      ensures SequenceOf(s, q) == q
    {
      SlotFirstLap(q, s.cap);
    }
  }

  /** What a producer's sequence load tells it, whatever the other threads are doing. */
  lemma SequenceTells<T>(s: State<T>, pos: nat)
    requires Inv(s) && pos <= s.tail
    ensures SequenceOf(s, pos) == pos ==> pos < Released(s) + s.cap
    ensures SequenceOf(s, pos) < pos <==> pos == s.tail == Released(s) + s.cap
  {
    var q := InWindow(pos, Released(s), s.cap);
    assert SequenceOf(s, pos) == SequenceOf(s, q) == if Published(s, q) then q + 1 else q;
    if pos < q { SharedSlot(pos, q, s.cap); }
    if q < pos { SharedSlot(q, pos, s.cap); }
  }

  // A producer that claims nothing moves on by itself: no slot, claim or other thread changes.
  lemma MoveKeepsInv<T>(s: State<T>, p: Pid, pc: Producer<T>)
    requires Inv(s) && p in s.producers && !Writing(s.producers[p]) && !Writing(pc)
    requires ProducerInv(At(s, p, pc), p)
    ensures Inv(At(s, p, pc))
  {
    var t := At(s, p, pc);
    forall q: nat | Released(t) <= q < Released(t) + t.cap
      ensures SequenceOf(t, q) == if Published(t, q) then q + 1 else q
    {
      assert SequenceOf(s, q) == if Published(s, q) then q + 1 else q;
    }
    forall q <- t.writer ensures WriterInv(t, q) {
      assert WriterInv(s, q);
    }
    forall p' <- t.producers ensures ProducerInv(t, p') {
      assert p' != p ==> ProducerInv(s, p');
    }
  }

  lemma LoadSequenceKeepsInv<T>(s: State<T>, p: Pid)
    requires Inv(s) && Enabled(s, LoadSequence(p))
    ensures Inv(Apply(s, LoadSequence(p)))
  {
    assert ProducerInv(s, p);
    var AtLoadSequence(item, pos) := s.producers[p];
    SequenceTells(s, pos);
    if SequenceOf(s, pos) == pos {
      MoveKeepsInv(s, p, AtCompareExchange(item, pos));
    } else if SequenceOf(s, pos) < pos {
      MoveKeepsInv(s, p, Returned(false));
    } else {
      MoveKeepsInv(s, p, AtLoadTail(item));
    }
  }

  lemma ClaimKeepsProducer<T>(s: State<T>, p: Pid, p': Pid)
    requires Inv(s) && p in s.producers && s.producers[p].AtCompareExchange? && s.producers[p].pos == s.tail
    requires p' in s.producers
    ensures ProducerInv(Apply(s, CompareExchange(p, false)), p')
  {
    assert ProducerInv(s, p) && ProducerInv(s, p');
  }

  lemma ClaimKeepsInv<T>(s: State<T>, p: Pid)
    requires Inv(s) && p in s.producers && s.producers[p].AtCompareExchange? && s.producers[p].pos == s.tail
    ensures Inv(Apply(s, CompareExchange(p, false)))
  {
    var t := Apply(s, CompareExchange(p, false));
    assert ProducerInv(s, p);
    forall q: nat | Released(t) <= q < Released(t) + t.cap
      ensures SequenceOf(t, q) == if Published(t, q) then q + 1 else q
    {
      assert SequenceOf(s, q) == if Published(s, q) then q + 1 else q;
    }
    forall q <- t.writer ensures WriterInv(t, q) {
      assert q in s.writer ==> WriterInv(s, q);
    }
    forall p' <- t.producers ensures ProducerInv(t, p') {
      ClaimKeepsProducer(s, p, p');
    }
  }

  lemma WriteDataKeepsInv<T>(s: State<T>, p: Pid)
    requires Inv(s) && Enabled(s, WriteData(p))
    ensures Inv(Apply(s, WriteData(p)))
  {
    var t := Apply(s, WriteData(p));
    assert ProducerInv(s, p);
    var AtWriteData(item, pos) := s.producers[p];
    assert WriterInv(s, pos);
    forall q: nat | Released(t) <= q < Released(t) + t.cap
      ensures SequenceOf(t, q) == if Published(t, q) then q + 1 else q
      ensures Peek(t.data, q) == if q == pos then item else Peek(s.data, q)
    {
      assert SequenceOf(s, q) == if Published(s, q) then q + 1 else q;
      PokePeek(s.data, pos, item, q);
    }
    forall q <- t.writer ensures WriterInv(t, q) {
      assert WriterInv(s, q);
    }
    forall p' <- t.producers ensures ProducerInv(t, p') {
      assert ProducerInv(s, p');
      if p' != p && s.producers[p'].AtStoreSequence? { assert WriterInv(s, s.producers[p'].pos); }
    }
  }

  lemma StoreSequencePublishes<T>(s: State<T>, p: Pid)
    requires Inv(s) && Enabled(s, StoreSequence(p))
    ensures SequencesInv(Apply(s, StoreSequence(p)))
  {
    var t := Apply(s, StoreSequence(p));
    assert ProducerInv(s, p);
    var pos := s.producers[p].pos;
    assert WriterInv(s, pos);
    forall q: nat | Released(t) <= q < Released(t) + t.cap
      ensures SequenceOf(t, q) == if Published(t, q) then q + 1 else q
    {
      assert SequenceOf(s, q) == if Published(s, q) then q + 1 else q;
      PokePeek(s.sequences, pos, pos + 1, q);
    }
  }

  lemma StoreSequenceKeepsInv<T>(s: State<T>, p: Pid)
    requires Inv(s) && Enabled(s, StoreSequence(p))
    ensures Inv(Apply(s, StoreSequence(p)))
  {
    var t := Apply(s, StoreSequence(p));
    assert ProducerInv(s, p);
    assert WriterInv(s, s.producers[p].pos);
    StoreSequencePublishes(s, p);
    forall q <- t.writer ensures WriterInv(t, q) {
      assert WriterInv(s, q);
    }
    forall p' <- t.producers ensures ProducerInv(t, p') {
      assert ProducerInv(s, p');
    }
  }

  lemma TakeKeepsInv<T>(s: State<T>, a: Action<T>)
    requires Inv(s) && Enabled(s, a)
    requires a.LoadHead? || a.LoadHeadSequence? || a.TakeData?
    ensures Inv(Apply(s, a))
  {
    var t := Apply(s, a);
    assert SequenceOf(s, s.head) == if Published(s, s.head) then s.head + 1 else s.head;
    forall q: nat | Released(t) <= q < Released(t) + t.cap
      ensures SequenceOf(t, q) == if Published(t, q) then q + 1 else q
      ensures a.TakeData? && q != s.head ==> Peek(t.data, q) == Peek(s.data, q)
    {
      assert SequenceOf(s, q) == if Published(s, q) then q + 1 else q;
      if a.TakeData? { PokePeek(s.data, s.head, a.moved, q); }
    }
    forall q <- t.writer ensures WriterInv(t, q) {
      assert WriterInv(s, q);
    }
    forall p <- t.producers ensures ProducerInv(t, p) {
      assert ProducerInv(s, p);
      if s.producers[p].AtStoreSequence? { assert WriterInv(s, s.producers[p].pos); }
    }
  }

  lemma ReleaseKeepsInv<T>(s: State<T>)
    requires Inv(s) && Enabled(s, ReleaseSlot)
    ensures Inv(Apply(s, ReleaseSlot))
  {
    var t := Apply(s, ReleaseSlot);
    forall q: nat | Released(t) <= q < Released(t) + t.cap
      ensures SequenceOf(t, q) == if Published(t, q) then q + 1 else q
    {
      if q < s.head + s.cap {
        assert SequenceOf(s, q) == if Published(s, q) then q + 1 else q;
        PokePeek(s.sequences, s.head, s.head + s.cap, q);
      } else {
        PokePeek(s.sequences, s.head, s.head + s.cap, s.head);
        PeekLap(t.sequences, s.head);
      }
    }
    forall q <- t.writer ensures WriterInv(t, q) {
      assert WriterInv(s, q);
    }
    forall p <- t.producers ensures ProducerInv(t, p) {
      assert ProducerInv(s, p);
    }
  }

  lemma StoreHeadKeepsInv<T>(s: State<T>)
    requires Inv(s) && Enabled(s, StoreHead)
    ensures Inv(Apply(s, StoreHead))
  {
    var t := Apply(s, StoreHead);
    forall q: nat | Released(t) <= q < Released(t) + t.cap
      ensures SequenceOf(t, q) == if Published(t, q) then q + 1 else q
    {
      assert SequenceOf(s, q) == if Published(s, q) then q + 1 else q;
    }
    forall q <- t.writer ensures WriterInv(t, q) {
      assert WriterInv(s, q);
    }
    forall p <- t.producers ensures ProducerInv(t, p) {
      assert ProducerInv(s, p);
    }
  }

  /** Every step of every thread keeps the invariant. */
  lemma StepKeepsInv<T>(s: State<T>, a: Action<T>)
    requires Inv(s) && Enabled(s, a)
    ensures Inv(Apply(s, a))
  {
    match a
    case StartPush(p, item) => MoveKeepsInv(s, p, AtLoadTail(item));
    case LoadTail(p) => MoveKeepsInv(s, p, AtLoadSequence(s.producers[p].item, s.tail));
    case LoadSequence(p) => LoadSequenceKeepsInv(s, p);
    case CompareExchange(p, spurious) =>
      if s.tail == s.producers[p].pos && !spurious {
        ClaimKeepsInv(s, p);
      } else {
        MoveKeepsInv(s, p, AtLoadSequence(s.producers[p].item, s.tail));
      }
    case WriteData(p) => WriteDataKeepsInv(s, p);
    case StoreSequence(p) => StoreSequenceKeepsInv(s, p);
    case LoadHead => TakeKeepsInv(s, a);
    case LoadHeadSequence => TakeKeepsInv(s, a);
    case TakeData(_) => TakeKeepsInv(s, a);
    case ReleaseSlot => ReleaseKeepsInv(s);
    case StoreHead => StoreHeadKeepsInv(s);
  }

  /** Each state leads to the next by one action. */
  ghost predicate Chained<T>(states: seq<State<T>>, acts: seq<Action<T>>) {
    && |states| == |acts| + 1
    && forall i :: 0 <= i < |acts| ==>
         Shaped(states[i]) && Enabled(states[i], acts[i]) && states[i + 1] == Apply(states[i], acts[i])
  }

  lemma ChainOn<T>(states: seq<State<T>>, acts: seq<Action<T>>, a: Action<T>)
    requires Chained(states, acts) && Shaped(states[|acts|]) && Enabled(states[|acts|], a)
    ensures Chained(states + [Apply(states[|acts|], a)], acts + [a])
  {
    var states', acts' := states + [Apply(states[|acts|], a)], acts + [a];
    assert forall i :: 0 <= i <= |acts| ==> states'[i] == states[i];
    assert forall i :: 0 <= i < |acts| ==> acts'[i] == acts[i];
  }

  ghost predicate Run<T>(states: seq<State<T>>, acts: seq<Action<T>>) {
    Chained(states, acts) && Start(states[0])
  }

  lemma {:induction false} RunKeepsInv<T>(states: seq<State<T>>, acts: seq<Action<T>>, i: nat)
    requires Run(states, acts) && i < |states|
    ensures Inv(states[i])
  {
    if i == 0 {
      StartInv(states[0]);
    } else {
      RunKeepsInv(states, acts, i - 1);
      StepKeepsInv(states[i - 1], acts[i - 1]);
    }
  }

  lemma {:induction false} LogsGrow<T>(states: seq<State<T>>, acts: seq<Action<T>>, i: nat, j: nat)
    requires Run(states, acts) && i <= j < |states|
    ensures states[i].claims <= states[j].claims && states[i].popped <= states[j].popped
  {
    if i < j {
      LogsGrow(states, acts, i, j - 1);
      assert states[j] == Apply(states[j - 1], acts[j - 1]);
    }
  }

  /**
   * First in, first out, under every interleaving: whatever has been popped by step `i` is what the
   * compare-and-swaps on the tail had lined up by then, in that order and from the very first one,
   * and no later step takes any of it back.
   */
  lemma FirstInFirstOut<T>(states: seq<State<T>>, acts: seq<Action<T>>, i: nat, j: nat)
    requires Run(states, acts) && i <= j < |states|
    ensures states[i].popped <= states[i].claims
    ensures states[i].popped <= states[j].popped <= states[j].claims
    ensures states[i].claims <= states[j].claims
    ensures |states[j].claims| - |states[j].popped| <= states[j].cap + 1
  {
    RunKeepsInv(states, acts, i);
    RunKeepsInv(states, acts, j);
    LogsGrow(states, acts, i, j);
  }

  /**
   * `try_push` gives up at its sequence load exactly when its position is the current tail
   * and all `cap` positions behind the tail are still unreleased.
   */
  lemma PushFailsExactlyWhenFull<T>(states: seq<State<T>>, acts: seq<Action<T>>, i: nat, p: Pid)
    requires Run(states, acts) && i < |acts| && acts[i] == LoadSequence(p)
    ensures states[i + 1].producers[p] == Returned(false) <==>
            states[i].producers[p].pos == states[i].tail == Released(states[i]) + states[i].cap
  {
    RunKeepsInv(states, acts, i);
    assert ProducerInv(states[i], p);
    SequenceTells(states[i], states[i].producers[p].pos);
  }

  /** `try_pop` answers empty exactly when the oldest position is not published yet, or not even claimed. */
  lemma PopFailsExactlyWhenUnpublished<T>(states: seq<State<T>>, acts: seq<Action<T>>, i: nat)
    requires Run(states, acts) && i < |acts| && acts[i] == LoadHeadSequence
    ensures states[i + 1].consumer.Empty? <==> !Published(states[i], states[i].head)
  {
    RunKeepsInv(states, acts, i);
    var s := states[i];
    assert SequenceOf(s, s.head) == if Published(s, s.head) then s.head + 1 else s.head;
  }

  /** The number in a slot goes p, then p+1, then p+cap, and nothing else ever happens to it. */
  lemma SlotSequenceCycle<T>(states: seq<State<T>>, acts: seq<Action<T>>, i: nat, slot: nat)
    requires Run(states, acts) && i < |acts| && slot < states[i].cap
    requires states[i + 1].sequences[slot] != states[i].sequences[slot]
    ensures
      var before, after, cap := states[i].sequences[slot], states[i + 1].sequences[slot], states[i].cap;
      || (after == before + 1 && Slot(before, cap) == slot)
      || (before > 0 && after == before - 1 + cap && Slot(before - 1, cap) == slot)
  {
    RunKeepsInv(states, acts, i);
    var s := states[i];
    match acts[i]
    case StoreSequence(p) =>
      assert ProducerInv(s, p);
      var pos := s.producers[p].pos;
      assert WriterInv(s, pos);
      assert SequenceOf(s, pos) == pos;
    case ReleaseSlot =>
      assert SequenceOf(s, s.head) == s.head + 1;
    case _ =>
  }

  /** Data is written only into a slot whose earlier laps the consumer has all handed back. */
  lemma NoOverwriteBeforeRead<T>(states: seq<State<T>>, acts: seq<Action<T>>, i: nat, p: Pid, q: nat)
    requires Run(states, acts) && i < |acts| && acts[i] == WriteData(p)
    requires q < states[i].producers[p].pos && Slot(q, states[i].cap) == Slot(states[i].producers[p].pos, states[i].cap)
    ensures q < Released(states[i]) <= |states[i].claims|
    ensures q < |states[i].popped|
            || (states[i].consumer.AtStoreHead? && states[i].consumer.item == states[i].claims[q])
  {
    RunKeepsInv(states, acts, i);
    var s := states[i];
    assert ProducerInv(s, p);
    SharedSlot(q, s.producers[p].pos, s.cap);
  }

  /** What the consumer moves out of a slot is the item claimed for the head position, fully written. */
  lemma NoReadBeforeWrite<T>(states: seq<State<T>>, acts: seq<Action<T>>, i: nat)
    requires Run(states, acts) && i < |acts| && acts[i].TakeData?
    ensures states[i].head < |states[i].claims|
    ensures states[i + 1].consumer == AtReleaseSlot(states[i].head, states[i].claims[states[i].head])
  {
    RunKeepsInv(states, acts, i);
  }

  /** A push that reports success left its item at the position it claimed, ready for the consumer. */
  lemma PushSucceedsInPlace<T>(states: seq<State<T>>, acts: seq<Action<T>>, i: nat, p: Pid)
    requires Run(states, acts) && i < |acts| && acts[i] == StoreSequence(p)
    ensures states[i + 1].producers[p] == Returned(true)
    ensures var AtStoreSequence(item, pos) := states[i].producers[p];
      && Published(states[i + 1], pos) && !Published(states[i], pos)
      && pos < |states[i + 1].claims| && states[i + 1].claims[pos] == item
      && |states[i + 1].popped| <= pos
  {
    RunKeepsInv(states, acts, i);
    RunKeepsInv(states, acts, i + 1);
    assert ProducerInv(states[i], p);
    assert WriterInv(states[i], states[i].producers[p].pos);
  }

  /** A compare-and-swap that is not spuriously refused loses only to another producer's claim of that position. */
  lemma LosingMeansSomeoneWon<T>(states: seq<State<T>>, acts: seq<Action<T>>, i: nat, p: Pid)
    requires Run(states, acts) && i < |acts| && acts[i] == CompareExchange(p, false)
    requires !states[i + 1].producers[p].AtWriteData?
    ensures states[i].producers[p].pos < |states[i].claims|
  {
    RunKeepsInv(states, acts, i);
    assert ProducerInv(states[i], p);
  }

  /** Nothing is lost: with no push half done, a pop that finds nothing means everything claimed was popped. */
  lemma DrainedMeansAllPopped<T>(states: seq<State<T>>, acts: seq<Action<T>>, i: nat)
    requires Run(states, acts) && i < |acts| && acts[i] == LoadHeadSequence
    requires forall p <- states[i].producers :: !Writing(states[i].producers[p])
    ensures states[i + 1].consumer.Empty? ==> states[i].popped == states[i].claims
  {
    PopFailsExactlyWhenUnpublished(states, acts, i);
    RunKeepsInv(states, acts, i);
    var s := states[i];
    assert s.head in s.writer ==> WriterInv(s, s.head);
  }
}

/** The queue object: slots in two arrays, one method per atomic access of whichever thread runs next. */
module MpscQueues {
  import opened RingMask
  import opened MpscMachine

  class MpscQueue<T(0)> {
    const sequence: array<nat>
    const data: array<T>
    const cap: nat
    var head: nat
    var tail: nat
    var producers: map<Pid, Producer<T>>
    var consumer: Consumer<T>
    ghost var claims: seq<T>
    ghost var writer: map<nat, Pid>
    ghost var popped: seq<T>

    ghost function View(): State<T>
      reads this, sequence, data
    {
      State(cap, sequence[..], data[..], head, tail, producers, consumer, claims, writer, popped)
    }

    ghost predicate Valid()
      reads this, sequence, data
    {
      sequence as object != data && Inv(View())
    }

    constructor (request: nat, threads: set<Pid>)
      requires request <= WORD / 2
      ensures Start(View()) && Valid()
      ensures fresh(sequence) && fresh(data)
      ensures request <= cap && forall d: nat :: IsPow2(d) && 2 <= d && request <= d ==> cap <= d
    {
      var c := RoundUpCapacity(request);
      cap := c;
      sequence := new nat[c](i requires i >= 0 => i);
      data := new T[c];
      head, tail := 0, 0;
      producers := map p | p in threads :: Idle;
      consumer := Resting;
      claims, writer, popped := [], map[], [];
      new;
      StartInv(View());
    }

    method IsEnabled(a: Action<T>) returns (yes: bool)
      requires Valid()
      ensures yes == Enabled(View(), a)
    {
      match a
      case StartPush(p, _) => yes := p in producers && (producers[p].Idle? || producers[p].Returned?);
      case LoadTail(p) => yes := p in producers && producers[p].AtLoadTail?;
      case LoadSequence(p) => yes := p in producers && producers[p].AtLoadSequence?;
      case CompareExchange(p, _) => yes := p in producers && producers[p].AtCompareExchange?;
      case WriteData(p) => yes := p in producers && producers[p].AtWriteData?;
      case StoreSequence(p) => yes := p in producers && producers[p].AtStoreSequence?;
      case LoadHead => yes := consumer.Resting? || consumer.Empty? || consumer.Popped?;
      case LoadHeadSequence => yes := consumer.AtHeadSequence?;
      case TakeData(_) => yes := consumer.AtTakeData?;
      case ReleaseSlot => yes := consumer.AtReleaseSlot?;
      case StoreHead => yes := consumer.AtStoreHead?;
    }

    /** One atomic access by a producer. */
    method ProducerAccess(a: Action<T>)
      requires Valid() && Enabled(View(), a) && !a.TakeData? && !a.ReleaseSlot?
      requires !a.LoadHead? && !a.LoadHeadSequence? && !a.StoreHead?
      modifies this, sequence, data
      ensures Valid() && View() == Apply(old(View()), a)
    {
      ghost var s := View();
      StepKeepsInv(s, a);
      match a
      case StartPush(p, item) => producers := producers[p := AtLoadTail(item)];
      case LoadTail(p) => producers := producers[p := AtLoadSequence(producers[p].item, tail)];
      case LoadSequence(p) =>
        var AtLoadSequence(item, pos) := producers[p];
        SlotInRange(pos, cap);
        var seen := sequence[Slot(pos, cap)];
        if seen == pos {
          producers := producers[p := AtCompareExchange(item, pos)];
        } else if seen < pos {
          producers := producers[p := Returned(false)];
        } else {
          producers := producers[p := AtLoadTail(item)];
        }
      case CompareExchange(p, spurious) =>
        var AtCompareExchange(item, pos) := producers[p];
        if tail == pos && !spurious {
          tail := pos + 1;
          claims, writer := claims + [item], writer[pos := p];
          producers := producers[p := AtWriteData(item, pos)];
        } else {
          producers := producers[p := AtLoadSequence(item, tail)];
        }
      case WriteData(p) =>
        var AtWriteData(item, pos) := producers[p];
        SlotInRange(pos, cap);
        data[Slot(pos, cap)] := item;
        producers := producers[p := AtStoreSequence(item, pos)];
      case StoreSequence(p) =>
        var AtStoreSequence(item, pos) := producers[p];
        SlotInRange(pos, cap);
        sequence[Slot(pos, cap)] := pos + 1;
        writer := writer - {pos};
        producers := producers[p := Returned(true)];
      assert View() == Apply(s, a);
    }

    /** One atomic access by the consumer. */
    method ConsumerAccess(a: Action<T>)
      requires Valid() && Enabled(View(), a)
      requires a.TakeData? || a.ReleaseSlot? || a.LoadHead? || a.LoadHeadSequence? || a.StoreHead?
      modifies this, sequence, data
      ensures Valid() && View() == Apply(old(View()), a)
    {
      ghost var s := View();
      StepKeepsInv(s, a);
      match a
      case LoadHead => consumer := AtHeadSequence(head);
      case LoadHeadSequence =>
        var pos := consumer.pos;
        SlotInRange(pos, cap);
        consumer := if sequence[Slot(pos, cap)] != pos + 1 then Empty else AtTakeData(pos);
      case TakeData(moved) =>
        var pos := consumer.pos;
        SlotInRange(pos, cap);
        consumer := AtReleaseSlot(pos, data[Slot(pos, cap)]);
        data[Slot(pos, cap)] := moved;
      case ReleaseSlot =>
        var AtReleaseSlot(pos, item) := consumer;
        SlotInRange(pos, cap);
        sequence[Slot(pos, cap)] := pos + cap;
        consumer := AtStoreHead(pos, item);
      case StoreHead =>
        var AtStoreHead(pos, item) := consumer;
        head := pos + 1;
        popped := popped + [item];
        consumer := Popped(item);
      assert View() == Apply(s, a);
    }

    // One access of whichever thread it belongs to, if it is possible.
    method Access(a: Action<T>) returns (done: bool)
      requires Valid()
      modifies this, sequence, data
      ensures Valid() && done == old(Enabled(View(), a))
      ensures View() == if done then Apply(old(View()), a) else old(View())
    {
      done := IsEnabled(a);
      if done {
        match a
        case TakeData(_) => ConsumerAccess(a);
        case ReleaseSlot => ConsumerAccess(a);
        case LoadHead => ConsumerAccess(a);
        case LoadHeadSequence => ConsumerAccess(a);
        case StoreHead => ConsumerAccess(a);
        case _ => ProducerAccess(a);
      }
    }

    /**
     * Any schedule of any number of producers and the consumer; accesses not possible yet are skipped. What is
     * left of the schedule is a run of the machine from the old state of the queue to the new one.
     */
    method Interleave(schedule: seq<Action<T>>) returns (ghost states: seq<State<T>>, ghost acts: seq<Action<T>>)
      requires Valid()
      modifies this, sequence, data
      ensures Valid() && Chained(states, acts) && (forall a <- acts :: a in schedule)
      ensures states[0] == old(View()) && states[|acts|] == View()
    {
      states, acts := [View()], [];
      for n := 0 to |schedule|
        invariant Valid() && Chained(states, acts) && (forall a <- acts :: a in schedule)
        invariant states[0] == old(View()) && states[|acts|] == View()
      {
        var done := Access(schedule[n]);
        if done {
          ChainOn(states, acts, schedule[n]);
          states, acts := states + [View()], acts + [schedule[n]];
        }
      }
    }
  }
}
