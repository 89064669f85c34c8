/** What the outbox holds between two calls, and what each of its locked sections does to it. */
module OutboxStore {

  datatype SignalKind = Prediction | Outcome | Heartbeat | SystemAlert

  datatype Signal = Signal(kind: SignalKind, predictionId: string, roundId: string, text: string)

  datatype ItemState = Pending | Claimed | InFlight | Delivered | Failed | DeadLetter

  datatype Item = Item(
    id: nat, state: ItemState, signal: Signal, createdAtMs: int, claimedAtMs: int, deliveredAtMs: int,
    attempts: nat, lastError: string, dedupeKey: string)

  const MAX_ATTEMPTS := 5
  const DELIVERED_LIMIT := 50_000

  function KindDigit(kind: SignalKind): char {
    match kind
    case Prediction => '0'
    case Outcome => '1'
    case Heartbeat => '2'
    case SystemAlert => '3'
  }

  /** The dedupe key: prediction id, a colon, the kind as a number. */
  function KeyOf(signal: Signal): string {
    signal.predictionId + ":" + [KindDigit(signal.kind)]
  }

  /** Two signals share a key only if they share prediction id and kind, colons in the id included. */
  lemma KeyIdentifies(a: Signal, b: Signal)
    ensures KeyOf(a) == KeyOf(b) <==> a.predictionId == b.predictionId && a.kind == b.kind
  {
    var x, y := KeyOf(a), KeyOf(b);
    assert x[..|x| - 2] == a.predictionId && y[..|y| - 2] == b.predictionId;
    assert x[|x| - 1] == KindDigit(a.kind) && y[|y| - 1] == KindDigit(b.kind);
  }

  function NewItem(signal: Signal, now: int): Item {
    Item(0, Pending, signal, now, 0, 0, 0, "", KeyOf(signal))
  }

  datatype Store = Store(
    capacity: nat, queue: seq<Item>, nextId: nat, enqueued: nat, dequeued: nat, drops: nat,
    pending: set<string>, delivered: set<string>,
    published: nat, claimed: nat, deliveries: nat, failed: nat, duplicates: nat, deadLetters: nat)

  predicate Taken(st: Store, key: string) {
    key in st.delivered || key in st.pending
  }

  /** The first locked section of `publish`. */
  function Reserve(st: Store, key: string): Store {
    if Taken(st, key) then st.(duplicates := st.duplicates + 1) else st.(pending := st.pending + {key})
  }

  predicate HasRoom(st: Store) {
    |st.queue| < st.capacity
  }

  /** `fetch_add` on the id counter. */
  function TakeId(st: Store): Store {
    st.(nextId := st.nextId + 1)
  }

  function PushItem(st: Store, item: Item): Store {
    if HasRoom(st) then st.(queue := st.queue + [item], enqueued := st.enqueued + 1)
    else st.(drops := st.drops + 1)
  }

  function Release(st: Store, key: string): Store {
    st.(pending := st.pending - {key})
  }

  function Dequeue(st: Store): Store
    requires st.queue != []
  {
    st.(queue := st.queue[1..], dequeued := st.dequeued + 1, claimed := st.claimed + 1)
  }

  /** The locked section of `markDelivered`: past the limit the delivered keys are all forgotten at once. */
  function Deliver(st: Store, key: string): Store {
    var keys := st.delivered + {key};
    st.(pending := st.pending - {key},
        delivered := if |keys| > DELIVERED_LIMIT then {} else keys,
        deliveries := st.deliveries + 1)
  }

  function Bury(st: Store, key: string): Store {
    st.(pending := st.pending - {key}, deadLetters := st.deadLetters + 1, failed := st.failed + 1)
  }

  function Claim(item: Item, now: int): Item {
    item.(state := Claimed, claimedAtMs := now)
  }

  /** The item after `markFailed` has counted the attempt. */
  function FailedOnce(item: Item, error: string): Item {
    var n := item.attempts + 1;
    item.(lastError := error, attempts := n, state := if n >= MAX_ATTEMPTS then DeadLetter else Pending)
  }

  // Calls that nothing interrupts.

  function Enqueue(st: Store, item: Item): Store {
    PushItem(TakeId(st), item.(id := st.nextId))
  }

  function Submitted(st: Store, key: string, item: Item): Store {
    var st' := Enqueue(st, item);
    if HasRoom(st) then st'.(published := st'.published + 1) else Release(st', key)
  }

  function Publish(st: Store, signal: Signal, now: int): Store {
    var key := KeyOf(signal);
    if Taken(st, key) then Reserve(st, key) else Submitted(Reserve(st, key), key, NewItem(signal, now))
  }

  function MarkFailed(st: Store, item: Item, error: string): Store {
    var item' := FailedOnce(item, error);
    if item'.state.DeadLetter? then Bury(st, item.dedupeKey)
    else
      var st' := Enqueue(st, item');
      st'.(failed := st'.failed + 1)
  }
}
