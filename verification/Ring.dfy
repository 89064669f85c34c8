/** Power-of-two capacities, and the index mask both lock-free rings use instead of a division. */
module RingMask {

  function Pow2(k: nat): (p: nat)
    ensures p >= 1
  {
    if k == 0 then 1 else 2 * Pow2(k - 1)
  }

  ghost predicate IsPow2(c: nat) {
    exists k: nat :: Pow2(k) == c
  }

  /** The word operation `x & y`, one bit at a time. */
  function BitAnd(x: nat, y: nat): nat {
    if x == 0 || y == 0 then 0
    else 2 * BitAnd(x / 2, y / 2) + (if x % 2 == 1 && y % 2 == 1 then 1 else 0)
  }

  /** The slot of position `p` in a ring of `cap` slots: `p & mask_`. */
  function Slot(p: nat, cap: nat): nat
    requires cap >= 1
  {
    BitAnd(p, cap - 1)
  }

  /** The lowest `k` bits of `x`. */
  function Low(x: nat, k: nat): (r: nat)
    ensures r < Pow2(k)
  {
    if k == 0 then 0 else 2 * Low(x / 2, k - 1) + x % 2
  }

  lemma {:induction false} MaskIsLow(x: nat, k: nat)
    ensures BitAnd(x, Pow2(k) - 1) == Low(x, k)
  {
    if k > 0 {
      var half := Pow2(k - 1);
      assert (2 * half - 1) / 2 == half - 1 && (2 * half - 1) % 2 == 1;
      MaskIsLow(x / 2, k - 1);
      if x == 0 { LowSmall(0, k); }
    }
  }

  lemma {:induction false} LowSmall(x: nat, k: nat)
    requires x < Pow2(k)
    ensures Low(x, k) == x
  {
    if k > 0 { LowSmall(x / 2, k - 1); }
  }

  lemma {:induction false} LowLap(x: nat, k: nat, m: nat)
    requires k <= m
    ensures Low(x + Pow2(m), k) == Low(x, k)
  {
    if k > 0 {
      assert (x + 2 * Pow2(m - 1)) / 2 == x / 2 + Pow2(m - 1);
      LowLap(x / 2, k - 1, m - 1);
    }
  }

  lemma LowStep(q: nat, bit: nat, k: nat)
    requires k > 0 && bit < 2
    ensures Low(2 * q + bit, k) == 2 * Low(q, k - 1) + bit
  {
    assert (2 * q + bit) / 2 == q && (2 * q + bit) % 2 == bit;
  }

  lemma LowAfterEven(q: nat, k: nat)
    requires k > 0
    ensures Low(Low(2 * q, k) + 1, k) == Low(2 * q + 1, k)
  {
    var low := Low(q, k - 1);
    LowStep(q, 0, k);
    LowStep(q, 1, k);
    LowSmall(low, k - 1);
    LowStep(low, 1, k);
  }

  lemma LowAfterOdd(q: nat, k: nat)
    requires k > 0 && Low(Low(q, k - 1) + 1, k - 1) == Low(q + 1, k - 1)
    ensures Low(Low(2 * q + 1, k) + 1, k) == Low(2 * q + 2, k)
  {
    LowStep(q, 1, k);
    LowStep(Low(q, k - 1) + 1, 0, k);
    LowStep(q + 1, 0, k);
  }

  lemma {:induction false} LowSuccessor(x: nat, k: nat)
    ensures Low(Low(x, k) + 1, k) == Low(x + 1, k)
  {
    if k > 0 {
      if x % 2 == 0 {
        LowAfterEven(x / 2, k);
      } else {
        LowSuccessor(x / 2, k - 1);
        LowAfterOdd(x / 2, k);
      }
    }
  }

  lemma {:induction false} LowAdd(x: nat, n: nat, k: nat)
    ensures Low(Low(x, k) + n, k) == Low(x + n, k)
  {
    if n == 0 {
      LowSmall(Low(x, k), k);
    } else {
      LowAdd(x, n - 1, k);
      LowSuccessor(x + n - 1, k);
      LowSuccessor(Low(x, k) + n - 1, k);
    }
  }

  lemma {:induction false} LowShared(p: nat, q: nat, k: nat)
    requires p < q && Low(p, k) == Low(q, k)
    ensures q - p >= Pow2(k)
  {
    if k > 0 {
      assert p % 2 == q % 2;
      LowShared(p / 2, q / 2, k - 1);
    }
  }

  lemma {:induction false} LowWindow(p: nat, from: nat, k: nat) returns (q: nat)
    ensures from <= q < from + Pow2(k) && Low(q, k) == Low(p, k)
  {
    if k == 0 {
      q := from;
    } else {
      var start := if from % 2 == 1 && p % 2 == 0 then from / 2 + 1 else from / 2;
      var q' := LowWindow(p / 2, start, k - 1);
      q := 2 * q' + p % 2;
      assert q / 2 == q' && q % 2 == p % 2;
    }
  }

  lemma AtLeast(n: int, c: int)
    requires n >= 1 && c >= 0
    ensures n * c >= c
  {
  }

  lemma Distribute(a: int, b: int, c: int)
    ensures (a - b) * c == a * c - b * c
  {
  }

  lemma RemainderUnique(c: int, n: int, r: int, n': int, r': int)
    requires 0 <= r < c && 0 <= r' < c && n * c + r == n' * c + r'
    ensures r == r'
  {
    Distribute(n, n', c);
    if n > n' { AtLeast(n - n', c); }
    if n' > n {
      Distribute(n', n, c);
      AtLeast(n' - n, c);
    }
  }

  lemma {:induction false} LowQuotient(x: nat, k: nat) returns (laps: nat)
    ensures x == laps * Pow2(k) + Low(x, k)
  {
    if k == 0 {
      laps := x;
    } else {
      laps := LowQuotient(x / 2, k - 1);
      assert laps * (2 * Pow2(k - 1)) == 2 * (laps * Pow2(k - 1));
    }
  }

  lemma ModuloUnique(x: nat, c: nat, n: int, r: int)
    requires x == n * c + r && 0 <= r < c
    ensures r == x % c
  {
    RemainderUnique(c, n, r, x / c, x % c);
  }

  /** Masking with `2^k - 1` is reduction modulo `2^k`. */
  lemma MaskIsModulo(x: nat, k: nat)
    ensures BitAnd(x, Pow2(k) - 1) == x % Pow2(k)
  {
    MaskIsLow(x, k);
    var laps := LowQuotient(x, k);
    ModuloUnique(x, Pow2(k), laps, Low(x, k));
  }

  // The exponent of a power-of-two capacity, with its mask as the low bits.
  lemma Exponent(cap: nat) returns (k: nat)
    requires IsPow2(cap)
    ensures Pow2(k) == cap
    ensures forall p: nat :: BitAnd(p, cap - 1) == Low(p, k)
  {
    k :| Pow2(k) == cap;
    forall p: nat ensures BitAnd(p, cap - 1) == Low(p, k) { MaskIsLow(p, k); }
  }

  lemma SlotInRange(p: nat, cap: nat)
    requires cap >= 1 && IsPow2(cap)
    ensures Slot(p, cap) < cap
  {
    var k := Exponent(cap);
    assert BitAnd(p, cap - 1) == Low(p, k);
  }

  /** A lap later the same slot comes up again. */
  lemma SlotLap(p: nat, cap: nat)
    requires cap >= 1 && IsPow2(cap)
    ensures Slot(p + cap, cap) == Slot(p, cap)
  {
    var k := Exponent(cap);
    LowLap(p, k, k);
  }

  /** In the first lap every position is its own slot. */
  lemma SlotFirstLap(p: nat, cap: nat)
    requires p < cap && IsPow2(cap)
    ensures Slot(p, cap) == p
  {
    var k := Exponent(cap);
    LowSmall(p, k);
  }

  lemma SlotSuccessor(p: nat, cap: nat)
    requires cap >= 1 && IsPow2(cap)
    ensures Slot(Slot(p, cap) + 1, cap) == Slot(p + 1, cap)
  {
    var k := Exponent(cap);
    LowSuccessor(p, k);
  }

  /** Two positions share a slot only if they are at least a lap apart. */
  lemma SharedSlot(p: nat, q: nat, cap: nat)
    requires cap >= 1 && IsPow2(cap)
    requires p < q && Slot(p, cap) == Slot(q, cap)
    ensures q - p >= cap
  {
    var k := Exponent(cap);
    LowShared(p, q, k);
  }

  /** Any `cap` consecutive positions use every slot: this is the one that shares the slot of `p`. */
  lemma InWindow(p: nat, from: nat, cap: nat) returns (q: nat)
    requires cap >= 1 && IsPow2(cap)
    ensures from <= q < from + cap && Slot(q, cap) == Slot(p, cap)
  {
    var k := Exponent(cap);
    q := LowWindow(p, from, k);
  }

  /** Subtraction of 64-bit words. */
  function WordMinus(x: nat, y: nat): nat
    requires x < WORD && y < WORD
  {
    (x - y + WORD) % WORD
  }

  lemma WordIsPow2()
    ensures Pow2(64) == WORD
  {
    assert Pow2(8) == 0x100;
    assert Pow2(16) == 0x1_0000;
    assert Pow2(24) == 0x100_0000;
    assert Pow2(32) == 0x1_0000_0000;
    assert Pow2(40) == 0x100_0000_0000;
    assert Pow2(48) == 0x1_0000_0000_0000;
    assert Pow2(56) == 0x100_0000_0000_0000;
  }

  // What the subtraction leaves after borrowing from the word.
  lemma LowBorrow(n: nat, k: nat)
    requires k <= 64 && n < Pow2(k)
    ensures n + WORD >= Pow2(k) && Low(n + WORD - Pow2(k), k) == n
  {
    WordIsPow2();
    if k < 64 { Pow2Monotone(k, 64); }
    LowLap(n + WORD - Pow2(k), k, k);
    LowLap(n, k, 64);
    LowSmall(n, k);
  }

  lemma LowDistanceWrapped(h: nat, n: nat, cap: nat, k: nat)
    requires cap == Pow2(k) <= WORD / 2 && k <= 64 && h < cap && n < cap <= h + n
    ensures Low(WordMinus(Low(h + n, k), h), k) == n
  {
    var t := h + n - cap;
    LowLap(t, k, k);
    LowSmall(t, k);
    LowBorrow(n, k);
    assert WordMinus(t, h) == n + WORD - cap;
  }

  lemma LowDistance(h: nat, n: nat, cap: nat, k: nat)
    requires cap == Pow2(k) <= WORD / 2 && k <= 64 && h < cap && n < cap
    ensures Low(WordMinus(Low(h + n, k), h), k) == n
  {
    LowSmall(n, k);
    if h + n < cap {
      LowSmall(h + n, k);
      assert WordMinus(h + n, h) == n;
    } else {
      LowDistanceWrapped(h, n, cap, k);
    }
  }

  /** The masked difference of two slot indices counts the positions between them, across the wrap of the word too. */
  lemma SlotDistance(from: nat, n: nat, cap: nat)
    requires IsPow2(cap) && n < cap <= WORD / 2
    ensures Slot(from, cap) < cap && Slot(from + n, cap) < cap
    ensures BitAnd(WordMinus(Slot(from + n, cap), Slot(from, cap)), cap - 1) == n
  {
    var k := Exponent(cap);
    WordIsPow2();
    if 64 < k { Pow2Monotone(64, k); }
    LowAdd(from, n, k);
    assert Slot(from, cap) == Low(from, k) && Slot(from + n, cap) == Low(from + n, k);
    LowDistance(Low(from, k), n, cap, k);
  }

  /** A ring is a power-of-two number of slots; positions count on for ever and are masked on access. */
  ghost predicate Ring<X>(r: seq<X>) {
    |r| >= 2 && IsPow2(|r|)
  }

  function Peek<X>(r: seq<X>, pos: nat): X
    requires Ring(r)
  {
    SlotInRange(pos, |r|);
    r[Slot(pos, |r|)]
  }

  function Poke<X>(r: seq<X>, pos: nat, x: X): (r': seq<X>)
    requires Ring(r)
    ensures |r'| == |r|
  {
    SlotInRange(pos, |r|);
    r[Slot(pos, |r|) := x]
  }

  /** A write reaches its own position and no other position less than a lap away. */
  lemma PokePeek<X>(r: seq<X>, pos: nat, x: X, q: nat)
    requires Ring(r) && q < pos + |r| && pos < q + |r|
    ensures Peek(Poke(r, pos, x), q) == if q == pos then x else Peek(r, q)
  {
    SlotInRange(pos, |r|);
    SlotInRange(q, |r|);
    if q != pos && Slot(q, |r|) == Slot(pos, |r|) {
      if q < pos { SharedSlot(q, pos, |r|); } else { SharedSlot(pos, q, |r|); }
    }
  }

  lemma PeekLap<X>(r: seq<X>, pos: nat)
    requires Ring(r)
    ensures Peek(r, pos + |r|) == Peek(r, pos)
  {
    SlotLap(pos, |r|);
  }

  lemma Pow2Monotone(j: nat, k: nat)
    requires j < k
    ensures 2 * Pow2(j) <= Pow2(k)
  {
    if j + 1 < k { Pow2Monotone(j, k - 1); }
  }

  const WORD := 0x1_0000_0000_0000_0000

  /** The doubling loop of both ring constructors. Requests above `2^63` shift the word to zero and never stop. */
  method RoundUpCapacity(request: nat) returns (c: nat)
    requires request <= WORD / 2
    ensures IsPow2(c) && 2 <= c < WORD && request <= c
    ensures forall d: nat :: IsPow2(d) && 2 <= d && request <= d ==> c <= d
  {
    c := 2;
    ghost var k := 1;
    assert Pow2(0) == 1;
    while c < request
      invariant k >= 1 && c == Pow2(k)
      invariant c == 2 || c / 2 < request
      invariant c < WORD
      decreases request - c
    {
      c := c * 2 % WORD;
      k := k + 1;
    }
    forall d: nat | IsPow2(d) && 2 <= d && request <= d
      ensures c <= d
    {
      var j: nat :| Pow2(j) == d;
      if j < k { Pow2Monotone(j, k); }
      if k < j { Pow2Monotone(k, j); }
    }
  }
}
