/** Crash events and the strings that identify them in the duplicate checks. */
module Events {

  datatype EventKind =
    | Unknown | Progress | Start | End | Prepare | BetsOpen | BetsClosed | Heartbeat | Connect | Disconnect | Error

  datatype CrashEvent = CrashEvent(
    kind: EventKind, roundId: string, gameId: string, crashPoint: real, sequence: nat, elapsedMs: int,
    routedAtNs: int, valid: bool)

  function KindNumber(kind: EventKind): nat {
    match kind
    case Unknown => 0
    case Progress => 1
    case Start => 2
    case End => 3
    case Prepare => 4
    case BetsOpen => 5
    case BetsClosed => 6
    case Heartbeat => 7
    case Connect => 8
    case Disconnect => 9
    case Error => 10
  }

  /** `std::to_string`. */
  function Decimal(n: int): string
    decreases if n < 0 then 1 - n else n
  {
    if n < 0 then "-" + Decimal(-n)
    else if n < 10 then ["0123456789"[n]]
    else Decimal(n / 10) + ["0123456789"[n % 10]]
  }

  /** The router's dedupe key. */
  function RouterKey(ev: CrashEvent): string {
    ev.gameId + ":" + Decimal(KindNumber(ev.kind)) + ":" + Decimal(ev.sequence)
  }

  function FilterId(ev: CrashEvent): string {
    if ev.gameId != "" then ev.gameId else ev.roundId
  }

  /** `DuplicateFilter::makeKey`. */
  function FilterKey(ev: CrashEvent): string {
    FilterId(ev) + ":" + Decimal(KindNumber(ev.kind)) + ":" + Decimal(ev.sequence) + ":" + Decimal(ev.elapsedMs)
  }

  predicate Plain(s: string, digitsOnly: bool) {
    s != "" && forall i :: 0 <= i < |s| ==> s[i] != ':' && (digitsOnly ==> s[i] != '-')
  }

  lemma DigitIsPlain(d: nat)
    requires d < 10
    ensures "0123456789"[d] != ':' && "0123456789"[d] != '-'
  {
  }

  lemma {:induction false} DecimalOfNatIsPlain(n: nat)
    ensures Plain(Decimal(n), true)
  {
    DigitIsPlain(n % 10);
    if n >= 10 { DecimalOfNatIsPlain(n / 10); }
  }

  lemma DecimalIsPlain(n: int)
    ensures ':' !in Decimal(n) && Decimal(n) != "" && (n >= 0 ==> '-' !in Decimal(n))
  {
    DecimalOfNatIsPlain(if n < 0 then -n else n);
    assert Plain(Decimal(n), n >= 0);
  }

  lemma {:induction false} DecimalOfNatIsUnique(m: nat, n: nat)
    requires Decimal(m) == Decimal(n)
    ensures m == n
  {
    var s, t := Decimal(m), Decimal(n);
    DecimalIsPlain(m / 10);
    DecimalIsPlain(n / 10);
    assert s[|s| - 1] == "0123456789"[m % 10] && t[|t| - 1] == "0123456789"[n % 10];
    if m >= 10 && n >= 10 {
      assert s[..|s| - 1] == Decimal(m / 10) && t[..|t| - 1] == Decimal(n / 10);
      DecimalOfNatIsUnique(m / 10, n / 10);
    }
  }

  lemma DecimalSign(n: int)
    ensures Decimal(n) != "" && (Decimal(n)[0] == '-' <==> n < 0)
    ensures n < 0 ==> Decimal(n)[1..] == Decimal(-n)
  {
    DecimalIsPlain(n);
    if n < 0 { assert Decimal(n) == "-" + Decimal(-n); }
  }

  lemma DecimalIsUnique(m: int, n: int)
    requires Decimal(m) == Decimal(n)
    ensures m == n
  {
    DecimalSign(m);
    DecimalSign(n);
    if m < 0 { DecimalOfNatIsUnique(-m, -n); } else { DecimalOfNatIsUnique(m, n); }
  }

  // The last colon is found again, whatever stands before it.
  lemma SplitsAtLastColon(a: string, x: string, b: string, y: string)
    requires a + ":" + x == b + ":" + y && ':' !in x && ':' !in y
    ensures a == b && x == y
  {
    var s := a + ":" + x;
    assert s[|a|] == ':' && s[|b|] == ':';
    assert forall i :: |a| < i < |s| ==> s[i] == x[i - |a| - 1];
    assert forall i :: |b| < i < |s| ==> s[i] == y[i - |b| - 1];
    assert |a| == |b|;
    assert s[..|a|] == a && s[..|b|] == b && s[|a| + 1..] == x && s[|b| + 1..] == y;
  }

  /** Two events share a router key only if they share game, kind and sequence number. */
  lemma RouterKeyIdentifies(e: CrashEvent, f: CrashEvent)
    ensures RouterKey(e) == RouterKey(f) <==> e.gameId == f.gameId && e.kind == f.kind && e.sequence == f.sequence
  {
    if RouterKey(e) == RouterKey(f) {
      DecimalIsPlain(e.sequence);
      DecimalIsPlain(f.sequence);
      SplitsAtLastColon(e.gameId + ":" + Decimal(KindNumber(e.kind)), Decimal(e.sequence),
                        f.gameId + ":" + Decimal(KindNumber(f.kind)), Decimal(f.sequence));
      DecimalIsUnique(e.sequence, f.sequence);
      SameKind(e.gameId, e.kind, f.gameId, f.kind);
    }
  }

  lemma SameKind(a: string, k: EventKind, b: string, l: EventKind)
    requires a + ":" + Decimal(KindNumber(k)) == b + ":" + Decimal(KindNumber(l))
    ensures a == b && k == l
  {
    DecimalIsPlain(KindNumber(k));
    DecimalIsPlain(KindNumber(l));
    SplitsAtLastColon(a, Decimal(KindNumber(k)), b, Decimal(KindNumber(l)));
    DecimalIsUnique(KindNumber(k), KindNumber(l));
  }

  /** Two events share a filter key only if they share id (of the game, or else the round), kind, number and time. */
  lemma FilterKeyIdentifies(e: CrashEvent, f: CrashEvent)
    ensures FilterKey(e) == FilterKey(f) <==>
              && (if e.gameId != "" then e.gameId else e.roundId) == (if f.gameId != "" then f.gameId else f.roundId)
              && e.kind == f.kind && e.sequence == f.sequence && e.elapsedMs == f.elapsedMs
  {
    if FilterKey(e) == FilterKey(f) {
      var p, q := FilterId(e) + ":" + Decimal(KindNumber(e.kind)), FilterId(f) + ":" + Decimal(KindNumber(f.kind));
      DecimalIsPlain(e.elapsedMs);
      DecimalIsPlain(f.elapsedMs);
      DecimalIsPlain(e.sequence);
      DecimalIsPlain(f.sequence);
      SplitsAtLastColon(p + ":" + Decimal(e.sequence), Decimal(e.elapsedMs),
                        q + ":" + Decimal(f.sequence), Decimal(f.elapsedMs));
      DecimalIsUnique(e.elapsedMs, f.elapsedMs);
      SplitsAtLastColon(p, Decimal(e.sequence), q, Decimal(f.sequence));
      DecimalIsUnique(e.sequence, f.sequence);
      SameKind(FilterId(e), e.kind, FilterId(f), f.kind);
    }
  }
}
