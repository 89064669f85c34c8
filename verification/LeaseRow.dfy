/** The one lease row many supervisors compete for: each SQL statement is one atomic step. */
module LeaseRows {
  import opened Common

  datatype Row = Row(owner: string, epoch: nat, expiresAtMs: int)

  type Table = Option<Row>

  /** The insert of `acquire`, with its conflict update. */
  function Upsert(table: Table, me: string, now: int, ttlMs: nat): Table {
    match table
    case None => Some(Row(me, 1, now + ttlMs))
    case Some(r) =>
      if r.expiresAtMs < now || r.owner == me then Some(Row(me, r.epoch + 1, now + ttlMs)) else table
  }

  predicate Holds(table: Table, me: string, epoch: nat) {
    table.Some? && table.value.owner == me && table.value.epoch == epoch
  }

  /** The update of `renew`. */
  function Extend(table: Table, me: string, epoch: nat, now: int, ttlMs: nat): Table {
    if Holds(table, me, epoch) then Some(table.value.(expiresAtMs := now + ttlMs)) else table
  }

  /** The delete of `release`. */
  function Remove(table: Table, me: string, epoch: nat): Table {
    if Holds(table, me, epoch) then None else table
  }

  predicate OwnedBy(table: Table, me: string) {
    table.Some? && table.value.owner == me
  }

  /** What a supervisor believes of itself. */
  datatype Belief = Belief(authority: bool, epoch: nat)

  /** `beliefs` names the workers; each has one supervisor. */
  datatype RState = RState(table: Table, clock: int, beliefs: map<string, Belief>)

  /** A statement carries the time its caller read and the epoch its caller loaded, either of which may be old. */
  datatype RAction =
    | Tick(clock: int)
    | AcquireUpsert(who: string, now: int, ttlMs: nat)
    | AcquireRead(who: string, answered: bool)
    | AcquireError(who: string)
    | RenewExtend(who: string, epoch: nat, now: int, ttlMs: nat)
    | RenewRead(who: string)
    | RenewError(who: string)
    | ReleaseRemove(who: string, epoch: nat)
    | ReleaseEnd(who: string)

  ghost predicate REnabled(s: RState, a: RAction) {
    match a
    case Tick(clock) => s.clock <= clock
    case AcquireUpsert(who, now, _) => who in s.beliefs && now <= s.clock
    case RenewExtend(who, _, now, _) => who in s.beliefs && now <= s.clock
    case _ => a.who in s.beliefs
  }

  ghost function Believe(s: RState, who: string, b: Belief): RState {
    s.(beliefs := s.beliefs[who := b])
  }

  ghost function RApply(s: RState, a: RAction): RState
    requires REnabled(s, a)
  {
    match a
    case Tick(clock) => s.(clock := clock)
    case AcquireUpsert(who, now, ttlMs) => s.(table := Upsert(s.table, who, now, ttlMs))
    case AcquireRead(who, answered) =>
      Believe(s, who, Belief(true, ReadBack(s.table, who, s.beliefs[who].epoch, answered)))
    case AcquireError(who) => Believe(s, who, s.beliefs[who].(authority := false))
    case RenewExtend(who, epoch, now, ttlMs) => s.(table := Extend(s.table, who, epoch, now, ttlMs))
    case RenewRead(who) => if OwnedBy(s.table, who) then s else Believe(s, who, s.beliefs[who].(authority := false))
    case RenewError(who) => Believe(s, who, s.beliefs[who].(authority := false))
    case ReleaseRemove(who, epoch) => s.(table := Remove(s.table, who, epoch))
    case ReleaseEnd(who) => Believe(s, who, s.beliefs[who].(authority := false))
  }

  /** The epoch `acquire` ends with: that of the row it reads back as its own, or else one more than it believed in. */
  function ReadBack(table: Table, me: string, epoch: nat, answered: bool): nat {
    if answered && OwnedBy(table, me) then table.value.epoch else epoch + 1
  }

  ghost predicate RLeads(s: RState, acts: seq<RAction>, t: RState)
    decreases |acts|
  {
    if acts == [] then s == t else REnabled(s, acts[0]) && RLeads(RApply(s, acts[0]), acts[1..], t)
  }

  lemma RStepAt(s: RState, acts: seq<RAction>, k: nat, t: RState)
    requires k < |acts| && REnabled(s, acts[k]) && RLeads(RApply(s, acts[k]), acts[k + 1..], t)
    ensures RLeads(s, acts[k..], t) && (k == 0 ==> RLeads(s, acts, t))
  {
    assert acts[k..][0] == acts[k] && acts[k..][1..] == acts[k + 1..];
    assert k == 0 ==> acts[k..] == acts;
  }

  /** Does no step of this run belong to `who`? */
  ghost predicate WithoutWorker(acts: seq<RAction>, who: string) {
    forall a <- acts :: a.Tick? || a.who != who
  }

  lemma {:induction false} ClockAdvances(s: RState, acts: seq<RAction>, t: RState)
    requires RLeads(s, acts, t)
    ensures s.clock <= t.clock
    decreases |acts|
  {
    if acts != [] { ClockAdvances(RApply(s, acts[0]), acts[1..], t); }
  }

  /** Whatever the other workers do, they leave a row alone for as long as it has not expired. */
  lemma {:induction false} UnexpiredRowIsSafe(s: RState, acts: seq<RAction>, t: RState, who: string)
    requires RLeads(s, acts, t) && WithoutWorker(acts, who)
    requires OwnedBy(s.table, who) && t.clock <= s.table.value.expiresAtMs
    ensures t.table == s.table
    decreases |acts|
  {
    if acts != [] {
      var s' := RApply(s, acts[0]);
      ClockAdvances(s, [acts[0]], s');
      ClockAdvances(s', acts[1..], t);
      UnexpiredRowIsSafe(s', acts[1..], t, who);
    }
  }

  /**
   * A worker that acquires and is never heard of again keeps the row for exactly `ttlMs`: until then every other
   * acquire leaves it alone, and the first one later takes it over, under the next epoch.
   */
  lemma CrashedOwnerIsReplaced(
      s: RState, who: string, now: int, ttlMs: nat, acts: seq<RAction>, t: RState, other: string, later: int, ttl: nat)
    requires REnabled(s, AcquireUpsert(who, now, ttlMs)) && other != who
    requires s.table.None? || s.table.value.expiresAtMs < now || s.table.value.owner == who
    requires RLeads(RApply(s, AcquireUpsert(who, now, ttlMs)), acts, t) && WithoutWorker(acts, who)
    requires OwnedBy(t.table, who) && REnabled(t, AcquireUpsert(other, later, ttl))
    ensures t.table.value.expiresAtMs == now + ttlMs
    ensures var table := RApply(t, AcquireUpsert(other, later, ttl)).table;
      if later > now + ttlMs then table == Some(Row(other, t.table.value.epoch + 1, later + ttl)) else table == t.table
  {
    OwnRowStays(RApply(s, AcquireUpsert(who, now, ttlMs)), acts, t, who);
  }

  lemma {:induction false} OwnRowStays(s: RState, acts: seq<RAction>, t: RState, who: string)
    requires RLeads(s, acts, t) && WithoutWorker(acts, who) && OwnedBy(t.table, who)
    ensures t.table == s.table
    decreases |acts|
  {
    if acts != [] { OwnRowStays(RApply(s, acts[0]), acts[1..], t, who); }
  }

  /** The row does not expire at any point of the run. */
  ghost predicate StaysFresh(s: RState, acts: seq<RAction>)
    decreases |acts|
  {
    && (s.table.Some? ==> s.clock <= s.table.value.expiresAtMs)
    && (acts != [] && REnabled(s, acts[0]) ==> StaysFresh(RApply(s, acts[0]), acts[1..]))
  }

  /** A worker that does nothing but renew, in time, keeps its row and its epoch whatever the others do. */
  lemma {:induction false} RenewedInTimeIsKept(s: RState, acts: seq<RAction>, t: RState, who: string, epoch: nat)
    requires RLeads(s, acts, t) && StaysFresh(s, acts) && Holds(s.table, who, epoch)
    requires forall a <- acts :: a.Tick? || a.who != who || a.RenewExtend? || a.RenewRead?
    ensures Holds(t.table, who, epoch)
    ensures who in s.beliefs && s.beliefs[who].authority ==> who in t.beliefs && t.beliefs[who].authority
    decreases |acts|
  {
    if acts != [] { RenewedInTimeIsKept(RApply(s, acts[0]), acts[1..], t, who, epoch); }
  }

  ghost predicate RStart(s: RState) {
    s.table.None? && forall w <- s.beliefs :: !s.beliefs[w].authority
  }

  // Epochs. They rise for as long as the row is there, and the only statement that removes it is a matching delete.

  /** No release of the run finds its own owner and epoch in the row. */
  ghost predicate NeverDeleted(s: RState, acts: seq<RAction>)
    decreases |acts|
  {
    acts != [] ==>
      && !(acts[0].ReleaseRemove? && Holds(s.table, acts[0].who, acts[0].epoch))
      && (REnabled(s, acts[0]) ==> NeverDeleted(RApply(s, acts[0]), acts[1..]))
  }

  /** There is a row in every state of the run. */
  ghost predicate AlwaysThere(s: RState, acts: seq<RAction>)
    decreases |acts|
  {
    s.table.Some? && (acts != [] && REnabled(s, acts[0]) ==> AlwaysThere(RApply(s, acts[0]), acts[1..]))
  }

  /** A row is there throughout exactly when no release deletes it. */
  lemma {:induction false} RowStaysIff(s: RState, acts: seq<RAction>, t: RState)
    requires RLeads(s, acts, t) && s.table.Some?
    ensures AlwaysThere(s, acts) <==> NeverDeleted(s, acts)
    decreases |acts|
  {
    if acts != [] && RApply(s, acts[0]).table.Some? { RowStaysIff(RApply(s, acts[0]), acts[1..], t); }
  }

  /** While no release deletes the row the epoch never falls, and it rises whenever the row changes hands. */
  lemma {:induction false} EpochsRise(s: RState, acts: seq<RAction>, t: RState)
    requires RLeads(s, acts, t) && NeverDeleted(s, acts) && s.table.Some?
    ensures t.table.Some? && t.table.value.epoch >= s.table.value.epoch
    ensures t.table.value.owner != s.table.value.owner ==> t.table.value.epoch > s.table.value.epoch
    decreases |acts|
  {
    if acts != [] { EpochsRise(RApply(s, acts[0]), acts[1..], t); }
  }

  /** Did this upsert write the row? */
  predicate Takes(table: Table, me: string, now: int) {
    table.None? || table.value.expiresAtMs < now || table.value.owner == me
  }

  /** Once the row has been acquired again, a renewal or release that still carries the old epoch does nothing. */
  lemma StaleEpochHasNoEffect(
      s: RState, who: string, now: int, ttlMs: nat, acts: seq<RAction>, t: RState, stale: nat, late: string)
    requires REnabled(s, AcquireUpsert(who, now, ttlMs)) && s.table.Some? && stale <= s.table.value.epoch
    requires Takes(s.table, who, now)
    requires var s' := RApply(s, AcquireUpsert(who, now, ttlMs)); RLeads(s', acts, t) && NeverDeleted(s', acts)
    ensures forall n, ttl :: Extend(t.table, late, stale, n, ttl) == t.table
    ensures Remove(t.table, late, stale) == t.table
  {
    EpochsRise(RApply(s, AcquireUpsert(who, now, ttlMs)), acts, t);
  }

  /** A release that deletes the row restarts them: after epochs 1 and 2 and a release, a renewal under 1 has effect. */
  lemma ReleaseRestartsEpochs() returns (s: RState, acts: seq<RAction>, t: RState, late: RAction)
    ensures RStart(s) && RLeads(s, acts, t) && ReleaseRemove("a", 2) in acts && Holds(t.table, "a", 1)
    ensures late == RenewExtend("a", 1, 0, 9000) && REnabled(t, late) && RApply(t, late).table != t.table
  {
    s := RState(None, 0, map["a" := Belief(false, 0)]);
    var acquire := AcquireUpsert("a", 0, 8000);
    acts, late := [acquire, acquire, ReleaseRemove("a", 2), acquire], RenewExtend("a", 1, 0, 9000);
    var s1 := RApply(s, acts[0]);
    var s2 := RApply(s1, acts[1]);
    var s3 := RApply(s2, acts[2]);
    t := RApply(s3, acts[3]);
    RStepAt(s3, acts, 3, t);
    RStepAt(s2, acts, 2, t);
    RStepAt(s1, acts, 1, t);
    RStepAt(s, acts, 0, t);
  }

  // Authority. An acquire claims it whatever its statement did.

  /** A step after which a row of `who` is no longer its own: another worker's upsert, or its own release. */
  predicate Loses(table: Table, a: RAction, who: string) {
    && OwnedBy(table, who)
    && (match a
        case AcquireUpsert(other, now, _) => other != who && table.value.expiresAtMs < now
        case ReleaseRemove(other, epoch) => other == who && table.value.epoch == epoch
        case _ => false)
  }

  ghost predicate NeverLost(s: RState, acts: seq<RAction>, who: string)
    decreases |acts|
  {
    acts != [] ==>
      && !Loses(s.table, acts[0], who)
      && (REnabled(s, acts[0]) ==> NeverLost(RApply(s, acts[0]), acts[1..], who))
  }

  ghost predicate NoAcquireOf(acts: seq<RAction>, who: string) {
    forall a <- acts :: a.AcquireUpsert? || a.AcquireRead? ==> a.who != who
  }

  /** A worker that acquires nothing owns the row at the end exactly when it did at the start and never lost it. */
  lemma {:induction false} OwnedIffNeverLost(s: RState, acts: seq<RAction>, t: RState, who: string)
    requires RLeads(s, acts, t) && NoAcquireOf(acts, who)
    ensures OwnedBy(t.table, who) <==> OwnedBy(s.table, who) && NeverLost(s, acts, who)
    decreases |acts|
  {
    if acts != [] { OwnedIffNeverLost(RApply(s, acts[0]), acts[1..], t, who); }
  }

  /**
   * The claim of an acquire, whatever runs between its statement and its read-back, renewals and releases of the
   * same worker included. The row backs the claim exactly when it was free, expired or the worker's own, was not lost
   * in between, and was read back, or else happens to be one epoch on from the last belief.
   */
  lemma AuthorityIsBackedIff(
      s: RState, who: string, now: int, ttlMs: nat, acts: seq<RAction>, u: RState, answered: bool)
    requires REnabled(s, AcquireUpsert(who, now, ttlMs)) && NoAcquireOf(acts, who)
    requires RLeads(RApply(s, AcquireUpsert(who, now, ttlMs)), acts, u) && REnabled(u, AcquireRead(who, answered))
    ensures var t := RApply(u, AcquireRead(who, answered));
      && t.beliefs[who].authority
      && (Holds(t.table, who, t.beliefs[who].epoch) <==>
            && Takes(s.table, who, now) && NeverLost(RApply(s, AcquireUpsert(who, now, ttlMs)), acts, who)
            && (answered || Holds(u.table, who, u.beliefs[who].epoch + 1)))
  {
    OwnedIffNeverLost(RApply(s, AcquireUpsert(who, now, ttlMs)), acts, u, who);
  }

  lemma {:induction false} InTimeNeverLost(s: RState, acts: seq<RAction>, t: RState, who: string)
    requires RLeads(s, acts, t) && WithoutWorker(acts, who)
    requires OwnedBy(s.table, who) && t.clock <= s.table.value.expiresAtMs
    ensures NeverLost(s, acts, who)
    decreases |acts|
  {
    if acts != [] {
      var s' := RApply(s, acts[0]);
      UnexpiredRowIsSafe(s, acts, t, who);
      ClockAdvances(s, [acts[0]], s');
      ClockAdvances(s', acts[1..], t);
      InTimeNeverLost(s', acts[1..], t, who);
    }
  }

  /** With only other workers in between, and the row read before it can expire, the claim is backed if it was taken. */
  lemma BackedWhenReadInTime(s: RState, who: string, now: int, ttlMs: nat, acts: seq<RAction>, u: RState)
    requires REnabled(s, AcquireUpsert(who, now, ttlMs)) && WithoutWorker(acts, who) && u.clock <= now + ttlMs
    requires RLeads(RApply(s, AcquireUpsert(who, now, ttlMs)), acts, u) && REnabled(u, AcquireRead(who, true))
    ensures var t := RApply(u, AcquireRead(who, true));
      Holds(t.table, who, t.beliefs[who].epoch) <==> Takes(s.table, who, now)
  {
    AuthorityIsBackedIff(s, who, now, ttlMs, acts, u, true);
    if Takes(s.table, who, now) { InTimeNeverLost(RApply(s, AcquireUpsert(who, now, ttlMs)), acts, u, who); }
  }

  /** Read later, it may be lost: the row was free, but it has expired and been taken before it is read back. */
  lemma LostBeforeTheRead() returns (s: RState, acts: seq<RAction>, t: RState)
    ensures RStart(s) && RLeads(s, acts, t) && AcquireUpsert("a", 0, 8000) in acts && Takes(s.table, "a", 0)
    ensures "a" in t.beliefs && t.beliefs["a"].authority && OwnedBy(t.table, "b")
  {
    s := RState(None, 0, map["a" := Belief(false, 0), "b" := Belief(false, 0)]);
    acts := [AcquireUpsert("a", 0, 8000), Tick(9000), AcquireUpsert("b", 9000, 8000), AcquireRead("a", true)];
    var s1 := RApply(s, acts[0]);
    var s2 := RApply(s1, acts[1]);
    var s3 := RApply(s2, acts[2]);
    t := RApply(s3, acts[3]);
    RStepAt(s3, acts, 3, t);
    RStepAt(s2, acts, 2, t);
    RStepAt(s1, acts, 1, t);
    RStepAt(s, acts, 0, t);
  }

  /**
   * A renewal verifies the owner only: with an epoch that was not read back it extends nothing and is taken for a
   * success.
   */
  lemma RenewedInVain() returns (s: RState, acts: seq<RAction>, t: RState)
    ensures RStart(s) && RLeads(s, acts, t) && t.beliefs == map["a" := Belief(true, 1)] && Holds(t.table, "a", 2)
    ensures forall now, ttl: nat :: REnabled(t, RenewExtend("a", 1, now, ttl)) ==>
              RApply(RApply(t, RenewExtend("a", 1, now, ttl)), RenewRead("a")) == t
  {
    s := RState(None, 0, map["a" := Belief(false, 0)]);
    acts := [AcquireUpsert("a", 0, 8000), AcquireError("a"), AcquireUpsert("a", 0, 8000), AcquireRead("a", false)];
    var s1 := RApply(s, acts[0]);
    var s2 := RApply(s1, acts[1]);
    var s3 := RApply(s2, acts[2]);
    t := RApply(s3, acts[3]);
    RStepAt(s3, acts, 3, t);
    RStepAt(s2, acts, 2, t);
    RStepAt(s1, acts, 1, t);
    RStepAt(s, acts, 0, t);
  }

  // One epoch, one worker.

  /** Every acquire of the run reads back a row of its own. */
  ghost predicate ReadsOwnRow(s: RState, acts: seq<RAction>)
    decreases |acts|
  {
    acts != [] ==>
      && (acts[0].AcquireRead? ==> acts[0].answered && OwnedBy(s.table, acts[0].who))
      && (REnabled(s, acts[0]) ==> ReadsOwnRow(RApply(s, acts[0]), acts[1..]))
  }

  /** `granted` is who the row belonged to under each epoch it has had. */
  ghost predicate Granted(s: RState, granted: map<nat, string>) {
    && (s.table.None? ==> granted == map[])
    && (s.table.Some? ==> s.table.value.epoch in granted && granted[s.table.value.epoch] == s.table.value.owner)
    && (s.table.Some? ==> forall e <- granted :: e <= s.table.value.epoch)
    && (forall w <- s.beliefs :: s.beliefs[w].authority ==>
          s.beliefs[w].epoch in granted && granted[s.beliefs[w].epoch] == w)
  }

  lemma {:induction false} GrantedFollows(s: RState, acts: seq<RAction>, t: RState, granted: map<nat, string>)
    returns (granted': map<nat, string>)
    requires RLeads(s, acts, t) && NeverDeleted(s, acts) && ReadsOwnRow(s, acts) && Granted(s, granted)
    ensures Granted(t, granted')
    decreases |acts|
  {
    granted' := granted;
    if acts != [] {
      var s' := RApply(s, acts[0]);
      var next := if s'.table.Some? then granted[s'.table.value.epoch := s'.table.value.owner] else granted;
      granted' := GrantedFollows(s', acts[1..], t, next);
    }
  }

  /** If every acquire reads back its own row and no release deletes it, two workers never share an epoch. */
  lemma OneAuthorityPerEpoch(s: RState, acts: seq<RAction>, t: RState, v: string, w: string)
    requires RStart(s) && RLeads(s, acts, t) && NeverDeleted(s, acts) && ReadsOwnRow(s, acts)
    requires v in t.beliefs && w in t.beliefs && t.beliefs[v].authority && t.beliefs[w].authority
    ensures t.beliefs[v].epoch == t.beliefs[w].epoch ==> v == w
  {
    var _ := GrantedFollows(s, acts, t, map[]);
  }

  /** Without the first condition it fails: the second acquire meets a live row and claims authority all the same. */
  lemma TwoAuthorities() returns (s: RState, acts: seq<RAction>, t: RState)
    ensures RStart(s) && RLeads(s, acts, t) && NeverDeleted(s, acts)
    ensures t.beliefs == map["a" := Belief(true, 1), "b" := Belief(true, 1)]
  {
    s := RState(None, 0, map["a" := Belief(false, 0), "b" := Belief(false, 0)]);
    acts := [AcquireUpsert("a", 0, 8000), AcquireRead("a", true), AcquireUpsert("b", 0, 8000), AcquireRead("b", true)];
    var s1 := RApply(s, acts[0]);
    var s2 := RApply(s1, acts[1]);
    var s3 := RApply(s2, acts[2]);
    t := RApply(s3, acts[3]);
    RStepAt(s3, acts, 3, t);
    RStepAt(s2, acts, 2, t);
    RStepAt(s1, acts, 1, t);
    RStepAt(s, acts, 0, t);
    assert NeverDeleted(s3, acts[3..]);
    assert NeverDeleted(s1, acts[1..]);
  }

  // An acquire that meets no row, up to its read-back.
  lemma AcquiredAlone(s: RState, who: string) returns (acts: seq<RAction>, t: RState)
    requires s.table.None? && who in s.beliefs && 0 <= s.clock
    ensures RLeads(s, acts, t) && ReadsOwnRow(s, acts)
    ensures t == RState(Some(Row(who, 1, 8000)), s.clock, s.beliefs[who := Belief(true, 1)])
  {
    acts := [AcquireUpsert(who, 0, 8000), AcquireRead(who, true)];
    var s1 := RApply(s, acts[0]);
    t := RApply(s1, acts[1]);
    RStepAt(s1, acts, 1, t);
    RStepAt(s, acts, 0, t);
    assert ReadsOwnRow(s1, acts[1..]);
  }

  lemma {:induction false} RLeadsOn(s: RState, first: seq<RAction>, t: RState, second: seq<RAction>, u: RState)
    requires RLeads(s, first, t) && RLeads(t, second, u)
    ensures RLeads(s, first + second, u)
    ensures ReadsOwnRow(s, first) && ReadsOwnRow(t, second) ==> ReadsOwnRow(s, first + second)
    decreases |first|
  {
    if first == [] {
      assert first + second == second;
    } else {
      assert (first + second)[0] == first[0] && (first + second)[1..] == first[1..] + second;
      RLeadsOn(RApply(s, first[0]), first[1..], t, second, u);
    }
  }

  /** Nor without the second: the row is deleted before its owner drops its authority, and epoch 1 comes again. */
  lemma TwoAuthoritiesByRelease() returns (s: RState, acts: seq<RAction>, t: RState)
    ensures RStart(s) && RLeads(s, acts, t) && ReadsOwnRow(s, acts)
    ensures t.beliefs == map["a" := Belief(true, 1), "b" := Belief(true, 1)]
  {
    s := RState(None, 0, map["a" := Belief(false, 0), "b" := Belief(false, 0)]);
    var first, u := AcquiredAlone(s, "a");
    var release := ReleaseRemove("a", 1);
    var v := RApply(u, release);
    RStepAt(u, [release], 0, v);
    var second, w := AcquiredAlone(v, "b");
    RLeadsOn(u, [release], v, second, w);
    RLeadsOn(s, first, u, [release] + second, w);
    acts, t := first + ([release] + second), w;
  }

  class LeaseTable {
    var row: Table

    constructor ()
      ensures row == None
    {
      row := None;
    }

    method Acquire(me: string, now: int, ttlMs: nat)
      modifies this
      ensures row == Upsert(old(row), me, now, ttlMs)
      ensures old(row).None? ==> row == Some(Row(me, 1, now + ttlMs))
      ensures old(row).Some? && (old(row).value.expiresAtMs < now || old(row).value.owner == me) ==>
                row == Some(Row(me, old(row).value.epoch + 1, now + ttlMs))
      ensures old(row).Some? && now <= old(row).value.expiresAtMs && old(row).value.owner != me ==> row == old(row)
    {
      if row.None? {
        row := Some(Row(me, 1, now + ttlMs));
      } else if row.value.expiresAtMs < now || row.value.owner == me {
        row := Some(Row(me, row.value.epoch + 1, now + ttlMs));
      }
    }

    method Renew(me: string, epoch: nat, now: int, ttlMs: nat)
      modifies this
      ensures row == Extend(old(row), me, epoch, now, ttlMs)
      ensures old(row).Some? && old(row).value.owner == me && old(row).value.epoch == epoch ==>
                row == Some(Row(me, epoch, now + ttlMs))
      ensures old(row).None? || old(row).value.owner != me || old(row).value.epoch != epoch ==> row == old(row)
    {
      if row.Some? && row.value.owner == me && row.value.epoch == epoch {
        row := Some(row.value.(expiresAtMs := now + ttlMs));
      }
    }

    method Delete(me: string, epoch: nat)
      modifies this
      ensures row == Remove(old(row), me, epoch)
      ensures old(row).Some? && old(row).value.owner == me && old(row).value.epoch == epoch ==> row == None
      ensures old(row).None? || old(row).value.owner != me || old(row).value.epoch != epoch ==> row == old(row)
    {
      if row.Some? && row.value.owner == me && row.value.epoch == epoch { row := None; }
    }
  }

  datatype RenewResult = Renewed | NoAuthority | StatementFailed | OwnershipLost

  /** A supervisor on a PostgreSQL table. The flags say which statements the database answered. */
  class LiveSupervisor {
    const table: LeaseTable
    const workerId: string
    const ttlMs: nat
    var hasAuthority: bool
    var epoch: nat
    var renewals: nat

    constructor (table: LeaseTable, workerId: string, ttlMs: nat)
      ensures this.table == table && this.workerId == workerId && this.ttlMs == ttlMs
      ensures !hasAuthority && epoch == 0 && renewals == 0
    {
      this.table, this.workerId, this.ttlMs := table, workerId, ttlMs;
      hasAuthority, epoch, renewals := false, 0, 0;
    }

    ghost predicate Backed()
      reads this, table
    {
      hasAuthority && Holds(table.row, workerId, epoch)
    }

    method Acquire(now: int, statementOk: bool, readOk: bool) returns (ok: bool)
      modifies this, table
      ensures ok == statementOk == hasAuthority
      ensures table.row == if statementOk then Upsert(old(table.row), workerId, now, ttlMs) else old(table.row)
      ensures !ok ==> epoch == old(epoch)
      ensures ok ==> epoch == if readOk && table.row.Some? && table.row.value.owner == workerId
                              then table.row.value.epoch else old(epoch) + 1
      ensures ok && readOk ==> (Backed() <==> Takes(old(table.row), workerId, now))
      ensures renewals == old(renewals)
    {
      if !statementOk {
        hasAuthority := false;
        return false;
      }
      table.Acquire(workerId, now, ttlMs);
      if readOk && table.row.Some? && table.row.value.owner == workerId {
        epoch := table.row.value.epoch;
      } else {
        epoch := epoch + 1;
      }
      hasAuthority := true;
      return true;
    }

    /** A renewal that succeeds found its own worker as owner; it extends the row only at the supervisor's own epoch. */
    method Renew(now: int, statementOk: bool, readOk: bool) returns (r: RenewResult)
      modifies this, table
      ensures r == NoAuthority <==> !old(hasAuthority)
      ensures r == Renewed ==> OwnedBy(table.row, workerId) && hasAuthority
      ensures old(hasAuthority) && statementOk && readOk ==> (r == Renewed <==> OwnedBy(old(table.row), workerId))
      ensures r in {StatementFailed, OwnershipLost} ==> !hasAuthority
      ensures table.row == if old(hasAuthority) && statementOk
                           then Extend(old(table.row), workerId, epoch, now, ttlMs) else old(table.row)
      ensures old(Backed()) && statementOk && readOk ==> Backed() && table.row.value.expiresAtMs == now + ttlMs
      ensures epoch == old(epoch) && renewals == old(renewals) + if r == Renewed then 1 else 0
    {
      if !hasAuthority { return NoAuthority; }
      if !statementOk {
        hasAuthority := false;
        return StatementFailed;
      }
      table.Renew(workerId, epoch, now, ttlMs);
      if !readOk || table.row.None? || table.row.value.owner != workerId {
        hasAuthority := false;
        return OwnershipLost;
      }
      renewals := renewals + 1;
      return Renewed;
    }

    method Release(statementOk: bool)
      modifies this, table
      ensures !hasAuthority && epoch == old(epoch) && renewals == old(renewals)
      ensures table.row == if statementOk then Remove(old(table.row), workerId, epoch) else old(table.row)
    {
      if statementOk { table.Delete(workerId, epoch); }
      hasAuthority := false;
    }
  }
}
