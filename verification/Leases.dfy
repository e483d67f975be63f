/**
 * The lease manager: provisioning against budgets, the lease clock, the idle reaper and the reconcile pass.
 * Operations run one at a time; the outcomes of provider calls are parameters.
 */
module Leases {
  import opened Options
  import opened Budgets
  import opened Spending
  import opened Teardowns
  import opened Idleness

  datatype Instance = Instance(provider: string, id: string)

  /** How a provider answers a destroy: with an error, or after `took` seconds of polling, verified gone or not. */
  datatype Outcome = Refused | Accepted(gone: bool, took: real)

  /** How a provider answers a request to rent, and whether it would destroy the instance again if asked at once. */
  datatype Rental = NoRental | Rental(worker: WorkerId, id: string, priceHr: real, took: real, destroyable: bool)

  function InstanceOf(l: Lease): Instance {
    Instance(l.provider, l.instance)
  }

  predicate Owned(leases: seq<Lease>, x: Instance) {
    exists l :: l in leases && IsLive(l) && InstanceOf(l) == x
  }

  function Later(now: real, took: real): real {
    if took > 0.0 then now + took else now
  }

  predicate UniqueInstances(leases: seq<Lease>) {
    forall i, j :: 0 <= i < j < |leases| && IsLive(leases[i]) && IsLive(leases[j])
      ==> InstanceOf(leases[i]) != InstanceOf(leases[j])
  }

  /** A live lease after the clock has looked at it at time `now`. */
  function ClockRow(l: Lease, now: real): Lease {
    if !IsLive(l) then l
    else if now - l.startedAt >= WallSecs(l) then l.(state := Destroyed)
    else if l.state == Active && now - l.startedAt >= DrainSecs(l) then l.(state := Draining)
    else l
  }

  /** The clock has dealt with the first `upTo` rows and not with the others. */
  predicate WalledUpTo(before: seq<Lease>, rows: seq<Lease>, now: real, upTo: nat) {
    && |rows| == |before| && upTo <= |rows|
    && (forall j :: 0 <= j < upTo ==> rows[j] == ClockRow(before[j], now))
    && (forall j :: upTo <= j < |rows| ==> rows[j] == before[j])
  }

  lemma WalledAll(before: seq<Lease>, rows: seq<Lease>, now: real, upTo: nat)
    requires WalledUpTo(before, rows, now, upTo)
    ensures forall j :: 0 <= j < upTo ==> AtTheWalls(before[j], rows[j], now)
  {
    forall j | 0 <= j < upTo
      ensures AtTheWalls(before[j], rows[j], now)
    {
      ClockRowAtTheWalls(before[j], now);
    }
  }

  lemma WalledStep(before: seq<Lease>, rows: seq<Lease>, now: real, i: nat, l: Lease)
    requires WalledUpTo(before, rows, now, i) && i < |rows| && l == ClockRow(rows[i], now)
    ensures WalledUpTo(before, rows[i := l], now, i + 1)
    ensures l == rows[i] ==> WalledUpTo(before, rows, now, i + 1)
  {
  }

  /**
   * What the clock may make of a lease, in minutes: at its wall, when the minutes granted are over, a live lease is
   * destroyed; short of it an active one drains if and only if no more than its drain window is left of them.
   */
  predicate AtTheWalls(was: Lease, row: Lease, now: real) {
    var granted, elapsed := was.grantedMin + Minutes(was.extensions), now - was.startedAt;
    && row == was.(state := row.state)
    && (was.state == Destroyed ==> row.state == Destroyed)
    && (was.state != Destroyed ==> (row.state == Destroyed <==> elapsed >= 60.0 * granted))
    && (was.state == Draining && elapsed < 60.0 * granted ==> row.state == Draining)
    && (was.state == Active && elapsed < 60.0 * granted ==>
          (row.state == Draining <==> elapsed >= 60.0 * (granted - was.drainWindowMin) && elapsed >= 0.0))
  }

  lemma ClockRowAtTheWalls(l: Lease, now: real)
    ensures AtTheWalls(l, ClockRow(l, now), now)
  {
    LeaseInMinutes(l);
  }

  /** What a whole pass may make of it: the same, or an active lease short of its drain point whose worker was idle has been reaped. */
  predicate AfterPass(was: Lease, row: Lease, now: real, queueEmpty: bool, free: set<WorkerId>) {
    var granted, elapsed := was.grantedMin + Minutes(was.extensions), now - was.startedAt;
    || AtTheWalls(was, row, now)
    || (&& row == was.(state := Destroyed) && was.state == Active && queueEmpty && was.worker in free
        && elapsed < 60.0 * granted && (elapsed < 60.0 * (granted - was.drainWindowMin) || elapsed < 0.0))
  }

  lemma PassedRow(l: Lease, now: real, idleSince: map<WorkerId, real>, at: real, threshold: real, queueEmpty: bool, free: set<WorkerId>)
    ensures AfterPass(l, ReapRow(ClockRow(l, now), idleSince, at, threshold, queueEmpty, free), now, queueEmpty, free)
  {
    LeaseInMinutes(l);
  }

  predicate PastWall(l: Lease, now: real) {
    IsLive(l) && now - l.startedAt >= WallSecs(l)
  }

  predicate Idle(l: Lease, queueEmpty: bool, free: set<WorkerId>) {
    queueEmpty && l.state == Active && l.worker in free
  }

  function IdleWorkers(leases: seq<Lease>, queueEmpty: bool, free: set<WorkerId>): set<WorkerId> {
    set l | l in leases && Idle(l, queueEmpty, free) :: l.worker
  }

  function Since(l: Lease, idleSince: map<WorkerId, real>, now: real): real {
    if l.worker in idleSince then idleSince[l.worker] else now
  }

  /** Idle at this pass and for at least `threshold` since its entry was made. */
  predicate Due(l: Lease, idleSince: map<WorkerId, real>, now: real, threshold: real, queueEmpty: bool, free: set<WorkerId>) {
    Idle(l, queueEmpty, free) && now - Since(l, idleSince, now) >= threshold
  }

  /** Row `i` replaced by one of the same worker and instance. */
  lemma ReviseUnique(leases: seq<Lease>, i: nat, l: Lease)
    requires UniqueWorkers(leases) && UniqueInstances(leases) && i < |leases|
    requires l.worker == leases[i].worker && InstanceOf(l) == InstanceOf(leases[i])
    requires IsLive(l) ==> IsLive(leases[i])
    ensures UniqueWorkers(leases[i := l]) && UniqueInstances(leases[i := l])
  {
  }

  lemma OneRow(leases: seq<Lease>, i: nat)
    requires UniqueWorkers(leases) && i < |leases|
    ensures forall l :: l in leases && l.worker == leases[i].worker ==> l == leases[i]
  {
  }

  // ---------------------------------------------------------------------
  // The idle map
  // ---------------------------------------------------------------------

  predicate LiveWorker(leases: seq<Lease>, w: WorkerId) {
    exists l :: l in leases && IsLive(l) && l.worker == w
  }

  /** The idle map holds exactly the live workers in an idle streak, each with the time of the first pass of its streak. */
  ghost predicate Tracks(leases: seq<Lease>, idleSince: map<WorkerId, real>, passes: seq<Pass>) {
    && (forall w :: w in idleSince ==> StreakStart(passes, w) == Some(idleSince[w]) && LiveWorker(leases, w))
    && (forall l :: l in leases && IsLive(l) && StreakStart(passes, l.worker).Some? ==> l.worker in idleSince)
    && (forall w :: StreakStart(passes, w).Some? ==> HasRow(leases, w))
  }

  lemma TracksRevised(leases: seq<Lease>, idleSince: map<WorkerId, real>, passes: seq<Pass>, i: nat, l: Lease)
    requires Tracks(leases, idleSince, passes) && UniqueWorkers(leases) && i < |leases|
    requires l.worker == leases[i].worker && (IsLive(l) ==> IsLive(leases[i]))
    ensures Tracks(leases[i := l], if IsLive(l) then idleSince else idleSince - {l.worker}, passes)
  {
    var rows, entries := leases[i := l], if IsLive(l) then idleSince else idleSince - {l.worker};
    forall w | HasRow(leases, w)
      ensures HasRow(rows, w)
    {
      var j :| 0 <= j < |leases| && leases[j].worker == w;
      assert rows[j] in rows;
    }
    forall w | w in entries
      ensures LiveWorker(rows, w)
    {
      var j :| 0 <= j < |leases| && IsLive(leases[j]) && leases[j].worker == w;
      assert rows[j] in rows;
    }
    forall m | m in rows && IsLive(m) && StreakStart(passes, m.worker).Some?
      ensures m.worker in entries
    {
      var j :| 0 <= j < |rows| && rows[j] == m;
      assert leases[j] in leases;
    }
  }

  lemma TracksAppended(leases: seq<Lease>, idleSince: map<WorkerId, real>, passes: seq<Pass>, l: Lease)
    requires Tracks(leases, idleSince, passes) && !HasRow(leases, l.worker)
    ensures Tracks(leases + [l], idleSince, passes)
  {
    forall w | HasRow(leases, w)
      ensures HasRow(leases + [l], w)
    {
      var m :| m in leases && m.worker == w;
      assert m in leases + [l];
    }
    forall w | LiveWorker(leases, w)
      ensures LiveWorker(leases + [l], w)
    {
      var m :| m in leases && IsLive(m) && m.worker == w;
      assert m in leases + [l];
    }
  }

  // ---------------------------------------------------------------------
  // The ledger
  // ---------------------------------------------------------------------

  lemma DeadRevised(leases: seq<Lease>, i: nat, l: Lease)
    requires i < |leases| && l.worker == leases[i].worker && (IsLive(l) ==> IsLive(leases[i]))
    ensures DeadWorkers(leases[i := l]) == DeadWorkers(leases) + if IsLive(l) then {} else {l.worker}
  {
    var after := leases[i := l];
    forall m | m in leases && !IsLive(m)
      ensures m.worker in DeadWorkers(after)
    {
      var j :| 0 <= j < |leases| && leases[j] == m;
      assert after[j] in after && !IsLive(after[j]) && after[j].worker == m.worker;
    }
    forall m | m in after && !IsLive(m)
      ensures m.worker in DeadWorkers(leases) + if IsLive(l) then {} else {l.worker}
    {
      var j :| 0 <= j < |after| && after[j] == m;
      assert j != i ==> leases[j] in leases;
    }
    assert after[i] in after;
  }

  lemma DeadAppended(leases: seq<Lease>, l: Lease)
    requires IsLive(l)
    ensures DeadWorkers(leases + [l]) == DeadWorkers(leases)
  {
  }

  lemma EndedAppended(ledger: seq<LedgerEntry>, e: LedgerEntry)
    ensures EndedWorkers(ledger + [e]) == EndedWorkers(ledger) + if e.event.LeaseEnd? then {e.worker} else {}
  {
    assert e in ledger + [e];
  }

  /** One row per worker, live leases on different instances, and an idle map that tells the truth. */
  ghost predicate Consistent(leases: seq<Lease>, idleSince: map<WorkerId, real>, passes: seq<Pass>) {
    UniqueWorkers(leases) && UniqueInstances(leases) && Tracks(leases, idleSince, passes)
  }

  lemma RevisedConsistent(leases: seq<Lease>, idleSince: map<WorkerId, real>, passes: seq<Pass>, i: nat, l: Lease)
    requires i < |leases| && l.worker == leases[i].worker && InstanceOf(l) == InstanceOf(leases[i])
    requires IsLive(l) ==> IsLive(leases[i])
    ensures Consistent(leases, idleSince, passes) ==>
              Consistent(leases[i := l], if IsLive(l) then idleSince else idleSince - {l.worker}, passes)
  {
    if Consistent(leases, idleSince, passes) {
      ReviseUnique(leases, i, l);
      TracksRevised(leases, idleSince, passes, i, l);
    }
  }

  lemma AppendedConsistent(leases: seq<Lease>, idleSince: map<WorkerId, real>, passes: seq<Pass>, l: Lease)
    requires Consistent(leases, idleSince, passes) && !HasRow(leases, l.worker) && !Owned(leases, InstanceOf(l))
    ensures Consistent(leases + [l], idleSince, passes)
  {
    TracksAppended(leases, idleSince, passes, l);
  }

  /** Rows, idle map and passes fit together, and so do rows and ledger. */
  ghost predicate Coherent(leases: seq<Lease>, ledger: seq<LedgerEntry>, idleSince: map<WorkerId, real>, passes: seq<Pass>) {
    Consistent(leases, idleSince, passes) && Booked(leases, ledger)
  }

  lemma CoherentAppend(leases: seq<Lease>, ledger: seq<LedgerEntry>, idleSince: map<WorkerId, real>, passes: seq<Pass>, l: Lease)
    requires Coherent(leases, ledger, idleSince, passes) && !HasRow(leases, l.worker) && !Owned(leases, InstanceOf(l)) && IsLive(l)
    ensures Coherent(leases + [l], ledger + [StartEntry(l)], idleSince, passes)
  {
    AppendedConsistent(leases, idleSince, passes, l);
    DeadAppended(leases, l);
    EndedAppended(ledger, StartEntry(l));
    TalliedStarted(leases, ledger, l);
  }

  /** A dead lease's worker has no idle entry. */
  lemma DeadNotIdle(leases: seq<Lease>, idleSince: map<WorkerId, real>, passes: seq<Pass>, i: nat)
    requires Consistent(leases, idleSince, passes) && i < |leases| && !IsLive(leases[i])
    ensures idleSince - {leases[i].worker} == idleSince
  {
    assert leases[i].worker in idleSince ==> LiveWorker(leases, leases[i].worker);
  }

  lemma CoherentExtend(
      leases: seq<Lease>, ledger: seq<LedgerEntry>, idleSince: map<WorkerId, real>, passes: seq<Pass>, i: nat, minutes: real, now: real)
    requires Coherent(leases, ledger, idleSince, passes) && i < |leases|
    ensures Coherent(leases[i := Extended(leases[i], minutes, now)], ledger + [ExtendEntry(leases[i], minutes, now)],
                     if IsLive(leases[i]) then idleSince else idleSince - {leases[i].worker}, passes)
  {
    RevisedConsistent(leases, idleSince, passes, i, Extended(leases[i], minutes, now));
    DeadRevised(leases, i, Extended(leases[i], minutes, now));
    EndedAppended(ledger, ExtendEntry(leases[i], minutes, now));
    ExtendedPrice(leases[i], minutes, now);
    TalliedNoted(leases, ledger, i, Extended(leases[i], minutes, now), ExtendEntry(leases[i], minutes, now));
    assert !IsLive(leases[i]) ==> leases[i] in leases && leases[i].worker in DeadWorkers(leases);
  }

  lemma CoherentDrain(leases: seq<Lease>, ledger: seq<LedgerEntry>, idleSince: map<WorkerId, real>, passes: seq<Pass>, i: nat)
    requires i < |leases| && IsLive(leases[i])
    ensures Coherent(leases, ledger, idleSince, passes) ==>
              Coherent(leases[i := leases[i].(state := Draining)], ledger, idleSince, passes)
  {
    RevisedConsistent(leases, idleSince, passes, i, leases[i].(state := Draining));
    DeadRevised(leases, i, leases[i].(state := Draining));
    if Tallied(leases, ledger) {
      TalliedRevised(leases, ledger, i, leases[i].(state := Draining));
    }
  }

  lemma CoherentClose(leases: seq<Lease>, ledger: seq<LedgerEntry>, idleSince: map<WorkerId, real>, passes: seq<Pass>, i: nat, now: real)
    requires i < |leases|
    ensures Coherent(leases, ledger, idleSince, passes) ==>
              Coherent(leases[i := leases[i].(state := Destroyed)], ledger + [EndEntry(leases[i], now)], idleSince - {leases[i].worker}, passes)
  {
    RevisedConsistent(leases, idleSince, passes, i, leases[i].(state := Destroyed));
    DeadRevised(leases, i, leases[i].(state := Destroyed));
    EndedAppended(ledger, EndEntry(leases[i], now));
    if Tallied(leases, ledger) {
      TalliedNoted(leases, ledger, i, leases[i].(state := Destroyed), EndEntry(leases[i], now));
    }
  }

  /** A teardown keeps rows, idle map and ledger fitting together unless it brings a dead lease back. */
  lemma CoherentTornDown(
      leases: seq<Lease>, ledger: seq<LedgerEntry>, idleSince: map<WorkerId, real>, passes: seq<Pass>, i: nat,
      drainFirst: bool, accepted: bool, now: real)
    requires Coherent(leases, ledger, idleSince, passes) && i < |leases|
    requires accepted || !drainFirst || IsLive(leases[i])
    ensures var books := TornDown(leases, ledger, i, drainFirst, accepted, now);
            Coherent(books.0, books.1, if accepted then idleSince - {leases[i].worker} else idleSince, passes)
  {
    if accepted {
      CoherentClose(leases, ledger, idleSince, passes, i, now);
    } else if drainFirst {
      CoherentDrain(leases, ledger, idleSince, passes, i);
    }
  }

  /** Time passes and then a harmless teardown takes effect. */
  lemma KeepTornDown(
      budgets: seq<Budget>, leases: seq<Lease>, ledger: seq<LedgerEntry>, i: nat, drainFirst: bool, accepted: bool, was: real, now: real)
    requires Tallied(leases, ledger) && i < |leases| && was <= now
    ensures (Kept(budgets, ledger, leases, was) && Harmless(leases[i], drainFirst, accepted, now)
             ==> KeptAfter(budgets, TornDown(leases, ledger, i, drainFirst, accepted, now), now))
  {
    if Kept(budgets, ledger, leases, was) && Harmless(leases[i], drainFirst, accepted, now) {
      KeepAdvance(budgets, ledger, leases, was, now);
      HarmlessKeeps(budgets, leases, ledger, i, drainFirst, accepted, now);
    }
  }

  predicate ConfirmedGone(outcome: Outcome) {
    outcome.Accepted? && outcome.gone
  }

  /**
   * Rows keep their workers and instances, no lease comes back, every instance that went is one no live lease owns,
   * and the instance of every closed lease that was confirmed gone went.
   */
  predicate OnlyClosed(
      before: seq<Lease>, after: seq<Lease>, billed: set<Instance>, left: set<Instance>, outcomes: WorkerId -> Outcome)
  {
    && |before| == |after| && left <= billed
    && (forall j :: 0 <= j < |after| ==> after[j].worker == before[j].worker)
    && (forall j :: 0 <= j < |after| && IsLive(before[j]) && !IsLive(after[j]) && ConfirmedGone(outcomes(before[j].worker)) ==>
          InstanceOf(before[j]) !in left)
    && (forall j :: 0 <= j < |after| ==> InstanceOf(after[j]) == InstanceOf(before[j]) && (IsLive(after[j]) ==> IsLive(before[j])))
    && (forall x :: x in billed && x !in left ==> !Owned(after, x))
  }

  /** All that has been added to the ledger closes leases, at times between these two. */
  predicate ClosedBetween(before: seq<LedgerEntry>, after: seq<LedgerEntry>, from: real, to: real) {
    && from <= to && before <= after
    && forall k :: |before| <= k < |after| ==> after[k].event.LeaseEnd? && from <= after[k].ts <= to
  }

  lemma ClosedSince(first: seq<LedgerEntry>, mid: seq<LedgerEntry>, last: seq<LedgerEntry>, from: real, between: real, to: real)
    requires ClosedBetween(first, mid, from, between) && ClosedBetween(mid, last, between, to)
    ensures ClosedBetween(first, last, from, to)
  {
  }

  lemma Unclosed(rows: seq<Lease>, billed: set<Instance>, outcomes: WorkerId -> Outcome)
    ensures OnlyClosed(rows, rows, billed, billed, outcomes)
  {
  }

  lemma ClosedTransitive(
      first: seq<Lease>, mid: seq<Lease>, last: seq<Lease>, a: set<Instance>, b: set<Instance>, c: set<Instance>,
      outcomes: WorkerId -> Outcome)
    requires OnlyClosed(first, mid, a, b, outcomes) && OnlyClosed(mid, last, b, c, outcomes)
    ensures OnlyClosed(first, last, a, c, outcomes)
  {
    forall x | Owned(last, x)
      ensures Owned(mid, x)
    {
      var j :| 0 <= j < |last| && IsLive(last[j]) && InstanceOf(last[j]) == x;
      assert mid[j] in mid;
    }
  }

  lemma CloseStep(
      before: seq<Lease>, rows: seq<Lease>, billed: set<Instance>, left: set<Instance>, outcomes: WorkerId -> Outcome, i: nat)
    requires OnlyClosed(before, rows, billed, left, outcomes) && UniqueInstances(rows) && i < |rows| && IsLive(rows[i])
    ensures OnlyClosed(before, rows[i := rows[i].(state := Destroyed)], billed,
                       left - (if ConfirmedGone(outcomes(rows[i].worker)) then {InstanceOf(rows[i])} else {}), outcomes)
  {
    var after := rows[i := rows[i].(state := Destroyed)];
    forall x | Owned(after, x)
      ensures Owned(rows, x) && x != InstanceOf(rows[i])
    {
      var j :| 0 <= j < |after| && IsLive(after[j]) && InstanceOf(after[j]) == x;
      assert rows[j] in rows;
    }
  }

  lemma DrainStep(
      before: seq<Lease>, rows: seq<Lease>, billed: set<Instance>, left: set<Instance>, outcomes: WorkerId -> Outcome, i: nat)
    requires OnlyClosed(before, rows, billed, left, outcomes) && i < |rows| && IsLive(rows[i])
    ensures OnlyClosed(before, rows[i := rows[i].(state := Draining)], billed, left, outcomes)
  {
    var after := rows[i := rows[i].(state := Draining)];
    forall x | Owned(after, x)
      ensures Owned(rows, x)
    {
      var j :| 0 <= j < |after| && IsLive(after[j]) && InstanceOf(after[j]) == x;
      assert rows[j] in rows;
    }
  }

  /** Live workers keep their idle entries, and no entry is new. */
  predicate SameEntries(rows: seq<Lease>, before: map<WorkerId, real>, after: map<WorkerId, real>) {
    && (forall w :: w in after ==> w in before && after[w] == before[w])
    && (forall l :: l in rows && IsLive(l) && l.worker in before ==> l.worker in after)
  }

  lemma EntriesStep(rows: seq<Lease>, before: map<WorkerId, real>, after: map<WorkerId, real>, i: nat, l: Lease)
    requires SameEntries(rows, before, after) && UniqueWorkers(rows) && i < |rows|
    requires l.worker == rows[i].worker && (IsLive(l) ==> IsLive(rows[i]))
    ensures SameEntries(rows[i := l], before, if IsLive(l) then after else after - {l.worker})
  {
    forall m | m in rows[i := l] && IsLive(m) && m.worker in before
      ensures m.worker in (if IsLive(l) then after else after - {l.worker})
    {
      var j :| 0 <= j < |rows| && rows[i := l][j] == m;
      assert rows[j] in rows;
    }
  }

  lemma SameTransitive(
      rows: seq<Lease>, after: seq<Lease>, first: map<WorkerId, real>, mid: map<WorkerId, real>, last: map<WorkerId, real>)
    requires SameEntries(rows, first, mid) && SameEntries(after, mid, last) && |after| == |rows|
    requires forall j :: 0 <= j < |rows| ==> after[j].worker == rows[j].worker && (IsLive(after[j]) ==> IsLive(rows[j]))
    ensures SameEntries(after, first, last)
  {
    forall l | l in after && IsLive(l) && l.worker in first
      ensures l.worker in last
    {
      var j :| 0 <= j < |after| && after[j] == l;
      assert rows[j] in rows;
    }
  }

  /** A row after a reaper pass at time `now`. */
  function ReapRow(l: Lease, idleSince: map<WorkerId, real>, now: real, threshold: real, queueEmpty: bool, free: set<WorkerId>): Lease {
    if Due(l, idleSince, now, threshold, queueEmpty, free) then l.(state := Destroyed) else l
  }

  /** A reaper pass at time `now`, and the idle map it leaves, before anything is reaped. */
  function PassOver(leases: seq<Lease>, now: real, queueEmpty: bool, free: set<WorkerId>): Pass {
    Pass(now, IdleWorkers(leases, queueEmpty, free))
  }

  /** The survey has brought this row's entry up to date. */
  predicate Settled(l: Lease, before: map<WorkerId, real>, after: map<WorkerId, real>, now: real, queueEmpty: bool, free: set<WorkerId>) {
    IsLive(l) ==>
      (l.worker in after <==> Idle(l, queueEmpty, free)) && (l.worker in after ==> after[l.worker] == Since(l, before, now))
  }

  /** The survey has not reached this row's entry. */
  predicate Untouched(l: Lease, before: map<WorkerId, real>, after: map<WorkerId, real>) {
    IsLive(l) ==> (l.worker in after <==> l.worker in before) && (l.worker in after ==> after[l.worker] == before[l.worker])
  }

  /** Rows to reap: live ones, each listed once, in table order. */
  predicate Listed(leases: seq<Lease>, reap: seq<nat>) {
    && (forall a :: 0 <= a < |reap| ==> reap[a] < |leases| && IsLive(leases[reap[a]]))
    && (forall a, b :: 0 <= a < b < |reap| ==> reap[a] < reap[b])
  }

  /** No provider refuses the destroy of a live lease. */
  predicate AllAccepted(leases: seq<Lease>, providers: seq<string>, outcomes: WorkerId -> Outcome) {
    forall l :: l in leases && IsLive(l) ==> l.provider in providers && outcomes(l.worker).Accepted?
  }

  /** The clock turns no accepted destroy into a refused one. */
  lemma WalledAccepted(
      before: seq<Lease>, rows: seq<Lease>, now: real, upTo: nat, providers: seq<string>, outcomes: WorkerId -> Outcome)
    requires WalledUpTo(before, rows, now, upTo)
    ensures AllAccepted(before, providers, outcomes) ==> AllAccepted(rows, providers, outcomes)
  {
    forall l | l in rows && IsLive(l)
      ensures exists m :: m in before && IsLive(m) && m.worker == l.worker && m.provider == l.provider
    {
      var j :| 0 <= j < |rows| && rows[j] == l;
      assert before[j] in before;
    }
  }

  lemma ListedAccepted(leases: seq<Lease>, reap: seq<nat>, providers: seq<string>, outcomes: WorkerId -> Outcome)
    requires Listed(leases, reap)
    ensures AllAccepted(leases, providers, outcomes) ==>
              forall j :: j in reap ==> leases[j].provider in providers && outcomes(leases[j].worker).Accepted?
  {
    forall j | j in reap
      ensures j < |leases| && leases[j] in leases && IsLive(leases[j])
    {
      var a :| 0 <= a < |reap| && reap[a] == j;
    }
  }

  /** The first `k` listed rows have been closed and nothing else has changed. */
  predicate ReapedUpTo(before: seq<Lease>, rows: seq<Lease>, reap: seq<nat>, k: nat) {
    && |rows| == |before| && Listed(before, reap) && k <= |reap|
    && (forall j :: 0 <= j < |rows| && j !in reap ==> rows[j] == before[j])
    && (forall a :: 0 <= a < k ==> rows[reap[a]] == before[reap[a]].(state := Destroyed))
    && (forall a :: k <= a < |reap| ==> rows[reap[a]] == before[reap[a]])
  }

  lemma ReapedStep(before: seq<Lease>, rows: seq<Lease>, reap: seq<nat>, k: nat)
    requires ReapedUpTo(before, rows, reap, k) && k < |reap|
    ensures ReapedUpTo(before, rows[reap[k] := rows[reap[k]].(state := Destroyed)], reap, k + 1)
    ensures forall j :: 0 <= j < |rows| && j !in reap ==> j != reap[k]
  {
    assert reap[k] in reap;
  }

  /** All listed rows have been closed, or the first `k` and the next is draining. */
  predicate ReapEnded(before: seq<Lease>, rows: seq<Lease>, reap: seq<nat>, k: nat) {
    && |rows| == |before| && Listed(before, reap) && k <= |reap|
    && (forall j :: 0 <= j < |rows| && j !in reap ==> rows[j] == before[j])
    && (forall a :: 0 <= a < k ==> rows[reap[a]] == before[reap[a]].(state := Destroyed))
  }

  lemma ReapStops(before: seq<Lease>, rows: seq<Lease>, after: seq<Lease>, reap: seq<nat>, k: nat)
    requires ReapedUpTo(before, rows, reap, k) && k < |reap| && after == rows[reap[k] := rows[reap[k]].(state := Draining)]
    ensures ReapEnded(before, after, reap, k)
  {
    assert reap[k] in reap;
  }

  /** The provider refuses to destroy this row's instance. */
  predicate RefusedAt(leases: seq<Lease>, i: nat, providers: seq<string>, outcomes: WorkerId -> Outcome) {
    i < |leases| && (leases[i].provider !in providers || outcomes(leases[i].worker).Refused?)
  }

  /** The rows before `upTo` that are due, in table order. */
  function DueRows(
      leases: seq<Lease>, upTo: nat, idleSince: map<WorkerId, real>, now: real, threshold: real,
      queueEmpty: bool, free: set<WorkerId>): seq<nat>
    requires upTo <= |leases|
  {
    if upTo == 0 then []
    else
      DueRows(leases, upTo - 1, idleSince, now, threshold, queueEmpty, free)
      + if Due(leases[upTo - 1], idleSince, now, threshold, queueEmpty, free) then [upTo - 1] else []
  }

  lemma {:induction false} DueRowsListed(
      leases: seq<Lease>, upTo: nat, idleSince: map<WorkerId, real>, now: real, threshold: real,
      queueEmpty: bool, free: set<WorkerId>)
    requires upTo <= |leases|
    ensures var reap := DueRows(leases, upTo, idleSince, now, threshold, queueEmpty, free);
            && Listed(leases, reap) && (forall a :: 0 <= a < |reap| ==> reap[a] < upTo)
            && (forall j: nat :: j in reap <==> j < upTo && Due(leases[j], idleSince, now, threshold, queueEmpty, free))
  {
    if upTo > 0 {
      DueRowsListed(leases, upTo - 1, idleSince, now, threshold, queueEmpty, free);
    }
  }

  /** What is made of the listed rows, said of every row. */
  lemma {:induction false} RowsReaped(
      before: seq<Lease>, after: seq<Lease>, reap: seq<nat>, all: bool, idleSince: map<WorkerId, real>, now: real,
      threshold: real, queueEmpty: bool, free: set<WorkerId>)
    requires |after| == |before| && reap == DueRows(before, |before|, idleSince, now, threshold, queueEmpty, free)
    requires forall j :: 0 <= j < |after| && j !in reap ==> after[j] == before[j]
    requires Listed(before, reap) && (all ==> forall j :: j in reap ==> after[j] == before[j].(state := Destroyed))
    ensures forall j :: 0 <= j < |after| && !Due(before[j], idleSince, now, threshold, queueEmpty, free) ==> after[j] == before[j]
    ensures all ==> forall j :: 0 <= j < |after| ==> after[j] == ReapRow(before[j], idleSince, now, threshold, queueEmpty, free)
  {
    DueRowsListed(before, |before|, idleSince, now, threshold, queueEmpty, free);
  }

  lemma InIdleWorkers(leases: seq<Lease>, queueEmpty: bool, free: set<WorkerId>, l: Lease)
    requires UniqueWorkers(leases) && l in leases
    ensures l.worker in IdleWorkers(leases, queueEmpty, free) <==> Idle(l, queueEmpty, free)
  {
    if l.worker in IdleWorkers(leases, queueEmpty, free) {
      var m :| m in leases && Idle(m, queueEmpty, free) && m.worker == l.worker;
      var i, j :| 0 <= i < |leases| && leases[i] == l && 0 <= j < |leases| && leases[j] == m;
    }
  }

  /** What the survey makes of one row's entry. */
  function EntryAfter(l: Lease, entries: map<WorkerId, real>, now: real, queueEmpty: bool, free: set<WorkerId>): map<WorkerId, real> {
    if !IsLive(l) then entries
    else if !Idle(l, queueEmpty, free) then entries - {l.worker}
    else if l.worker in entries then entries
    else entries[l.worker := now]
  }

  /** The survey has brought the entries of the first `i` rows up to date. */
  predicate SurveyedUpTo(
      leases: seq<Lease>, i: int, before: map<WorkerId, real>, entries: map<WorkerId, real>, now: real,
      queueEmpty: bool, free: set<WorkerId>)
  {
    && 0 <= i <= |leases|
    && (forall j :: 0 <= j < i ==> Settled(leases[j], before, entries, now, queueEmpty, free))
    && (forall j :: i <= j < |leases| ==> Untouched(leases[j], before, entries))
    && (forall w :: w in entries ==> LiveWorker(leases, w))
  }

  lemma SurveyStep(
      leases: seq<Lease>, i: nat, before: map<WorkerId, real>, entries: map<WorkerId, real>, now: real,
      queueEmpty: bool, free: set<WorkerId>)
    requires UniqueWorkers(leases) && i < |leases| && SurveyedUpTo(leases, i, before, entries, now, queueEmpty, free)
    ensures SurveyedUpTo(leases, i + 1, before, EntryAfter(leases[i], entries, now, queueEmpty, free), now, queueEmpty, free)
    ensures Idle(leases[i], queueEmpty, free) ==>
              && leases[i].worker in EntryAfter(leases[i], entries, now, queueEmpty, free)
              && EntryAfter(leases[i], entries, now, queueEmpty, free)[leases[i].worker] == Since(leases[i], before, now)
  {
    var l, after := leases[i], EntryAfter(leases[i], entries, now, queueEmpty, free);
    assert l in leases && Untouched(l, before, entries);
    forall j | 0 <= j < |leases| && j != i
      ensures leases[j].worker in after <==> leases[j].worker in entries
      ensures leases[j].worker in after ==> after[leases[j].worker] == entries[leases[j].worker]
    {
      assert leases[j].worker != l.worker;
    }
  }

  lemma SurveyTracks(
      leases: seq<Lease>, before: map<WorkerId, real>, after: map<WorkerId, real>, passes: seq<Pass>, now: real,
      queueEmpty: bool, free: set<WorkerId>)
    requires Consistent(leases, before, passes) && SurveyedUpTo(leases, |leases|, before, after, now, queueEmpty, free)
    ensures Consistent(leases, after, passes + [PassOver(leases, now, queueEmpty, free)])
  {
    var p := PassOver(leases, now, queueEmpty, free);
    forall l | l in leases && IsLive(l)
      ensures StreakStart(passes + [p], l.worker)
           == if Idle(l, queueEmpty, free) then Some(Since(l, before, now)) else None
    {
      StreakStartStep(passes, p, l.worker);
      InIdleWorkers(leases, queueEmpty, free, l);
    }
    forall w | StreakStart(passes + [p], w).Some?
      ensures HasRow(leases, w)
    {
      StreakStartStep(passes, p, w);
    }
    forall w | w in after
      ensures StreakStart(passes + [p], w) == Some(after[w])
    {
      var l :| l in leases && IsLive(l) && l.worker == w;
    }
  }

  /**
   * The reaper destroys exactly the workers that every pass since some pass at least `threshold` ago, and this
   * one, has found idle.
   */
  lemma ReaperIsExact(
      leases: seq<Lease>, idleSince: map<WorkerId, real>, passes: seq<Pass>, now: real, threshold: real,
      queueEmpty: bool, free: set<WorkerId>, l: Lease)
    requires Consistent(leases, idleSince, passes) && l in leases && IsLive(l)
    ensures l.worker in PassOver(leases, now, queueEmpty, free).idle <==> queueEmpty && l.state == Active && l.worker in free
    ensures var all := passes + [PassOver(leases, now, queueEmpty, free)];
            (Due(l, idleSince, now, threshold, queueEmpty, free)
             <==> exists first: nat :: Streak(all, l.worker, first) && now - all[first].at >= threshold)
  {
    var p := PassOver(leases, now, queueEmpty, free);
    StreakStartStep(passes, p, l.worker);
    InIdleWorkers(leases, queueEmpty, free, l);
    var first := StreakStartBegins(passes + [p], l.worker);
  }

  /** The reaper reads the same idle times before and after the walls have been enforced. */
  lemma SameSince(rows: seq<Lease>, before: map<WorkerId, real>, after: map<WorkerId, real>, now: real)
    requires SameEntries(rows, before, after)
    ensures forall l :: l in rows && IsLive(l) ==> Since(l, after, now) == Since(l, before, now)
  {
  }

  /** What the walls and then the reaper make of every row. */
  lemma RowsPassed(
      before: seq<Lease>, rows: seq<Lease>, after: seq<Lease>, all: bool, now: real, idleSince: map<WorkerId, real>,
      entries: map<WorkerId, real>, at: real, threshold: real, queueEmpty: bool, free: set<WorkerId>)
    requires WalledUpTo(before, rows, now, |rows|) && SameEntries(rows, idleSince, entries) && |after| == |rows|
    requires all ==> forall j :: 0 <= j < |after| ==> after[j] == ReapRow(rows[j], entries, at, threshold, queueEmpty, free)
    ensures all ==> forall j :: 0 <= j < |after| ==>
              && after[j] == ReapRow(ClockRow(before[j], now), idleSince, at, threshold, queueEmpty, free)
              && AfterPass(before[j], after[j], now, queueEmpty, free)
  {
    SameSince(rows, idleSince, entries, at);
    forall j | 0 <= j < |rows|
      ensures rows[j] in rows
      ensures AfterPass(before[j], ReapRow(ClockRow(before[j], now), idleSince, at, threshold, queueEmpty, free), now, queueEmpty, free)
    {
      PassedRow(before[j], now, idleSince, at, threshold, queueEmpty, free);
    }
  }

  lemma LiveAfterPass(before: seq<Lease>, rows: seq<Lease>, now: real, queueEmpty: bool, free: set<WorkerId>)
    requires |rows| == |before| && forall j :: 0 <= j < |rows| ==> AfterPass(before[j], rows[j], now, queueEmpty, free)
    ensures forall l :: l in rows && l.state != Destroyed ==>
              var granted, elapsed := l.grantedMin + Minutes(l.extensions), now - l.startedAt;
              && elapsed < 60.0 * granted
              && (elapsed >= 60.0 * (granted - l.drainWindowMin) && elapsed >= 0.0 ==> l.state == Draining)
  {
    forall l | l in rows && l.state != Destroyed
      ensures exists was :: AtTheWalls(was, l, now) && was.state != Destroyed
    {
      var j :| 0 <= j < |rows| && rows[j] == l;
      assert AtTheWalls(before[j], l, now);
    }
  }

  /** What is left of the billed instances of the listed providers once the ones no live lease owns have been killed. */
  ghost predicate Reconciled(
      leases: seq<Lease>, before: set<Instance>, after: set<Instance>, seen: seq<string>, listed: string -> bool, killed: Instance -> bool)
  {
    forall x :: x in after <==> x in before && !(x.provider in seen && listed(x.provider) && !Owned(leases, x) && killed(x))
  }

  datatype Operation =
    | Provisioning(provider: string, leaseMin: real, rental: Rental)
    | Extending(worker: WorkerId, minutes: real)
    | TearingDown(worker: WorkerId, drainFirst: bool, outcome: Outcome)
    | Ticking(queueEmpty: bool, free: set<WorkerId>, outcomes: WorkerId -> Outcome)
    | Reconciling(listed: string -> bool, killed: Instance -> bool)
    | Waiting(took: real)

  /**
   * What the spending bound asks of the callers: new identities and fair prices when provisioning, no wall moved to
   * before the lease began, and only live leases torn down.
   */
  predicate Permitted(operation: Operation, leases: seq<Lease>) {
    match operation
    case Provisioning(provider, leaseMin, rental) =>
      leaseMin >= 0.0
      && (rental.Rental? ==> rental.priceHr >= 0.0 && !HasRow(leases, rental.worker) && !Owned(leases, Instance(provider, rental.id)))
    case Extending(w, minutes) => forall l :: l in leases && l.worker == w ==> TotalGranted(l) + minutes >= 0.0
    case TearingDown(w, _, _) => forall l :: l in leases && l.worker == w ==> IsLive(l)
    case _ => true
  }

  class LeaseManager {
    const budgets: seq<Budget>
    const providers: seq<string>
    const drainWindowMin: real
    const idleReap: real
    var leases: seq<Lease>
    var ledger: seq<LedgerEntry>
    var instances: set<Instance>          // what the providers bill for
    var idleSince: map<WorkerId, real>
    var clock: real
    ghost var passes: seq<Pass>           // the reaper passes so far

    ghost predicate Valid()
      reads this
    {
      Coherent(leases, ledger, idleSince, passes)
    }

    /** The books are kept: see what that bounds in `Spending.KeptBoundsSpending`. */
    ghost predicate InBudgets()
      reads this
    {
      Kept(budgets, ledger, leases, clock)
    }

    /** A manager of empty books. */
    constructor (budgets: seq<Budget>, providers: seq<string>, drainWindowMin: real, idleReap: real, now: real)
      ensures Valid() && this.budgets == budgets && clock == now
      ensures leases == [] && ledger == [] && instances == {} && idleSince == map[] && passes == []
      ensures (forall b :: b in budgets ==> b.cap >= 0.0) ==> InBudgets()
    {
      this.budgets, this.providers := budgets, providers;
      this.drainWindowMin, this.idleReap := drainWindowMin, idleReap;
      leases, ledger, instances, idleSince, clock := [], [], {}, map[], now;
      passes := [];
      if forall b :: b in budgets ==> b.cap >= 0.0 {
        EmptyKept(budgets, now);
      }
    }

    method Wait(took: real)
      modifies `clock
      ensures clock == (if took > 0.0 then old(clock) + took else old(clock)) == Later(old(clock), took)
      ensures old(InBudgets()) ==> InBudgets()
    {
      if took > 0.0 {
        clock := clock + took;
      }
      if old(InBudgets()) {
        KeepAdvance(budgets, ledger, leases, old(clock), clock);
      }
    }

    /** Rent an instance and record its lease; a refused candidate is destroyed again at once. */
    method Provision(provider: string, leaseMin: real, rental: Rental) returns (lease: Option<Lease>)
      requires Valid()
      requires rental.Rental? ==> !HasRow(leases, rental.worker) && !Owned(leases, Instance(provider, rental.id))
      modifies this
      ensures Valid() && idleSince == old(idleSince) && passes == old(passes)
      ensures lease.Some? <==>
        && provider in providers && rental.Rental?
        && Evaluate(budgets, old(ledger), Live(old(leases)), provider, 0.0, old(clock)).None?
        && Evaluate(budgets, old(ledger), Live(old(leases)), provider, PriceOf(rental.priceHr, leaseMin), clock).None?
      ensures lease.Some? ==>
        && lease.value == Lease(rental.worker, provider, rental.id, rental.priceHr, leaseMin, drainWindowMin, clock, Active, [])
        && leases == old(leases) + [lease.value]
        && ledger == old(ledger) + [StartEntry(lease.value)]
        && instances == old(instances) + {InstanceOf(lease.value)}
      ensures lease.None? ==> leases == old(leases) && ledger == old(ledger)
      ensures lease.None? && (rental.Rental? ==> rental.destroyable && Instance(provider, rental.id) !in old(instances)) ==>
                instances == old(instances)
      ensures old(InBudgets()) && leaseMin >= 0.0 && (rental.Rental? ==> rental.priceHr >= 0.0) ==> InBudgets()
    {
      lease := None;
      if provider !in providers || Evaluate(budgets, ledger, Live(leases), provider, 0.0, clock).Some? || rental.NoRental? {
        return;
      }
      var instance := Instance(provider, rental.id);
      instances := instances + {instance};
      Wait(rental.took);
      if Evaluate(budgets, ledger, Live(leases), provider, PriceOf(rental.priceHr, leaseMin), clock).Some? {
        if rental.destroyable {
          instances := instances - {instance};
        }
        return;
      }
      var l := Lease(rental.worker, provider, rental.id, rental.priceHr, leaseMin, drainWindowMin, clock, Active, []);
      Open(l);
      lease := Some(l);
    }

    /** Record a lease whose price has passed the check. */
    method Open(l: Lease)
      requires Valid() && IsLive(l) && l.extensions == [] && !HasRow(leases, l.worker) && !Owned(leases, InstanceOf(l))
      requires Evaluate(budgets, ledger, Live(leases), l.provider, PriceOf(l.priceHr, l.grantedMin), clock).None?
      modifies `leases, `ledger
      ensures Valid() && leases == old(leases) + [l] && ledger == old(ledger) + [StartEntry(l)]
      ensures old(InBudgets()) && l.priceHr >= 0.0 && l.grantedMin >= 0.0 ==> InBudgets()
    {
      CoherentAppend(leases, ledger, idleSince, passes, l);
      KeepStarted(budgets, ledger, leases, clock, l, PriceOf(l.priceHr, l.grantedMin));
      leases := leases + [l];
      ledger := ledger + [StartEntry(l)];
    }

    /** The row of a worker. */
    method Find(w: WorkerId) returns (row: Option<nat>)
      ensures row.Some? ==> row.value < |leases| && leases[row.value].worker == w
      ensures row.None? ==> !HasRow(leases, w)
    {
      var i := 0;
      while i < |leases|
        invariant 0 <= i <= |leases|
        invariant forall j :: 0 <= j < i ==> leases[j].worker != w
      {
        if leases[i].worker == w {
          return Some(i);
        }
        i := i + 1;
      }
      row := None;
    }

    /** Move a lease's wall; a draining lease becomes active again. The check does not ask whether the lease is live. */
    method Extend(w: WorkerId, minutes: real) returns (row: Option<nat>)
      requires Valid()
      modifies `leases, `ledger
      ensures Valid()
      ensures row.None? ==> leases == old(leases) && ledger == old(ledger)
      ensures row.None? ==> forall l :: l in leases && l.worker == w ==>
                Evaluate(budgets, ledger, Live(leases), l.provider, PriceOf(l.priceHr, minutes), clock).Some?
      ensures row.Some? ==> row.value < |old(leases)| && old(leases)[row.value].worker == w
      ensures row.Some? ==> var l := old(leases)[row.value];
        && Evaluate(budgets, old(ledger), Live(old(leases)), l.provider, PriceOf(l.priceHr, minutes), clock).None?
        && leases == old(leases)[row.value := Extended(l, minutes, clock)]
        && ledger == old(ledger) + [ExtendEntry(l, minutes, clock)]
      ensures old(InBudgets()) && (row.Some? ==> TotalGranted(leases[row.value]) >= 0.0) ==> InBudgets()
    {
      row := Find(w);
      if row.Some? {
        var l := leases[row.value];
        OneRow(leases, row.value);
        if Evaluate(budgets, ledger, Live(leases), l.provider, PriceOf(l.priceHr, minutes), clock).Some? {
          return None;
        }
        ExtendRow(row.value, minutes);
      }
    }

    /** The row and the ledger once the extension has passed the check. */
    method ExtendRow(i: nat, minutes: real)
      requires Valid() && i < |leases|
      requires Evaluate(budgets, ledger, Live(leases), leases[i].provider, PriceOf(leases[i].priceHr, minutes), clock).None?
      modifies `leases, `ledger
      ensures Valid()
      ensures leases == old(leases)[i := Extended(old(leases)[i], minutes, clock)]
      ensures ledger == old(ledger) + [ExtendEntry(old(leases)[i], minutes, clock)]
      ensures old(InBudgets()) && TotalGranted(leases[i]) >= 0.0 ==> InBudgets()
    {
      var l := leases[i];
      CoherentExtend(leases, ledger, idleSince, passes, i, minutes, clock);
      if !IsLive(l) {
        DeadNotIdle(leases, idleSince, passes, i);
      }
      KeepExtended(budgets, ledger, leases, clock, i, minutes);
      leases := leases[i := Extended(l, minutes, clock)];
      ledger := ledger + [ExtendEntry(l, minutes, clock)];
    }

    /** Ask the agent to wind down. */
    method Drain(i: nat)
      requires i < |leases|
      modifies `leases
      ensures leases == old(leases)[i := old(leases)[i].(state := Draining)]
      ensures IsLive(old(leases)[i]) && old(Valid()) ==> Valid()
      ensures IsLive(old(leases)[i]) && old(InBudgets()) ==> InBudgets()
    {
      var draining := leases[i].(state := Draining);
      if IsLive(leases[i]) {
        CoherentDrain(leases, ledger, idleSince, passes, i);
        KeepDrained(budgets, ledger, leases, clock, i);
      }
      if leases[i].state != Draining {
        leases := leases[i := draining];
      }
    }

    /** Destroy the instance, poll until it is gone or patience runs out, and close the lease either way. */
    method DestroyAndVerify(i: nat, outcome: Outcome) returns (done: bool)
      requires i < |leases|
      modifies this
      ensures passes == old(passes)
      ensures old(Valid()) ==> Valid()
      ensures done <==> old(leases)[i].provider in providers && outcome.Accepted?
      ensures !done ==> leases == old(leases) && ledger == old(ledger) && clock == old(clock)
                        && instances == old(instances) && idleSince == old(idleSince)
      ensures done ==> var l := old(leases)[i];
        && clock == Later(old(clock), outcome.took)
        && leases == old(leases)[i := l.(state := Destroyed)]
        && ledger == old(ledger) + [EndEntry(l, clock)]
        && instances == old(instances) - (if outcome.gone then {InstanceOf(l)} else {})
        && idleSince == old(idleSince) - {l.worker}
      ensures old(Valid()) && old(InBudgets()) && IsLive(old(leases)[i]) ==> InBudgets()
    {
      var l := leases[i];
      if l.provider !in providers || outcome.Refused? {
        return false;
      }
      if outcome.gone {
        instances := instances - {InstanceOf(l)};
      }
      Wait(outcome.took);
      KeepClosed(budgets, ledger, leases, clock, i);
      CoherentClose(leases, ledger, idleSince, passes, i, clock);
      leases := leases[i := l.(state := Destroyed)];
      idleSince := idleSince - {l.worker};
      ledger := ledger + [EndEntry(l, clock)];
      done := true;
    }

    /**
     * Tear a lease down now. Whether the lease is still live is not asked: a second teardown charges it again,
     * and a drain before a destroy that fails brings a dead lease back.
     */
    method Teardown(w: WorkerId, drainFirst: bool, outcome: Outcome) returns (row: Option<nat>, done: bool)
      requires Valid()
      modifies this
      ensures passes == old(passes)
      ensures row.None? ==> !HasRow(old(leases), w) && !done && leases == old(leases) && ledger == old(ledger)
      ensures row.Some? ==> row.value < |old(leases)| && old(leases)[row.value].worker == w
      ensures row.Some? ==> (done <==> old(leases)[row.value].provider in providers && outcome.Accepted?)
      ensures row.Some? ==> (leases, ledger) == TornDown(old(leases), old(ledger), row.value, drainFirst, done, clock)
      ensures clock == if done then Later(old(clock), outcome.took) else old(clock)
      ensures idleSince == if done then old(idleSince) - {w} else old(idleSince)
      ensures instances == old(instances) - if done && outcome.gone then {InstanceOf(old(leases)[row.value])} else {}
      ensures row.None? || done || !drainFirst || IsLive(old(leases)[row.value]) ==> Valid()
      ensures old(InBudgets()) && (row.Some? ==> Harmless(old(leases)[row.value], drainFirst, done, clock)) ==> InBudgets()
    {
      done := false;
      row := Find(w);
      if row.None? {
        return;
      }
      var i := row.value;
      ghost var rows, entries := leases, ledger;
      if drainFirst {
        Drain(i);
      }
      done := DestroyAndVerify(i, outcome);
      assert leases == TornDown(rows, entries, i, drainFirst, done, clock).0;
      KeepTornDown(budgets, rows, entries, i, drainFirst, done, old(clock), clock);
      if done || !drainFirst || IsLive(rows[i]) {
        CoherentTornDown(rows, entries, old(idleSince), passes, i, drainFirst, done, clock);
      }
    }

    /** One row at the walls: destroyed past its wall, asked to wind down past its drain point, left alone otherwise. */
    method EnforceWall(i: nat, now: real, outcomes: WorkerId -> Outcome) returns (ok: bool)
      requires Valid() && i < |leases|
      modifies this
      ensures Valid() && passes == old(passes) && clock >= old(clock)
      ensures ok ==> leases == old(leases)[i := ClockRow(old(leases)[i], now)]
      ensures ok ==> AtTheWalls(old(leases)[i], leases[i], now)
      ensures ok ==> ledger == old(ledger) + if PastWall(old(leases)[i], now) then [EndEntry(old(leases)[i], clock)] else []
      ensures !ok ==> leases == old(leases) && PastWall(leases[i], now)
                      && (leases[i].provider !in providers || outcomes(leases[i].worker).Refused?)
      ensures OnlyClosed(old(leases), leases, old(instances), instances, outcomes)
      ensures ClosedBetween(old(ledger), ledger, old(clock), clock)
      ensures SameEntries(leases, old(idleSince), idleSince)
      ensures old(InBudgets()) ==> InBudgets()
    {
      var l := leases[i];
      ok := true;
      Unclosed(leases, instances, outcomes);
      ClockRowAtTheWalls(l, now);
      if PastWall(l, now) {
        CloseStep(leases, leases, instances, instances, outcomes, i);
        EntriesStep(leases, idleSince, idleSince, i, l.(state := Destroyed));
        ok := DestroyAndVerify(i, outcomes(l.worker));
      } else if l.state == Active && now - l.startedAt >= DrainSecs(l) {
        DrainStep(leases, leases, instances, instances, outcomes, i);
        EntriesStep(leases, idleSince, idleSince, i, l.(state := Draining));
        Drain(i);
      } else {
        assert leases == leases[i := ClockRow(l, now)];
      }
    }

    /**
     * The walls, with time read once: a live lease past its wall is destroyed, one past its drain point is asked
     * to wind down. The first destroy that fails ends the pass at its row.
     */
    method EnforceWalls(outcomes: WorkerId -> Outcome) returns (ok: bool, upTo: nat)
      requires Valid()
      modifies this
      ensures Valid() && passes == old(passes) && clock >= old(clock)
      ensures WalledUpTo(old(leases), leases, old(clock), upTo) && (ok <==> upTo == |leases|)
      ensures forall j :: 0 <= j < upTo ==> AtTheWalls(old(leases)[j], leases[j], old(clock))
      ensures !ok ==> PastWall(leases[upTo], old(clock))
                      && (leases[upTo].provider !in providers || outcomes(leases[upTo].worker).Refused?)
      ensures OnlyClosed(old(leases), leases, old(instances), instances, outcomes)
      ensures ClosedBetween(old(ledger), ledger, old(clock), clock)
      ensures SameEntries(leases, old(idleSince), idleSince)
      ensures old(InBudgets()) ==> InBudgets()
    {
      Unclosed(leases, instances, outcomes);
      var now := clock;
      var i := 0;
      while i < |leases|
        invariant Valid() && passes == old(passes) && clock >= now
        invariant 0 <= i <= |leases| && WalledUpTo(old(leases), leases, now, i)
        invariant OnlyClosed(old(leases), leases, old(instances), instances, outcomes)
        invariant ClosedBetween(old(ledger), ledger, old(clock), clock)
        invariant SameEntries(leases, old(idleSince), idleSince)
        invariant old(InBudgets()) ==> InBudgets()
      {
        ghost var rows, entries, billed, closed, at := leases, idleSince, instances, ledger, clock;
        WalledStep(old(leases), rows, now, i, ClockRow(rows[i], now));
        var done := EnforceWall(i, now, outcomes);
        ClosedSince(old(ledger), closed, ledger, old(clock), at, clock);
        if !done {
          ClosedTransitive(old(leases), rows, leases, old(instances), billed, instances, outcomes);
          SameTransitive(rows, leases, old(idleSince), entries, idleSince);
          WalledAll(old(leases), leases, now, i);
          return false, i;
        }
        ClosedTransitive(old(leases), rows, leases, old(instances), billed, instances, outcomes);
        SameTransitive(rows, leases, old(idleSince), entries, idleSince);
        i := i + 1;
      }
      WalledAll(old(leases), leases, now, i);
      return true, i;
    }

    /** Bring one row's entry up to date, and say whether it has been idle for long enough. */
    method SurveyRow(l: Lease, queueEmpty: bool, free: set<WorkerId>) returns (due: bool)
      modifies `idleSince
      ensures idleSince == EntryAfter(l, old(idleSince), clock, queueEmpty, free)
      ensures due <==> Idle(l, queueEmpty, free) && clock - idleSince[l.worker] >= idleReap
    {
      due := false;
      if IsLive(l) {
        if !Idle(l, queueEmpty, free) {
          idleSince := idleSince - {l.worker};
        } else {
          if l.worker !in idleSince {
            idleSince := idleSince[l.worker := clock];
          }
          due := clock - idleSince[l.worker] >= idleReap;
        }
      }
    }

    /** Bring every row's entry up to date and list the rows that are due. */
    method SurveyRows(queueEmpty: bool, free: set<WorkerId>) returns (reap: seq<nat>)
      requires UniqueWorkers(leases) && forall w :: w in idleSince ==> LiveWorker(leases, w)
      modifies `idleSince
      ensures SurveyedUpTo(leases, |leases|, old(idleSince), idleSince, clock, queueEmpty, free)
      ensures reap == DueRows(leases, |leases|, old(idleSince), clock, idleReap, queueEmpty, free)
    {
      var i := 0;
      reap := [];
      while i < |leases|
        invariant SurveyedUpTo(leases, i, old(idleSince), idleSince, clock, queueEmpty, free)
        invariant reap == DueRows(leases, i, old(idleSince), clock, idleReap, queueEmpty, free)
      {
        SurveyStep(leases, i, old(idleSince), idleSince, clock, queueEmpty, free);
        var due := SurveyRow(leases[i], queueEmpty, free);
        if due {
          reap := reap + [i];
        }
        i := i + 1;
      }
    }

    /** The reaper's look at every worker: the idle map is what its passes say. */
    method Survey(queueEmpty: bool, free: set<WorkerId>) returns (reap: seq<nat>)
      requires Valid()
      modifies `idleSince, `passes
      ensures Valid() && passes == old(passes) + [PassOver(leases, clock, queueEmpty, free)]
      ensures reap == DueRows(leases, |leases|, old(idleSince), clock, idleReap, queueEmpty, free)
    {
      reap := SurveyRows(queueEmpty, free);
      SurveyTracks(leases, old(idleSince), idleSince, passes, clock, queueEmpty, free);
      passes := passes + [PassOver(leases, clock, queueEmpty, free)];
    }

    /** Drain a live lease and destroy its instance at once. */
    method DrainAndDestroy(i: nat, outcomes: WorkerId -> Outcome) returns (done: bool)
      requires Valid() && i < |leases| && IsLive(leases[i])
      modifies this
      ensures Valid() && passes == old(passes)
      ensures done <==> old(leases)[i].provider in providers && outcomes(old(leases)[i].worker).Accepted?
      ensures leases == old(leases)[i := old(leases)[i].(state := if done then Destroyed else Draining)]
      ensures OnlyClosed(old(leases), leases, old(instances), instances, outcomes)
      ensures ClosedBetween(old(ledger), ledger, old(clock), clock)
      ensures old(InBudgets()) ==> InBudgets()
    {
      Unclosed(leases, instances, outcomes);
      DrainStep(leases, leases, instances, instances, outcomes, i);
      Drain(i);
      CloseStep(old(leases), leases, instances, instances, outcomes, i);
      done := DestroyAndVerify(i, outcomes(leases[i].worker));
    }

    /** Drain and destroy the listed rows; the first destroy that fails ends the pass at its row. */
    method ReapRows(reap: seq<nat>, outcomes: WorkerId -> Outcome) returns (k: nat)
      requires Valid()
      requires Listed(leases, reap)
      modifies this
      ensures Valid() && passes == old(passes)
      ensures ReapEnded(old(leases), leases, reap, k)
      ensures k < |reap| ==> RefusedAt(old(leases), reap[k], providers, outcomes)
      ensures OnlyClosed(old(leases), leases, old(instances), instances, outcomes)
      ensures ClosedBetween(old(ledger), ledger, old(clock), clock)
      ensures old(InBudgets()) ==> InBudgets()
    {
      Unclosed(leases, instances, outcomes);
      k := 0;
      while k < |reap|
        invariant Valid() && passes == old(passes)
        invariant ReapedUpTo(old(leases), leases, reap, k)
        invariant OnlyClosed(old(leases), leases, old(instances), instances, outcomes)
        invariant ClosedBetween(old(ledger), ledger, old(clock), clock)
        invariant old(InBudgets()) ==> InBudgets()
      {
        ghost var rows, billed, closed, at := leases, instances, ledger, clock;
        ReapedStep(old(leases), rows, reap, k);
        var done := DrainAndDestroy(reap[k], outcomes);
        ClosedSince(old(ledger), closed, ledger, old(clock), at, clock);
        ClosedTransitive(old(leases), rows, leases, old(instances), billed, instances, outcomes);
        if !done {
          ReapStops(old(leases), rows, leases, reap, k);
          return;
        }
        k := k + 1;
      }
    }

    /** The listed rows are closed, or a destroy failed. */
    method Reap(reap: seq<nat>, outcomes: WorkerId -> Outcome) returns (ok: bool)
      requires Valid()
      requires Listed(leases, reap)
      modifies this
      ensures Valid() && passes == old(passes) && |leases| == |old(leases)|
      ensures forall j :: 0 <= j < |leases| && j !in reap ==> leases[j] == old(leases)[j]
      ensures ok ==> forall j :: j in reap ==> leases[j] == old(leases)[j].(state := Destroyed)
      ensures (forall j :: j in reap ==> old(leases)[j].provider in providers && outcomes(old(leases)[j].worker).Accepted?) ==> ok
      ensures OnlyClosed(old(leases), leases, old(instances), instances, outcomes)
      ensures ClosedBetween(old(ledger), ledger, old(clock), clock)
      ensures old(InBudgets()) ==> InBudgets()
    {
      var k := ReapRows(reap, outcomes);
      ok := k == |reap|;
      assert !ok ==> reap[k] in reap;
    }

    /** Drain and destroy every worker that has been idle for long enough. */
    method ReapIdle(queueEmpty: bool, free: set<WorkerId>, outcomes: WorkerId -> Outcome) returns (ok: bool)
      requires Valid()
      modifies this
      ensures Valid() && passes == old(passes) + [PassOver(old(leases), old(clock), queueEmpty, free)]
      ensures |leases| == |old(leases)|
      ensures forall j :: 0 <= j < |leases| && !Due(old(leases)[j], old(idleSince), old(clock), idleReap, queueEmpty, free) ==>
                leases[j] == old(leases)[j]
      ensures ok ==> forall j :: 0 <= j < |leases| ==>
                leases[j] == ReapRow(old(leases)[j], old(idleSince), old(clock), idleReap, queueEmpty, free)
      ensures AllAccepted(old(leases), providers, outcomes) ==> ok
      ensures OnlyClosed(old(leases), leases, old(instances), instances, outcomes)
      ensures ClosedBetween(old(ledger), ledger, old(clock), clock)
      ensures old(InBudgets()) ==> InBudgets()
    {
      DueRowsListed(leases, |leases|, idleSince, clock, idleReap, queueEmpty, free);
      var reap := Survey(queueEmpty, free);
      ListedAccepted(leases, reap, providers, outcomes);
      ok := Reap(reap, outcomes);
      RowsReaped(old(leases), leases, reap, ok, old(idleSince), old(clock), idleReap, queueEmpty, free);
    }

    /** One tick of the lease clock: the walls, and then the idle reaper, unless a destroy failed. */
    method ClockPass(queueEmpty: bool, free: set<WorkerId>, outcomes: WorkerId -> Outcome) returns (ok: bool, ghost at: real)
      requires Valid()
      modifies this
      ensures Valid() && |leases| == |old(leases)| && old(clock) <= at <= clock
      ensures ok ==> forall j :: 0 <= j < |leases| ==>
                leases[j] == ReapRow(ClockRow(old(leases)[j], old(clock)), old(idleSince), at, idleReap, queueEmpty, free)
      ensures ok ==> forall j :: 0 <= j < |leases| ==> AfterPass(old(leases)[j], leases[j], old(clock), queueEmpty, free)
      ensures AllAccepted(old(leases), providers, outcomes) ==> ok
      ensures OnlyClosed(old(leases), leases, old(instances), instances, outcomes)
      ensures ClosedBetween(old(ledger), ledger, old(clock), clock)
      ensures old(InBudgets()) ==> InBudgets()
    {
      var upTo;
      ok, upTo := EnforceWalls(outcomes);
      at := clock;
      WalledAccepted(old(leases), leases, old(clock), upTo, providers, outcomes);
      if !ok {
        assert leases[upTo] in leases;
        return;
      }
      ghost var rows, entries, billed, closed := leases, idleSince, instances, ledger;
      ok := ReapIdle(queueEmpty, free, outcomes);
      RowsPassed(old(leases), rows, leases, ok, old(clock), old(idleSince), entries, at, idleReap, queueEmpty, free);
      ClosedSince(old(ledger), closed, ledger, old(clock), at, clock);
      ClosedTransitive(old(leases), rows, leases, old(instances), billed, instances, outcomes);
    }

    /** Ask every provider what it bills for and kill what no live lease owns; a provider that does not answer is skipped. */
    method ReconcilePass(listed: string -> bool, killed: Instance -> bool)
      modifies `instances
      ensures Reconciled(leases, old(instances), instances, providers, listed, killed)
    {
      var i := 0;
      while i < |providers|
        invariant 0 <= i <= |providers|
        invariant Reconciled(leases, old(instances), instances, providers[..i], listed, killed)
      {
        var p := providers[i];
        ghost var before := instances;
        if listed(p) {
          KillOrphans(p, killed);
        }
        assert providers[..i + 1] == providers[..i] + [p];
        i := i + 1;
      }
      assert providers[..i] == providers;
    }

    /** Kill the instances of one provider that no live lease owns. */
    method KillOrphans(provider: string, killed: Instance -> bool)
      modifies `instances
      ensures forall x :: x in instances <==>
                x in old(instances) && !(x.provider == provider && !Owned(leases, x) && killed(x))
    {
      var found := set x | x in instances && x.provider == provider;
      while found != {}
        invariant found <= instances
        invariant forall x :: x in found ==> x.provider == provider
        invariant forall x :: x in instances <==>
                    x in old(instances) && !(x.provider == provider && x !in found && !Owned(leases, x) && killed(x))
        decreases found
      {
        var x :| x in found;
        found := found - {x};
        if !Owned(leases, x) && killed(x) {
          instances := instances - {x};
        }
      }
    }

    /**
     * A clock pass in which no provider refuses a destroy, then a reconcile pass in which every provider lists and
     * kills: what is still billed belongs to a live lease, every live lease was short of its wall at the clock pass
     * and draining if past its drain point, and no instance of a lease that stayed live has gone.
     */
    method ClockThenReconcile(queueEmpty: bool, free: set<WorkerId>, outcomes: WorkerId -> Outcome)
      requires Valid()
      requires AllAccepted(leases, providers, outcomes)
      modifies this
      ensures Valid()
      ensures forall x :: x in instances && x.provider in providers ==> Owned(leases, x)
      ensures forall l :: l in leases && l.state != Destroyed ==>
                var granted, elapsed := l.grantedMin + Minutes(l.extensions), old(clock) - l.startedAt;
                && elapsed < 60.0 * granted
                && (elapsed >= 60.0 * (granted - l.drainWindowMin) && elapsed >= 0.0 ==> l.state == Draining)
      ensures |leases| == |old(leases)| &&
              forall j :: 0 <= j < |leases| ==> AfterPass(old(leases)[j], leases[j], old(clock), queueEmpty, free)
      ensures forall l :: l in leases && IsLive(l) && InstanceOf(l) in old(instances) ==> InstanceOf(l) in instances
    {
      var ok;
      ghost var at;
      ok, at := ClockPass(queueEmpty, free, outcomes);
      assert ok;
      LiveAfterPass(old(leases), leases, old(clock), queueEmpty, free);
      assert forall l :: l in leases && IsLive(l) ==> Owned(leases, InstanceOf(l));
      ReconcilePass(_ => true, _ => true);
    }

    /** Any operations, one after the other: every budget stays within its cap, priced time past the walls apart. */
    method Serve(operations: seq<Operation>)
      requires Valid() && InBudgets()
      modifies this
      ensures Valid() && InBudgets()
      ensures ClosingsExact(leases, ledger)
      ensures forall b :: b in budgets && Enforced(b) ==>
                Spent(ledger, BudgetProvider(b.scope), PeriodStart(b.period, clock)) + Committed(Live(leases), BudgetProvider(b.scope))
                <= b.cap + Overrun(ledger, BudgetProvider(b.scope), PeriodStart(b.period, clock))
    {
      var i := 0;
      while i < |operations|
        invariant 0 <= i <= |operations| && Valid() && InBudgets()
      {
        if Permitted(operations[i], leases) {
          Perform(operations[i]);
        }
        i := i + 1;
      }
      forall b | b in budgets && Enforced(b)
        ensures Spent(ledger, BudgetProvider(b.scope), PeriodStart(b.period, clock)) + Committed(Live(leases), BudgetProvider(b.scope))
             <= b.cap + Overrun(ledger, BudgetProvider(b.scope), PeriodStart(b.period, clock))
      {
        KeptBoundsSpending(budgets, ledger, leases, clock, b);
      }
      TalliedClosings(leases, ledger);
    }

    method Perform(operation: Operation)
      requires Valid() && InBudgets() && Permitted(operation, leases)
      modifies this
      ensures Valid() && InBudgets()
    {
      match operation
      case Provisioning(provider, leaseMin, rental) =>
        var lease := Provision(provider, leaseMin, rental);
      case Extending(w, minutes) =>
        ghost var rows := leases;
        var row := Extend(w, minutes);
        if row.Some? {
          ExtendedPrice(rows[row.value], minutes, clock);
        }
      case TearingDown(w, drainFirst, outcome) =>
        ghost var rows := leases;
        var row, done := Teardown(w, drainFirst, outcome);
      case Ticking(queueEmpty, free, outcomes) =>
        var ok;
        ghost var at;
        ok, at := ClockPass(queueEmpty, free, outcomes);
      case Reconciling(listed, killed) =>
        ReconcilePass(listed, killed);
      case Waiting(took) =>
        Wait(took);
    }
  }
}
