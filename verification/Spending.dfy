/** Why the budget check bounds spending over whole runs: what each change to the lease table and the ledger does to a budget. */
module Spending {
  import opened Options
  import opened Budgets
  import Calendar

  predicate IsLive(l: Lease) {
    l.state != Destroyed
  }

  function Live(leases: seq<Lease>): seq<Lease> {
    if leases == [] then []
    else (if IsLive(leases[0]) then [leases[0]] else []) + Live(leases[1..])
  }

  /** A lease's share of what is committed under a scope. */
  function Share(l: Lease, provider: Option<string>): real {
    if IsLive(l) && Concerns(provider, l.provider) then ProjectedCost(l) else 0.0
  }

  function CommittedLive(leases: seq<Lease>, provider: Option<string>): real {
    Committed(Live(leases), provider)
  }

  lemma CommittedLiveStep(leases: seq<Lease>, provider: Option<string>)
    requires leases != []
    ensures CommittedLive(leases, provider) == Share(leases[0], provider) + CommittedLive(leases[1..], provider)
  {
    if IsLive(leases[0]) {
      assert Live(leases)[1..] == Live(leases[1..]);
    } else {
      assert Live(leases) == Live(leases[1..]);
    }
  }

  lemma {:induction false} CommittedAppend(leases: seq<Lease>, l: Lease, provider: Option<string>)
    ensures CommittedLive(leases + [l], provider) == CommittedLive(leases, provider) + Share(l, provider)
  {
    CommittedLiveStep(leases + [l], provider);
    if leases == [] {
      assert (leases + [l])[1..] == [];
    } else {
      CommittedLiveStep(leases, provider);
      CommittedAppend(leases[1..], l, provider);
      assert (leases + [l])[1..] == leases[1..] + [l];
    }
  }

  lemma {:induction false} CommittedUpdate(leases: seq<Lease>, i: nat, l: Lease, provider: Option<string>)
    requires i < |leases|
    ensures CommittedLive(leases[i := l], provider)
         == CommittedLive(leases, provider) - Share(leases[i], provider) + Share(l, provider)
  {
    CommittedLiveStep(leases, provider);
    CommittedLiveStep(leases[i := l], provider);
    if i > 0 {
      CommittedUpdate(leases[1..], i - 1, l, provider);
      assert leases[i := l][1..] == leases[1..][i - 1 := l];
    }
  }

  // ---------------------------------------------------------------------
  // Time past the walls
  // ---------------------------------------------------------------------

  /** Minutes booked for a worker: those its lease began with and those of its extensions. */
  function BookedMinutes(ledger: seq<LedgerEntry>, w: WorkerId): real {
    if ledger == [] then 0.0
    else
      var e := ledger[|ledger| - 1];
      BookedMinutes(ledger[..|ledger| - 1], w) + if e.worker == w && !e.event.LeaseEnd? then e.minutes else 0.0
  }

  /** What those minutes cost. */
  function BookedCost(ledger: seq<LedgerEntry>, w: WorkerId): real {
    if ledger == [] then 0.0
    else
      var e := ledger[|ledger| - 1];
      BookedCost(ledger[..|ledger| - 1], w) + if e.worker == w && !e.event.LeaseEnd? then e.cost else 0.0
  }

  /** The part of an entry's cost that exceeds what had been booked before it: see `LateIsPastWall`. */
  function LateIn(before: seq<LedgerEntry>, e: LedgerEntry): real {
    if e.event.LeaseEnd? && e.cost > BookedCost(before, e.worker) then e.cost - BookedCost(before, e.worker) else 0.0
  }

  /** The ledger with the late part of each entry's cost taken off. */
  function Reduced(ledger: seq<LedgerEntry>): seq<LedgerEntry> {
    if ledger == [] then []
    else
      var before, e := ledger[..|ledger| - 1], ledger[|ledger| - 1];
      Reduced(before) + [e.(cost := e.cost - LateIn(before, e))]
  }

  /** The late part of what counts as spent. */
  function Overrun(ledger: seq<LedgerEntry>, provider: Option<string>, since: Option<real>): real {
    if ledger == [] then 0.0
    else
      var before, e := ledger[..|ledger| - 1], ledger[|ledger| - 1];
      Overrun(before, provider, since) + if Counts(e, provider, since) then LateIn(before, e) else 0.0
  }

  lemma {:induction false} AppendedLedger(ledger: seq<LedgerEntry>, e: LedgerEntry, w: WorkerId)
    ensures Reduced(ledger + [e]) == Reduced(ledger) + [e.(cost := e.cost - LateIn(ledger, e))]
    ensures BookedMinutes(ledger + [e], w)
         == BookedMinutes(ledger, w) + if e.worker == w && !e.event.LeaseEnd? then e.minutes else 0.0
  {
    assert (ledger + [e])[..|ledger|] == ledger;
  }

  lemma {:induction false} SpentSplits(ledger: seq<LedgerEntry>, provider: Option<string>, since: Option<real>)
    ensures Spent(ledger, provider, since) == Spent(Reduced(ledger), provider, since) + Overrun(ledger, provider, since)
    ensures Overrun(ledger, provider, since) >= 0.0
  {
    if ledger != [] {
      var before, e := ledger[..|ledger| - 1], ledger[|ledger| - 1];
      SpentSplits(before, provider, since);
      assert ledger == before + [e];
      SpentAppend(before, e, provider, since);
      SpentAppend(Reduced(before), e.(cost := e.cost - LateIn(before, e)), provider, since);
    }
  }

  // ---------------------------------------------------------------------
  // Rows and ledger
  // ---------------------------------------------------------------------

  predicate UniqueWorkers(leases: seq<Lease>) {
    forall i, j :: 0 <= i < j < |leases| ==> leases[i].worker != leases[j].worker
  }

  predicate HasRow(leases: seq<Lease>, w: WorkerId) {
    exists l :: l in leases && l.worker == w
  }

  function ElapsedMin(l: Lease, now: real): real {
    if now >= l.startedAt then (now - l.startedAt) / 60.0 else 0.0
  }

  /** The ledger entry that opens a lease. */
  function StartEntry(l: Lease): LedgerEntry {
    LedgerEntry(l.startedAt, l.worker, l.provider, LeaseStart, TotalGranted(l), ProjectedCost(l))
  }

  /** The one that moves its wall. */
  function ExtendEntry(l: Lease, minutes: real, now: real): LedgerEntry {
    LedgerEntry(now, l.worker, l.provider, LedgerEvent.Extend, minutes, PriceOf(l.priceHr, minutes))
  }

  /** The one that closes it. */
  function EndEntry(l: Lease, now: real): LedgerEntry {
    LedgerEntry(now, l.worker, l.provider, LeaseEnd, ElapsedMin(l, now), PriceOf(l.priceHr, ElapsedMin(l, now)))
  }

  /** An entry at the lease's price, and for the time since it began if it closes the lease. */
  predicate EntryOf(e: LedgerEntry, l: Lease) {
    && e.worker == l.worker && e.provider == l.provider
    && e.cost == PriceOf(l.priceHr, e.minutes)
    && (e.event.LeaseEnd? ==> e == EndEntry(l, e.ts))
  }

  /** One row per worker, each with its grant booked in the ledger, and no entries but those of the rows. */
  predicate Tallied(leases: seq<Lease>, ledger: seq<LedgerEntry>) {
    && UniqueWorkers(leases)
    && (forall l :: l in leases ==> BookedMinutes(ledger, l.worker) == TotalGranted(l))
    && (forall l, e :: l in leases && e in ledger && e.worker == l.worker ==> EntryOf(e, l))
    && (forall e :: e in ledger ==> HasRow(leases, e.worker))
  }

  lemma PricesAdd(priceHr: real, minutes: real, more: real)
    ensures PriceOf(priceHr, minutes + more) == PriceOf(priceHr, minutes) + PriceOf(priceHr, more)
  {
    assert priceHr * (minutes + more) == priceHr * minutes + priceHr * more;
  }

  lemma PriceNotNegative(priceHr: real, minutes: real)
    requires priceHr >= 0.0 && minutes >= 0.0
    ensures PriceOf(priceHr, minutes) >= 0.0
  {
    assert priceHr * minutes >= 0.0;
  }

  /** At one price, what was booked costs what its minutes cost. */
  lemma {:induction false} BookedAtPrice(ledger: seq<LedgerEntry>, w: WorkerId, priceHr: real)
    requires forall e :: e in ledger && e.worker == w ==> e.cost == PriceOf(priceHr, e.minutes)
    ensures BookedCost(ledger, w) == PriceOf(priceHr, BookedMinutes(ledger, w))
  {
    if ledger != [] {
      var before, e := ledger[..|ledger| - 1], ledger[|ledger| - 1];
      BookedAtPrice(before, w, priceHr);
      assert e in ledger;
      PricesAdd(priceHr, BookedMinutes(before, w), e.minutes);
    }
  }

  lemma {:induction false} BookedNothing(ledger: seq<LedgerEntry>, w: WorkerId)
    requires forall e :: e in ledger ==> e.worker != w
    ensures BookedMinutes(ledger, w) == 0.0
  {
    if ledger != [] {
      BookedNothing(ledger[..|ledger| - 1], w);
      assert ledger[|ledger| - 1] in ledger;
    }
  }

  /** A row replaced by one of the same worker and price. */
  predicate Revises(l: Lease, was: Lease) {
    l.worker == was.worker && l.provider == was.provider && l.priceHr == was.priceHr && l.startedAt == was.startedAt
  }

  lemma RevisedRows(leases: seq<Lease>, i: nat, l: Lease)
    requires UniqueWorkers(leases) && i < |leases| && Revises(l, leases[i])
    ensures UniqueWorkers(leases[i := l])
    ensures forall w :: HasRow(leases, w) ==> HasRow(leases[i := l], w)
    ensures forall m :: m in leases[i := l] ==> m == l || (m in leases && m.worker != l.worker)
  {
    forall w | HasRow(leases, w)
      ensures HasRow(leases[i := l], w)
    {
      var j :| 0 <= j < |leases| && leases[j].worker == w;
      assert leases[i := l][j] in leases[i := l];
    }
  }

  lemma TalliedRevised(leases: seq<Lease>, ledger: seq<LedgerEntry>, i: nat, l: Lease)
    requires Tallied(leases, ledger) && i < |leases| && Revises(l, leases[i]) && TotalGranted(l) == TotalGranted(leases[i])
    ensures Tallied(leases[i := l], ledger)
  {
    RevisedRows(leases, i, l);
    assert leases[i] in leases;
  }

  lemma TalliedNoted(leases: seq<Lease>, ledger: seq<LedgerEntry>, i: nat, l: Lease, e: LedgerEntry)
    requires Tallied(leases, ledger) && i < |leases| && Revises(l, leases[i]) && EntryOf(e, l)
    requires TotalGranted(l) == TotalGranted(leases[i]) + if e.event.LeaseEnd? then 0.0 else e.minutes
    ensures Tallied(leases[i := l], ledger + [e])
  {
    RevisedRows(leases, i, l);
    assert leases[i] in leases;
    assert leases[i := l][i] in leases[i := l];
    forall m | m in leases[i := l]
      ensures BookedMinutes(ledger + [e], m.worker) == TotalGranted(m)
    {
      AppendedLedger(ledger, e, m.worker);
    }
  }

  lemma TalliedStarted(leases: seq<Lease>, ledger: seq<LedgerEntry>, l: Lease)
    requires Tallied(leases, ledger) && !HasRow(leases, l.worker)
    ensures Tallied(leases + [l], ledger + [StartEntry(l)])
  {
    var rows := leases + [l];
    forall w | HasRow(leases, w)
      ensures HasRow(rows, w)
    {
      var m :| m in leases && m.worker == w;
      assert m in rows;
    }
    BookedNothing(ledger, l.worker);
    assert l in rows;
    forall m | m in rows
      ensures BookedMinutes(ledger + [StartEntry(l)], m.worker) == TotalGranted(m)
    {
      AppendedLedger(ledger, StartEntry(l), m.worker);
    }
  }

  /** The time a lease was still running when it closed with this entry, past all that had been booked for it. */
  function MinutesPastBooked(before: seq<LedgerEntry>, e: LedgerEntry): real {
    if e.minutes > BookedMinutes(before, e.worker) then e.minutes - BookedMinutes(before, e.worker) else 0.0
  }

  lemma DearerIsLonger(priceHr: real, minutes: real, booked: real)
    requires priceHr >= 0.0
    ensures (if PriceOf(priceHr, minutes) > PriceOf(priceHr, booked) then PriceOf(priceHr, minutes) - PriceOf(priceHr, booked) else 0.0)
         == PriceOf(priceHr, if minutes > booked then minutes - booked else 0.0)
  {
    PricesAdd(priceHr, booked, minutes - booked);
    if minutes > booked {
      PriceNotNegative(priceHr, minutes - booked);
    } else {
      PricesAdd(priceHr, minutes, booked - minutes);
      PriceNotNegative(priceHr, booked - minutes);
    }
  }

  /**
   * In tallied books every entry that closes a lease charges the whole time since the lease began, and the late part
   * of it is the price of the time past the wall as it stood by then.
   */
  lemma LateIsPastWall(leases: seq<Lease>, ledger: seq<LedgerEntry>, i: nat, l: Lease)
    requires Tallied(leases, ledger) && i < |ledger| && l in leases && ledger[i].worker == l.worker
    requires ledger[i].event.LeaseEnd? && l.priceHr >= 0.0
    ensures ledger[i] == EndEntry(l, ledger[i].ts)
    ensures LateIn(ledger[..i], ledger[i]) == PriceOf(l.priceHr, MinutesPastBooked(ledger[..i], ledger[i]))
    ensures var run, booked := ledger[i].minutes, BookedMinutes(ledger[..i], l.worker);
            LateIn(ledger[..i], ledger[i]) == if run > booked then l.priceHr * (run - booked) / 60.0 else 0.0
  {
    var before, e := ledger[..i], ledger[i];
    assert e in ledger;
    BookedAtPrice(before, l.worker, l.priceHr);
    DearerIsLonger(l.priceHr, e.minutes, BookedMinutes(before, l.worker));
  }

  /**
   * Every entry that closes a lease charges the whole time since a recorded lease began, and its late part is the price
   * of what that time exceeds the minutes booked before.
   */
  predicate ClosingsExact(leases: seq<Lease>, ledger: seq<LedgerEntry>) {
    forall i :: 0 <= i < |ledger| && ledger[i].event.LeaseEnd? ==>
      exists l :: l in leases && ledger[i] == EndEntry(l, ledger[i].ts)
                  && LateIn(ledger[..i], ledger[i]) == PriceOf(l.priceHr, MinutesPastBooked(ledger[..i], ledger[i]))
  }

  lemma TalliedClosings(leases: seq<Lease>, ledger: seq<LedgerEntry>)
    requires Tallied(leases, ledger) && forall l :: l in leases ==> l.priceHr >= 0.0
    ensures ClosingsExact(leases, ledger)
  {
    forall i | 0 <= i < |ledger| && ledger[i].event.LeaseEnd?
      ensures exists l :: l in leases && ledger[i] == EndEntry(l, ledger[i].ts)
                          && LateIn(ledger[..i], ledger[i]) == PriceOf(l.priceHr, MinutesPastBooked(ledger[..i], ledger[i]))
    {
      assert ledger[i] in ledger;
      var l :| l in leases && l.worker == ledger[i].worker;
      LateIsPastWall(leases, ledger, i, l);
    }
  }

  /** What the ledger records, in minutes granted or run, hours priced and seconds passed. */
  lemma EntriesInFigures(l: Lease, minutes: real, now: real)
    ensures StartEntry(l) == LedgerEntry(l.startedAt, l.worker, l.provider, LeaseStart, l.grantedMin + Minutes(l.extensions),
                                         l.priceHr * (l.grantedMin + Minutes(l.extensions)) / 60.0)
    ensures ExtendEntry(l, minutes, now) == LedgerEntry(now, l.worker, l.provider, Extend, minutes, l.priceHr * minutes / 60.0)
    ensures now >= l.startedAt ==>
              EndEntry(l, now) == LedgerEntry(now, l.worker, l.provider, LeaseEnd, (now - l.startedAt) / 60.0,
                                              l.priceHr * (now - l.startedAt) / 3600.0)
    ensures now < l.startedAt ==> EndEntry(l, now) == LedgerEntry(now, l.worker, l.provider, LeaseEnd, 0.0, 0.0)
  {
  }

  // ---------------------------------------------------------------------
  // The invariant of the books
  // ---------------------------------------------------------------------

  /** Budgets that some provider's actions are checked against. */
  predicate Enforced(b: Budget) {
    b.scope == SCOPE_GLOBAL || BudgetProvider(b.scope).Some?
  }

  /** What a budget has to cover, time past the walls apart. */
  function Exposure(b: Budget, reduced: seq<LedgerEntry>, leases: seq<Lease>, now: real): real {
    Spent(reduced, BudgetProvider(b.scope), PeriodStart(b.period, now)) + CommittedLive(leases, BudgetProvider(b.scope))
  }

  predicate Within(budgets: seq<Budget>, reduced: seq<LedgerEntry>, leases: seq<Lease>, now: real) {
    forall b :: b in budgets && Enforced(b) ==> Exposure(b, reduced, leases, now) <= b.cap
  }

  /** Prices are not negative, nor are live leases' grants. */
  predicate Fair(l: Lease) {
    l.priceHr >= 0.0 && (IsLive(l) ==> TotalGranted(l) >= 0.0)
  }

  predicate Sound(reduced: seq<LedgerEntry>, leases: seq<Lease>) {
    && (forall e :: e in reduced && e.event.LeaseEnd? ==> e.cost >= 0.0)
    && (forall l :: l in leases ==> Fair(l))
  }

  predicate Kept(budgets: seq<Budget>, ledger: seq<LedgerEntry>, leases: seq<Lease>, now: real) {
    Sound(Reduced(ledger), leases) && Within(budgets, Reduced(ledger), leases, now)
  }

  /** What the invariant means: no budget's cap is exceeded by more than the priced time leases ran past their walls. */
  lemma {:induction false} KeptBoundsSpending(budgets: seq<Budget>, ledger: seq<LedgerEntry>, leases: seq<Lease>, now: real, b: Budget)
    requires Kept(budgets, ledger, leases, now) && b in budgets && Enforced(b)
    ensures var provider, since := BudgetProvider(b.scope), PeriodStart(b.period, now);
            Spent(ledger, provider, since) + Committed(Live(leases), provider) <= b.cap + Overrun(ledger, provider, since)
  {
    SpentSplits(ledger, BudgetProvider(b.scope), PeriodStart(b.period, now));
  }

  /** Empty books keep every budget whose cap is not negative. */
  lemma EmptyKept(budgets: seq<Budget>, now: real)
    requires forall b :: b in budgets ==> b.cap >= 0.0
    ensures Kept(budgets, [], [], now)
  {
    forall b | b in budgets
      ensures Exposure(b, [], [], now) == 0.0
    {
      assert Live([]) == [];
    }
  }

  // ---------------------------------------------------------------------
  // Every change keeps the books
  // ---------------------------------------------------------------------

  /** Time passes, months roll over. */
  lemma KeepAdvance(budgets: seq<Budget>, ledger: seq<LedgerEntry>, leases: seq<Lease>, now: real, later: real)
    requires Kept(budgets, ledger, leases, now) && now <= later
    ensures Kept(budgets, ledger, leases, later)
  {
    forall b | b in budgets && Enforced(b)
      ensures Exposure(b, Reduced(ledger), leases, later) <= b.cap
    {
      SpentFalls(Reduced(ledger), BudgetProvider(b.scope), b.period, now, later);
    }
  }

  lemma {:induction false} CandidateFits(
      budgets: seq<Budget>, ledger: seq<LedgerEntry>, leases: seq<Lease>, now: real, provider: string, candidate: real, b: Budget)
    requires Kept(budgets, ledger, leases, now)
    requires Evaluate(budgets, ledger, Live(leases), provider, candidate, now).None?
    requires b in budgets && Enforced(b) && Concerns(BudgetProvider(b.scope), provider)
    ensures Exposure(b, Reduced(ledger), leases, now) + candidate <= b.cap
  {
    var first := EvaluateFindsFirst(budgets, ledger, Live(leases), provider, candidate, now);
    assert !Breaches(b, ledger, Live(leases), provider, candidate, now);
    SpentSplits(ledger, BudgetProvider(b.scope), PeriodStart(b.period, now));
  }

  /** An entry that is not a lease's end changes no spend. */
  lemma KeepNote(budgets: seq<Budget>, ledger: seq<LedgerEntry>, leases: seq<Lease>, now: real, e: LedgerEntry)
    requires Kept(budgets, ledger, leases, now) && !e.event.LeaseEnd?
    ensures Kept(budgets, ledger + [e], leases, now)
  {
    AppendedLedger(ledger, e, e.worker);
    forall b | b in budgets && Enforced(b)
      ensures Exposure(b, Reduced(ledger + [e]), leases, now) <= b.cap
    {
      SpentAppend(Reduced(ledger), e.(cost := e.cost - 0.0), BudgetProvider(b.scope), PeriodStart(b.period, now));
    }
  }

  /** A new lease whose price passed the check. */
  lemma {:induction false} KeepStart(budgets: seq<Budget>, ledger: seq<LedgerEntry>, leases: seq<Lease>, now: real, l: Lease)
    requires Kept(budgets, ledger, leases, now) && IsLive(l) && Fair(l)
    requires Evaluate(budgets, ledger, Live(leases), l.provider, ProjectedCost(l), now).None?
    ensures Kept(budgets, ledger, leases + [l], now)
  {
    forall b | b in budgets && Enforced(b)
      ensures Exposure(b, Reduced(ledger), leases + [l], now) <= b.cap
    {
      CommittedAppend(leases, l, BudgetProvider(b.scope));
      if Concerns(BudgetProvider(b.scope), l.provider) {
        CandidateFits(budgets, ledger, leases, now, l.provider, ProjectedCost(l), b);
      }
    }
  }

  /** A lease replaced by one of the same provider whose extra price passed the check. */
  lemma {:induction false} KeepRevise(budgets: seq<Budget>, ledger: seq<LedgerEntry>, leases: seq<Lease>, now: real, i: nat, l: Lease, extra: real)
    requires Kept(budgets, ledger, leases, now) && i < |leases|
    requires Revises(l, leases[i]) && IsLive(l) == IsLive(leases[i]) && Fair(l)
    requires IsLive(l) ==> ProjectedCost(l) == ProjectedCost(leases[i]) + extra
    requires extra == 0.0 || Evaluate(budgets, ledger, Live(leases), l.provider, extra, now).None?
    ensures Kept(budgets, ledger, leases[i := l], now)
  {
    forall b | b in budgets && Enforced(b)
      ensures Exposure(b, Reduced(ledger), leases[i := l], now) <= b.cap
    {
      CommittedUpdate(leases, i, l, BudgetProvider(b.scope));
      if extra != 0.0 && IsLive(l) && Concerns(BudgetProvider(b.scope), l.provider) {
        CandidateFits(budgets, ledger, leases, now, l.provider, extra, b);
      }
    }
    assert forall m :: m in leases[i := l] ==> m == l || m in leases;
  }

  lemma {:induction false} KeepStarted(budgets: seq<Budget>, ledger: seq<LedgerEntry>, leases: seq<Lease>, now: real, l: Lease, candidate: real)
    requires IsLive(l) && l.extensions == [] && candidate == PriceOf(l.priceHr, l.grantedMin)
    requires Evaluate(budgets, ledger, Live(leases), l.provider, candidate, now).None?
    ensures Kept(budgets, ledger, leases, now) && l.priceHr >= 0.0 && l.grantedMin >= 0.0 ==>
              Kept(budgets, ledger + [StartEntry(l)], leases + [l], now)
  {
    if Kept(budgets, ledger, leases, now) && l.priceHr >= 0.0 && l.grantedMin >= 0.0 {
      assert TotalGranted(l) == l.grantedMin;
      KeepStart(budgets, ledger, leases, now, l);
      KeepNote(budgets, ledger, leases + [l], now, StartEntry(l));
    }
  }

  /** A lease whose wall has been moved; one that was draining is active again. */
  function Extended(l: Lease, minutes: real, now: real): Lease {
    l.(extensions := l.extensions + [Extension(minutes, now)], state := if l.state == Draining then Active else l.state)
  }

  lemma ExtendedPrice(l: Lease, minutes: real, now: real)
    ensures TotalGranted(Extended(l, minutes, now)) == TotalGranted(l) + minutes
    ensures ProjectedCost(Extended(l, minutes, now)) == ProjectedCost(l) + PriceOf(l.priceHr, minutes)
  {
    ExtensionCost(l, Extension(minutes, now));
    MinutesOfOneMore(l.extensions, Extension(minutes, now));
  }

  lemma {:induction false} KeepExtended(budgets: seq<Budget>, ledger: seq<LedgerEntry>, leases: seq<Lease>, now: real, i: nat, minutes: real)
    requires i < |leases|
    requires Evaluate(budgets, ledger, Live(leases), leases[i].provider, PriceOf(leases[i].priceHr, minutes), now).None?
    ensures var l := Extended(leases[i], minutes, now);
            (Kept(budgets, ledger, leases, now) && TotalGranted(l) >= 0.0
             ==> Kept(budgets, ledger + [ExtendEntry(leases[i], minutes, now)], leases[i := l], now))
  {
    var l := Extended(leases[i], minutes, now);
    if Kept(budgets, ledger, leases, now) && TotalGranted(l) >= 0.0 {
      ExtendedPrice(leases[i], minutes, now);
      assert leases[i] in leases;
      KeepRevise(budgets, ledger, leases, now, i, l, PriceOf(leases[i].priceHr, minutes));
      KeepNote(budgets, ledger, leases[i := l], now, ExtendEntry(leases[i], minutes, now));
    }
  }

  /** Draining a live lease changes nothing it costs. */
  lemma KeepDrained(budgets: seq<Budget>, ledger: seq<LedgerEntry>, leases: seq<Lease>, now: real, i: nat)
    requires i < |leases| && IsLive(leases[i])
    ensures Kept(budgets, ledger, leases, now) ==>
              Kept(budgets, ledger, leases[i := leases[i].(state := Draining)], now)
  {
    if Kept(budgets, ledger, leases, now) {
      assert leases[i] in leases;
      KeepRevise(budgets, ledger, leases, now, i, leases[i].(state := Draining), 0.0);
    }
  }

  /** The price of the time a lease runs past its wall. */
  function LateCost(l: Lease, now: real): real {
    if ElapsedMin(l, now) > TotalGranted(l) then PriceOf(l.priceHr, ElapsedMin(l, now) - TotalGranted(l)) else 0.0
  }

  /** In tallied books that is the late part of the entry that closes the lease. */
  lemma EndLate(leases: seq<Lease>, ledger: seq<LedgerEntry>, now: real, i: nat)
    requires Tallied(leases, ledger) && i < |leases| && leases[i].priceHr >= 0.0
    ensures LateIn(ledger, EndEntry(leases[i], now)) == LateCost(leases[i], now)
    ensures var l := leases[i];
            var wall := l.startedAt + 60.0 * (l.grantedMin + Minutes(l.extensions));
            wall >= l.startedAt ==> LateCost(l, now) == if now > wall then l.priceHr * (now - wall) / 3600.0 else 0.0
  {
    var l := leases[i];
    assert l in leases;
    BookedAtPrice(ledger, l.worker, l.priceHr);
    DearerIsLonger(l.priceHr, ElapsedMin(l, now), TotalGranted(l));
  }

  /** What closing a lease charges within its grant. */
  function GrantedCost(l: Lease, now: real): real {
    EndEntry(l, now).cost - LateCost(l, now)
  }

  lemma EndCost(l: Lease, now: real)
    requires l.priceHr >= 0.0 && TotalGranted(l) >= 0.0
    ensures 0.0 <= LateCost(l, now)
    ensures 0.0 <= GrantedCost(l, now) <= ProjectedCost(l)
  {
    var elapsed, granted := ElapsedMin(l, now), TotalGranted(l);
    if elapsed > granted {
      PricesAdd(l.priceHr, granted, elapsed - granted);
      PriceNotNegative(l.priceHr, granted);
      PriceNotNegative(l.priceHr, elapsed - granted);
    } else {
      PricesAdd(l.priceHr, elapsed, granted - elapsed);
      PriceNotNegative(l.priceHr, elapsed);
      PriceNotNegative(l.priceHr, granted - elapsed);
    }
  }

  /** What closing a lease does to a budget, whether or not it was still live. */
  lemma {:induction false} EndExposure(ledger: seq<LedgerEntry>, leases: seq<Lease>, now: real, i: nat, b: Budget)
    requires Tallied(leases, ledger) && i < |leases| && leases[i].priceHr >= 0.0
    ensures var l, e := leases[i], EndEntry(leases[i], now);
            && Reduced(ledger + [e]) == Reduced(ledger) + [e.(cost := GrantedCost(l, now))]
            && Exposure(b, Reduced(ledger + [e]), leases[i := l.(state := Destroyed)], now)
            == Exposure(b, Reduced(ledger), leases, now) - Share(l, BudgetProvider(b.scope))
               + if Counts(e, BudgetProvider(b.scope), PeriodStart(b.period, now)) then GrantedCost(l, now) else 0.0
  {
    var l, e := leases[i], EndEntry(leases[i], now);
    EndLate(leases, ledger, now, i);
    AppendedLedger(ledger, e, l.worker);
    SpentAppend(Reduced(ledger), e.(cost := GrantedCost(l, now)), BudgetProvider(b.scope), PeriodStart(b.period, now));
    CommittedUpdate(leases, i, l.(state := Destroyed), BudgetProvider(b.scope));
  }

  /** Closing keeps the books of a live lease, for what it has cost within its grant was committed, and of one that has cost nothing. */
  lemma KeepEnd(budgets: seq<Budget>, ledger: seq<LedgerEntry>, leases: seq<Lease>, now: real, i: nat)
    requires Kept(budgets, ledger, leases, now) && Tallied(leases, ledger) && i < |leases|
    requires IsLive(leases[i]) || GrantedCost(leases[i], now) == 0.0
    ensures Kept(budgets, ledger + [EndEntry(leases[i], now)], leases[i := leases[i].(state := Destroyed)], now)
  {
    var l := leases[i];
    assert l in leases;
    if IsLive(l) {
      EndCost(l, now);
    }
    EndExposure(ledger, leases, now, i, NOTHING);
    forall b | b in budgets && Enforced(b)
      ensures Exposure(b, Reduced(ledger + [EndEntry(l, now)]), leases[i := l.(state := Destroyed)], now) <= b.cap
    {
      EndExposure(ledger, leases, now, i, b);
    }
    assert forall m :: m in leases[i := l.(state := Destroyed)] ==> m == l.(state := Destroyed) || m in leases;
  }

  lemma KeepClosed(budgets: seq<Budget>, ledger: seq<LedgerEntry>, leases: seq<Lease>, now: real, i: nat)
    requires i < |leases|
    ensures (Tallied(leases, ledger) && IsLive(leases[i]) && Kept(budgets, ledger, leases, now)
             ==> Kept(budgets, ledger + [EndEntry(leases[i], now)], leases[i := leases[i].(state := Destroyed)], now))
  {
    if Tallied(leases, ledger) && IsLive(leases[i]) && Kept(budgets, ledger, leases, now) {
      KeepEnd(budgets, ledger, leases, now, i);
    }
  }

  /** A budget of nothing for everything. */
  const NOTHING := Budget(SCOPE_GLOBAL, 0.0, "all")
}
