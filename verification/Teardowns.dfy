/** For which leases a teardown keeps every budget's bound. Nothing in a teardown asks whether the lease is still live. */
module Teardowns {
  import opened Options
  import opened Budgets
  import opened Spending

  function DeadWorkers(leases: seq<Lease>): set<WorkerId> {
    set l | l in leases && !IsLive(l) :: l.worker
  }

  function EndedWorkers(ledger: seq<LedgerEntry>): set<WorkerId> {
    set e | e in ledger && e.event.LeaseEnd? :: e.worker
  }

  /** Rows and ledger as the lease manager has them: tallied, and exactly the destroyed leases have been closed. */
  predicate Booked(leases: seq<Lease>, ledger: seq<LedgerEntry>) {
    Tallied(leases, ledger) && DeadWorkers(leases) == EndedWorkers(ledger)
  }

  /**
   * Rows and ledger after row `i` has been torn down: a destroy that is accepted closes the lease, one that is refused
   * leaves it draining if it was drained first.
   */
  function TornDown(leases: seq<Lease>, ledger: seq<LedgerEntry>, i: nat, drainFirst: bool, accepted: bool, now: real)
    : (seq<Lease>, seq<LedgerEntry>)
    requires i < |leases|
  {
    if accepted then (leases[i := leases[i].(state := Destroyed)], ledger + [EndEntry(leases[i], now)])
    else if drainFirst then (leases[i := leases[i].(state := Draining)], ledger)
    else (leases, ledger)
  }

  /** Tearing the lease down keeps the books, whatever they are. */
  ghost predicate AlwaysKeeps(l: Lease, drainFirst: bool, accepted: bool, now: real) {
    forall budgets, leases, ledger, i: nat ::
      Kept(budgets, ledger, leases, now) && Booked(leases, ledger) && i < |leases| && leases[i] == l
      ==> KeptAfter(budgets, TornDown(leases, ledger, i, drainFirst, accepted, now), now)
  }

  predicate KeptAfter(budgets: seq<Budget>, books: (seq<Lease>, seq<LedgerEntry>), now: real) {
    Kept(budgets, books.1, books.0, now)
  }

  /** A lease that has cost nothing within its grant. */
  predicate FreeOfCharge(l: Lease, now: real) {
    l.priceHr == 0.0 || TotalGranted(l) == 0.0 || (now <= l.startedAt && TotalGranted(l) > 0.0)
  }

  /** A lease that commits nothing while it lives. */
  predicate CommitsNothing(l: Lease) {
    TotalGranted(l) == 0.0 || (l.priceHr == 0.0 && TotalGranted(l) > 0.0)
  }

  /** What the lease, the request and the provider's answer tell. */
  predicate Harmless(l: Lease, drainFirst: bool, accepted: bool, now: real) {
    || IsLive(l)
    || (accepted && FreeOfCharge(l, now))
    || (!accepted && (drainFirst ==> CommitsNothing(l)))
  }

  lemma FreeCostsNothing(l: Lease, now: real)
    requires l.priceHr >= 0.0
    ensures FreeOfCharge(l, now) <==> GrantedCost(l, now) == 0.0
  {
    var elapsed, granted, price := ElapsedMin(l, now), TotalGranted(l), l.priceHr;
    if elapsed > granted {
      PricesAdd(price, granted, elapsed - granted);
      assert GrantedCost(l, now) == price * granted / 60.0;
    } else {
      assert GrantedCost(l, now) == price * elapsed / 60.0;
    }
  }

  /** A dead lease set draining is committed again. */
  lemma {:induction false} RevivedExposure(ledger: seq<LedgerEntry>, leases: seq<Lease>, now: real, i: nat, b: Budget)
    requires i < |leases| && !IsLive(leases[i])
    ensures Exposure(b, Reduced(ledger), leases[i := leases[i].(state := Draining)], now)
         == Exposure(b, Reduced(ledger), leases, now)
            + if Concerns(BudgetProvider(b.scope), leases[i].provider) then ProjectedCost(leases[i]) else 0.0
  {
    CommittedUpdate(leases, i, leases[i].(state := Draining), BudgetProvider(b.scope));
  }

  lemma KeepRevived(budgets: seq<Budget>, ledger: seq<LedgerEntry>, leases: seq<Lease>, now: real, i: nat)
    requires Kept(budgets, ledger, leases, now) && i < |leases| && !IsLive(leases[i]) && CommitsNothing(leases[i])
    ensures Kept(budgets, ledger, leases[i := leases[i].(state := Draining)], now)
  {
    var l := leases[i];
    assert l in leases;
    assert ProjectedCost(l) == 0.0;
    forall b | b in budgets && Enforced(b)
      ensures Exposure(b, Reduced(ledger), leases[i := l.(state := Draining)], now) <= b.cap
    {
      RevivedExposure(ledger, leases, now, i, b);
    }
    assert forall m :: m in leases[i := l.(state := Draining)] ==> m == l.(state := Draining) || m in leases;
  }

  lemma {:induction false} HarmlessKeeps(
      budgets: seq<Budget>, leases: seq<Lease>, ledger: seq<LedgerEntry>, i: nat, drainFirst: bool, accepted: bool, now: real)
    requires Kept(budgets, ledger, leases, now) && Tallied(leases, ledger) && i < |leases|
    requires Harmless(leases[i], drainFirst, accepted, now)
    ensures KeptAfter(budgets, TornDown(leases, ledger, i, drainFirst, accepted, now), now)
  {
    assert leases[i] in leases;
    if accepted {
      FreeCostsNothing(leases[i], now);
      KeepEnd(budgets, ledger, leases, now, i);
    } else if drainFirst {
      if IsLive(leases[i]) {
        KeepDrained(budgets, ledger, leases, now, i);
      } else {
        KeepRevived(budgets, ledger, leases, now, i);
      }
    }
  }

  /** Books with one dead lease, closed the moment it began and extended since. */
  function ClosedAtOnce(l: Lease): seq<LedgerEntry> {
    [EndEntry(l, l.startedAt), ExtendEntry(l, TotalGranted(l), l.startedAt)]
  }

  lemma {:induction false} ClosedAtOnceTallied(l: Lease)
    ensures Tallied([l], ClosedAtOnce(l))
  {
    var first, second := EndEntry(l, l.startedAt), ExtendEntry(l, TotalGranted(l), l.startedAt);
    assert ClosedAtOnce(l) == [first] + [second];
    AppendedLedger([first], second, l.worker);
    assert [first] == [] + [first];
    AppendedLedger([], first, l.worker);
    assert l in [l];
  }

  lemma ClosedAtOnceBooked(l: Lease)
    requires !IsLive(l)
    ensures Booked([l], ClosedAtOnce(l))
  {
    ClosedAtOnceTallied(l);
    assert l in [l] && ClosedAtOnce(l)[0] in ClosedAtOnce(l);
    assert DeadWorkers([l]) == {l.worker} == EndedWorkers(ClosedAtOnce(l));
  }

  lemma {:induction false} ClosedAtOnceReduced(l: Lease)
    ensures Reduced(ClosedAtOnce(l)) == ClosedAtOnce(l) && EndEntry(l, l.startedAt).cost == 0.0
  {
    var first, second := EndEntry(l, l.startedAt), ExtendEntry(l, TotalGranted(l), l.startedAt);
    assert ClosedAtOnce(l) == [first] + [second];
    AppendedLedger([first], second, l.worker);
    assert [first] == [] + [first];
    AppendedLedger([], first, l.worker);
  }

  lemma {:induction false} ClosedAtOnceSpends(l: Lease, provider: Option<string>, since: Option<real>)
    ensures Spent(ClosedAtOnce(l), provider, since) == 0.0
  {
    var first, second := EndEntry(l, l.startedAt), ExtendEntry(l, TotalGranted(l), l.startedAt);
    assert ClosedAtOnce(l) == [first] + [second];
    SpentAppend([first], second, provider, since);
    assert [first] == [] + [first];
    SpentAppend([], first, provider, since);
  }

  /** They keep a budget of nothing. */
  lemma {:induction false} ClosedAtOnceKept(l: Lease, now: real)
    requires !IsLive(l) && l.priceHr >= 0.0
    ensures Booked([l], ClosedAtOnce(l)) && Kept([NOTHING], ClosedAtOnce(l), [l], now)
    ensures Exposure(NOTHING, Reduced(ClosedAtOnce(l)), [l], now) == 0.0
  {
    ClosedAtOnceBooked(l);
    ClosedAtOnceReduced(l);
    ClosedAtOnceSpends(l, BudgetProvider(NOTHING.scope), PeriodStart(NOTHING.period, now));
    assert Live([l]) == [];
  }

  /** A budget of nothing does not survive a second charge, nor a lease that commits something. */
  lemma {:induction false} HarmfulBreaks(l: Lease, drainFirst: bool, accepted: bool, now: real)
    requires l.priceHr >= 0.0 && !Harmless(l, drainFirst, accepted, now)
    ensures !KeptAfter([NOTHING], TornDown([l], ClosedAtOnce(l), 0, drainFirst, accepted, now), now)
  {
    var ledger := ClosedAtOnce(l);
    ClosedAtOnceKept(l, now);
    assert NOTHING in [NOTHING] && Enforced(NOTHING);
    assert BudgetProvider(NOTHING.scope) == None;
    if accepted {
      FreeCostsNothing(l, now);
      EndExposure(ledger, [l], now, 0, NOTHING);
      var e := EndEntry(l, now).(cost := GrantedCost(l, now));
      assert e in Reduced(ledger + [EndEntry(l, now)]);
    } else {
      RevivedExposure(ledger, [l], now, 0, NOTHING);
      var revived := l.(state := Draining);
      assert revived in [l][0 := revived];
      if TotalGranted(l) > 0.0 {
        assert l.priceHr * TotalGranted(l) > 0.0;
      }
    }
  }

  /**
   * Exactly which teardowns keep every budget's bound: those of live leases; of a dead one, an accepted destroy only
   * if the lease has cost nothing within its grant, and a refused one only if there was no drain first, which brings
   * the lease back, or the lease commits nothing.
   */
  lemma TeardownIsExact(l: Lease, drainFirst: bool, accepted: bool, now: real)
    requires l.priceHr >= 0.0
    ensures AlwaysKeeps(l, drainFirst, accepted, now) <==> Harmless(l, drainFirst, accepted, now)
  {
    if Harmless(l, drainFirst, accepted, now) {
      forall budgets, leases, ledger, i: nat
        | Kept(budgets, ledger, leases, now) && Booked(leases, ledger) && i < |leases| && leases[i] == l
        ensures KeptAfter(budgets, TornDown(leases, ledger, i, drainFirst, accepted, now), now)
      {
        HarmlessKeeps(budgets, leases, ledger, i, drainFirst, accepted, now);
      }
    } else {
      ClosedAtOnceKept(l, now);
      HarmfulBreaks(l, drainFirst, accepted, now);
      assert [l][0] == l;
    }
  }

  /**
   * What a caller can look at before the call: a teardown keeps every budget's bound whatever the provider answers and
   * however long it takes exactly if the lease is live, or has no price or no grant and, if drained first, commits nothing.
   */
  lemma {:induction false} HarmlessWhateverTheAnswer(l: Lease, drainFirst: bool, now: real)
    requires l.priceHr >= 0.0
    ensures (forall accepted, later :: later >= now ==> AlwaysKeeps(l, drainFirst, accepted, later))
       <==> IsLive(l) || ((l.priceHr == 0.0 || TotalGranted(l) == 0.0) && (drainFirst ==> CommitsNothing(l)))
  {
    forall accepted, later
      ensures AlwaysKeeps(l, drainFirst, accepted, later) <==> Harmless(l, drainFirst, accepted, later)
    {
      TeardownIsExact(l, drainFirst, accepted, later);
    }
    var begun := if now > l.startedAt then now else l.startedAt + 1.0;
    assert Harmless(l, drainFirst, true, begun) <==> IsLive(l) || l.priceHr == 0.0 || TotalGranted(l) == 0.0;
    assert Harmless(l, drainFirst, false, now) <==> IsLive(l) || (drainFirst ==> CommitsNothing(l));
  }
}
