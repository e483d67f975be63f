/** Lease arithmetic, the budget check and the spend report. Money and minutes are reals: rounding is not the point. */
module Budgets {
  import opened Options
  import Text
  import Calendar

  type WorkerId = string

  datatype LeaseState = Active | Draining | Destroyed

  datatype Extension = Extension(minutes: real, at: real)

  datatype Lease = Lease(
    worker: WorkerId, provider: string, instance: string, priceHr: real, grantedMin: real,
    drainWindowMin: real, startedAt: real, state: LeaseState, extensions: seq<Extension>)

  datatype LedgerEvent = LeaseStart | Extend | LeaseEnd

  datatype LedgerEntry = LedgerEntry(
    ts: real, worker: WorkerId, provider: string, event: LedgerEvent, minutes: real, cost: real)

  datatype Budget = Budget(scope: string, cap: real, period: string)

  const SCOPE_GLOBAL := "global"
  const SCOPE_PROVIDER_PREFIX := "provider:"
  const PERIOD_MONTH := "month"

  // ---------------------------------------------------------------------
  // A lease's wall and its price
  // ---------------------------------------------------------------------

  function Minutes(extensions: seq<Extension>): real {
    if extensions == [] then 0.0 else extensions[0].minutes + Minutes(extensions[1..])
  }

  function TotalGranted(l: Lease): real {
    l.grantedMin + Minutes(l.extensions)
  }

  function WallSecs(l: Lease): real {
    TotalGranted(l) * 60.0
  }

  function DrainSecs(l: Lease): real {
    var secs := WallSecs(l) - l.drainWindowMin * 60.0;
    if secs > 0.0 then secs else 0.0
  }

  /** What minutes cost at an hourly price. */
  function PriceOf(priceHr: real, minutes: real): real {
    priceHr * minutes / 60.0
  }

  function ProjectedCost(l: Lease): real {
    PriceOf(l.priceHr, TotalGranted(l))
  }

  /** A lease's figures in the minutes granted, and the minutes reserved for winding down, and its hourly price. */
  lemma LeaseInMinutes(l: Lease)
    ensures WallSecs(l) == 60.0 * (l.grantedMin + Minutes(l.extensions))
    ensures ProjectedCost(l) == l.priceHr * (l.grantedMin + Minutes(l.extensions)) / 60.0
    ensures var drainAt := 60.0 * (l.grantedMin + Minutes(l.extensions) - l.drainWindowMin);
            DrainSecs(l) == if drainAt > 0.0 then drainAt else 0.0
  {
  }

  lemma {:induction false} MinutesOfOneMore(extensions: seq<Extension>, e: Extension)
    ensures Minutes(extensions + [e]) == Minutes(extensions) + e.minutes
  {
    if extensions == [] {
      assert [e][1..] == [];
    } else {
      MinutesOfOneMore(extensions[1..], e);
      assert (extensions + [e])[1..] == extensions[1..] + [e];
    }
  }

  /** An extension moves the wall by its minutes, and the price of the lease by the price of its minutes. */
  lemma ExtensionCost(l: Lease, e: Extension)
    ensures var longer := l.(extensions := l.extensions + [e]);
            && WallSecs(longer) == WallSecs(l) + e.minutes * 60.0
            && ProjectedCost(longer) == ProjectedCost(l) + PriceOf(l.priceHr, e.minutes)
  {
    MinutesOfOneMore(l.extensions, e);
    assert l.priceHr * (TotalGranted(l) + e.minutes) == l.priceHr * TotalGranted(l) + l.priceHr * e.minutes;
  }

  // ---------------------------------------------------------------------
  // What has been spent and what is committed
  // ---------------------------------------------------------------------

  /** The time a period began, or none for all time. */
  function PeriodStart(period: string, now: real): Option<real> {
    if period == PERIOD_MONTH then Some(Calendar.MonthStartOf(now)) else None
  }

  function BudgetProvider(scope: string): Option<string> {
    Text.StripPrefix(SCOPE_PROVIDER_PREFIX, scope)
  }

  predicate Concerns(provider: Option<string>, name: string) {
    provider.None? || provider.value == name
  }

  predicate Counts(e: LedgerEntry, provider: Option<string>, since: Option<real>) {
    e.event.LeaseEnd? && (since.None? || e.ts >= since.value) && Concerns(provider, e.provider)
  }

  /** Realised spend: the cost of the lease ends that count. */
  function Spent(ledger: seq<LedgerEntry>, provider: Option<string>, since: Option<real>): real {
    if ledger == [] then 0.0
    else (if Counts(ledger[0], provider, since) then ledger[0].cost else 0.0) + Spent(ledger[1..], provider, since)
  }

  /** Projected cost of the live leases that count. */
  function Committed(live: seq<Lease>, provider: Option<string>): real {
    if live == [] then 0.0
    else (if Concerns(provider, live[0].provider) then ProjectedCost(live[0]) else 0.0) + Committed(live[1..], provider)
  }

  lemma {:induction false} SpentAppend(ledger: seq<LedgerEntry>, e: LedgerEntry, provider: Option<string>, since: Option<real>)
    ensures Spent(ledger + [e], provider, since)
         == Spent(ledger, provider, since) + if Counts(e, provider, since) then e.cost else 0.0
  {
    if ledger == [] {
      assert (ledger + [e])[1..] == [];
    } else {
      SpentAppend(ledger[1..], e, provider, since);
      assert (ledger + [e])[1..] == ledger[1..] + [e];
    }
  }

  lemma {:induction false} SpentJoin(ledger: seq<LedgerEntry>, more: seq<LedgerEntry>, provider: Option<string>, since: Option<real>)
    ensures Spent(ledger + more, provider, since) == Spent(ledger, provider, since) + Spent(more, provider, since)
  {
    if ledger == [] {
      assert ledger + more == more;
    } else {
      SpentJoin(ledger[1..], more, provider, since);
      assert (ledger + more)[1..] == ledger[1..] + more;
    }
  }

  /** What counts as spent: the cost of lease ends, not older than the time given, at the provider given. */
  lemma {:induction false} SpentOfOneMore(ledger: seq<LedgerEntry>, e: LedgerEntry, provider: Option<string>, since: Option<real>)
    ensures Spent([], provider, since) == 0.0
    ensures Spent(ledger + [e], provider, since)
         == Spent(ledger, provider, since)
            + if e.event == LeaseEnd && (since == None || e.ts >= since.value) && (provider == None || provider == Some(e.provider))
              then e.cost else 0.0
  {
    SpentAppend(ledger, e, provider, since);
  }

  /** What counts as committed: the hourly price of the minutes granted to live leases at the provider given. */
  lemma {:induction false} CommittedOfOneMore(live: seq<Lease>, l: Lease, provider: Option<string>)
    ensures Committed([], provider) == 0.0
    ensures Committed(live + [l], provider)
         == Committed(live, provider)
            + if provider == None || provider == Some(l.provider) then l.priceHr * (l.grantedMin + Minutes(l.extensions)) / 60.0 else 0.0
  {
    if live == [] {
      assert (live + [l])[1..] == [];
    } else {
      CommittedOfOneMore(live[1..], l, provider);
      assert (live + [l])[1..] == live[1..] + [l];
    }
  }

  /** As time advances a month's budget can only count less. */
  lemma {:induction false} SpentFalls(ledger: seq<LedgerEntry>, provider: Option<string>, period: string, now: real, later: real)
    requires now <= later
    requires forall e :: e in ledger && e.event.LeaseEnd? ==> e.cost >= 0.0
    ensures 0.0 <= Spent(ledger, provider, PeriodStart(period, later)) <= Spent(ledger, provider, PeriodStart(period, now))
  {
    if ledger != [] {
      Calendar.MonthStartMonotone(now, later);
      SpentFalls(ledger[1..], provider, period, now, later);
      assert ledger[0] in ledger;
    }
  }

  // ---------------------------------------------------------------------
  // The check
  // ---------------------------------------------------------------------

  datatype Breach = Breach(scope: string, period: string, cap: real, projected: real)

  predicate Applies(b: Budget, provider: string) {
    b.scope == SCOPE_GLOBAL || BudgetProvider(b.scope) == Some(provider)
  }

  /** What the budget would have to cover. */
  function Projected(b: Budget, ledger: seq<LedgerEntry>, live: seq<Lease>, candidate: real, now: real): real {
    Spent(ledger, BudgetProvider(b.scope), PeriodStart(b.period, now)) + Committed(live, BudgetProvider(b.scope)) + candidate
  }

  predicate Breaches(b: Budget, ledger: seq<LedgerEntry>, live: seq<Lease>, provider: string, candidate: real, now: real) {
    Applies(b, provider) && Projected(b, ledger, live, candidate, now) > b.cap
  }

  function BreachOf(b: Budget, ledger: seq<LedgerEntry>, live: seq<Lease>, candidate: real, now: real): Breach {
    Breach(b.scope, b.period, b.cap, Projected(b, ledger, live, candidate, now))
  }

  function Evaluate(budgets: seq<Budget>, ledger: seq<LedgerEntry>, live: seq<Lease>, provider: string, candidate: real, now: real)
    : Option<Breach>
  {
    if budgets == [] then None
    else if Breaches(budgets[0], ledger, live, provider, candidate, now)
      then Some(BreachOf(budgets[0], ledger, live, candidate, now))
    else Evaluate(budgets[1..], ledger, live, provider, candidate, now)
  }

  /** A candidate is refused if and only if some budget breaches, and what is reported is the first that does. */
  lemma {:induction false} EvaluateFindsFirst(
      budgets: seq<Budget>, ledger: seq<LedgerEntry>, live: seq<Lease>, provider: string, candidate: real, now: real)
    returns (first: nat)
    ensures var breach := Evaluate(budgets, ledger, live, provider, candidate, now);
            && (breach.Some? <==> exists b :: b in budgets && Breaches(b, ledger, live, provider, candidate, now))
            && (breach.Some? ==> && first < |budgets|
                                 && Breaches(budgets[first], ledger, live, provider, candidate, now)
                                 && breach.value == BreachOf(budgets[first], ledger, live, candidate, now)
                                 && forall j :: 0 <= j < first ==> !Breaches(budgets[j], ledger, live, provider, candidate, now))
  {
    first := 0;
    if budgets != [] {
      assert budgets == [budgets[0]] + budgets[1..];
      if !Breaches(budgets[0], ledger, live, provider, candidate, now) {
        var rest := EvaluateFindsFirst(budgets[1..], ledger, live, provider, candidate, now);
        first := rest + 1;
      }
    }
  }

  /** What a budget of this cap, for one provider or for all, has to cover from a time on is more than its cap. */
  predicate Over(cap: real, provider: Option<string>, since: Option<real>, ledger: seq<LedgerEntry>, live: seq<Lease>, candidate: real) {
    Spent(ledger, provider, since) + Committed(live, provider) + candidate > cap
  }

  /**
   * A candidate is refused if and only if some budget for everything, or for its provider, would be exceeded: one for the
   * month counts what was spent since the month began, any other what was ever spent.
   */
  lemma {:induction false} RefusedByPeriodAndScope(
      budgets: seq<Budget>, ledger: seq<LedgerEntry>, live: seq<Lease>, provider: string, candidate: real, now: real)
    ensures Evaluate(budgets, ledger, live, provider, candidate, now).Some?
       <==> exists b :: b in budgets
              && (b.scope == "global" || b.scope == "provider:" + provider)
              && Over(b.cap, if b.scope == "global" then None else Some(provider),
                      if b.period == "month" then Some(Calendar.MonthStartOf(now)) else None, ledger, live, candidate)
  {
    var first := EvaluateFindsFirst(budgets, ledger, live, provider, candidate, now);
    forall b | b in budgets
      ensures Breaches(b, ledger, live, provider, candidate, now)
         <==> (b.scope == "global" || b.scope == "provider:" + provider)
              && Over(b.cap, if b.scope == "global" then None else Some(provider),
                      if b.period == "month" then Some(Calendar.MonthStartOf(now)) else None, ledger, live, candidate)
    {
      ScopeProvider(b.scope, provider);
    }
  }

  /** What a refusal reports is a budget that stands in the way and what it would have to cover. */
  lemma {:induction false} RefusalTells(
      budgets: seq<Budget>, ledger: seq<LedgerEntry>, live: seq<Lease>, provider: string, candidate: real, now: real) returns (b: Budget)
    requires Evaluate(budgets, ledger, live, provider, candidate, now).Some?
    ensures b in budgets && (b.scope == "global" || b.scope == "provider:" + provider)
    ensures var p, since := if b.scope == "global" then None else Some(provider),
                            if b.period == "month" then Some(Calendar.MonthStartOf(now)) else None;
            Evaluate(budgets, ledger, live, provider, candidate, now)
            == Some(Breach(b.scope, b.period, b.cap, Spent(ledger, p, since) + Committed(live, p) + candidate))
  {
    var first := EvaluateFindsFirst(budgets, ledger, live, provider, candidate, now);
    b := budgets[first];
    ScopeProvider(b.scope, provider);
  }

  lemma ScopeProvider(scope: string, provider: string)
    ensures scope == "global" ==> BudgetProvider(scope) == None
    ensures BudgetProvider(scope) == Some(provider) <==> scope == "provider:" + provider
  {
    Text.StripPrefixOf("provider:", provider);
    if scope == "global" {
      assert scope[0] != "provider:"[0];
    }
  }

  /**
   * A lease end dated before the month began changes no decision of a budget for the month; under any other period it adds
   * its cost to what the budget has to cover.
   */
  lemma {:induction false} LastMonthIsForgotten(
      b: Budget, before: seq<LedgerEntry>, e: LedgerEntry, after: seq<LedgerEntry>, live: seq<Lease>, provider: string, candidate: real, now: real)
    requires e.event == LeaseEnd && e.ts < Calendar.MonthStartOf(now)
    ensures b.period == "month" ==>
              (Breaches(b, before + [e] + after, live, provider, candidate, now) <==> Breaches(b, before + after, live, provider, candidate, now))
    ensures b.period != "month" && (b.scope == "global" || b.scope == "provider:" + e.provider) ==>
              Projected(b, before + [e] + after, live, candidate, now) == Projected(b, before + after, live, candidate, now) + e.cost
  {
    ScopeProvider(b.scope, e.provider);
    var p, since := BudgetProvider(b.scope), PeriodStart(b.period, now);
    SpentJoin(before + [e], after, p, since);
    SpentJoin(before, after, p, since);
    SpentAppend(before, e, p, since);
  }

  /** Whether there is a breach does not depend on the order the budgets are listed in, nor on repetitions. */
  lemma {:induction false} BreachIgnoresOrder(
      budgets: seq<Budget>, others: seq<Budget>, ledger: seq<LedgerEntry>, live: seq<Lease>, provider: string,
      candidate: real, now: real)
    requires forall b :: b in budgets <==> b in others
    ensures Evaluate(budgets, ledger, live, provider, candidate, now).Some?
       <==> Evaluate(others, ledger, live, provider, candidate, now).Some?
  {
    var i := EvaluateFindsFirst(budgets, ledger, live, provider, candidate, now);
    var j := EvaluateFindsFirst(others, ledger, live, provider, candidate, now);
  }

  // ---------------------------------------------------------------------
  // The spend report
  // ---------------------------------------------------------------------

  datatype SpendLine = SpendLine(
    provider: string, cap: Option<real>, committed: real, spent: real, headroom: Option<real>)

  datatype SpendReport = SpendReport(
    period: string, lines: seq<SpendLine>, totalCommitted: real, totalSpent: real,
    globalCap: Option<real>, globalHeadroom: Option<real>)

  function LiveProviders(live: seq<Lease>): seq<string> {
    seq(|live|, i requires 0 <= i < |live| => live[i].provider)
  }

  function EndedProviders(ledger: seq<LedgerEntry>): seq<string> {
    if ledger == [] then []
    else (if ledger[0].event.LeaseEnd? then [ledger[0].provider] else []) + EndedProviders(ledger[1..])
  }

  function BudgetedProviders(budgets: seq<Budget>): seq<string> {
    if budgets == [] then []
    else
      var provider := BudgetProvider(budgets[0].scope);
      (if provider.Some? then [provider.value] else []) + BudgetedProviders(budgets[1..])
  }

  /** The sorted set of providers a report has a line for. */
  function Providers(budgets: seq<Budget>, ledger: seq<LedgerEntry>, live: seq<Lease>): (providers: seq<string>)
    ensures Text.Ascending(providers)
    ensures forall p :: p in providers
              <==> p in LiveProviders(live) || p in EndedProviders(ledger) || p in BudgetedProviders(budgets)
  {
    Text.InsertAll(Text.InsertAll(Text.InsertAll([], LiveProviders(live)), EndedProviders(ledger)), BudgetedProviders(budgets))
  }

  /** The first budget of that scope and period. */
  function BudgetFor(budgets: seq<Budget>, scope: string, period: string): Option<Budget> {
    if budgets == [] then None
    else if budgets[0].scope == scope && budgets[0].period == period then Some(budgets[0])
    else BudgetFor(budgets[1..], scope, period)
  }

  function CapOf(b: Option<Budget>): Option<real> {
    if b.Some? then Some(b.value.cap) else None
  }

  function Left(cap: Option<real>, spent: real, committed: real): Option<real> {
    if cap.Some? then Some(cap.value - spent - committed) else None
  }

  function LineOf(budgets: seq<Budget>, ledger: seq<LedgerEntry>, live: seq<Lease>, period: string, now: real, provider: string): SpendLine {
    var spent := Spent(ledger, Some(provider), PeriodStart(period, now));
    var committed := Committed(live, Some(provider));
    var cap := CapOf(BudgetFor(budgets, SCOPE_PROVIDER_PREFIX + provider, period));
    SpendLine(provider, cap, committed, spent, Left(cap, spent, committed))
  }

  function LinesOf(budgets: seq<Budget>, ledger: seq<LedgerEntry>, live: seq<Lease>, period: string, now: real, providers: seq<string>)
    : (lines: seq<SpendLine>)
    ensures |lines| == |providers|
    ensures forall i :: 0 <= i < |providers| ==> lines[i] == LineOf(budgets, ledger, live, period, now, providers[i])
  {
    if providers == [] then []
    else [LineOf(budgets, ledger, live, period, now, providers[0])] + LinesOf(budgets, ledger, live, period, now, providers[1..])
  }

  function Report(budgets: seq<Budget>, ledger: seq<LedgerEntry>, live: seq<Lease>, period: string, now: real): SpendReport {
    var spent := Spent(ledger, None, PeriodStart(period, now));
    var committed := Committed(live, None);
    var cap := CapOf(BudgetFor(budgets, SCOPE_GLOBAL, period));
    SpendReport(period, LinesOf(budgets, ledger, live, period, now, Providers(budgets, ledger, live)),
                committed, spent, cap, Left(cap, spent, committed))
  }

  function SumSpent(lines: seq<SpendLine>): real {
    if lines == [] then 0.0 else lines[0].spent + SumSpent(lines[1..])
  }

  function SumCommitted(lines: seq<SpendLine>): real {
    if lines == [] then 0.0 else lines[0].committed + SumCommitted(lines[1..])
  }

  /** Spend by provider, added up over a list of providers. */
  function SpentOver(ledger: seq<LedgerEntry>, since: Option<real>, providers: seq<string>): real {
    if providers == [] then 0.0
    else Spent(ledger, Some(providers[0]), since) + SpentOver(ledger, since, providers[1..])
  }

  function CommittedOver(live: seq<Lease>, providers: seq<string>): real {
    if providers == [] then 0.0
    else Committed(live, Some(providers[0])) + CommittedOver(live, providers[1..])
  }

  predicate Distinct(providers: seq<string>) {
    forall i, j :: 0 <= i < j < |providers| ==> providers[i] != providers[j]
  }

  /** One ledger entry adds its cost to exactly one provider of a list without repetitions. */
  lemma {:induction false} SpentOverStep(ledger: seq<LedgerEntry>, since: Option<real>, providers: seq<string>)
    requires ledger != [] && Distinct(providers)
    ensures SpentOver(ledger, since, providers)
         == SpentOver(ledger[1..], since, providers)
            + (if Counts(ledger[0], None, since) && ledger[0].provider in providers then ledger[0].cost else 0.0)
  {
    if providers != [] {
      assert providers == [providers[0]] + providers[1..];
      SpentOverStep(ledger, since, providers[1..]);
    }
  }

  lemma {:induction false} CommittedOverStep(live: seq<Lease>, providers: seq<string>)
    requires live != [] && Distinct(providers)
    ensures CommittedOver(live, providers)
         == CommittedOver(live[1..], providers) + (if live[0].provider in providers then ProjectedCost(live[0]) else 0.0)
  {
    if providers != [] {
      assert providers == [providers[0]] + providers[1..];
      CommittedOverStep(live, providers[1..]);
    }
  }

  lemma {:induction false} SpentOverNone(since: Option<real>, providers: seq<string>)
    ensures SpentOver([], since, providers) == 0.0 == CommittedOver([], providers)
  {
    if providers != [] {
      SpentOverNone(since, providers[1..]);
    }
  }

  lemma {:induction false} SpentOverAll(ledger: seq<LedgerEntry>, since: Option<real>, providers: seq<string>)
    requires Distinct(providers) && forall p :: p in EndedProviders(ledger) ==> p in providers
    ensures SpentOver(ledger, since, providers) == Spent(ledger, None, since)
  {
    if ledger == [] {
      SpentOverNone(since, providers);
    } else {
      SpentOverStep(ledger, since, providers);
      SpentOverAll(ledger[1..], since, providers);
    }
  }

  lemma {:induction false} CommittedOverAll(live: seq<Lease>, providers: seq<string>)
    requires Distinct(providers) && forall p :: p in LiveProviders(live) ==> p in providers
    ensures CommittedOver(live, providers) == Committed(live, None)
  {
    if live == [] {
      SpentOverNone(None, providers);
    } else {
      assert live[0].provider == LiveProviders(live)[0];
      assert LiveProviders(live[1..]) == LiveProviders(live)[1..];
      CommittedOverStep(live, providers);
      CommittedOverAll(live[1..], providers);
    }
  }

  lemma {:induction false} LineSums(budgets: seq<Budget>, ledger: seq<LedgerEntry>, live: seq<Lease>, period: string, now: real, providers: seq<string>)
    ensures var lines := LinesOf(budgets, ledger, live, period, now, providers);
            && SumSpent(lines) == SpentOver(ledger, PeriodStart(period, now), providers)
            && SumCommitted(lines) == CommittedOver(live, providers)
  {
    if providers != [] {
      LineSums(budgets, ledger, live, period, now, providers[1..]);
    }
  }

  /** The report conserves money: its lines add up to its totals, for what was spent and for what is committed. */
  lemma ReportConserves(budgets: seq<Budget>, ledger: seq<LedgerEntry>, live: seq<Lease>, period: string, now: real)
    ensures var report := Report(budgets, ledger, live, period, now);
            SumSpent(report.lines) == report.totalSpent && SumCommitted(report.lines) == report.totalCommitted
  {
    var providers := Providers(budgets, ledger, live);
    forall i, j | 0 <= i < j < |providers|
      ensures providers[i] != providers[j]
    {
      Text.LessTotal(providers[i], providers[j]);
    }
    SpentOverAll(ledger, PeriodStart(period, now), providers);
    CommittedOverAll(live, providers);
    LineSums(budgets, ledger, live, period, now, providers);
  }

  /** The totals of a report for the month are those since the month began, of any other those of all time. */
  lemma {:induction false} ReportOfPeriod(budgets: seq<Budget>, ledger: seq<LedgerEntry>, live: seq<Lease>, period: string, now: real)
    ensures var report := Report(budgets, ledger, live, period, now);
            && report.totalSpent == Spent(ledger, None, if period == "month" then Some(Calendar.MonthStartOf(now)) else None)
            && report.totalCommitted == Committed(live, None)
            && forall line :: line in report.lines ==>
                 && line.spent == Spent(ledger, Some(line.provider), if period == "month" then Some(Calendar.MonthStartOf(now)) else None)
                 && line.committed == Committed(live, Some(line.provider))
                 && (line.headroom.Some? ==> line.cap.Some? && line.headroom.value == line.cap.value - line.spent - line.committed)
  {
  }

  /** The store keeps one budget per scope. */
  predicate OnePerScope(budgets: seq<Budget>) {
    forall b, c :: b in budgets && c in budgets && b.scope == c.scope ==> b == c
  }

  lemma {:induction false} BudgetForFinds(budgets: seq<Budget>, scope: string, period: string)
    ensures var found := BudgetFor(budgets, scope, period);
            && (found.Some? ==> found.value in budgets && found.value.scope == scope && found.value.period == period)
            && (found.None? ==> forall b :: b in budgets ==> !(b.scope == scope && b.period == period))
  {
    if budgets != [] {
      assert budgets == [budgets[0]] + budgets[1..];
      BudgetForFinds(budgets[1..], scope, period);
    }
  }

  lemma {:induction false} BudgetedHasLine(budgets: seq<Budget>, b: Budget)
    requires b in budgets && BudgetProvider(b.scope).Some?
    ensures BudgetProvider(b.scope).value in BudgetedProviders(budgets)
  {
    assert budgets == [budgets[0]] + budgets[1..];
    if b != budgets[0] {
      BudgetedHasLine(budgets[1..], b);
    }
  }

  /** The headroom a report shows for the budgets of one scope. */
  predicate Exceeds(candidate: real, headroom: Option<real>) {
    headroom.Some? && candidate > headroom.value
  }

  /** A line of the report. */
  predicate LineExceeded(report: SpendReport, provider: string, candidate: real) {
    exists line :: line in report.lines && line.provider == provider && Exceeds(candidate, line.headroom)
  }

  /** A budget of the report's period breaches exactly when the candidate exceeds the headroom reported for its scope. */
  lemma HeadroomDecides(
      budgets: seq<Budget>, ledger: seq<LedgerEntry>, live: seq<Lease>, provider: string, candidate: real, now: real, b: Budget)
    requires OnePerScope(budgets) && b in budgets
    ensures var report := Report(budgets, ledger, live, b.period, now);
            && (b.scope == SCOPE_GLOBAL ==>
                  (Breaches(b, ledger, live, provider, candidate, now) <==> Exceeds(candidate, report.globalHeadroom)))
            && (BudgetProvider(b.scope) == Some(provider) ==>
                  (Breaches(b, ledger, live, provider, candidate, now) <==> LineExceeded(report, provider, candidate)))
  {
    var report := Report(budgets, ledger, live, b.period, now);
    BudgetForFinds(budgets, b.scope, b.period);
    assert BudgetFor(budgets, b.scope, b.period) == Some(b);
    if BudgetProvider(b.scope) == Some(provider) {
      assert b.scope == SCOPE_PROVIDER_PREFIX + provider;
      BudgetedHasLine(budgets, b);
      var providers := Providers(budgets, ledger, live);
      var i :| 0 <= i < |providers| && providers[i] == provider;
      assert report.lines[i] == LineOf(budgets, ledger, live, b.period, now, provider);
    }
  }

  /** More than the headroom reported, globally or on the provider's line. */
  predicate BeyondHeadroom(report: SpendReport, provider: string, candidate: real) {
    Exceeds(candidate, report.globalHeadroom) || LineExceeded(report, provider, candidate)
  }

  lemma {:induction false} BeyondIsBreach(
      budgets: seq<Budget>, ledger: seq<LedgerEntry>, live: seq<Lease>, provider: string, candidate: real, now: real, period: string)
    requires OnePerScope(budgets) && BeyondHeadroom(Report(budgets, ledger, live, period, now), provider, candidate)
    ensures exists b :: b in budgets && Breaches(b, ledger, live, provider, candidate, now)
  {
    var report := Report(budgets, ledger, live, period, now);
    var scope := if Exceeds(candidate, report.globalHeadroom) then SCOPE_GLOBAL else SCOPE_PROVIDER_PREFIX + provider;
    BudgetForFinds(budgets, scope, period);
    var b := BudgetFor(budgets, scope, period).value;
    HeadroomDecides(budgets, ledger, live, provider, candidate, now, b);
  }

  /**
   * The check and the report agree: a candidate is refused exactly when, in the report of some budget's period, it
   * exceeds the global headroom or the headroom on its provider's line.
   */
  lemma {:induction false} RefusedIffBeyondHeadroom(
      budgets: seq<Budget>, ledger: seq<LedgerEntry>, live: seq<Lease>, provider: string, candidate: real, now: real)
    requires OnePerScope(budgets)
    ensures Evaluate(budgets, ledger, live, provider, candidate, now).Some?
       <==> exists b :: b in budgets && BeyondHeadroom(Report(budgets, ledger, live, b.period, now), provider, candidate)
  {
    var first := EvaluateFindsFirst(budgets, ledger, live, provider, candidate, now);
    if b :| b in budgets && Breaches(b, ledger, live, provider, candidate, now) {
      HeadroomDecides(budgets, ledger, live, provider, candidate, now, b);
      assert BeyondHeadroom(Report(budgets, ledger, live, b.period, now), provider, candidate);
    }
    if b :| b in budgets && BeyondHeadroom(Report(budgets, ledger, live, b.period, now), provider, candidate) {
      BeyondIsBreach(budgets, ledger, live, provider, candidate, now, b.period);
    }
  }
}
