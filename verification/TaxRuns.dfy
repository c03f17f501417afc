/** Dividend income and dividend tax over whole runs. */
module TaxRuns {
  import opened Options
  import opened Sums
  import opened Calendar
  import opened DividendTax
  import opened LotRules
  import opened OrderGates
  import opened Account
  import opened Ledger
  import opened Conservation
  import opened IncomeLedger
  import opened TaxLedger
  import opened AccountRuns

  /** What one event does to a base. */
  ghost function FlowOf(profile: Profile, a: State, e: Event, base: Rule): (flow: Flow)
    requires forall j :: 0 <= j < |a.book| ==> a.book[j].quantity > 0
  {
    match e
    case EnterDay(day, bars, feed) =>
      if a.day == Some(day) then STILL else FlowFrom(profile, a.(day := Some(day)), 0, bars, feed, base)
    case Place(order, bar, raw) => FlowOfOrder(profile, a, order, bar, raw, base)
    case MarkTo(_) => STILL
  }

  ghost function FlowOverRun(profile: Profile, events: seq<Event>, base: Rule): (flow: Flow)
    requires profile.Valid() && Run(profile, events).Done?
  {
    if events == [] then STILL
    else
      FlowOverRun(profile, events[..|events| - 1], base)
      .Plus(FlowOf(profile, Before(profile, events), events[|events| - 1], base))
  }

  lemma DayMovesIncome(profile: Profile, a: State, day: Day, bars: map<string, Bar>, feed: Feed, base: Rule)
    requires Valid(profile, a) && a.day != Some(day) && OpenDay(profile, a, day, bars, feed).Done?
    ensures var b := OpenDay(profile, a, day, bars, feed).value;
            IncomeHeld(b.book, b.lots, base)
            == IncomeHeld(a.book, a.lots, base) + FlowFrom(profile, a.(day := Some(day)), 0, bars, feed, base).Net()
  {
    hide OpenFrom;
    hide IncomeHeld;
    hide FlowFrom;
    hide BoardOf;
    hide Flow.Net;
    OpenFromMovesIncome(profile, a.(day := Some(day)), 0, bars, feed, base);
  }

  lemma StepMovesIncome(profile: Profile, a: State, e: Event, base: Rule)
    requires Valid(profile, a) && SellableIsOlder(profile, a) && Step(profile, a, e).Done?
    ensures var b := Step(profile, a, e).value;
            IncomeHeld(b.book, b.lots, base) == IncomeHeld(a.book, a.lots, base) + FlowOf(profile, a, e, base).Net()
  {
    hide Execute;
    hide OpenFrom;
    hide IncomeHeld;
    hide SellableIsOlder;
    hide LotsBackTheBook;
    hide FlowFrom;
    hide FlowOfOrder;
    hide BoardOf;
    hide MarkedBook;
    hide Flow.Net;
    NoNet();
    match e
    case EnterDay(day, bars, feed) =>
      if a.day != Some(day) {
        DayMovesIncome(profile, a, day, bars, feed, base);
      }
    case Place(order, bar, raw) => ExecuteMovesIncome(profile, a, order, bar, raw, base);
    case MarkTo(prices) => MarkMovesNoIncome(a, prices, base);
  }

  /** Over every run in date order and for either base: the income ex-dates credited is on the lots still,
      was released by sales, or went with a lot rounded to nothing. */
  lemma {:induction false} CreditedIncomeIsAccountedFor(profile: Profile, events: seq<Event>, base: Rule)
    requires profile.Valid() && DaysInOrder(events) && Run(profile, events).Done?
    ensures var a, flow := Run(profile, events).value, FlowOverRun(profile, events, base);
            flow.credited == IncomeHeld(a.book, a.lots, base) + flow.released + flow.dropped
    decreases |events|
  {
    if events == [] {
    } else {
      hide Step;
      hide IncomeHeld;
      hide FlowOf;
      CreditedIncomeIsAccountedFor(profile, events[..|events| - 1], base);
      SellableSharesAreAlwaysOlder(profile, events[..|events| - 1]);
      StepMovesIncome(profile, Before(profile, events), events[|events| - 1], base);
    }
  }

  /** What one event adds to the final-rate tax of shares sold. */
  ghost function FinalTaxOf(profile: Profile, a: State, e: Event): (tax: real)
  {
    if e.Place? then FinalTaxOfOrder(profile, a, e.order, e.bar, e.raw) else 0.0
  }

  ghost function FinalTaxOverRun(profile: Profile, events: seq<Event>): (tax: real)
    requires profile.Valid() && Run(profile, events).Done?
  {
    if events == [] then 0.0
    else
      var last := |events| - 1;
      FinalTaxOverRun(profile, events[..last]) + FinalTaxOf(profile, Before(profile, events), events[last])
  }

  lemma StepPaysTax(profile: Profile, a: State, e: Event)
    requires Valid(profile, a) && SellableIsOlder(profile, a) && Step(profile, a, e).Done?
    ensures var flow := FlowOf(profile, a, e, OldRule);
            TaxPaid(Step(profile, a, e).value) == TaxPaid(a) + FinalTaxOf(profile, a, e)
                + 0.05 * (flow.credited - flow.released)
  {
    hide Execute;
    hide OpenFrom;
    hide SellableIsOlder;
    hide FlowFrom;
    hide FlowOfOrder;
    hide FinalTaxOfOrder;
    hide BoardOf;
    hide Sum;
    match e
    case EnterDay(day, bars, feed) =>
      if a.day != Some(day) {
        var b := a.(day := Some(day));
        OpenFromWithholds(profile, b, 0, bars, feed);
        DaysReleaseNothing(profile, b, 0, bars, feed, OldRule);
      }
    case Place(order, bar, raw) =>
      ExecutePaysTheFinalTax(profile, a, order, bar, raw);
      OrdersCreditNothing(profile, a, order, bar, raw, OldRule);
    case MarkTo(prices) =>
  }

  lemma {:induction false} DaysReleaseNothing(profile: Profile, a: State, i: nat, bars: map<string, Bar>, feed: Feed,
                                              base: Rule)
    requires Valid(profile, a) && i <= |a.book| && a.day.Some?
    ensures FlowFrom(profile, a, i, bars, feed, base).released == 0.0
    decreases |a.book| - i
  {
    hide OpenPosition;
    hide PlanExDate;
    hide LotsBackTheBook;
    hide BoardOf;
    if i == |a.book| {
    } else if OpenPosition(profile, a, i, bars, feed).Done? {
      OpenPositionKeepsValid(profile, a, i, bars, feed);
      DaysReleaseNothing(profile, OpenPosition(profile, a, i, bars, feed).value, i + 1, bars, feed, base);
    }
  }

  lemma OrdersCreditNothing(profile: Profile, a: State, order: Order, bar: Option<Bar>, raw: Option<real>, base: Rule)
    ensures FlowOfOrder(profile, a, order, bar, raw, base).credited == 0.0
  {}

  lemma {:induction false} TaxPaidSoFar(profile: Profile, events: seq<Event>)
    requires profile.Valid() && DaysInOrder(events) && Run(profile, events).Done?
    ensures var flow := FlowOverRun(profile, events, OldRule);
            TaxPaid(Run(profile, events).value) == FinalTaxOverRun(profile, events)
                + 0.05 * (flow.credited - flow.released)
    decreases |events|
  {
    if events == [] {
    } else {
      hide Step;
      hide TaxPaid;
      hide FlowOf;
      hide FinalTaxOf;
      TaxPaidSoFar(profile, events[..|events| - 1]);
      SellableSharesAreAlwaysOlder(profile, events[..|events| - 1]);
      StepPaysTax(profile, Before(profile, events), events[|events| - 1]);
    }
  }

  /** Over every run in date order, all tax paid, at ex-dates and at sales, is the final-rate tax of every
      share sold, plus 5% of the old-rule income still on the lots or lost with a dropped lot. */
  lemma TaxPaidIsTheFinalTax(profile: Profile, events: seq<Event>)
    requires profile.Valid() && DaysInOrder(events) && Run(profile, events).Done?
    ensures var a := Run(profile, events).value;
            Sum(a.actions, WithheldOf) + Sum(a.executions, TaxOf)
            == FinalTaxOverRun(profile, events)
               + 0.05 * (IncomeHeld(a.book, a.lots, OldRule) + FlowOverRun(profile, events, OldRule).dropped)
  {
    hide IncomeHeld;
    TaxPaidSoFar(profile, events);
    CreditedIncomeIsAccountedFor(profile, events, OldRule);
  }
}
