/** Whole runs of the account: any sequence of days entered, orders placed and marks, up to the first
    exception. */
module AccountRuns {
  import opened Options
  import opened Sums
  import opened Calendar
  import opened LotRules
  import opened OrderGates
  import opened Account
  import opened Ledger
  import opened OrderSteps
  import opened Conservation

  datatype Event =
    | EnterDay(day: Day, bars: map<string, Bar>, feed: Feed)
    | Place(order: Order, bar: Option<Bar>, raw: Option<real>)
    | MarkTo(prices: map<string, Option<real>>)

  function Step(profile: Profile, a: State, e: Event): (outcome: Outcome<State>)
    requires forall j :: 0 <= j < |a.book| ==> a.book[j].quantity > 0
  {
    match e
    case EnterDay(day, bars, feed) => OpenDay(profile, a, day, bars, feed)
    case Place(order, bar, raw) => Execute(profile, a, order, bar, raw)
    case MarkTo(prices) => Done(Mark(a, prices))
  }

  lemma StepKeepsValid(profile: Profile, a: State, e: Event)
    requires profile.Valid() && Valid(profile, a) && Step(profile, a, e).Done?
    ensures Valid(profile, Step(profile, a, e).value)
    ensures SellableIsOlder(profile, a) && (e.EnterDay? ==> InOrder(a, e.day)) ==>
            SellableIsOlder(profile, Step(profile, a, e).value)
    ensures Step(profile, a, e).value.day == if e.EnterDay? then Some(e.day) else a.day
  {
    hide OpenDay;
    hide Execute;
    hide LotsBackTheBook;
    hide SellableIsOlder;
    hide InOrder;
    hide BoardOf;
    match e
    case EnterDay(day, bars, feed) => OpenDayKeepsValid(profile, a, day, bars, feed);
    case Place(order, bar, raw) => ExecuteKeepsValid(profile, a, order, bar, raw);
    case MarkTo(prices) => MarkKeepsValid(profile, a, prices);
  }

  /** The state a run of events reaches from a fresh account. */
  ghost function Run(profile: Profile, events: seq<Event>): (outcome: Outcome<State>)
    requires profile.Valid()
    ensures outcome.Done? ==> Valid(profile, outcome.value)
  {
    if events == [] then
      Done(Opening(profile))
    else
      var last := |events| - 1;
      match Run(profile, events[..last])
      case Raised(error) => Raised(error)
      case Done(a) =>
        var outcome := Step(profile, a, events[last]);
        if outcome.Done? then StepKeepsValid(profile, a, events[last]); outcome else outcome
  }

  /** The state before the last event of a run that reaches one. */
  ghost function Before(profile: Profile, events: seq<Event>): (a: State)
    requires profile.Valid() && events != [] && Run(profile, events).Done?
    ensures Run(profile, events[..|events| - 1]) == Done(a)
    ensures Valid(profile, a) && Step(profile, a, events[|events| - 1]) == Run(profile, events)
  {
    Run(profile, events[..|events| - 1]).value
  }

  function LastDay(events: seq<Event>): (day: Option<Day>)
  {
    if events == [] then None
    else
      var last := events[|events| - 1];
      if last.EnterDay? then Some(last.day) else LastDay(events[..|events| - 1])
  }

  /** Trade dates are entered in calendar order. */
  predicate DaysInOrder(events: seq<Event>)
  {
    events != [] ==>
      var last, before := events[|events| - 1], LastDay(events[..|events| - 1]);
      && DaysInOrder(events[..|events| - 1])
      && (last.EnterDay? && before.Some? ==> before.value.Rank() <= last.day.Rank())
  }

  // ---- the books at every reachable state ----

  /** Over every run: positions are whole and positive, no name twice, holdings and boards within the
      profile's limits; with the tax on, the lots name the same symbols and add up to the positions. */
  lemma ReachableStatesAreValid(profile: Profile, events: seq<Event>)
    requires profile.Valid() && Run(profile, events).Done?
    ensures Valid(profile, Run(profile, events).value)
  {}

  lemma {:induction false} RunsKnowTheirDay(profile: Profile, events: seq<Event>)
    requires profile.Valid() && Run(profile, events).Done?
    ensures Run(profile, events).value.day == LastDay(events)
    decreases |events|
  {
    if events == [] {
    } else {
      RunsKnowTheirDay(profile, events[..|events| - 1]);
      StepKeepsValid(profile, Before(profile, events), events[|events| - 1]);
    }
  }

  /** Over every run in date order, lots stay in order of acquisition and what may be sold today is
      backed by lots from before today. */
  lemma {:induction false} SellableSharesAreAlwaysOlder(profile: Profile, events: seq<Event>)
    requires profile.Valid() && DaysInOrder(events) && Run(profile, events).Done?
    ensures SellableIsOlder(profile, Run(profile, events).value)
    decreases |events|
  {
    if events == [] {
    } else {
      var a, last := Before(profile, events), events[|events| - 1];
      SellableSharesAreAlwaysOlder(profile, events[..|events| - 1]);
      RunsKnowTheirDay(profile, events[..|events| - 1]);
      if last.EnterDay? && a.day.Some? {
        RankIsTheCalendarOrder(a.day.value, last.day);
      }
      StepKeepsValid(profile, a, last);
    }
  }

  /** Over every run in date order, an order placed after a day is open never raises: no sale runs out
      of lots or meets a share that cannot be sold yet. */
  lemma OrdersNeverRaiseOnARun(profile: Profile, events: seq<Event>, order: Order, bar: Option<Bar>, raw: Option<real>)
    requires profile.Valid() && DaysInOrder(events) && LastDay(events).Some? && Run(profile, events).Done?
    ensures Execute(profile, Run(profile, events).value, order, bar, raw).Done?
  {
    SellableSharesAreAlwaysOlder(profile, events);
    RunsKnowTheirDay(profile, events);
    OrdersNeverRaise(profile, Run(profile, events).value, order, bar, raw);
  }

  // ---- runs from any account ----

  /** The state a run of events reaches from a given account. */
  ghost function RunFrom(profile: Profile, a: State, events: seq<Event>): (outcome: Outcome<State>)
    requires profile.Valid() && Valid(profile, a)
    decreases |events|
  {
    if events == [] then Done(a)
    else
      match Step(profile, a, events[0])
      case Raised(error) => Raised(error)
      case Done(b) =>
        StepKeepsValid(profile, a, events[0]);
        RunFrom(profile, b, events[1..])
  }

  /** Days entered from now on are in calendar order. */
  predicate InOrderFrom(day: Option<Day>, events: seq<Event>)
    decreases |events|
  {
    events != [] ==>
      if events[0].EnterDay? then
        (day.Some? ==> day.value.Rank() <= events[0].day.Rank()) && InOrderFrom(Some(events[0].day), events[1..])
      else InOrderFrom(day, events[1..])
  }

  /** The ledger is kept from any account that has it, not only a fresh one. */
  lemma {:induction false} RunsKeepTheLedger(profile: Profile, a: State, events: seq<Event>)
    requires profile.Valid() && Valid(profile, a) && SellableIsOlder(profile, a)
    requires InOrderFrom(a.day, events) && RunFrom(profile, a, events).Done?
    ensures var b := RunFrom(profile, a, events).value;
            Valid(profile, b) && SellableIsOlder(profile, b) && (a.day.Some? ==> b.day.Some?)
    decreases |events|
  {
    hide Step;
    hide SellableIsOlder;
    hide LotsBackTheBook;
    hide BoardOf;
    if events == [] {
    } else {
      if events[0].EnterDay? && a.day.Some? {
        RankIsTheCalendarOrder(a.day.value, events[0].day);
      }
      StepKeepsValid(profile, a, events[0]);
      RunsKeepTheLedger(profile, Step(profile, a, events[0]).value, events[1..]);
    }
  }

  // ---- money ----

  lemma StepKeepsCapital(profile: Profile, a: State, e: Event)
    requires Valid(profile, a) && Step(profile, a, e).Done?
    ensures Capital(Step(profile, a, e).value) == Capital(a)
    ensures CashBeforeJournals(Step(profile, a, e).value) == CashBeforeJournals(a)
  {
    hide OpenDay;
    hide Execute;
    hide Capital;
    hide CashBeforeJournals;
    hide LotsBackTheBook;
    hide BoardOf;
    match e
    case EnterDay(day, bars, feed) => OpenDayKeepsCapital(profile, a, day, bars, feed);
    case Place(order, bar, raw) => ExecuteKeepsCapital(profile, a, order, bar, raw);
    case MarkTo(prices) => MarkKeepsCapital(a, prices);
  }

  lemma {:induction false} CapitalNeverMoves(profile: Profile, events: seq<Event>)
    requires profile.Valid() && Run(profile, events).Done?
    ensures Capital(Run(profile, events).value) == profile.initialCash
    ensures CashBeforeJournals(Run(profile, events).value) == profile.initialCash
    decreases |events|
  {
    if events == [] {
    } else {
      hide Step;
      hide Capital;
      hide CashBeforeJournals;
      CapitalNeverMoves(profile, events[..|events| - 1]);
      StepKeepsCapital(profile, Before(profile, events), events[|events| - 1]);
    }
  }

  /** The P&L loop closes: cash and cost basis are the initial cash, plus all realized P&L, less all
      tax withheld at ex-dates. */
  lemma PnlClosesTheLoop(profile: Profile, events: seq<Event>)
    requires profile.Valid() && Run(profile, events).Done?
    ensures var a := Run(profile, events).value;
            a.cash + Sum(a.book, CostOf)
            == profile.initialCash + Sum(a.executions, PnlOf) - Sum(a.actions, WithheldOf)
  {
    CapitalNeverMoves(profile, events);
  }

  /** The journals are a full audit: the cash is the initial cash moved by the recorded fills and the
      recorded ex-dates, and by nothing else. */
  lemma JournalsExplainTheCash(profile: Profile, events: seq<Event>)
    requires profile.Valid() && Run(profile, events).Done?
    ensures var a := Run(profile, events).value;
            a.cash == profile.initialCash + Sum(a.executions, CashFlowOf) + Sum(a.actions, NetCreditOf)
  {
    CapitalNeverMoves(profile, events);
  }

  /** A run that has sold everything has made exactly the P&L it recorded, tax withheld aside. */
  lemma FlatAccountKeepsItsPnl(profile: Profile, events: seq<Event>)
    requires profile.Valid() && Run(profile, events).Done? && Run(profile, events).value.book == []
    ensures var a := Run(profile, events).value;
            a.cash - profile.initialCash == Sum(a.executions, PnlOf) - Sum(a.actions, WithheldOf)
  {
    PnlClosesTheLoop(profile, events);
  }
}
