/** The two journals over whole runs: they explain every holding, a day's sales draw only on shares held
    overnight, and every recorded fill and ex-date is one the rules allow. */
module Journals {
  import opened Options
  import opened Calendar
  import opened LotRules
  import opened ExDate
  import opened Lots
  import opened LotRelease
  import opened OrderGates
  import opened Account
  import opened Ledger
  import opened OrderSteps
  import opened AccountRuns

  function Held(book: seq<Position>, symbol: string): (shares: int)
  {
    var i := Find(book, symbol);
    if i < |book| then book[i].quantity else 0
  }

  function Sellable(book: seq<Position>, symbol: string): (shares: int)
  {
    var i := Find(book, symbol);
    if i < |book| then book[i].available else 0
  }

  function SoldBy(e: Execution, symbol: string): (shares: int)
  {
    if e.price.Some? && e.order.action.Sell? && e.order.symbol == symbol then e.order.quantity else 0
  }

  function BoughtBy(e: Execution, symbol: string): (shares: int)
  {
    if e.price.Some? && e.order.action.Buy? && e.order.symbol == symbol then e.order.quantity else 0
  }

  function Sold(executions: seq<Execution>, symbol: string): (shares: int)
  {
    if executions == [] then 0
    else Sold(executions[..|executions| - 1], symbol) + SoldBy(executions[|executions| - 1], symbol)
  }

  function Bought(executions: seq<Execution>, symbol: string): (shares: int)
  {
    if executions == [] then 0
    else Bought(executions[..|executions| - 1], symbol) + BoughtBy(executions[|executions| - 1], symbol)
  }

  /** The shares ex-dates have added, less those they have taken away. */
  function Created(actions: seq<CorporateAction>, symbol: string): (shares: int)
  {
    if actions == [] then 0
    else
      var last := actions[|actions| - 1];
      Created(actions[..|actions| - 1], symbol) + if last.symbol
          == symbol then last.quantityAfter - last.quantityBefore else 0
  }

  /** Holdings no journal entry accounts for. */
  function Unexplained(a: State, symbol: string): (shares: int)
  {
    Held(a.book, symbol) - Bought(a.executions, symbol) + Sold(a.executions, symbol) - Created(a.actions, symbol)
  }

  lemma OneMoreExecution(executions: seq<Execution>, e: Execution, symbol: string)
    ensures Sold(executions + [e], symbol) == Sold(executions, symbol) + SoldBy(e, symbol)
    ensures Bought(executions + [e], symbol) == Bought(executions, symbol) + BoughtBy(e, symbol)
  {
    assert (executions + [e])[..|executions|] == executions;
  }

  lemma OneMoreAction(actions: seq<CorporateAction>, c: CorporateAction, symbol: string)
    ensures Created(actions + [c], symbol)
            == Created(actions, symbol) + if c.symbol == symbol then c.quantityAfter - c.quantityBefore else 0
  {
    assert (actions + [c])[..|actions|] == actions;
  }

  // ---- an order ----

  /** Where a book differs in one name only, so do the shares held and sellable. */
  lemma SharesOfOneName(book: seq<Position>, p: Position, i: nat, symbol: string)
    requires Unique(book) && i < |book| && p.symbol == book[i].symbol
    ensures Held(book[i := p], symbol) == if symbol == p.symbol then p.quantity else Held(book, symbol)
    ensures Sellable(book[i := p], symbol) == if symbol == p.symbol then p.available else Sellable(book, symbol)
  {
    SameNamesFindTheSame(book, book[i := p]);
    FindIsThePosition(book, i);
  }

  lemma SharesOfANewName(book: seq<Position>, p: Position, symbol: string)
    requires Find(book, p.symbol) == |book|
    ensures Held(book + [p], symbol) == if symbol == p.symbol then p.quantity else Held(book, symbol)
    ensures Sellable(book + [p], symbol) == if symbol == p.symbol then p.available else Sellable(book, symbol)
  {
    FirstMatchIsFound(book + [p], if Find(book, symbol) < |book| then Find(book, symbol) else |book|, symbol);
  }

  lemma FirstMatchIsFound(book: seq<Position>, i: nat, symbol: string)
    requires i < |book| && forall j :: 0 <= j < i ==> book[j].symbol != symbol
    ensures book[i].symbol == symbol ==> Find(book, symbol) == i
    ensures book[i].symbol != symbol && i == |book| - 1 ==> Find(book, symbol) == |book|
  {}

  lemma SharesWithoutOneName(book: seq<Position>, i: nat, symbol: string)
    requires Unique(book) && i < |book|
    ensures Held(book[..i] + book[i + 1..], symbol) == if symbol == book[i].symbol then 0 else Held(book, symbol)
    ensures Sellable(book[..i] + book[i + 1..], symbol) == if symbol == book[i].symbol then 0
            else Sellable(book, symbol)
  {
    var rest, k := book[..i] + book[i + 1..], Find(book, symbol);
    RemovalKeepsThePositions(book, i);
    if symbol != book[i].symbol && k < |book| {
      assert rest[if k < i then k else k - 1] == book[k];
    }
  }

  /** What an order does to the shares: its execution says it all, and what it sells was sellable. */
  ghost predicate OrderMovesShares(a: State, b: State)
  {
    && |b.executions| == |a.executions| + 1 && b.executions[..|a.executions|] == a.executions && b.actions == a.actions
    && forall symbol :: var e := b.executions[|a.executions|];
         && Held(b.book, symbol) == Held(a.book, symbol) + BoughtBy(e, symbol) - SoldBy(e, symbol)
         && Sellable(b.book, symbol) == Sellable(a.book, symbol) - SoldBy(e, symbol)
  }

  lemma BuyMovesShares(profile: Profile, a: State, order: Order, price: real)
    requires Unique(a.book) && a.day.Some? && order.action.Buy? && forall j :: 0 <= j < |a.book| ==>
            a.book[j].quantity > 0
    ensures OrderMovesShares(a, BuyShares(profile, a, order, price))
  {
    hide RequiredCash;
    var b, i := BuyShares(profile, a, order, price), Find(a.book, order.symbol);
    if RequiredCash(profile, order, price) <= a.cash + 0.000000001 {
      forall symbol: string
        ensures Held(b.book, symbol) == Held(a.book, symbol) + if symbol == order.symbol then order.quantity else 0
        ensures Sellable(b.book, symbol) == Sellable(a.book, symbol)
      {
        if i < |a.book| {
          SharesOfOneName(a.book, b.book[i], i, symbol);
        } else {
          SharesOfANewName(a.book, b.book[i], symbol);
        }
      }
    }
  }

  lemma SaleMovesShares(profile: Profile, a: State, order: Order, price: real, release: Release)
    requires Books(profile, a) && SaleAdmitted(a, order) && order.action.Sell? && release.Released?
    ensures OrderMovesShares(a, SoldState(profile, a, order, price, release))
  {
    hide BoardOf;
    var b, i := SoldState(profile, a, order, price, release), Find(a.book, order.symbol);
    forall symbol: string
      ensures Held(b.book, symbol) == Held(a.book, symbol) - if symbol == order.symbol then order.quantity else 0
      ensures Sellable(b.book, symbol) == Sellable(a.book, symbol) - if symbol == order.symbol then order.quantity
              else 0
    {
      if a.book[i].quantity == order.quantity {
        SharesWithoutOneName(a.book, i, symbol);
      } else {
        SharesOfOneName(a.book, SoldPosition(a.book[i], order.quantity, price), i, symbol);
      }
    }
  }

  lemma ExecuteMovesShares(profile: Profile, a: State, order: Order, bar: Option<Bar>, raw: Option<real>)
    requires Valid(profile, a) && Execute(profile, a, order, bar, raw).Done?
    ensures OrderMovesShares(a, Execute(profile, a, order, bar, raw).value)
  {
    hide FillPrice;
    hide RejectReason;
    hide ReleaseFor;
    hide SoldState;
    hide BuyShares;
    hide LotsBackTheBook;
    hide BoardOf;
    match RejectReason(profile, a, order, bar, raw)
    case Some(reason) =>
    case None =>
      match FillPrice(profile, order, bar.value, raw.value)
      case NotFilled(reason) =>
      case FilledAt(price) =>
        if order.action.Buy? {
          BuyMovesShares(profile, a, order, price);
        } else {
          SaleMovesShares(profile, a, order, price, ReleaseFor(profile, a, order).value);
        }
  }

  // ---- entering a day ----

  /** What opening one position does: its shares move by what its ex-date records, and it can sell what
      it held overnight, as far as that is still there. */
  lemma OpenPositionMovesShares(profile: Profile, a: State, i: nat, bars: map<string, Bar>, feed: Feed, symbol: string)
    requires Books(profile, a) && i < |a.book| && a.day.Some? && OpenPosition(profile, a, i, bars, feed).Done?
    ensures var b := OpenPosition(profile, a, i, bars, feed).value;
            && b.executions == a.executions && b.book[i].symbol == a.book[i].symbol
            && Unexplained(b, symbol) == Unexplained(a, symbol)
            && b.book[i].available == Min(a.book[i].quantity, b.book[i].quantity)
  {
    hide PlanExDate;
    hide SettleLots;
    hide BoardOf;
    hide Created;
    var b, u, name := OpenPosition(profile, a, i, bars, feed).value, Unlock(a, i), a.book[i].symbol;
    SharesOfOneName(a.book, b.book[i], i, symbol);
    FindIsThePosition(a.book, i);
    assert b.book == a.book[i := b.book[i]];
    if name in bars && PlanExDate(profile, u.book[i], bars[name], EventFor(feed, name)).Settle? {
      PlansAreSound(profile, u.book[i], bars[name], EventFor(feed, name));
      OneMoreAction(a.actions, b.actions[|a.actions|], symbol);
    }
  }

  /** Positions from `i` on opened one by one: T+1 unlocks each name's overnight shares and no more. */
  lemma {:induction false} OpenFromMovesShares(profile: Profile, a: State, i: nat, bars: map<string, Bar>, feed: Feed,
                                               symbol: string)
    requires Valid(profile, a) && i <= |a.book| && a.day.Some? && OpenFrom(profile, a, i, bars, feed).Done?
    ensures var b := OpenFrom(profile, a, i, bars, feed).value;
            && b.executions == a.executions && |b.book| == |a.book|
            && Unexplained(b, symbol) == Unexplained(a, symbol)
            && (forall j :: 0 <= j < |a.book| ==> b.book[j].symbol == a.book[j].symbol)
            && (forall j :: 0 <= j < i ==> b.book[j] == a.book[j])
            && (forall j :: i <= j < |a.book| ==> b.book[j].available == Min(a.book[j].quantity, b.book[j].quantity))
    decreases |a.book| - i
  {
    hide OpenPosition;
    hide LotsBackTheBook;
    hide Unexplained;
    hide BoardOf;
    if i == |a.book| {
    } else {
      OpenPositionMovesShares(profile, a, i, bars, feed, symbol);
      OpenPositionKeepsValid(profile, a, i, bars, feed);
      OpenFromMovesShares(profile, OpenPosition(profile, a, i, bars, feed).value, i + 1, bars, feed, symbol);
    }
  }

  /** A new day lets each name sell what it held overnight, less what its ex-date took away; shares an
      ex-date creates stay locked. */
  lemma OpeningUnlocksOvernightShares(profile: Profile, a: State, day: Day, bars: map<string, Bar>, feed: Feed,
                                      symbol: string)
    requires Valid(profile, a) && a.day != Some(day) && OpenDay(profile, a, day, bars, feed).Done?
    ensures var b := OpenDay(profile, a, day, bars, feed).value;
            && b.executions == a.executions
            && Sellable(b.book, symbol) == Min(Held(a.book, symbol), Held(b.book, symbol))
  {
    hide OpenFrom;
    hide BoardOf;
    hide Unexplained;
    OpenFromMovesShares(profile, a.(day := Some(day)), 0, bars, feed, symbol);
    SameNamesFindTheSame(a.book, OpenDay(profile, a, day, bars, feed).value.book);
  }

  lemma OpenDayExplainsShares(profile: Profile, a: State, day: Day, bars: map<string, Bar>, feed: Feed, symbol: string)
    requires Valid(profile, a) && OpenDay(profile, a, day, bars, feed).Done?
    ensures OpenDay(profile, a, day, bars, feed).value.executions == a.executions
    ensures Unexplained(OpenDay(profile, a, day, bars, feed).value, symbol) == Unexplained(a, symbol)
  {
    hide OpenFrom;
    hide BoardOf;
    if a.day != Some(day) {
      OpenFromMovesShares(profile, a.(day := Some(day)), 0, bars, feed, symbol);
    }
  }

  lemma MarkMovesNoShares(a: State, prices: map<string, Option<real>>, symbol: string)
    ensures Held(Mark(a, prices).book, symbol) == Held(a.book, symbol)
    ensures Sellable(Mark(a, prices).book, symbol) == Sellable(a.book, symbol)
  {
    SameNamesFindTheSame(a.book, Mark(a, prices).book);
  }

  // ---- whole runs ----

  lemma StepExplainsShares(profile: Profile, a: State, e: Event, symbol: string)
    requires Valid(profile, a) && Step(profile, a, e).Done?
    ensures Unexplained(Step(profile, a, e).value, symbol) == Unexplained(a, symbol)
  {
    hide OpenDay;
    hide Execute;
    hide LotsBackTheBook;
    hide BoardOf;
    match e
    case EnterDay(day, bars, feed) => OpenDayExplainsShares(profile, a, day, bars, feed, symbol);
    case Place(order, bar, raw) =>
      ExecuteMovesShares(profile, a, order, bar, raw);
      var b := Execute(profile, a, order, bar, raw).value;
      assert b.executions == a.executions + [b.executions[|a.executions|]];
      OneMoreExecution(a.executions, b.executions[|a.executions|], symbol);
    case MarkTo(prices) => MarkMovesNoShares(a, prices, symbol);
  }

  /** Over every run, the two journals explain every holding: what was bought, less what was sold, plus
      what ex-dates created. */
  lemma {:induction false} JournalsExplainTheShares(profile: Profile, events: seq<Event>, symbol: string)
    requires profile.Valid() && Run(profile, events).Done?
    ensures var a := Run(profile, events).value;
            Held(a.book, symbol) == Bought(a.executions, symbol) - Sold(a.executions, symbol)
                + Created(a.actions, symbol)
    decreases |events|
  {
    if events == [] {
    } else {
      hide Step;
      JournalsExplainTheShares(profile, events[..|events| - 1], symbol);
      StepExplainsShares(profile, Before(profile, events), events[|events| - 1], symbol);
    }
  }

  /** Within a day, what is still sellable and what has been sold make up what the day opened with. */
  lemma {:induction false} SalesUseUpTheSellable(profile: Profile, events: seq<Event>, k: nat, symbol: string)
    requires profile.Valid() && Run(profile, events).Done? && k <= |events| && Run(profile, events[..k]).Done?
    requires forall i :: k <= i < |events| ==> !events[i].EnterDay?
    ensures var b, c := Run(profile, events[..k]).value, Run(profile, events).value;
            Sellable(c.book, symbol) + Sold(c.executions, symbol) == Sellable(b.book, symbol)
                + Sold(b.executions, symbol)
    decreases |events|
  {
    hide Execute;
    hide LotsBackTheBook;
    hide BoardOf;
    if k == |events| {
      assert events[..k] == events;
    } else {
      var last := |events| - 1;
      assert events[..last][..k] == events[..k];
      var a := Before(profile, events);
      SalesUseUpTheSellable(profile, events[..last], k, symbol);
      match events[last]
      case Place(order, bar, raw) =>
        ExecuteMovesShares(profile, a, order, bar, raw);
        var b := Execute(profile, a, order, bar, raw).value;
        assert b.executions == a.executions + [b.executions[|a.executions|]];
        OneMoreExecution(a.executions, b.executions[|a.executions|], symbol);
      case MarkTo(prices) => MarkMovesNoShares(a, prices, symbol);
    }
  }

  lemma {:induction false} SellableIsNeverNegative(profile: Profile, a: State, symbol: string)
    requires Valid(profile, a)
    ensures 0 <= Sellable(a.book, symbol) <= Held(a.book, symbol)
  {
    hide BoardOf;
    hide LotsBackTheBook;
  }

  /** T+1 over every run: all a day sells of a name was held when the day before it ended. */
  lemma SalesDrawOnOvernightShares(profile: Profile, events: seq<Event>, k: nat, symbol: string)
    requires profile.Valid() && Run(profile, events).Done? && k < |events|
    requires Run(profile, events[..k]).Done? && Run(profile, events[..k + 1]).Done?
    requires events[k].EnterDay? && Run(profile, events[..k]).value.day != Some(events[k].day)
    requires forall i :: k < i < |events| ==> !events[i].EnterDay?
    ensures var a, c := Run(profile, events[..k]).value, Run(profile, events).value;
            Sold(c.executions, symbol) - Sold(a.executions, symbol) <= Held(a.book, symbol)
  {
    hide OpenDay;
    var opening := events[..k + 1];
    assert opening[..k] == events[..k];
    var a := Before(profile, opening);
    OpeningUnlocksOvernightShares(profile, a, events[k].day, events[k].bars, events[k].feed, symbol);
    SalesUseUpTheSellable(profile, events, k + 1, symbol);
    SellableIsNeverNegative(profile, Run(profile, events).value, symbol);
  }

  // ---- legal records ----

  /** What may be recorded: a fill is at a positive price, its lots declared as its board asks, its
      board permitted, its fees at least the minimum; only a sale pays duty or tax, neither negative,
      and realizes P&L; an order that did not fill moved no money. */
  ghost predicate LegalExecution(profile: Profile, e: Execution)
  {
    && (e.price.Some? <==> e.reason.None?)
    && (e.price.Some? ==> e.price.value > 0.0 && e.commission >= profile.minCommission)
    && (e.price.Some? && e.order.action.Buy? ==>
          && BuyLotAllowed(e.order.quantity, e.order.symbol)
          && (profile.permittedBoards.Some? ==>
                BoardOf(e.order.symbol).Some? && BoardOf(e.order.symbol).value in profile.permittedBoards.value))
    && (e.realizedPnl.Some? <==> e.price.Some? && e.order.action.Sell?)
    && e.stampDuty >= 0.0 && e.dividendTax >= 0.0
    && (e.realizedPnl.None? ==> e.stampDuty == 0.0 && e.dividendTax == 0.0)
    && (e.price.None? ==> e.commission == 0.0)
    && (!profile.dividendTax ==> e.dividendTax == 0.0)
  }

  lemma SaleTaxIsNonNegative(profile: Profile, a: State, order: Order)
    requires Valid(profile, a) && a.day.Some? && ReleaseFor(profile, a, order).Done?
    ensures ReleaseFor(profile, a, order).value.tax >= 0.0
  {
    hide BoardOf;
    if profile.dividendTax {
      var i := Find(a.book, order.symbol);
      assert SoundLots(a.lots[a.book[i].symbol], a.book[i].quantity);
      ReleaseTaxIsNonNegative(a.lots[order.symbol], order.quantity, a.day.value);
    }
  }

  lemma ExecutionsAreLegal(profile: Profile, a: State, order: Order, bar: Option<Bar>, raw: Option<real>)
    requires profile.Valid() && Valid(profile, a) && Execute(profile, a, order, bar, raw).Done?
    ensures LegalExecution(profile, Execute(profile, a, order, bar, raw).value.executions[|a.executions|])
  {
    hide FillPrice;
    hide BuyLotAllowed;
    hide LotsBackTheBook;
    hide BoardOf;
    hide ReduceAmountReject;
    hide ReleaseLots;
    hide SoldBook;
    hide BoughtPosition;
    if RejectReason(profile, a, order, bar, raw).None? && FillPrice(profile, order, bar.value, raw.value).FilledAt? {
      FillsStayInsideTheLimit(profile, order, bar.value, raw.value);
      var price := FillPrice(profile, order, bar.value, raw.value).price;
      assert Notional(order, price) > 0.0;
      FeesFollowTheSchedule(profile, Notional(order, price), a.day.value);
      if order.action.Sell? {
        SaleTaxIsNonNegative(profile, a, order);
      }
    }
  }

  /** What a fill leaves behind: the name was trading, a buy within the single-name cap at the market
      price, and a sale on the ordinary boards without splitting the odd tail. */
  lemma FilledOrdersPassedTheGates(profile: Profile, a: State, order: Order, bar: Option<Bar>, raw: Option<real>)
    requires Valid(profile, a) && Execute(profile, a, order, bar, raw).Done?
    requires Execute(profile, a, order, bar, raw).value.executions[|a.executions|].price.Some?
    ensures var b := Execute(profile, a, order, bar, raw).value;
            && bar.Some? && !bar.value.suspended && raw.Some?
            && (order.action.Buy? && profile.maxSingleNameWeight.Some? ==>
                  Held(b.book, order.symbol) as real * raw.value
                  <= profile.maxSingleNameWeight.value * profile.initialCash + 0.000001)
            && (order.action.Sell? ==> Sellable(b.book, order.symbol) >= 0)
            && (order.action.Sell? && !IsStarMarket(order.symbol) && !IsBseMarket(order.symbol) ==>
                  Sellable(b.book, order.symbol) % LOT_SIZE in {0, Sellable(a.book, order.symbol) % LOT_SIZE})
  {
    hide FillPrice;
    hide BuyLotAllowed;
    hide LotsBackTheBook;
    hide BoardOf;
    hide IsStarMarket;
    hide IsBseMarket;
    hide SoldBook;
    hide BoughtPosition;
    hide RequiredCash;
    hide ReleaseFor;
    ExecuteMovesShares(profile, a, order, bar, raw);
    var b, held := Execute(profile, a, order, bar, raw).value, Held(a.book, order.symbol);
    var e := b.executions[|a.executions|];
    assert e.order == order && RejectReason(profile, a, order, bar, raw).None?;
    if order.action.Sell? {
      SalesKeepTheOddTailWhole(order.quantity, Sellable(a.book, order.symbol), order.symbol);
    } else {
      assert Held(b.book, order.symbol) == held + order.quantity;
      assert held as real * raw.value + order.quantity as real * raw.value
          == (held + order.quantity) as real * raw.value;
    }
  }

  /** What an ex-date may record: whole positive holdings, the declared dividend to within the fraction
      of one share, tax never negative, and never fewer shares where cash was paid. */
  ghost predicate LegalAction(c: CorporateAction)
  {
    && c.quantityBefore > 0 && c.quantityAfter > 0 && c.preClose > 0.0 && c.cashPerShare >= 0.0 && c.taxWithheld >= 0.0
    && (c.cashPerShare > 0.0 ==> c.quantityAfter >= c.quantityBefore)
    && c.quantityBefore as real * c.cashPerShare - 0.0000005 * c.preClose <= c.cashCredit
    && c.cashCredit < c.quantityBefore as real * c.cashPerShare + c.preClose
  }

  lemma PlansAreLegal(profile: Profile, p: Position, bar: Bar, event: Distribution)
    requires SoundPosition(p) && PlanExDate(profile, p, bar, event).Settle?
    ensures var terms, q := PlanExDate(profile, p, bar, event).terms, p.quantity as real;
            && terms.withheld >= 0.0
            && (event.cashPerShare > 0.0 ==> terms.after >= p.quantity)
            && q * event.cashPerShare - 0.0000005 * terms.preClose <= terms.credit < q * event.cashPerShare
                + terms.preClose
  {
    hide PlanExDate;
    hide ShareMultiplier;
    hide ExDateShares;
    hide Credit;
    PlansAreSound(profile, p, bar, event);
    var terms := PlanExDate(profile, p, bar, event).terms;
    ProductIsNonNegative(p.quantity as real, terms.incomePerShare);
    if terms.ratio.Some? {
      CreditIsDividendPlusFraction(p.quantity, p.lastPrice, terms.preClose, event.cashPerShare, terms.ratio.value);
      if event.cashPerShare > 0.0 {
        CashDividendNeverShrinks(p.quantity, p.lastPrice, terms.preClose, event.cashPerShare, terms.ratio.value);
      }
    }
  }

  lemma ProductIsNonNegative(x: real, y: real)
    requires x >= 0.0 && y >= 0.0
    ensures x * y >= 0.0
  {}

  lemma {:induction false} OpeningRecordsLegalActions(profile: Profile, a: State, i: nat, bars: map<string, Bar>,
                                                      feed: Feed)
    requires Valid(profile, a) && i <= |a.book| && a.day.Some? && OpenFrom(profile, a, i, bars, feed).Done?
    requires forall c :: c in a.actions ==> LegalAction(c)
    ensures forall c :: c in OpenFrom(profile, a, i, bars, feed).value.actions ==> LegalAction(c)
    decreases |a.book| - i
  {
    hide LegalAction;
    hide PlanExDate;
    hide LotsBackTheBook;
    hide BoardOf;
    if i == |a.book| {
    } else {
      OpenPositionRecordsLegalActions(profile, a, i, bars, feed);
      OpenPositionKeepsValid(profile, a, i, bars, feed);
      OpeningRecordsLegalActions(profile, OpenPosition(profile, a, i, bars, feed).value, i + 1, bars, feed);
    }
  }

  lemma OpenPositionRecordsLegalActions(profile: Profile, a: State, i: nat, bars: map<string, Bar>, feed: Feed)
    requires Books(profile, a) && i < |a.book| && a.day.Some? && OpenPosition(profile, a, i, bars, feed).Done?
    requires forall c :: c in a.actions ==> LegalAction(c)
    ensures forall c :: c in OpenPosition(profile, a, i, bars, feed).value.actions ==> LegalAction(c)
  {
    hide PlanExDate;
    hide ApplyTerms;
    hide LegalAction;
    hide BoardOf;
    var u, name := Unlock(a, i), a.book[i].symbol;
    if name in bars && PlanExDate(profile, u.book[i], bars[name], EventFor(feed, name)).Settle? {
      PlansAreSound(profile, u.book[i], bars[name], EventFor(feed, name));
      AppliedPlansAreLegal(profile, u, i, bars[name], EventFor(feed, name));
    }
  }

  lemma AppliedPlansAreLegal(profile: Profile, a: State, i: nat, bar: Bar, event: Distribution)
    requires i < |a.book| && a.day.Some? && SoundPosition(a.book[i]) &&
            PlanExDate(profile, a.book[i], bar, event).Settle?
    requires PlanExDate(profile, a.book[i], bar, event).terms.after != 0
             && ApplyTerms(profile, a, i, event, PlanExDate(profile, a.book[i], bar, event).terms).Done?
    ensures var b := ApplyTerms(profile, a, i, event, PlanExDate(profile, a.book[i], bar, event).terms).value;
            |b.actions| == |a.actions| + 1 && b.actions[..|a.actions|] == a.actions &&
                LegalAction(b.actions[|a.actions|])
  {
    hide PlanExDate;
    hide SettledPosition;
    hide SettleLots;
    hide ShareMultiplier;
    hide ExDateShares;
    PlansAreSound(profile, a.book[i], bar, event);
    PlansAreLegal(profile, a.book[i], bar, event);
  }

  lemma OpenDayRecordsLegalActions(profile: Profile, a: State, day: Day, bars: map<string, Bar>, feed: Feed)
    requires Valid(profile, a) && OpenDay(profile, a, day, bars, feed).Done?
    requires forall c :: c in a.actions ==> LegalAction(c)
    ensures forall c :: c in OpenDay(profile, a, day, bars, feed).value.actions ==> LegalAction(c)
  {
    hide LegalAction;
    hide OpenFrom;
    hide BoardOf;
    if a.day != Some(day) {
      OpeningRecordsLegalActions(profile, a.(day := Some(day)), 0, bars, feed);
    }
  }

  lemma StepRecordsLegally(profile: Profile, a: State, e: Event)
    requires profile.Valid() && Valid(profile, a) && Step(profile, a, e).Done?
    requires forall x :: x in a.executions ==> LegalExecution(profile, x)
    requires forall c :: c in a.actions ==> LegalAction(c)
    ensures forall x :: x in Step(profile, a, e).value.executions ==> LegalExecution(profile, x)
    ensures forall c :: c in Step(profile, a, e).value.actions ==> LegalAction(c)
  {
    hide LegalExecution;
    hide LegalAction;
    hide Execute;
    hide OpenDay;
    hide LotsBackTheBook;
    hide BoardOf;
    match e
    case EnterDay(day, bars, feed) =>
      OpenDayExplainsShares(profile, a, day, bars, feed, "");
      OpenDayRecordsLegalActions(profile, a, day, bars, feed);
    case Place(order, bar, raw) =>
      ExecutionsAreLegal(profile, a, order, bar, raw);
      ExecuteMovesShares(profile, a, order, bar, raw);
      var b := Execute(profile, a, order, bar, raw).value;
      assert b.executions == a.executions + [b.executions[|a.executions|]];
    case MarkTo(prices) =>
  }

  /** Over every run, every record in both journals is one the rules allow. */
  lemma {:induction false} TheJournalsAreLegal(profile: Profile, events: seq<Event>)
    requires profile.Valid() && Run(profile, events).Done?
    ensures forall e :: e in Run(profile, events).value.executions ==> LegalExecution(profile, e)
    ensures forall c :: c in Run(profile, events).value.actions ==> LegalAction(c)
    decreases |events|
  {
    if events == [] {
    } else {
      hide LegalExecution;
      hide LegalAction;
      hide Step;
      TheJournalsAreLegal(profile, events[..|events| - 1]);
      StepRecordsLegally(profile, Before(profile, events), events[|events| - 1]);
    }
  }
}
