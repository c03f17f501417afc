/** Money, step by step: the P&L loop closes and the two journals explain the cash. */
module Conservation {
  import opened Options
  import opened Sums
  import opened Calendar
  import opened LotRules
  import opened LotRelease
  import opened OrderGates
  import opened Account
  import opened Ledger

  function CostOf(p: Position): real { p.averageCost * p.quantity as real }

  function PnlOf(e: Execution): real { if e.realizedPnl.Some? then e.realizedPnl.value else 0.0 }

  function WithheldOf(c: CorporateAction): real { c.taxWithheld }

  /** Cash and cost basis together, less every P&L realized and plus every tax withheld. */
  function Capital(a: State): (capital: real)
  {
    a.cash + Sum(a.book, CostOf) - Sum(a.executions, PnlOf) + Sum(a.actions, WithheldOf)
  }

  function CashFlowOf(e: Execution): (flow: real)
  {
    if e.price.None? then 0.0
    else if e.order.action.Buy? then -(Notional(e.order, e.price.value) + e.commission)
    else Notional(e.order, e.price.value) - e.commission - e.stampDuty - e.dividendTax
  }

  function NetCreditOf(c: CorporateAction): real { c.cashCredit - c.taxWithheld }

  /** The opening cash, were the two journals all that ever moved it. */
  function CashBeforeJournals(a: State): (cash: real)
  {
    a.cash - Sum(a.executions, CashFlowOf) - Sum(a.actions, NetCreditOf)
  }

  lemma QuotientTimesDivisor(x: real, n: int)
    requires n != 0
    ensures x / n as real * n as real == x
  {}

  lemma SettledCost(p: Position, terms: Terms)
    requires terms.after > 0
    ensures CostOf(SettledPosition(p, terms)) == CostOf(p) - terms.credit
  {
    QuotientTimesDivisor(p.averageCost * p.quantity as real - terms.credit, terms.after);
  }

  /** The cash an ex-date pays is a return of capital: what it credits leaves the cost basis. */
  lemma ApplyKeepsCapital(profile: Profile, a: State, i: nat, event: Distribution, terms: Terms)
    requires i < |a.book| && a.day.Some? && terms.after > 0
    requires ApplyTerms(profile, a, i, event, terms).Done?
    ensures Capital(ApplyTerms(profile, a, i, event, terms).value) == Capital(a)
    ensures CashBeforeJournals(ApplyTerms(profile, a, i, event, terms).value) == CashBeforeJournals(a)
  {
    hide SettledPosition;
    var b := ApplyTerms(profile, a, i, event, terms).value;
    SettledCost(a.book[i], terms);
    SumUpdate(a.book, i, SettledPosition(a.book[i], terms), CostOf);
    SumAppend(a.actions, b.actions[|a.actions|], WithheldOf);
    SumAppend(a.actions, b.actions[|a.actions|], NetCreditOf);
  }

  lemma OpenPositionKeepsCapital(profile: Profile, a: State, i: nat, bars: map<string, Bar>, feed: Feed)
    requires i < |a.book| && a.day.Some? && SoundPosition(a.book[i]) && OpenPosition(profile, a, i, bars, feed).Done?
    ensures Capital(OpenPosition(profile, a, i, bars, feed).value) == Capital(a)
    ensures CashBeforeJournals(OpenPosition(profile, a, i, bars, feed).value) == CashBeforeJournals(a)
  {
    hide PlanExDate;
    hide ApplyTerms;
    var u, symbol := Unlock(a, i), a.book[i].symbol;
    SumUpdate(a.book, i, u.book[i], CostOf);
    if symbol in bars && PlanExDate(profile, u.book[i], bars[symbol], EventFor(feed, symbol)).Settle? {
      PlansAreSound(profile, u.book[i], bars[symbol], EventFor(feed, symbol));
      ApplyKeepsCapital(profile, u, i, EventFor(feed, symbol),
                        PlanExDate(profile, u.book[i], bars[symbol], EventFor(feed, symbol)).terms);
    }
  }

  lemma {:induction false} OpenFromKeepsCapital(profile: Profile, a: State, i: nat, bars: map<string, Bar>, feed: Feed)
    requires Valid(profile, a) && i <= |a.book| && a.day.Some? && OpenFrom(profile, a, i, bars, feed).Done?
    ensures Capital(OpenFrom(profile, a, i, bars, feed).value) == Capital(a)
    ensures CashBeforeJournals(OpenFrom(profile, a, i, bars, feed).value) == CashBeforeJournals(a)
    decreases |a.book| - i
  {
    hide OpenPosition;
    hide LotsBackTheBook;
    hide Capital;
    hide CashBeforeJournals;
    hide BoardOf;
    if i == |a.book| {
    } else {
      OpenPositionKeepsCapital(profile, a, i, bars, feed);
      OpenPositionKeepsValid(profile, a, i, bars, feed);
      OpenFromKeepsCapital(profile, OpenPosition(profile, a, i, bars, feed).value, i + 1, bars, feed);
    }
  }

  lemma OpenDayKeepsCapital(profile: Profile, a: State, day: Day, bars: map<string, Bar>, feed: Feed)
    requires Valid(profile, a) && OpenDay(profile, a, day, bars, feed).Done?
    ensures Capital(OpenDay(profile, a, day, bars, feed).value) == Capital(a)
    ensures CashBeforeJournals(OpenDay(profile, a, day, bars, feed).value) == CashBeforeJournals(a)
  {
    hide OpenFrom;
    hide BoardOf;
    if a.day != Some(day) {
      OpenFromKeepsCapital(profile, a.(day := Some(day)), 0, bars, feed);
    }
  }

  lemma RejectionKeepsCapital(a: State, order: Order, reason: Reject)
    ensures Capital(Rejected(a, order, reason)) == Capital(a)
    ensures CashBeforeJournals(Rejected(a, order, reason)) == CashBeforeJournals(a)
  {
    var e := Rejected(a, order, reason).executions[|a.executions|];
    SumAppend(a.executions, e, PnlOf);
    SumAppend(a.executions, e, CashFlowOf);
  }

  lemma BoughtCost(p: Position, quantity: int, cost: real, price: real)
    requires p.quantity + quantity != 0
    ensures CostOf(BoughtPosition(p, quantity, cost, price)) == CostOf(p) + cost
  {
    QuotientTimesDivisor(p.averageCost * p.quantity as real + cost, p.quantity + quantity);
  }

  lemma FirstCost(p: Position, cost: real)
    requires p.quantity != 0 && p.averageCost == cost / p.quantity as real
    ensures CostOf(p) == cost
  {
    QuotientTimesDivisor(cost, p.quantity);
  }

  /** A buy turns cash into cost basis, fees included. */
  lemma BuyKeepsCapital(profile: Profile, a: State, order: Order, price: real)
    requires order.action.Buy? && a.day.Some? && forall j :: 0 <= j < |a.book| ==> a.book[j].quantity > 0
    ensures Capital(BuyShares(profile, a, order, price)) == Capital(a)
    ensures CashBeforeJournals(BuyShares(profile, a, order, price)) == CashBeforeJournals(a)
  {
    hide BoughtPosition;
    hide Sum;
    hide CostOf;
    hide Notional;
    hide Profile.TradeFee;
    var b, i := BuyShares(profile, a, order, price), Find(a.book, order.symbol);
    var required := RequiredCash(profile, order, price);
    if required > a.cash + 0.000000001 {
      RejectionKeepsCapital(a, order, InsufficientCash);
    } else {
      var e := b.executions[|a.executions|];
      SumAppend(a.executions, e, PnlOf);
      SumAppend(a.executions, e, CashFlowOf);
      assert PnlOf(e) == 0.0 && CashFlowOf(e) == -required;
      if i == |a.book| {
        FirstCost(b.book[i], required);
        SumAppend(a.book, b.book[i], CostOf);
      } else {
        BoughtCost(a.book[i], order.quantity, required, price);
        SumUpdate(a.book, i, b.book[i], CostOf);
      }
    }
  }

  lemma SoldCost(p: Position, quantity: int, price: real, basis: real)
    requires basis == p.averageCost * quantity as real
    ensures CostOf(SoldPosition(p, quantity, price)) == CostOf(p) - basis
  {
    assert p.averageCost * (p.quantity - quantity) as real == p.averageCost * p.quantity as real - basis;
  }

  lemma WholeCost(p: Position, basis: real)
    requires basis == p.averageCost * p.quantity as real
    ensures CostOf(p) == basis
  {}

  lemma SoldBookCost(book: seq<Position>, i: nat, quantity: int, price: real, basis: real)
    requires i < |book| && basis == book[i].averageCost * quantity as real
    ensures Sum(SoldBook(book, i, quantity, price), CostOf) == Sum(book, CostOf) - basis
  {
    hide Sum;
    hide CostOf;
    hide SoldPosition;
    if book[i].quantity == quantity {
      SumRemove(book, i, CostOf);
      WholeCost(book[i], basis);
    } else {
      SoldCost(book[i], quantity, price, basis);
      SumUpdate(book, i, SoldPosition(book[i], quantity, price), CostOf);
    }
  }

  /** A sale realizes the difference between its proceeds and the basis it releases. */
  lemma SaleKeepsCapital(profile: Profile, a: State, order: Order, price: real, release: Release)
    requires order.action.Sell? && a.day.Some? && Find(a.book, order.symbol) < |a.book| && release.Released?
    ensures Capital(SoldState(profile, a, order, price, release)) == Capital(a)
    ensures CashBeforeJournals(SoldState(profile, a, order, price, release)) == CashBeforeJournals(a)
  {
    hide SoldBook;
    hide Sum;
    var b, i := SoldState(profile, a, order, price, release), Find(a.book, order.symbol);
    var e := b.executions[|a.executions|];
    SumAppend(a.executions, e, PnlOf);
    SumAppend(a.executions, e, CashFlowOf);
    SoldBookCost(a.book, i, order.quantity, price, a.book[i].averageCost * order.quantity as real);
  }

  lemma ExecuteKeepsCapital(profile: Profile, a: State, order: Order, bar: Option<Bar>, raw: Option<real>)
    requires Valid(profile, a) && Execute(profile, a, order, bar, raw).Done?
    ensures Capital(Execute(profile, a, order, bar, raw).value) == Capital(a)
    ensures CashBeforeJournals(Execute(profile, a, order, bar, raw).value) == CashBeforeJournals(a)
  {
    hide FillPrice;
    hide RejectReason;
    hide ReleaseFor;
    hide SoldState;
    hide BuyShares;
    hide Capital;
    hide CashBeforeJournals;
    hide LotsBackTheBook;
    hide Rejected;
    match RejectReason(profile, a, order, bar, raw)
    case Some(reason) => RejectionKeepsCapital(a, order, reason);
    case None =>
      match FillPrice(profile, order, bar.value, raw.value)
      case NotFilled(reason) => RejectionKeepsCapital(a, order, reason);
      case FilledAt(price) =>
        if order.action.Buy? {
          BuyKeepsCapital(profile, a, order, price);
        } else {
          SaleKeepsCapital(profile, a, order, price, ReleaseFor(profile, a, order).value);
        }
  }

  lemma {:induction false} MarkKeepsCost(book: seq<Position>, prices: map<string, Option<real>>)
    ensures Sum(MarkedBook(book, prices), CostOf) == Sum(book, CostOf)
  {
    if book == [] {
    } else {
      MarkKeepsCost(book[1..], prices);
      assert MarkedBook(book, prices)[1..] == MarkedBook(book[1..], prices);
      assert CostOf(MarkedBook(book, prices)[0]) == CostOf(book[0]);
    }
  }

  lemma MarkKeepsCapital(a: State, prices: map<string, Option<real>>)
    ensures Capital(Mark(a, prices)) == Capital(a)
    ensures CashBeforeJournals(Mark(a, prices)) == CashBeforeJournals(a)
  {
    MarkKeepsCost(a.book, prices);
  }
}
