/** What an order comes to, in the words of its account, its bar and its market price: exactly when it fills, and
    what a fill moves. */
module OrderFills {
  import opened Options
  import opened Calendar
  import opened LotRules
  import opened Lots
  import opened LotRelease
  import opened OrderGates
  import opened Account
  import opened Ledger
  import opened OrderSteps
  import opened Conservation
  import opened Journals

  /** The gates before the market: the name trades and has a price; a buy is on a permitted board, on its ladder,
      within the number of names and the single-name cap; a sale is of sellable shares, on its ladder. */
  ghost predicate Admitted(profile: Profile, a: State, order: Order, bar: Option<Bar>, raw: Option<real>)
  {
    var board, q := LadderBoard(order.symbol), order.quantity;
    && bar.Some? && !bar.value.suspended && raw.Some? && raw.value > 0.0
    && (order.action.Buy? ==>
          && (profile.permittedBoards.Some? ==>
                BoardOf(order.symbol).Some? && BoardOf(order.symbol).value in profile.permittedBoards.value)
          && q >= MinimumLot(board) && (q - MinimumLot(board)) % LotStep(board) == 0
          && (profile.maxTotalHoldings.Some? ==>
                Held(a.book, order.symbol) > 0 || |a.book| < profile.maxTotalHoldings.value)
          && (profile.maxSingleNameWeight.Some? ==>
                Held(a.book, order.symbol) as real * raw.value + q as real * raw.value
                <= profile.maxSingleNameWeight.value * profile.initialCash + 0.000001))
    && (order.action.Sell? ==>
          && q <= Sellable(a.book, order.symbol)
          && (|| q == Sellable(a.book, order.symbol)
              || (LotStep(board) == 1 && q >= MinimumLot(board))
              || (LotStep(board) == 100
                  && (Sellable(a.book, order.symbol) - q) % 100 in {0, Sellable(a.book, order.symbol) % 100})))
  }

  lemma OrdersAreAdmittedExactlyWhen(profile: Profile, a: State, order: Order, bar: Option<Bar>, raw: Option<real>)
    requires Books(profile, a)
    ensures RejectReason(profile, a, order, bar, raw).None? <==> Admitted(profile, a, order, bar, raw)
  {
    hide BuyLotAllowed;
    hide ReduceAmountReject;
    hide LadderBoard;
    hide BoardOf;
    hide MinimumLot;
    hide LotStep;
    if order.action.Buy? {
      BuysFollowTheLadder(order.quantity, order.symbol);
      SingleNamesAreCapped(profile, a, order, raw);
      hide SingleNameCapReject;
    } else {
      var i := Find(a.book, order.symbol);
      if i < |a.book| && order.quantity <= a.book[i].available {
        SalesFollowTheLadder(order.quantity, a.book[i].available, order.symbol);
      }
    }
  }

  lemma SingleNamesAreCapped(profile: Profile, a: State, order: Order, raw: Option<real>)
    ensures raw.Some? ==> (SingleNameCapReject(profile, a, order, raw.value).None? <==>
              (profile.maxSingleNameWeight.Some? ==>
                 Held(a.book, order.symbol) as real * raw.value + order.quantity as real * raw.value
                 <= profile.maxSingleNameWeight.value * profile.initialCash + 0.000001))
  {
    assert raw.Some? ==> 0 as real * raw.value == 0.0;
  }

  /** The fee: the larger of the proportional and the minimum commission, and the transfer fee. */
  function FeeOn(profile: Profile, notional: real): (fee: real)
  {
    var proportional := notional * profile.commissionBps / 10000.0;
    (if proportional > profile.minCommission then proportional else profile.minCommission)
    + notional * profile.transferFeeBps / 10000.0
  }

  lemma TradeFeeIs(profile: Profile, notional: real)
    ensures profile.TradeFee(notional) == FeeOn(profile, notional)
  {}

  /** What an order records, gate by gate. */
  lemma OrdersRecordTheirFill(profile: Profile, a: State, order: Order, bar: Option<Bar>, raw: Option<real>)
    requires Valid(profile, a) && Execute(profile, a, order, bar, raw).Done?
    ensures var b := Execute(profile, a, order, bar, raw).value;
            && |b.executions| == |a.executions| + 1
            && var e := b.executions[|a.executions|];
               && e.order == order
               && (e.price.Some? <==>
                     && RejectReason(profile, a, order, bar, raw).None?
                     && FillPrice(profile, order, bar.value, raw.value).FilledAt?
                     && (order.action.Buy? ==>
                           RequiredCash(profile, order, FillPrice(profile, order, bar.value, raw.value).price)
                           <= a.cash + 0.000000001))
               && (e.price.Some? ==> e.price.value == FillPrice(profile, order, bar.value, raw.value).price)
  {
    hide FillPrice;
    hide RejectReason;
    hide ReleaseFor;
    hide SoldBook;
    hide BoughtPosition;
    hide RequiredCash;
    hide LotsBackTheBook;
    hide BoardOf;
    hide Profile.TradeFee;
    hide Profile.StampDuty;
    hide Notional;
  }

  /** The cash a buy at a price takes. */
  function CostAt(profile: Profile, order: Order, price: real): (cost: real)
  {
    NotionalOf(order, price) + FeeOn(profile, NotionalOf(order, price))
  }

  lemma CostIsRequired(profile: Profile, order: Order, price: real)
    ensures CostAt(profile, order, price) == RequiredCash(profile, order, price)
  {
    TradeFeeIs(profile, Notional(order, price));
    hide FeeOn;
    hide Profile.TradeFee;
  }

  /** The record an order leaves is a fill at `price` exactly when it is admitted, its bar trades it there and, for a
      buy, the cash pays for it. */
  lemma ExecuteFillsExactlyWhen(profile: Profile, a: State, order: Order, bar: Option<Bar>, raw: Option<real>,
                                price: real)
    requires Valid(profile, a) && Execute(profile, a, order, bar, raw).Done?
    ensures var b := Execute(profile, a, order, bar, raw).value;
            && |b.executions| == |a.executions| + 1 && b.executions[|a.executions|].order == order
            && (b.executions[|a.executions|].price == Some(price) <==>
                  && Admitted(profile, a, order, bar, raw)
                  && Trades(profile, order, bar.value, raw.value, price)
                  && (order.action.Buy? ==> CostAt(profile, order, price) <= a.cash + 0.000000001))
  {
    OrdersRecordTheirFill(profile, a, order, bar, raw);
    OrdersAreAdmittedExactlyWhen(profile, a, order, bar, raw);
    CostIsRequired(profile, order, price);
    hide Admitted;
    hide Execute;
    hide LotsBackTheBook;
    hide BoardOf;
    hide RequiredCash;
    hide CostAt;
    if RejectReason(profile, a, order, bar, raw).None? {
      OrdersFillExactlyWhen(profile, order, bar.value, raw.value, price);
      hide Trades;
      hide FillPrice;
    }
    hide RejectReason;
  }

  /** A recorded day limit order was reached: the bar traded to its price, half a tick apart at most. */
  lemma FilledDayLimitOrdersWereReached(profile: Profile, a: State, order: Order, bar: Option<Bar>, raw: Option<real>)
    requires Valid(profile, a) && Execute(profile, a, order, bar, raw).Done?
    requires order.session == Some(Intraday) && order.limitPrice.Some?
    ensures var b := Execute(profile, a, order, bar, raw).value;
            && |b.executions| == |a.executions| + 1
            && (b.executions[|a.executions|].price.Some? ==>
                  && bar.Some? && b.executions[|a.executions|].price == raw
                  && (order.action.Buy? ==>
                        bar.value.low.Some? && bar.value.low.value <= order.limitPrice.value + 0.005)
                  && (order.action.Sell? ==>
                        bar.value.high.Some? && bar.value.high.value >= order.limitPrice.value - 0.005))
  {
    OrdersRecordTheirFill(profile, a, order, bar, raw);
    hide Execute;
    hide Admitted;
    hide LotsBackTheBook;
    hide BoardOf;
    hide CostAt;
    var e := Execute(profile, a, order, bar, raw).value.executions[|a.executions|];
    if e.price.Some? {
      ExecuteFillsExactlyWhen(profile, a, order, bar, raw, e.price.value);
      AdmittedHasItsBar(profile, a, order, bar, raw);
    }
  }

  lemma AdmittedHasItsBar(profile: Profile, a: State, order: Order, bar: Option<Bar>, raw: Option<real>)
    requires Admitted(profile, a, order, bar, raw)
    ensures bar.Some? && raw.Some? && raw.value > 0.0
  {}

  // ---- what a fill moves ----

  /** The position held in a name, if any. */
  function PositionOf(book: seq<Position>, symbol: string): (held: Option<Position>)
  {
    var i := Find(book, symbol);
    if i < |book| then Some(book[i]) else None
  }

  lemma PositionOfOneName(book: seq<Position>, p: Position, i: nat, symbol: string)
    requires Unique(book) && i < |book| && p.symbol == book[i].symbol
    ensures PositionOf(book[i := p], symbol) == if symbol == p.symbol then Some(p) else PositionOf(book, symbol)
  {
    SameNamesFindTheSame(book, book[i := p]);
    FindIsThePosition(book, i);
  }

  lemma PositionOfANewName(book: seq<Position>, p: Position, symbol: string)
    requires Find(book, p.symbol) == |book|
    ensures PositionOf(book + [p], symbol) == if symbol == p.symbol then Some(p) else PositionOf(book, symbol)
  {
    FirstMatchIsFound(book + [p], if Find(book, symbol) < |book| then Find(book, symbol) else |book|, symbol);
  }

  lemma PositionsWithoutOneName(book: seq<Position>, i: nat, symbol: string)
    requires Unique(book) && i < |book|
    ensures PositionOf(book[..i] + book[i + 1..], symbol)
            == if symbol == book[i].symbol then None else PositionOf(book, symbol)
  {
    var rest, k := book[..i] + book[i + 1..], Find(book, symbol);
    RemovalKeepsThePositions(book, i);
    if symbol != book[i].symbol && k < |book| {
      var at := if k < i then k else k - 1;
      assert rest[at] == book[k];
      FirstMatchIsFound(rest, at, symbol);
    }
  }

  /** Names but this one keep their positions and lots. */
  ghost predicate OnlyTrades(a: State, b: State, symbol: string)
  {
    forall s :: s != symbol ==> PositionOf(b.book, s) == PositionOf(a.book, s) && LotsOf(b, s) == LotsOf(a, s)
  }

  /** The cost of so many of a position's shares. */
  function BasisOf(p: Position, quantity: int): (basis: real) { p.averageCost * quantity as real }

  /** A buy pays its price and fee, adds both to the cost basis and a lot of today, and marks the name. */
  ghost predicate Bought(profile: Profile, a: State, b: State, order: Order, price: real)
    requires a.day.Some?
  {
    var held := PositionOf(a.book, order.symbol);
    var shares, basis, sellable :=
      if held.Some? then held.value.quantity else 0,
      if held.Some? then BasisOf(held.value, held.value.quantity) else 0.0,
      if held.Some? then held.value.available else 0;
    var e := Execution(order, Some(price), FeeOn(profile, NotionalOf(order, price)), 0.0, 0.0, None, None);
    && b.cash == a.cash - CostAt(profile, order, price)
    && LotsOf(b, order.symbol) == LotsOf(a, order.symbol)
         + (if profile.dividendTax then [Lot(order.quantity, a.day.value, 0.0, 0.0)] else [])
    && b.executions == a.executions + [e] && b.actions == a.actions && b.day == a.day
    && OnlyTrades(a, b, order.symbol)
    && PositionOf(b.book, order.symbol).Some?
    && var q := PositionOf(b.book, order.symbol).value;
       && q.quantity == shares + order.quantity && q.available == sellable && q.lastPrice == price
       && BasisOf(q, q.quantity) == basis + CostAt(profile, order, price)
  }

  lemma BuysSettle(profile: Profile, a: State, order: Order, price: real)
    requires Books(profile, a) && a.day.Some? && CostAt(profile, order, price) <= a.cash + 0.000000001
    ensures Bought(profile, a, BuyShares(profile, a, order, price), order, price)
  {
    CostIsRequired(profile, order, price);
    TradeFeeIs(profile, NotionalOf(order, price));
    BuyMovesOnePosition(profile, a, order, price);
    NotionalIs(order, price);
    hide CostAt;
    hide RequiredCash;
    hide FeeOn;
    hide Profile.TradeFee;
    hide Books;
    hide PositionOf;
    hide BoughtPosition;
    hide BasisOf;
    hide Notional;
    hide NotionalOf;
  }

  /** The one position a buy changes, or opens. */
  lemma BuyMovesOnePosition(profile: Profile, a: State, order: Order, price: real)
    requires Books(profile, a) && a.day.Some? && RequiredCash(profile, order, price) <= a.cash + 0.000000001
    ensures var b, cost := BuyShares(profile, a, order, price), RequiredCash(profile, order, price);
            var held := PositionOf(a.book, order.symbol);
            && (forall s :: s != order.symbol ==> PositionOf(b.book, s) == PositionOf(a.book, s))
            && PositionOf(b.book, order.symbol).Some?
            && var q := PositionOf(b.book, order.symbol).value;
               && q.lastPrice == price
               && q.quantity == order.quantity + (if held.Some? then held.value.quantity else 0)
               && q.available == (if held.Some? then held.value.available else 0)
               && BasisOf(q, q.quantity)
                  == (if held.Some? then BasisOf(held.value, held.value.quantity) else 0.0) + cost
  {
    hide RequiredCash;
    hide BoardOf;
    hide BasisOf;
    hide BoughtPosition;
    var i, cost := Find(a.book, order.symbol), RequiredCash(profile, order, price);
    TheFoundPosition(a.book, order.symbol);
    if i < |a.book| {
      var q := BoughtPosition(a.book[i], order.quantity, cost, price);
      BoughtMore(a.book[i], order.quantity, cost, price);
      forall s
        ensures PositionOf(a.book[i := q], s) == if s == order.symbol then Some(q) else PositionOf(a.book, s)
      {
        PositionOfOneName(a.book, q, i, s);
      }
    } else {
      var q := Position(order.symbol, order.quantity, 0, cost / order.quantity as real, price);
      BoughtFirst(q, cost);
      forall s
        ensures PositionOf(a.book + [q], s) == if s == order.symbol then Some(q) else PositionOf(a.book, s)
      {
        PositionOfANewName(a.book, q, s);
      }
    }
    hide PositionOf;
    hide Books;
  }

  lemma BoughtMore(p: Position, quantity: int, cost: real, price: real)
    requires p.quantity > 0 && quantity > 0
    ensures var q := BoughtPosition(p, quantity, cost, price);
            && q.symbol == p.symbol && q.quantity == p.quantity + quantity && q.available == p.available
            && q.lastPrice == price && BasisOf(q, q.quantity) == BasisOf(p, p.quantity) + cost
  {
    QuotientTimesDivisor(p.averageCost * p.quantity as real + cost, p.quantity + quantity);
  }

  lemma BoughtFirst(q: Position, cost: real)
    requires q.quantity > 0 && q.averageCost == cost / q.quantity as real
    ensures BasisOf(q, q.quantity) == cost
  {
    QuotientTimesDivisor(cost, q.quantity);
  }

  /** The duty on a sale changes its rate on 28 August 2023. */
  function DutyOn(profile: Profile, notional: real, day: Day): (duty: real)
  {
    notional * (if day.Rank() < Date(2023, 8, 28).Rank() then profile.stampBpsBeforeCutover
                else profile.stampBpsFromCutover) / 10000.0
  }

  /** A sale brings its price less fee, duty and dividend tax, realizes that less the cost of its shares, leaves the
      average cost, and closes a name sold out. */
  ghost predicate Sold(profile: Profile, a: State, b: State, order: Order, price: real, tax: real)
    requires a.day.Some?
  {
    var notional := NotionalOf(order, price);
    var fee, duty := FeeOn(profile, notional), DutyOn(profile, notional, a.day.value);
    var proceeds := notional - fee - duty - tax;
    && b.actions == a.actions && b.day == a.day
    && OnlyTrades(a, b, order.symbol)
    && PositionOf(a.book, order.symbol).Some?
    && var p := PositionOf(a.book, order.symbol).value;
       && b.cash == a.cash + proceeds
       && PositionOf(b.book, order.symbol)
          == (if p.quantity == order.quantity then None else
                Some(Position(order.symbol, p.quantity - order.quantity, p.available - order.quantity, p.averageCost,
                              price)))
       && b.executions == a.executions + [Execution(order, Some(price), fee, duty, tax,
                                                    Some(proceeds - BasisOf(p, order.quantity)), None)]
  }

  lemma SalesSettle(profile: Profile, a: State, order: Order, price: real, release: Release)
    requires Books(profile, a) && SaleAdmitted(a, order) && release.Released?
    ensures Sold(profile, a, SoldState(profile, a, order, price, release), order, price, release.tax)
  {
    var notional := NotionalOf(order, price);
    TradeFeeIs(profile, notional);
    DutyIs(profile, notional, a.day.value);
    SaleMovesOnePosition(profile, a, order, price);
    TheFoundPosition(a.book, order.symbol);
    var p := a.book[Find(a.book, order.symbol)];
    RealizedIs(p, order.quantity, notional - FeeOn(profile, notional) - DutyOn(profile, notional, a.day.value)
                                  - release.tax);
    hide FeeOn;
    hide DutyOn;
    hide Profile.TradeFee;
    hide Profile.StampDuty;
    hide Books;
    hide SoldBook;
    hide PositionOf;
    hide RealizedPnl;
    hide BasisOf;
    NotionalIs(order, price);
    hide Notional;
    hide NotionalOf;
  }

  /** What an order comes to at a price. */
  function NotionalOf(order: Order, price: real): (notional: real) { price * order.quantity as real }

  lemma NotionalIs(order: Order, price: real)
    ensures Notional(order, price) == NotionalOf(order, price)
  {}

  lemma RealizedIs(p: Position, quantity: int, proceeds: real)
    ensures RealizedPnl(p, quantity, proceeds) == proceeds - BasisOf(p, quantity)
  {}

  lemma DutyIs(profile: Profile, notional: real, day: Day)
    ensures profile.StampDuty(notional, day) == DutyOn(profile, notional, day)
  {}

  lemma TheFoundPosition(book: seq<Position>, symbol: string)
    ensures PositionOf(book, symbol) == if Find(book, symbol) < |book| then Some(book[Find(book, symbol)]) else None
  {}

  /** The one position a sale changes, or closes. */
  lemma SaleMovesOnePosition(profile: Profile, a: State, order: Order, price: real)
    requires Books(profile, a) && SaleAdmitted(a, order)
    ensures var i := Find(a.book, order.symbol);
            var sold, p := SoldBook(a.book, i, order.quantity, price), a.book[i];
            && (forall s :: s != order.symbol ==> PositionOf(sold, s) == PositionOf(a.book, s))
            && PositionOf(sold, order.symbol)
               == (if p.quantity == order.quantity then None else
                     Some(Position(order.symbol, p.quantity - order.quantity, p.available - order.quantity,
                                   p.averageCost, price)))
  {
    hide BoardOf;
    var i := Find(a.book, order.symbol);
    var sold, p := SoldBook(a.book, i, order.quantity, price), a.book[i];
    forall s
      ensures PositionOf(sold, s) == if s != order.symbol then PositionOf(a.book, s)
                                     else if p.quantity == order.quantity then None
                                     else Some(SoldPosition(p, order.quantity, price))
    {
      if p.quantity == order.quantity {
        PositionsWithoutOneName(a.book, i, s);
      } else {
        PositionOfOneName(a.book, SoldPosition(p, order.quantity, price), i, s);
      }
    }
    hide PositionOf;
  }

  lemma BuysAreTurnedDown(profile: Profile, a: State, order: Order, price: real)
    requires Books(profile, a) && (order.action.Buy? ==> a.day.Some?)
    ensures order.action.Buy? && RequiredCash(profile, order, price) > a.cash + 0.000000001 ==>
              BuyShares(profile, a, order, price) == Rejected(a, order, InsufficientCash)
  {}

  /** An order that does not fill leaves its record and nothing else; one that does settles as a buy or, its shares
      taken off the lots first in first out, as a sale. */
  lemma OrdersSettleAsRecorded(profile: Profile, a: State, order: Order, bar: Option<Bar>, raw: Option<real>)
    requires Valid(profile, a) && Execute(profile, a, order, bar, raw).Done?
    ensures var b := Execute(profile, a, order, bar, raw).value;
            && |b.executions| == |a.executions| + 1
            && var e := b.executions[|a.executions|];
               && (e.price.None? ==>
                     e.reason.Some? && b == a.(executions := a.executions + [Execution(order, None, 0.0, 0.0, 0.0, None,
                                                                                       e.reason)]))
               && (e.price.Some? ==> a.day.Some?)
               && (e.price.Some? && order.action.Buy? ==> Bought(profile, a, b, order, e.price.value))
               && (e.price.Some? && order.action.Sell? ==>
                     && Sold(profile, a, b, order, e.price.value, e.dividendTax)
                     && (!profile.dividendTax ==> e.dividendTax == 0.0)
                     && (profile.dividendTax ==>
                           ReleaseLots(LotsOf(a, order.symbol), order.quantity, a.day.value)
                           == Released(e.dividendTax, LotsOf(b, order.symbol))))
  {
    hide RejectReason;
    hide FillPrice;
    hide Bought;
    hide Sold;
    hide BuyShares;
    hide LotsBackTheBook;
    hide BoardOf;
    hide ReleaseLots;
    OrdersRecordTheirFill(profile, a, order, bar, raw);
    var b := Execute(profile, a, order, bar, raw).value;
    var e := b.executions[|a.executions|];
    if RejectReason(profile, a, order, bar, raw).None? && FillPrice(profile, order, bar.value, raw.value).FilledAt? {
      BuysAreTurnedDown(profile, a, order, FillPrice(profile, order, bar.value, raw.value).price);
    }
    if e.price.Some? {
      CostIsRequired(profile, order, e.price.value);
      if order.action.Buy? {
        BuysSettle(profile, a, order, e.price.value);
      } else {
        SalesSettle(profile, a, order, e.price.value, ReleaseFor(profile, a, order).value);
      }
    }
  }
}
