/** The account's cost math and the market gates one order passes: what it fills at, or why not. */
module OrderGates {
  import opened Options
  import opened Calendar
  import opened LotRules
  import opened ExDate

  datatype Profile = Profile(
    initialCash: real,
    commissionBps: real,
    minCommission: real,
    stampBpsBeforeCutover: real,
    stampBpsFromCutover: real,
    transferFeeBps: real,
    slippageBps: real,
    maxTotalHoldings: Option<int>,
    maxSingleNameWeight: Option<real>,
    dividendTax: bool,
    permittedBoards: Option<set<Board>>
  ) {
    predicate Valid() {
      && initialCash > 0.0
      && commissionBps >= 0.0 && minCommission >= 0.0 && transferFeeBps >= 0.0 && slippageBps >= 0.0
      && stampBpsBeforeCutover >= 0.0 && stampBpsFromCutover >= 0.0
      && (maxTotalHoldings.Some? ==> maxTotalHoldings.value > 0)
      && (maxSingleNameWeight.Some? ==> maxSingleNameWeight.value > 0.0)
      && (permittedBoards.Some? ==> Main in permittedBoards.value)
    }

    function SlippedPrice(price: real, action: Action): real {
      price * (1.0 + (if action.Buy? then slippageBps else -slippageBps) / 10000.0)
    }

    function Commission(notional: real): real {
      var proportional := notional * commissionBps / 10000.0;
      if proportional < minCommission then minCommission else proportional
    }

    function TradeFee(notional: real): real {
      Commission(notional) + notional * transferFeeBps / 10000.0
    }

    function StampDuty(notional: real, day: Day): real {
      notional * (if day.Rank() >= STAMP_DUTY_CUTOVER.Rank() then stampBpsFromCutover
                  else stampBpsBeforeCutover) / 10000.0
    }
  }

  const STAMP_DUTY_CUTOVER: Day := Date(2023, 8, 28)

  datatype Action = Buy | Sell
  datatype Session = Open | Close | Intraday

  // session None prices the order at its own minute; a limit price belongs to an intraday order.
  datatype Order = Order(symbol: string, action: Action, quantity: ShareCount, session: Option<Session>,
                         limitPrice: Option<real>)

  datatype Bar = Bar(
    preClose: Option<real>, open: Option<real>, close: Option<real>, high: Option<real>, low: Option<real>,
    amount: Option<real>, volume: Option<real>, upLimit: Option<real>, downLimit: Option<real>, suspended: bool
  )

  datatype Reject =
    | BoardNotPermitted | MissingExecutionPrice | Suspended | InvalidBuyLot | MaxHoldingsReached
    | SingleNameWeightCap | InsufficientAvailablePosition | AmountBelowLotSize | AmountNotLotAligned
    | MissingDailyPriceLimit | DailyPriceLimit | UnfilledPriceLimit | UnfilledLocked | UnfilledLimit
    | InsufficientCash

  /** A field read as a price: positive, or nothing. */
  function Price(value: Option<real>): (price: Option<real>)
    ensures price.Some? ==> price.value > 0.0
  {
    if value.Some? && value.value > 0.0 then value else None
  }

  const LIMIT_TOLERANCE: real := 0.000000001

  predicate ReachesLimit(price: real, limit: real, action: Action)
  {
    if action.Buy? then price >= limit - LIMIT_TOLERANCE else price <= limit + LIMIT_TOLERANCE
  }

  datatype Fill = FilledAt(price: real) | NotFilled(reason: Reject)

  function FillPrice(profile: Profile, order: Order, bar: Bar, base: real): (fill: Fill)
  {
    var limit := Price(if order.action.Buy? then bar.upLimit else bar.downLimit);
    if limit.None? then NotFilled(MissingDailyPriceLimit)
    else if order.session != Some(Intraday) then
      var price := profile.SlippedPrice(base, order.action);
      if ReachesLimit(price, limit.value, order.action) then
        NotFilled(if order.session.None? then DailyPriceLimit else UnfilledPriceLimit)
      else FilledAt(price)
    else
      var high, low := Price(bar.high), Price(bar.low);
      if high.None? || low.None? then NotFilled(MissingExecutionPrice)
      else if Abs(high.value - limit.value) < HALF_TICK && Abs(low.value - limit.value) < HALF_TICK then
        NotFilled(UnfilledLocked)
      else if order.limitPrice.None? then
        var price := profile.SlippedPrice(base, order.action);
        FilledAt(if (price < limit.value) == order.action.Buy? then price else limit.value)
      else if (if order.action.Buy? then low.value <= order.limitPrice.value + HALF_TICK
               else high.value >= order.limitPrice.value - HALF_TICK)
      then FilledAt(base)
      else NotFilled(UnfilledLimit)
  }

  /** The market price a session order meets. */
  function SessionPrice(order: Order, bar: Bar): (price: Option<real>)
    requires order.session.Some?
  {
    match order.session.value
    case Open => Price(bar.open)
    case Close => Price(bar.close)
    case Intraday =>
      if order.limitPrice.None? then
        if Price(bar.amount).None? || Price(bar.volume).None? then None
        else Some(Price(bar.amount).value / Price(bar.volume).value)
      else
        var opening := Price(bar.open);
        if opening.None? then None
        else Some(if (opening.value < order.limitPrice.value) == order.action.Buy? then opening.value
                  else order.limitPrice.value)
  }

  /** Every fill is at a positive price. All but day limit orders fill on the right side of the adverse limit;
      off the intraday session strictly so, and there slippage never helps. */
  lemma FillsStayInsideTheLimit(profile: Profile, order: Order, bar: Bar, base: real)
    requires profile.Valid() && base > 0.0 && FillPrice(profile, order, bar, base).FilledAt?
    ensures var price := FillPrice(profile, order, bar, base).price;
            && price > 0.0
            && (order.limitPrice.None? || order.session != Some(Intraday) ==>
                && (order.action.Buy? ==> bar.upLimit.Some? && price <= bar.upLimit.value)
                && (order.action.Sell? ==> bar.downLimit.Some? && price >= bar.downLimit.value))
            && (order.session != Some(Intraday) ==>
                (order.action.Buy? ==> price >= base && price < bar.upLimit.value)
                && (order.action.Sell? ==> price <= base && price > bar.downLimit.value))
  {
    var slip := profile.slippageBps / 10000.0;
    assert base * (1.0 + slip) >= base && base * (1.0 - slip) <= base;
    assert -profile.slippageBps / 10000.0 == -slip;
  }

  /** A day limit order is not held against the adverse limit: one that fills stays inside it exactly when
      its own limit price or the open does. */
  lemma DayLimitOrdersStayInsideExactlyWhen(profile: Profile, order: Order, bar: Bar)
    requires order.session == Some(Intraday) && order.limitPrice.Some?
    requires SessionPrice(order, bar).Some?
    requires FillPrice(profile, order, bar, SessionPrice(order, bar).value).FilledAt?
    ensures var price, limit := FillPrice(profile, order, bar, SessionPrice(order, bar).value).price,
            order.limitPrice.value;
            && bar.open.Some?
            && (order.action.Buy? ==>
                  bar.upLimit.Some?
                  && var up := bar.upLimit.value; price <= up <==> limit <= up || bar.open.value <= up)
            && (order.action.Sell? ==>
                  bar.downLimit.Some?
                  && var down := bar.downLimit.value; price >= down <==> limit >= down || bar.open.value >= down)
  {}

  /** A day limit order that fills does so at its limit or better, and no worse than the open. */
  lemma LimitOrdersFillAtTheLimitOrBetter(profile: Profile, order: Order, bar: Bar)
    requires order.session == Some(Intraday) && order.limitPrice.Some?
    requires SessionPrice(order, bar).Some?
    requires FillPrice(profile, order, bar, SessionPrice(order, bar).value).FilledAt?
    ensures var price, limit := FillPrice(profile, order, bar, SessionPrice(order, bar).value).price,
            order.limitPrice.value;
            && bar.open.Some? && (price == limit || price == bar.open.value)
            && (order.action.Buy? ==> price <= limit && price <= bar.open.value)
            && (order.action.Sell? ==> price >= limit && price >= bar.open.value)
  {}

  // ---- exactly when an order trades, and at what price ----

  /** Both ends of the day's range sit on the limit: nothing traded off it. */
  predicate LockedAt(bar: Bar, limit: real)
    requires bar.high.Some? && bar.low.Some?
  {
    -0.005 < bar.high.value - limit < 0.005 && -0.005 < bar.low.value - limit < 0.005
  }

  /** The bar trades the order at `price`. Off the intraday session the slipped price must not come within the
      tolerance of the adverse limit; over the day the range must be quoted and not locked at that limit, a market
      order pays the slipped price or the limit, and a limit order needs the range to reach its price. */
  predicate Trades(profile: Profile, order: Order, bar: Bar, base: real, price: real)
  {
    var limit := if order.action.Buy? then bar.upLimit else bar.downLimit;
    var slip := base * profile.slippageBps / 10000.0;
    var slipped := if order.action.Buy? then base + slip else base - slip;
    && limit.Some? && limit.value > 0.0
    && if order.session != Some(Intraday) then
         && price == slipped
         && (order.action.Buy? ==> price < limit.value - 0.000000001)
         && (order.action.Sell? ==> price > limit.value + 0.000000001)
       else
         && bar.high.Some? && bar.high.value > 0.0 && bar.low.Some? && bar.low.value > 0.0
         && !LockedAt(bar, limit.value)
         && if order.limitPrice.None? then
              && (price == slipped || price == limit.value)
              && (order.action.Buy? ==> price <= slipped && price <= limit.value)
              && (order.action.Sell? ==> price >= slipped && price >= limit.value)
            else
              && price == base
              && (order.action.Buy? ==> bar.low.value <= order.limitPrice.value + 0.005)
              && (order.action.Sell? ==> bar.high.value >= order.limitPrice.value - 0.005)
  }

  lemma SlippedPriceIs(profile: Profile, base: real, action: Action)
    ensures profile.SlippedPrice(base, action)
            == base + if action.Buy? then base * profile.slippageBps / 10000.0
                      else -(base * profile.slippageBps / 10000.0)
  {
    var bps := profile.slippageBps;
    assert base * (1.0 + bps / 10000.0) == base + base * bps / 10000.0;
    assert base * (1.0 + -bps / 10000.0) == base - base * bps / 10000.0;
  }

  lemma OrdersFillExactlyWhen(profile: Profile, order: Order, bar: Bar, base: real, price: real)
    ensures FillPrice(profile, order, bar, base) == FilledAt(price) <==> Trades(profile, order, bar, base, price)
  {
    SlippedPriceIs(profile, base, order.action);
    hide Profile.SlippedPrice;
  }

  /** Why an order does not trade: no usable limit, a price at the limit, no quotes, a locked day, or a limit price
      the day never reached. */
  lemma UnfilledOrdersSayWhy(profile: Profile, order: Order, bar: Bar, base: real)
    requires FillPrice(profile, order, bar, base).NotFilled?
    ensures var reason, limit := FillPrice(profile, order, bar, base).reason,
                if order.action.Buy? then bar.upLimit else bar.downLimit;
            && (reason == MissingDailyPriceLimit <==> limit.None? || limit.value <= 0.0)
            && (reason == DailyPriceLimit <==> reason != MissingDailyPriceLimit && order.session.None?)
            && (reason == UnfilledPriceLimit <==>
                  reason != MissingDailyPriceLimit && order.session.Some? && !order.session.value.Intraday?)
            && (reason == MissingExecutionPrice <==>
                  && reason != MissingDailyPriceLimit && order.session == Some(Intraday)
                  && (Price(bar.high).None? || Price(bar.low).None?))
            && (reason in {UnfilledLocked, UnfilledLimit} ==>
                  bar.high.Some? && bar.low.Some? && limit.Some?
                  && (reason == UnfilledLocked <==> LockedAt(bar, limit.value)))
  {
    hide Profile.SlippedPrice;
  }

  /** The market price a session order meets: the open, the close, the day's average, or, for a limit order, the
      better of its limit and the open. */
  lemma SessionPricesAre(order: Order, bar: Bar)
    requires order.session.Some?
    ensures var price := SessionPrice(order, bar);
            && (order.session.value.Open? ==> price == Price(bar.open))
            && (order.session.value.Close? ==> price == Price(bar.close))
            && (order.session.value.Intraday? && order.limitPrice.None? ==>
                  && (price.Some? <==> Price(bar.amount).Some? && Price(bar.volume).Some?)
                  && (price.Some? ==> price.value * bar.volume.value == bar.amount.value))
            && (order.session.value.Intraday? && order.limitPrice.Some? ==>
                  && (price.Some? <==> Price(bar.open).Some?)
                  && (price.Some? ==>
                        var at, limit, opening := price.value, order.limitPrice.value, bar.open.value;
                        && at in {opening, limit}
                        && (order.action.Buy? ==> at <= limit && at <= opening)
                        && (order.action.Sell? ==> at >= limit && at >= opening)))
  {}

  /** The fee is the larger of the proportional and the minimum commission, plus the transfer fee;
      the sale duty changes rate on the day of the cutover. */
  lemma FeesFollowTheSchedule(profile: Profile, notional: real, day: Day)
    requires profile.Valid() && notional > 0.0
    ensures var proportional, fee, transfer :=
              notional * profile.commissionBps / 10000.0, profile.TradeFee(notional),
                  notional * profile.transferFeeBps / 10000.0;
            && fee - transfer >= profile.minCommission && fee - transfer >= proportional && transfer >= 0.0
            && (fee - transfer == profile.minCommission || fee - transfer == proportional)
    ensures profile.StampDuty(notional, day) >= 0.0
    ensures var halved := day.year > 2023 || (day.year == 2023 && (day.month > 8 || (day.month == 8 && day.day >= 28)));
            profile.StampDuty(notional, day) ==
            notional * (if halved then profile.stampBpsFromCutover else profile.stampBpsBeforeCutover) / 10000.0
  {
    RankIsTheCalendarOrder(day, STAMP_DUTY_CUTOVER);
    assert notional * profile.transferFeeBps >= 0.0;
    assert notional * profile.stampBpsFromCutover >= 0.0 && notional * profile.stampBpsBeforeCutover >= 0.0;
  }
}
