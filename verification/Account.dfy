/** The A-share account as a value: what each operation of the broker makes of it. A raised
    exception ends the account's life, so it carries no state. */
module Account {
  import opened Options
  import opened Calendar
  import opened DividendTax
  import opened LotRules
  import opened ExDate
  import opened Lots
  import opened LotRelease
  import opened OrderGates

  datatype Position = Position(symbol: string, quantity: int, available: int, averageCost: real, lastPrice: real)

  datatype Distribution = Distribution(cashPerShare: real, bonusPerShare: Option<real>, recordDate: Option<string>)

  datatype CorporateAction = CorporateAction(
    tradeDate: Day, symbol: string, lastClose: real, preClose: real, cashPerShare: real,
    quantityBefore: int, quantityAfter: int, cashCredit: real, taxWithheld: real
  )

  datatype Execution = Execution(
    order: Order, price: Option<real>, commission: real, stampDuty: real, dividendTax: real,
    realizedPnl: Option<real>, reason: Option<Reject>
  )

  // `book` is the positions dictionary in its insertion order.
  datatype State = State(
    cash: real,
    book: seq<Position>,
    lots: map<string, seq<Lot>>,
    executions: seq<Execution>,
    actions: seq<CorporateAction>,
    day: Option<Day>
  )

  datatype Error =
    | TaxNeedsDistributions | TwoDistributionSources | NoPreClose | NoBonusColumn | InvalidDistribution
    | InvalidMultiplier | UnsupportedRecordDate | NoWholeShare | CannotPayWithholding
    | NoTradingDay | UnknownLots | SaleRefused

  datatype Outcome<+T> = Done(value: T) | Raised(error: Error)

  function Opening(profile: Profile): (a: State)
  {
    State(profile.initialCash, [], map[], [], [], None)
  }

  function Find(book: seq<Position>, symbol: string): (i: nat)
    ensures i <= |book|
    ensures i < |book| ==> book[i].symbol == symbol
    ensures forall j :: 0 <= j < i ==> book[j].symbol != symbol
  {
    if book == [] || book[0].symbol == symbol then 0 else 1 + Find(book[1..], symbol)
  }

  // ---- an ex-date ----

  // ratio None keeps the share count; rule None means no tax applies.
  datatype Terms = Terms(
    ratio: Option<real>, incomePerShare: real, rule: Option<Rule>, withheld: real,
    after: int, credit: real, price: real, preClose: real
  )

  datatype Plan = Nothing | Settle(terms: Terms) | Refuse(error: Error)

  /** What the day's bar and distribution make of one position, cash aside. */
  function PlanExDate(profile: Profile, p: Position, bar: Bar, event: Distribution): (plan: Plan)
  {
    var pre := Price(bar.preClose);
    var bonus := if event.bonusPerShare.None? then 0.0 else event.bonusPerShare.value;
    if pre.None? then Refuse(NoPreClose)
    else if profile.dividendTax && event.bonusPerShare.None? then Refuse(NoBonusColumn)
    else if event.cashPerShare < 0.0 || bonus < 0.0 then Refuse(InvalidDistribution)
    else
      var multiplier := ShareMultiplier(p.lastPrice, pre.value, event.cashPerShare);
      if multiplier.InvalidRatio? then Refuse(InvalidMultiplier)
      else PlanWithMultiplier(profile, p, pre.value, event, bonus, multiplier)
  }

  function PlanWithMultiplier(profile: Profile, p: Position, pre: real, event: Distribution, bonus: real,
                              multiplier: Multiplier): (plan: Plan)
    requires !multiplier.InvalidRatio?
  {
    var income := event.cashPerShare + if multiplier.Scaled? then bonus else 0.0;
    var taxed := profile.dividendTax && income != 0.0;
    var rule := if taxed then RuleFor(if event.recordDate.Some? then event.recordDate.value else "") else None;
    if taxed && rule.None? then Refuse(UnsupportedRecordDate)
    else
      var withheld := if rule.Some? then Payment(p.quantity, income) * rule.value.WithholdingRate() else 0.0;
      if multiplier.NoShareChange? then
        if income == 0.0 then Nothing
        else
          var price := if PriceReset(p.lastPrice, pre) then pre else p.lastPrice;
          Settle(Terms(None, income, rule, withheld, p.quantity, p.quantity as real * event.cashPerShare, price, pre))
      else
        var after := ExDateShares(p.quantity, multiplier.ratio);
        if after <= 0 then Refuse(NoWholeShare)
        else Settle(Terms(Some(multiplier.ratio), income, rule, withheld, after,
                          Credit(p.quantity, p.lastPrice, pre, after), pre, pre))
  }

  function SettledPosition(p: Position, terms: Terms): (settled: Position)
    requires terms.after != 0
  {
    Position(p.symbol, terms.after,
             if terms.ratio.Some? then Min(p.available, terms.after) else p.available,
             (p.averageCost * p.quantity as real - terms.credit) / terms.after as real,
             terms.price)
  }

  function ApplyTerms(profile: Profile, a: State, i: nat, event: Distribution, terms: Terms): (outcome: Outcome<State>)
    requires i < |a.book| && a.day.Some? && terms.after != 0
    ensures outcome.Done? ==> |outcome.value.book| == |a.book|
  {
    var p := a.book[i];
    if a.cash + terms.credit < terms.withheld - 0.000000001 then Raised(CannotPayWithholding)
    else if profile.dividendTax && p.symbol !in a.lots then Raised(UnknownLots)
    else
      Done(State(
        a.cash + (terms.credit - terms.withheld),
        a.book[i := SettledPosition(p, terms)],
        if profile.dividendTax then
          a.lots[p.symbol := SettleLots(a.lots[p.symbol], terms.incomePerShare, terms.ratio,
                                        terms.rule == Some(OldRule))]
        else a.lots,
        a.executions,
        a.actions + [CorporateAction(a.day.value, p.symbol, p.lastPrice, terms.preClose, event.cashPerShare,
                                     p.quantity, terms.after, terms.credit, terms.withheld)],
        a.day))
  }

  function SettleExDate(profile: Profile, a: State, i: nat, bar: Bar, event: Distribution): (outcome: Outcome<State>)
    requires i < |a.book| && a.day.Some? && a.book[i].quantity > 0
    ensures outcome.Done? ==> |outcome.value.book| == |a.book| && outcome.value.day == a.day
  {
    match PlanExDate(profile, a.book[i], bar, event)
    case Nothing => Done(a)
    case Refuse(error) => Raised(error)
    case Settle(terms) => ApplyTerms(profile, a, i, event, terms)
  }

  // ---- entering a day ----

  // The day's events: record-dated distributions, or cash per share alone.
  datatype Feed = Feed(cashDividends: Option<map<string, real>>, distributions: Option<map<string, Distribution>>)

  const NO_DISTRIBUTION := Distribution(0.0, Some(0.0), None)

  function EventFor(feed: Feed, symbol: string): (event: Distribution)
  {
    if feed.distributions.Some? then
      if symbol in feed.distributions.value then feed.distributions.value[symbol] else NO_DISTRIBUTION
    else if feed.cashDividends.Some? && symbol in feed.cashDividends.value then
      Distribution(feed.cashDividends.value[symbol], Some(0.0), None)
    else NO_DISTRIBUTION
  }

  /** Yesterday's shares become sellable. */
  function Unlock(a: State, i: nat): (unlocked: State)
    requires i < |a.book|
  {
    a.(book := a.book[i := a.book[i].(available := a.book[i].quantity)])
  }

  function OpenPosition(profile: Profile, a: State, i: nat, bars: map<string, Bar>,
                        feed: Feed): (outcome: Outcome<State>)
    requires i < |a.book| && a.day.Some? && a.book[i].quantity > 0
    ensures outcome.Done? ==> |outcome.value.book| == |a.book| && outcome.value.day == a.day
    ensures outcome.Done? ==> forall j :: 0 <= j < |a.book| && j != i ==> outcome.value.book[j] == a.book[j]
  {
    var symbol := a.book[i].symbol;
    if symbol !in bars then Done(Unlock(a, i))
    else SettleExDate(profile, Unlock(a, i), i, bars[symbol], EventFor(feed, symbol))
  }

  function OpenFrom(profile: Profile, a: State, i: nat, bars: map<string, Bar>, feed: Feed): (outcome: Outcome<State>)
    requires i <= |a.book| && a.day.Some?
    requires forall j :: i <= j < |a.book| ==> a.book[j].quantity > 0
    decreases |a.book| - i
  {
    if i == |a.book| then Done(a)
    else match OpenPosition(profile, a, i, bars, feed)
      case Raised(error) => Raised(error)
      case Done(b) => OpenFrom(profile, b, i + 1, bars, feed)
  }

  function OpenDay(profile: Profile, a: State, day: Day, bars: map<string, Bar>, feed: Feed): (outcome: Outcome<State>)
    requires forall j :: 0 <= j < |a.book| ==> a.book[j].quantity > 0
  {
    if a.day == Some(day) then Done(a)
    else if profile.dividendTax && feed.distributions.None? then Raised(TaxNeedsDistributions)
    else if feed.distributions.Some? && feed.cashDividends.Some? then Raised(TwoDistributionSources)
    else OpenFrom(profile, a.(day := Some(day)), 0, bars, feed)
  }

  // ---- an order ----

  function RejectReason(profile: Profile, a: State, order: Order, bar: Option<Bar>,
                        raw: Option<real>): (reject: Option<Reject>)
    ensures reject.None? ==> bar.Some? && Price(raw).Some?
    ensures reject.None? && order.action.Sell? ==>
              Find(a.book, order.symbol) < |a.book| && order.quantity <= a.book[Find(a.book, order.symbol)].available
    ensures reject.None? && order.action.Buy? && profile.permittedBoards.Some? ==>
              BoardOf(order.symbol).Some? && BoardOf(order.symbol).value in profile.permittedBoards.value
    ensures reject.None? && order.action.Buy? && profile.maxTotalHoldings.Some? ==>
              Find(a.book, order.symbol) < |a.book| || |a.book| < profile.maxTotalHoldings.value
  {
    var i := Find(a.book, order.symbol);
    if order.action.Buy? && profile.permittedBoards.Some?
       && !(BoardOf(order.symbol).Some? && BoardOf(order.symbol).value in profile.permittedBoards.value)
    then Some(BoardNotPermitted)
    else if bar.None? then Some(MissingExecutionPrice)
    else if bar.value.suspended then Some(Suspended)
    else if Price(raw).None? then Some(MissingExecutionPrice)
    else if order.action.Buy? then
      if !BuyLotAllowed(order.quantity, order.symbol) then Some(InvalidBuyLot)
      else if profile.maxTotalHoldings.Some? && i == |a.book| && |a.book| >= profile.maxTotalHoldings.value
      then Some(MaxHoldingsReached)
      else SingleNameCapReject(profile, a, order, raw.value)
    else if i == |a.book| || a.book[i].available < order.quantity then Some(InsufficientAvailablePosition)
    else match ReduceAmountReject(order.quantity, a.book[i].available, order.symbol)
      case None => None
      case Some(BelowLotSize) => Some(AmountBelowLotSize)
      case Some(NotLotAligned) => Some(AmountNotLotAligned)
  }

  function SingleNameCapReject(profile: Profile, a: State, order: Order, price: real): (reject: Option<Reject>)
  {
    var i := Find(a.book, order.symbol);
    var held := if i < |a.book| then a.book[i].quantity as real * price else 0.0;
    if profile.maxSingleNameWeight.Some?
       && held + order.quantity as real * price > profile.maxSingleNameWeight.value * profile.initialCash + 0.000001
    then Some(SingleNameWeightCap)
    else None
  }

  function Rejected(a: State, order: Order, reason: Reject): (b: State)
  {
    a.(executions := a.executions + [Execution(order, None, 0.0, 0.0, 0.0, None, Some(reason))])
  }

  function Filled(order: Order, price: real, commission: real, stamp: real, tax: real,
                  pnl: Option<real>): (e: Execution)
  {
    Execution(order, Some(price), commission, stamp, tax, pnl, None)
  }

  function BoughtPosition(p: Position, quantity: int, cost: real, price: real): (q: Position)
    requires p.quantity + quantity != 0
  {
    Position(p.symbol, p.quantity + quantity, p.available,
             (p.averageCost * p.quantity as real + cost) / (p.quantity + quantity) as real, price)
  }

  function LotsOf(a: State, symbol: string): (lots: seq<Lot>)
  {
    if symbol in a.lots then a.lots[symbol] else []
  }

  function Notional(order: Order, price: real): (notional: real)
  {
    price * order.quantity as real
  }

  function RequiredCash(profile: Profile, order: Order, price: real): (required: real)
  {
    Notional(order, price) + profile.TradeFee(Notional(order, price))
  }

  function BuyShares(profile: Profile, a: State, order: Order, price: real): (b: State)
    requires a.day.Some? && forall j :: 0 <= j < |a.book| ==> a.book[j].quantity > 0
  {
    var fee, required := profile.TradeFee(Notional(order, price)), RequiredCash(profile, order, price);
    var i := Find(a.book, order.symbol);
    if required > a.cash + 0.000000001 then Rejected(a, order, InsufficientCash)
    else State(
      a.cash - required,
      if i == |a.book| then
        a.book + [Position(order.symbol, order.quantity, 0, required / order.quantity as real, price)]
      else a.book[i := BoughtPosition(a.book[i], order.quantity, required, price)],
      if profile.dividendTax then
        a.lots[order.symbol := LotsOf(a, order.symbol) + [Lot(order.quantity, a.day.value, 0.0, 0.0)]]
      else a.lots,
      a.executions + [Filled(order, price, fee, 0.0, 0.0, None)],
      a.actions, a.day)
  }

  /** The dividend tax and the lots a sale leaves. */
  function ReleaseFor(profile: Profile, a: State, order: Order): (release: Outcome<Release>)
    requires a.day.Some?
    ensures release.Done? ==> release.value.Released?
  {
    if !profile.dividendTax then Done(Released(0.0, []))
    else if order.symbol !in a.lots then Raised(UnknownLots)
    else match ReleaseLots(a.lots[order.symbol], order.quantity, a.day.value)
      case Refused => Raised(SaleRefused)
      case Released(tax, lots) => Done(Released(tax, lots))
  }

  function SellShares(profile: Profile, a: State, order: Order, price: real): (outcome: Outcome<State>)
    requires a.day.Some? && Find(a.book, order.symbol) < |a.book|
  {
    match ReleaseFor(profile, a, order)
    case Raised(error) => Raised(error)
    case Done(release) => Done(SoldState(profile, a, order, price, release))
  }

  function SoldPosition(p: Position, quantity: int, price: real): (q: Position)
  {
    Position(p.symbol, p.quantity - quantity, p.available - quantity, p.averageCost, price)
  }

  function RealizedPnl(p: Position, quantity: int, proceeds: real): (pnl: real)
  {
    proceeds - p.averageCost * quantity as real
  }

  function SoldBook(book: seq<Position>, i: nat, quantity: int, price: real): (sold: seq<Position>)
    requires i < |book|
  {
    if book[i].quantity == quantity then book[..i] + book[i + 1..]
    else book[i := SoldPosition(book[i], quantity, price)]
  }

  function SoldState(profile: Profile, a: State, order: Order, price: real, release: Release): (b: State)
    requires a.day.Some? && Find(a.book, order.symbol) < |a.book| && release.Released?
  {
    var i := Find(a.book, order.symbol);
    var p := a.book[i];
    var fee, stamp := profile.TradeFee(Notional(order, price)), profile.StampDuty(Notional(order, price), a.day.value);
    var proceeds := Notional(order, price) - fee - stamp - release.tax;
    State(
      a.cash + proceeds,
      SoldBook(a.book, i, order.quantity, price),
      if !profile.dividendTax then a.lots
      else if release.lots == [] then a.lots - {order.symbol}
      else a.lots[order.symbol := release.lots],
      a.executions + [Filled(order, price, fee, stamp, release.tax, Some(RealizedPnl(p, order.quantity, proceeds)))],
      a.actions, a.day)
  }

  function Execute(profile: Profile, a: State, order: Order, bar: Option<Bar>,
                   raw: Option<real>): (outcome: Outcome<State>)
    requires forall j :: 0 <= j < |a.book| ==> a.book[j].quantity > 0
  {
    match RejectReason(profile, a, order, bar, raw)
    case Some(reason) => Done(Rejected(a, order, reason))
    case None =>
      match FillPrice(profile, order, bar.value, raw.value)
      case NotFilled(reason) => Done(Rejected(a, order, reason))
      case FilledAt(price) =>
        if a.day.None? then Raised(NoTradingDay)
        else if order.action.Buy? then Done(BuyShares(profile, a, order, price))
        else SellShares(profile, a, order, price)
  }

  // ---- marking ----

  function MarkedPosition(p: Position, prices: map<string, Option<real>>): (marked: Position)
    ensures marked == p.(lastPrice := marked.lastPrice)
    ensures p.lastPrice > 0.0 ==> marked.lastPrice > 0.0
  {
    var price := if p.symbol in prices then Price(prices[p.symbol]) else None;
    if price.Some? then p.(lastPrice := price.value) else p
  }

  function MarkedBook(book: seq<Position>, prices: map<string, Option<real>>): (marked: seq<Position>)
    ensures |marked| == |book|
    ensures forall i :: 0 <= i < |book| ==> marked[i] == MarkedPosition(book[i], prices)
  {
    seq(|book|, i requires 0 <= i < |book| => MarkedPosition(book[i], prices))
  }

  /** `prices` gives each name with a bar its price field. */
  function Mark(a: State, prices: map<string, Option<real>>): (b: State)
  {
    a.(book := MarkedBook(a.book, prices))
  }
}
