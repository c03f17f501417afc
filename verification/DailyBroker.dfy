/** The broker object: its methods update the account in place, and each is the account operation it
    is proved against. After an exception (`raised`) nothing is promised: the run is over. */
module DailyBroker {
  import opened Options
  import opened Calendar
  import opened DividendTax
  import opened LotRules
  import opened ExDate
  import opened Lots
  import opened LotRelease
  import opened OrderGates
  import opened Account
  import opened Ledger
  import opened OrderSteps
  import opened AccountRuns

  class Broker {
    const profile: Profile
    var cash: real
    var positions: seq<Position>
    var lots: map<string, seq<Lot>>
    var executions: seq<Execution>
    var corporateActions: seq<CorporateAction>
    var currentDay: Option<Day>

    function Snapshot(): (a: State)
      reads this
    {
      State(cash, positions, lots, executions, corporateActions, currentDay)
    }

    ghost predicate Valid()
      reads this
    {
      profile.Valid() && Ledger.Valid(profile, Snapshot())
    }

    constructor (profile: Profile)
      requires profile.Valid()
      ensures this.profile == profile && Snapshot() == Opening(profile) && Valid()
    {
      this.profile := profile;
      cash := profile.initialCash;
      positions, lots, executions, corporateActions := [], map[], [], [];
      currentDay := None;
    }

    method EnterDay(day: Day, bars: map<string, Bar>, feed: Feed) returns (raised: Option<Error>)
      requires Valid()
      modifies this
      ensures match OpenDay(profile, old(Snapshot()), day, bars, feed)
              case Done(a) => raised.None? && Snapshot() == a && Valid()
              case Raised(error) => raised == Some(error)
    {
      hide BoardOf;
      hide Account.SettleExDate;
      hide LotsBackTheBook;
      hide EventFor;
      raised := None;
      if currentDay == Some(day) {
        return;
      }
      if profile.dividendTax && feed.distributions.None? {
        return Some(TaxNeedsDistributions);
      }
      if feed.distributions.Some? && feed.cashDividends.Some? {
        return Some(TwoDistributionSources);
      }
      currentDay := Some(day);
      ghost var start := Snapshot();
      for i := 0 to |positions|
        invariant i <= |positions| == |start.book| && currentDay == Some(day) && raised.None?
        invariant forall j :: i <= j < |positions| ==> positions[j].quantity > 0
        invariant OpenFrom(profile, start, 0, bars, feed) == OpenFrom(profile, Snapshot(), i, bars, feed)
      {
        ghost var before := Snapshot();
        positions := positions[i := positions[i].(available := positions[i].quantity)];
        var symbol := positions[i].symbol;
        if symbol in bars {
          raised := SettleExDate(i, bars[symbol], EventFor(feed, symbol));
          if raised.Some? {
            return;
          }
        }
        assert OpenPosition(profile, before, i, bars, feed) == Done(Snapshot());
      }
      OpenDayKeepsValid(profile, old(Snapshot()), day, bars, feed);
    }

    /** The first half of an ex-date: everything is computed and checked before the books move. */
    method PlanExDate(position: Position, bar: Bar, event: Distribution) returns (plan: Plan)
      requires position.quantity > 0
      ensures plan == Account.PlanExDate(profile, position, bar, event)
      ensures plan.Settle? ==> plan.terms.after > 0
    {
      hide ExDateShares;
      hide ShareMultiplier;
      hide PriceReset;
      hide RuleFor;
      hide Credit;
      hide Price;
      hide Rule.WithholdingRate;
      hide Payment;
      var pre := Price(bar.preClose);
      if pre.None? {
        return Refuse(NoPreClose);
      }
      var preClose := pre.value;
      if profile.dividendTax && event.bonusPerShare.None? {
        return Refuse(NoBonusColumn);
      }
      var bonus := if event.bonusPerShare.None? then 0.0 else event.bonusPerShare.value;
      if event.cashPerShare < 0.0 || bonus < 0.0 {
        return Refuse(InvalidDistribution);
      }
      var lastClose, before := position.lastPrice, position.quantity;
      var multiplier := ShareMultiplier(lastClose, preClose, event.cashPerShare);
      if multiplier.InvalidRatio? {
        return Refuse(InvalidMultiplier);
      }
      var ratio := if multiplier.Scaled? then Some(multiplier.ratio) else None;
      var income := event.cashPerShare + if ratio.Some? then bonus else 0.0;
      var rule: Option<Rule> := None;
      if profile.dividendTax && income != 0.0 {
        rule := RuleFor(if event.recordDate.Some? then event.recordDate.value else "");
        if rule.None? {
          return Refuse(UnsupportedRecordDate);
        }
      }
      var withheld := if rule.Some? then Payment(before, income) * rule.value.WithholdingRate() else 0.0;
      var after, credit, price := before, before as real * event.cashPerShare, lastClose;
      if ratio.None? {
        if income == 0.0 {
          return Nothing;
        }
        if PriceReset(lastClose, preClose) {
          price := preClose;
        }
      } else {
        after := ExDateShares(before, ratio.value);
        if after <= 0 {
          return Refuse(NoWholeShare);
        }
        credit := Credit(before, lastClose, preClose, after);
        price := preClose;
      }
      return Settle(Terms(ratio, income, rule, withheld, after, credit, price, preClose));
    }

    method SettleExDate(i: nat, bar: Bar, event: Distribution) returns (raised: Option<Error>)
      requires i < |positions| && currentDay.Some? && positions[i].quantity > 0
      modifies this
      ensures match Account.SettleExDate(profile, old(Snapshot()), i, bar, event)
              case Done(a) => raised.None? && Snapshot() == a
              case Raised(error) => raised == Some(error)
    {
      hide Account.PlanExDate;
      hide Lots.SettleLots;
      var position := positions[i];
      var plan := PlanExDate(position, bar, event);
      if plan.Nothing? {
        return None;
      }
      if plan.Refuse? {
        return Some(plan.error);
      }
      var terms := plan.terms;
      if cash + terms.credit < terms.withheld - 0.000000001 {
        return Some(CannotPayWithholding);
      }
      var cost := (position.averageCost * position.quantity as real - terms.credit) / terms.after as real;
      position := position.(lastPrice := terms.price, quantity := terms.after, averageCost := cost);
      if terms.ratio.Some? {
        position := position.(available := Min(position.available, terms.after));
      }
      var lastClose, before := positions[i].lastPrice, positions[i].quantity;
      assert position == SettledPosition(positions[i], terms);
      assert ApplyTerms(profile, Snapshot(), i, event, terms)
          == Account.SettleExDate(profile, Snapshot(), i, bar, event);
      positions := positions[i := position];
      cash := cash + (terms.credit - terms.withheld);
      if profile.dividendTax {
        if position.symbol !in lots {
          return Some(UnknownLots);
        }
        SettleLots(position.symbol, terms.incomePerShare, terms.ratio, terms.rule == Some(OldRule));
      }
      corporateActions := corporateActions + [CorporateAction(
        currentDay.value, position.symbol, lastClose, terms.preClose, event.cashPerShare,
        before, terms.after, terms.credit, terms.withheld)];
      return None;
    }

    method SettleLots(symbol: string, income: real, ratio: Option<real>, oldRule: bool)
      requires symbol in lots
      modifies this`lots
      ensures lots == old(lots)[symbol := Lots.SettleLots(old(lots)[symbol], income, ratio, oldRule)]
    {
      hide ExDateShares;
      hide KeptOf;
      hide SettledFrom;
      var all := lots[symbol];
      var held, settled := 0, 0;
      var kept: seq<Lot> := [];
      if ratio.Some? {
        NoSharesStayNone(ratio.value);
      }
      for k := 0 to |all|
        invariant lots == old(lots)
        invariant ratio.Some? ==> settled == ExDateShares(held, ratio.value)
        invariant kept + KeptOf(SettledFrom(all[k..], income, ratio, oldRule, held))
                  == Lots.SettleLots(all, income, ratio, oldRule)
      {
        var lot := all[k];
        var received := lot.quantity as real * income;
        lot := if oldRule then lot.(incomeOld := lot.incomeOld + received)
            else lot.(incomeNew := lot.incomeNew + received);
        ghost var rest, before, keptBefore := all[k..], held, kept;
        if ratio.Some? {
          held := held + lot.quantity;
          var previous := settled;
          settled := ExDateShares(held, ratio.value);
          lot := lot.(quantity := settled - previous);
        } else {
          RunningTotalOnlyScales(all[k + 1..], income, oldRule, held, held + all[k].quantity);
        }
        if lot.quantity > 0 {
          kept := kept + [lot];
        }
        assert rest[0] == all[k] && rest[1..] == all[k + 1..];
        assert lot == Credited(rest[0], income, oldRule).(quantity := Resized(before, rest[0].quantity, ratio));
        KeptOneByOne(rest, income, ratio, oldRule, before);
        assert kept == keptBefore + (if lot.quantity > 0 then [lot] else []);
      }
      NothingLeftToSettle(all[|all|..], income, ratio, oldRule, held);
      assert kept + [] == kept;
      lots := lots[symbol := kept];
    }

    method ReleaseLots(symbol: string, quantity: nat) returns (tax: real, raised: bool)
      requires symbol in lots && currentDay.Some?
      modifies this`lots
      ensures match LotRelease.ReleaseLots(old(lots)[symbol], quantity, old(currentDay).value)
              case Refused => raised
              case Released(due, rest) =>
                !raised && tax == due && lots == if rest == [] then old(lots) - {symbol} else old(lots)[symbol := rest]
    {
      hide Due;
      hide Part;
      hide LotRelease.ReleaseLots;
      hide StillToRelease;
      var day := currentDay.value;
      var queue := lots[symbol];
      var left: nat := quantity;
      tax := 0.0;
      ReleaseStarts(queue, left, day);
      while left != 0
        invariant lots == old(lots)
        invariant StillToRelease(lots[symbol], quantity, day, queue, left, tax)
        decreases left
      {
        ReleaseStep(lots[symbol], quantity, day, queue, left, tax);
        if queue == [] || queue[0].quantity <= 0 {
          return tax, true;
        }
        var lot := queue[0];
        var taken := Min(left, lot.quantity);
        var oldIncome, newIncome := Part(lot.incomeOld, taken, lot), Part(lot.incomeNew, taken, lot);
        var due := Due(lot.acquired, day, oldIncome, newIncome);
        if due.None? {
          return tax, true;
        }
        tax := tax + due.value;
        lot := Lot(lot.quantity - taken, lot.acquired, lot.incomeNew - newIncome, lot.incomeOld - oldIncome);
        left := left - taken;
        queue := if lot.quantity == 0 then queue[1..] else [lot] + queue[1..];
      }
      ReleaseEnds(lots[symbol], quantity, day, queue, tax);
      lots := if queue == [] then lots - {symbol} else lots[symbol := queue];
      raised := false;
    }

    method Execute(order: Order, bar: Option<Bar>, raw: Option<real>) returns (raised: Option<Error>)
      requires Valid()
      modifies this
      ensures match Account.Execute(profile, old(Snapshot()), order, bar, raw)
              case Done(a) => raised.None? && Snapshot() == a && Valid()
              case Raised(error) => raised == Some(error)
    {
      hide FillPrice;
      hide RejectReason;
      hide LotsBackTheBook;
      hide Notional;
      hide RequiredCash;
      hide BoughtPosition;
      hide SoldBook;
      hide BoardOf;
      hide Profile.TradeFee;
      hide Profile.StampDuty;
      hide RealizedPnl;
      ghost var start := Snapshot();
      if Account.Execute(profile, start, order, bar, raw).Done? {
        ExecuteKeepsValid(profile, start, order, bar, raw);
      }
      raised := None;
      var reason := RejectReason(profile, Snapshot(), order, bar, raw);
      if reason.Some? {
        Record(Execution(order, None, 0.0, 0.0, 0.0, None, reason));
        return;
      }
      var fill := FillPrice(profile, order, bar.value, raw.value);
      if fill.NotFilled? {
        Record(Execution(order, None, 0.0, 0.0, 0.0, None, Some(fill.reason)));
        return;
      }
      var price := fill.price;
      var notional := Notional(order, price);
      if currentDay.None? {
        return Some(NoTradingDay);
      }
      var commission := profile.TradeFee(notional);
      var i := Find(positions, order.symbol);
      if order.action.Buy? {
        var required := RequiredCash(profile, order, price);
        if required > cash + 0.000000001 {
          Record(Execution(order, None, 0.0, 0.0, 0.0, None, Some(InsufficientCash)));
          return;
        }
        cash := cash - required;
        if profile.dividendTax {
          lots := lots[order.symbol := (if order.symbol in lots then lots[order.symbol] else [])
                                       + [Lot(order.quantity, currentDay.value, 0.0, 0.0)]];
        }
        if i == |positions| {
          positions := positions + [Position(order.symbol, order.quantity, 0, required / order.quantity as real,
                                             price)];
        } else {
          positions := positions[i := BoughtPosition(positions[i], order.quantity, required, price)];
        }
        Record(Filled(order, price, commission, 0.0, 0.0, None));
        assert Snapshot() == BuyShares(profile, start, order, price);
      } else {
        var stamp := profile.StampDuty(notional, currentDay.value);
        var position := positions[i];
        var tax := 0.0;
        if profile.dividendTax {
          if order.symbol !in lots {
            return Some(UnknownLots);
          }
          var refused;
          tax, refused := ReleaseLots(order.symbol, order.quantity);
          if refused {
            return Some(SaleRefused);
          }
        }
        var proceeds := notional - commission - stamp - tax;
        var pnl := RealizedPnl(position, order.quantity, proceeds);
        cash := cash + proceeds;
        positions := SoldBook(positions, i, order.quantity, price);
        Record(Filled(order, price, commission, stamp, tax, Some(pnl)));
        assert Snapshot() == SoldState(profile, start, order, price, ReleaseFor(profile, start, order).value);
      }
    }

    method Record(execution: Execution)
      modifies this`executions
      ensures executions == old(executions) + [execution]
    {
      executions := executions + [execution];
    }

    method Mark(prices: map<string, Option<real>>)
      requires Valid()
      modifies this
      ensures Snapshot() == Account.Mark(old(Snapshot()), prices) && Valid()
    {
      ghost var start := Snapshot();
      for i := 0 to |positions|
        invariant |positions| == |start.book| && Snapshot() == start.(book := positions)
        invariant forall j :: 0 <= j < i ==> positions[j] == MarkedPosition(start.book[j], prices)
        invariant forall j :: i <= j < |positions| ==> positions[j] == start.book[j]
      {
        var p := positions[i];
        if p.symbol in prices {
          var price := Price(prices[p.symbol]);
          if price.Some? {
            positions := positions[i := p.(lastPrice := price.value)];
          }
        }
      }
      MarkKeepsValid(profile, start, prices);
    }
  }

  // ---- one turn of each loop ----

  lemma {:induction false} RunningTotalOnlyScales(rest: seq<Lot>, income: real, oldRule: bool, held: int, other: int)
    ensures SettledFrom(rest, income, None, oldRule, held) == SettledFrom(rest, income, None, oldRule, other)
  {
    if rest == [] {
    } else {
      RunningTotalOnlyScales(rest[1..], income, oldRule, held + rest[0].quantity, other + rest[0].quantity);
    }
  }

  lemma NothingLeftToSettle(rest: seq<Lot>, income: real, ratio: Option<real>, oldRule: bool, held: int)
    requires rest == []
    ensures KeptOf(SettledFrom(rest, income, ratio, oldRule, held)) == []
  {}

  lemma KeptOneByOne(rest: seq<Lot>, income: real, ratio: Option<real>, oldRule: bool, held: int)
    requires rest != []
    ensures var head := Credited(rest[0], income, oldRule).(quantity := Resized(held, rest[0].quantity, ratio));
            KeptOf(SettledFrom(rest, income, ratio, oldRule, held))
            == (if head.quantity > 0 then [head] else [])
               + KeptOf(SettledFrom(rest[1..], income, ratio, oldRule, held + rest[0].quantity))
  {
    var settled := SettledFrom(rest, income, ratio, oldRule, held);
    assert settled[1..] == SettledFrom(rest[1..], income, ratio, oldRule, held + rest[0].quantity);
  }

  /** Releasing `quantity` shares of `lots` comes to `tax` and releasing `left` shares of the queue. */
  predicate StillToRelease(lots: seq<Lot>, quantity: nat, day: Day, queue: seq<Lot>, left: nat, tax: real)
  {
    match LotRelease.ReleaseLots(queue, left, day)
    case Refused => LotRelease.ReleaseLots(lots, quantity, day).Refused?
    case Released(due, rest) => LotRelease.ReleaseLots(lots, quantity, day) == Released(tax + due, rest)
  }

  lemma ReleaseStarts(lots: seq<Lot>, quantity: nat, day: Day)
    ensures StillToRelease(lots, quantity, day, lots, quantity, 0.0)
  {
    hide LotRelease.ReleaseLots;
  }

  lemma ReleaseEnds(lots: seq<Lot>, quantity: nat, day: Day, queue: seq<Lot>, tax: real)
    requires StillToRelease(lots, quantity, day, queue, 0, tax)
    ensures LotRelease.ReleaseLots(lots, quantity, day) == Released(tax, queue)
  {}

  /** Each turn takes from the head, and stops where the whole release would. */
  lemma ReleaseStep(lots: seq<Lot>, quantity: nat, day: Day, queue: seq<Lot>, left: nat, tax: real)
    requires left > 0 && StillToRelease(lots, quantity, day, queue, left, tax)
    ensures if queue == [] || queue[0].quantity <= 0 then LotRelease.ReleaseLots(lots, quantity, day).Refused?
            else
              var taken := Taken(queue[0], left);
              match Due(queue[0].acquired, day, Part(queue[0].incomeOld, taken, queue[0]),
                        Part(queue[0].incomeNew, taken, queue[0]))
              case None => LotRelease.ReleaseLots(lots, quantity, day).Refused?
              case Some(due) =>
                var rest := if taken == queue[0].quantity then queue[1..]
                    else [Remainder(queue[0], taken)] + queue[1..];
                StillToRelease(lots, quantity, day, rest, left - taken, tax + due)
  {
    hide Due;
    hide Part;
  }
}
