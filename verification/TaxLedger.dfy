/** Dividend tax, step by step: an ex-date withholds 5% of the old-rule income it credits, and a sale pays
    its shares' final tax less that 5%. */
module TaxLedger {
  import opened Options
  import opened Sums
  import opened DividendTax
  import opened LotRules
  import opened Lots
  import opened LotRelease
  import opened OrderGates
  import opened Account
  import opened Ledger
  import opened OrderSteps
  import opened Conservation
  import opened IncomeLedger

  function TaxOf(e: Execution): real { e.dividendTax }

  /** Every tax the account has paid, at ex-dates and at sales. */
  function TaxPaid(a: State): (tax: real)
  {
    Sum(a.actions, WithheldOf) + Sum(a.executions, TaxOf)
  }

  // ---- ex-dates ----

  /** The withholding is 5% of what the lots are credited, because the lots add up to the position. */
  lemma WithholdingIsOnTheCredit(profile: Profile, a: State, i: nat, terms: Terms)
    requires Valid(profile, a) && i < |a.book| && (terms.rule.Some? ==> profile.dividendTax)
    requires terms.withheld ==
             if terms.rule == Some(OldRule) then 0.05 * Payment(a.book[i].quantity, terms.incomePerShare) else 0.0
    ensures terms.withheld == 0.05 * FlowAt(profile, a, i, terms, OldRule).credited
  {
    hide SettledFrom;
    hide DroppedOf;
    hide IncomeOn;
    hide Payment;
    hide BoardOf;
    if profile.dividendTax && terms.rule == Some(OldRule) {
      assert SoundLots(a.lots[a.book[i].symbol], a.book[i].quantity);
    }
  }

  lemma ApplyWithholdsOnTheCredit(profile: Profile, a: State, i: nat, event: Distribution, terms: Terms)
    requires Valid(profile, a) && i < |a.book| && a.day.Some? && terms.after > 0
    requires terms.withheld ==
             if terms.rule == Some(OldRule) then 0.05 * Payment(a.book[i].quantity, terms.incomePerShare) else 0.0
    requires terms.rule.Some? ==> profile.dividendTax
    requires ApplyTerms(profile, a, i, event, terms).Done?
    ensures TaxPaid(ApplyTerms(profile, a, i, event, terms).value)
            == TaxPaid(a) + 0.05 * FlowAt(profile, a, i, terms, OldRule).credited
  {
    hide FlowAt;
    hide ApplyTerms;
    hide Payment;
    WithholdingIsOnTheCredit(profile, a, i, terms);
    ApplyPaysTheWithholding(profile, a, i, event, terms);
  }

  lemma ApplyPaysTheWithholding(profile: Profile, a: State, i: nat, event: Distribution, terms: Terms)
    requires i < |a.book| && a.day.Some? && terms.after > 0 && ApplyTerms(profile, a, i, event, terms).Done?
    ensures TaxPaid(ApplyTerms(profile, a, i, event, terms).value) == TaxPaid(a) + terms.withheld
  {
    hide SettledPosition;
    hide SettleLots;
    hide Sum;
    SumAppend(a.actions, ApplyTerms(profile, a, i, event, terms).value.actions[|a.actions|], WithheldOf);
  }

  lemma OpenPositionWithholds(profile: Profile, a: State, i: nat, bars: map<string, Bar>, feed: Feed)
    requires Valid(profile, a) && i < |a.book| && a.day.Some? && OpenPosition(profile, a, i, bars, feed).Done?
    ensures TaxPaid(OpenPosition(profile, a, i, bars, feed).value)
            == TaxPaid(a) + 0.05 * FlowOpening(profile, a, i, bars, feed, OldRule).credited
  {
    hide PlanExDate;
    hide ApplyTerms;
    hide FlowAt;
    hide Payment;
    hide LotsBackTheBook;
    hide BoardOf;
    var u, symbol := Unlock(a, i), a.book[i].symbol;
    UnlockKeepsValid(profile, a, i);
    if symbol in bars && PlanExDate(profile, u.book[i], bars[symbol], EventFor(feed, symbol)).Settle? {
      var event := EventFor(feed, symbol);
      PlansAreSound(profile, u.book[i], bars[symbol], event);
      ApplyWithholdsOnTheCredit(profile, u, i, event, PlanExDate(profile, u.book[i], bars[symbol], event).terms);
    }
  }

  lemma {:induction false} OpenFromWithholds(profile: Profile, a: State, i: nat, bars: map<string, Bar>, feed: Feed)
    requires Valid(profile, a) && i <= |a.book| && a.day.Some? && OpenFrom(profile, a, i, bars, feed).Done?
    ensures TaxPaid(OpenFrom(profile, a, i, bars, feed).value)
            == TaxPaid(a) + 0.05 * FlowFrom(profile, a, i, bars, feed, OldRule).credited
    decreases |a.book| - i
  {
    hide OpenPosition;
    hide FlowOpening;
    hide TaxPaid;
    hide LotsBackTheBook;
    hide BoardOf;
    if i == |a.book| {
    } else {
      OpenPositionWithholds(profile, a, i, bars, feed);
      OpenPositionKeepsValid(profile, a, i, bars, feed);
      OpenFromWithholds(profile, OpenPosition(profile, a, i, bars, feed).value, i + 1, bars, feed);
    }
  }

  // ---- orders ----

  lemma RejectionPaysNoTax(a: State, order: Order, reason: Reject)
    ensures TaxPaid(Rejected(a, order, reason)) == TaxPaid(a)
  {
    SumAppend(a.executions, Rejected(a, order, reason).executions[|a.executions|], TaxOf);
  }

  lemma BuyPaysNoTax(profile: Profile, a: State, order: Order, price: real)
    requires a.day.Some? && forall j :: 0 <= j < |a.book| ==> a.book[j].quantity > 0
    ensures TaxPaid(BuyShares(profile, a, order, price)) == TaxPaid(a)
  {
    hide BoughtPosition;
    hide RequiredCash;
    SumAppend(a.executions, BuyShares(profile, a, order, price).executions[|a.executions|], TaxOf);
  }

  /** A sale pays the final tax of the single shares it takes, less the 5% their old income has paid. */
  lemma SalePaysTheFinalTax(profile: Profile, a: State, order: Order, price: real)
    requires Valid(profile, a) && SellableIsOlder(profile, a) && SaleAdmitted(a, order)
    requires ReleaseFor(profile, a, order).Done?
    ensures var sold := SoldShares(profile, a, order);
            TaxPaid(SoldState(profile, a, order, price, ReleaseFor(profile, a, order).value))
            == TaxPaid(a) + SharesFinalTax(sold, a.day.value) - 0.05 * SharesIncome(sold, OldRule)
  {
    hide Notional;
    hide BoardOf;
    hide ReleaseLots;
    hide Sum;
    hide Shares;
    hide SoldBook;
    var b := SoldState(profile, a, order, price, ReleaseFor(profile, a, order).value);
    SumAppend(a.executions, b.executions[|a.executions|], TaxOf);
    if profile.dividendTax {
      ReleaseCompletesTheFinalTax(a.lots[order.symbol], order.quantity, a.day.value);
    }
  }

  /** What one order adds to the final-rate tax: something only if it fills a sale. */
  function FinalTaxOfOrder(profile: Profile, a: State, order: Order, bar: Option<Bar>, raw: Option<real>): (tax: real)
  {
    if FillsSale(profile, a, order, bar, raw) &&
        a.day.Some? then SharesFinalTax(SoldShares(profile, a, order), a.day.value)
    else 0.0
  }

  lemma ExecutePaysTheFinalTax(profile: Profile, a: State, order: Order, bar: Option<Bar>, raw: Option<real>)
    requires Valid(profile, a) && SellableIsOlder(profile, a) && Execute(profile, a, order, bar, raw).Done?
    ensures TaxPaid(Execute(profile, a, order, bar, raw).value)
            == TaxPaid(a) + FinalTaxOfOrder(profile, a, order, bar, raw)
               - 0.05 * FlowOfOrder(profile, a, order, bar, raw, OldRule).released
  {
    hide FillPrice;
    hide RejectReason;
    hide ReleaseFor;
    hide SoldState;
    hide BuyShares;
    hide Rejected;
    hide TaxPaid;
    hide LotsBackTheBook;
    hide SellableIsOlder;
    hide SoldShares;
    hide SharesIncome;
    hide SharesFinalTax;
    match RejectReason(profile, a, order, bar, raw)
    case Some(reason) => RejectionPaysNoTax(a, order, reason);
    case None =>
      match FillPrice(profile, order, bar.value, raw.value)
      case NotFilled(reason) => RejectionPaysNoTax(a, order, reason);
      case FilledAt(price) =>
        if order.action.Buy? {
          BuyPaysNoTax(profile, a, order, price);
        } else {
          SalePaysTheFinalTax(profile, a, order, price);
        }
  }
}
