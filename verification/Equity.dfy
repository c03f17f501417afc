/** What ex-dates do to the account's equity, marked at the last close before and at the day's
    reference price after. */
module Equity {
  import opened Options
  import opened Sums
  import opened Rounding
  import opened Calendar
  import opened LotRules
  import opened ExDate
  import opened Lots
  import opened OrderGates
  import opened Account
  import opened Ledger
  import opened Conservation

  function MarketValue(p: Position): real { p.quantity as real * p.lastPrice }

  function Equity(a: State): (equity: real)
  {
    a.cash + Sum(a.book, MarketValue)
  }

  function MarkMove(p: Position, pre: real): (move: real)
  {
    if PriceReset(p.lastPrice, pre) then pre - p.lastPrice else 0.0
  }

  /** What a holding whose shares are kept gains: its cash, and the move of its mark. */
  function KeptGain(p: Position, pre: real, cash: real): (gain: real)
  {
    p.quantity as real * (cash + MarkMove(p, pre))
  }

  /** The exact change one settlement makes, the withheld tax aside: nothing where shares change;
      otherwise the cash, and the move of the mark if the quote was reset. */
  lemma SettlementMovesEquity(profile: Profile, a: State, i: nat, bar: Bar, event: Distribution, terms: Terms)
    requires i < |a.book| && a.day.Some? && SoundPosition(a.book[i])
    requires PlanExDate(profile, a.book[i], bar, event) == Settle(terms) &&
            ApplyTerms(profile, a, i, event, terms).Done?
    ensures var change := Equity(ApplyTerms(profile, a, i, event, terms).value) + terms.withheld - Equity(a);
            && (terms.ratio.Some? ==> change == 0.0)
            && (terms.ratio.None? ==> change == KeptGain(a.book[i], terms.preClose, event.cashPerShare))
  {
    hide PlanExDate;
    hide ExDateShares;
    hide PriceReset;
    hide Equity;
    hide ApplyTerms;
    PlansAreSound(profile, a.book[i], bar, event);
    AppliedTermsMoveEquity(profile, a, i, event, terms);
    if terms.ratio.None? {
      KeptValue(a.book[i].quantity as real, event.cashPerShare, MarkMove(a.book[i], terms.preClose),
                a.book[i].lastPrice, terms.price);
    }
  }

  lemma AppliedTermsMoveEquity(profile: Profile, a: State, i: nat, event: Distribution, terms: Terms)
    requires i < |a.book| && a.day.Some? && terms.after > 0 && ApplyTerms(profile, a, i, event, terms).Done?
    ensures Equity(ApplyTerms(profile, a, i, event, terms).value) + terms.withheld - Equity(a)
            == terms.credit + terms.after as real * terms.price - a.book[i].quantity as real * a.book[i].lastPrice
  {
    hide SettleLots;
    hide SettledPosition;
    hide Sum;
    SettledValue(a.book[i], terms);
    SumUpdate(a.book, i, SettledPosition(a.book[i], terms), MarketValue);
  }

  lemma SettledValue(p: Position, terms: Terms)
    requires terms.after != 0
    ensures MarketValue(SettledPosition(p, terms)) == terms.after as real * terms.price
  {}

  lemma KeptValue(q: real, cash: real, move: real, last: real, price: real)
    requires price == last + move
    ensures q * cash + q * price - q * last == q * (cash + move)
  {}

  /** The most one recorded settlement may cost: half a tick and the rounding, on every share kept. */
  function SlackOf(c: CorporateAction): (slack: real)
  {
    if c.quantityAfter == c.quantityBefore then c.quantityBefore as real * 0.0050005 else 0.0
  }

  lemma KeptSharesCostAtMostHalfATick(p: Position, pre: real, cash: real)
    requires p.quantity > 0 && pre > 0.0 && cash >= 0.0 && ShareMultiplier(p.lastPrice, pre, cash).NoShareChange?
    ensures KeptGain(p, pre, cash) >= -(p.quantity as real * 0.0050005)
  {
    hide MarkMove;
    hide ShareMultiplier;
    MoveAndCashLoseAtMostHalfATick(p, pre, cash);
    BoundedBelow(p.quantity as real, cash + MarkMove(p, pre), 0.0050005);
  }

  lemma MoveAndCashLoseAtMostHalfATick(p: Position, pre: real, cash: real)
    requires pre > 0.0 && cash >= 0.0 && ShareMultiplier(p.lastPrice, pre, cash).NoShareChange?
    ensures cash + MarkMove(p, pre) >= -0.0050005
  {
    KeptSharesHideAtMostHalfATick(p.lastPrice, pre, cash);
    hide ShareMultiplier;
    hide PriceReset;
    assert HALF_TICK + 0.0000005 == 0.0050005;
  }

  lemma BoundedBelow(q: real, x: real, slack: real)
    requires q >= 0.0 && x >= -slack
    ensures q * x >= -(q * slack)
  {
    assert q * (x + slack) >= 0.0;
  }

  /** One position entering a day: before tax, it loses no more than its slack. */
  lemma OpenPositionKeepsEquity(profile: Profile, a: State, i: nat, bars: map<string, Bar>, feed: Feed)
    requires i < |a.book| && a.day.Some? && SoundPosition(a.book[i]) && OpenPosition(profile, a, i, bars, feed).Done?
    ensures var b := OpenPosition(profile, a, i, bars, feed).value;
            && Equity(b) + Sum(b.actions, WithheldOf) - Sum(a.actions, WithheldOf)
               >= Equity(a) - (Sum(b.actions, SlackOf) - Sum(a.actions, SlackOf))
            && a.actions <= b.actions
  {
    hide PlanExDate;
    hide ApplyTerms;
    hide ShareMultiplier;
    hide KeptGain;
    hide ExDateShares;
    hide Sum;
    var u, symbol := Unlock(a, i), a.book[i].symbol;
    SumUpdate(a.book, i, u.book[i], MarketValue);
    assert Equity(u) == Equity(a);
    if symbol in bars && PlanExDate(profile, u.book[i], bars[symbol], EventFor(feed, symbol)).Settle? {
      hide Equity;
      var bar, event := bars[symbol], EventFor(feed, symbol);
      var terms := PlanExDate(profile, u.book[i], bar, event).terms;
      PlansAreSound(profile, u.book[i], bar, event);
      SettlementMovesEquity(profile, u, i, bar, event, terms);
      AppliedTermsAreRecorded(profile, u, i, event, terms);
      if terms.ratio.None? {
        KeptSharesCostAtMostHalfATick(u.book[i], terms.preClose, event.cashPerShare);
      }
    }
  }

  lemma AppliedTermsAreRecorded(profile: Profile, a: State, i: nat, event: Distribution, terms: Terms)
    requires i < |a.book| && a.day.Some? && terms.after != 0 && ApplyTerms(profile, a, i, event, terms).Done?
    requires a.book[i].quantity > 0
    ensures var b := ApplyTerms(profile, a, i, event, terms).value;
            && a.actions <= b.actions
            && Sum(b.actions, WithheldOf) == Sum(a.actions, WithheldOf) + terms.withheld
            && Sum(b.actions, SlackOf) >= Sum(a.actions, SlackOf)
            && (terms.after == a.book[i].quantity ==>
                Sum(b.actions, SlackOf) == Sum(a.actions, SlackOf) + a.book[i].quantity as real * 0.0050005)
  {
    hide SettleLots;
    hide SettledPosition;
    hide Sum;
    var c := ApplyTerms(profile, a, i, event, terms).value.actions[|a.actions|];
    SumAppend(a.actions, c, WithheldOf);
    SumAppend(a.actions, c, SlackOf);
  }

  lemma {:induction false} OpenFromKeepsEquity(profile: Profile, a: State, i: nat, bars: map<string, Bar>, feed: Feed)
    requires Valid(profile, a) && i <= |a.book| && a.day.Some? && OpenFrom(profile, a, i, bars, feed).Done?
    ensures var b := OpenFrom(profile, a, i, bars, feed).value;
            && Equity(b) + Sum(b.actions, WithheldOf) - Sum(a.actions, WithheldOf)
               >= Equity(a) - (Sum(b.actions, SlackOf) - Sum(a.actions, SlackOf))
            && a.actions <= b.actions
    decreases |a.book| - i
  {
    hide OpenPosition;
    hide LotsBackTheBook;
    hide Equity;
    hide Sum;
    hide BoardOf;
    if i == |a.book| {
    } else {
      OpenPositionKeepsEquity(profile, a, i, bars, feed);
      OpenPositionKeepsValid(profile, a, i, bars, feed);
      OpenFromKeepsEquity(profile, OpenPosition(profile, a, i, bars, feed).value, i + 1, bars, feed);
    }
  }

  /** A whole day's ex-dates: with the tax withheld that day added back, the account loses at most
      half a tick, and the rounding, on the shares whose count the day kept. */
  lemma OpeningADayKeepsEquity(profile: Profile, a: State, day: Day, bars: map<string, Bar>, feed: Feed)
    requires Valid(profile, a) && OpenDay(profile, a, day, bars, feed).Done?
    ensures var b := OpenDay(profile, a, day, bars, feed).value;
            && a.actions <= b.actions
            && Equity(b) + Sum(b.actions[|a.actions|..], WithheldOf)
               >= Equity(a) - Sum(b.actions[|a.actions|..], SlackOf)
  {
    hide OpenFrom;
    hide Equity;
    hide Sum;
    hide BoardOf;
    var b := OpenDay(profile, a, day, bars, feed).value;
    if a.day != Some(day) {
      var c := a.(day := Some(day));
      EquityIgnoresTheDay(a, day);
      OpenFromKeepsEquity(profile, c, 0, bars, feed);
    }
    assert b.actions == a.actions + b.actions[|a.actions|..];
    SumConcat(a.actions, b.actions[|a.actions|..], WithheldOf);
    SumConcat(a.actions, b.actions[|a.actions|..], SlackOf);
  }

  lemma EquityIgnoresTheDay(a: State, day: Day)
    ensures Equity(a.(day := Some(day))) == Equity(a)
  {}

  /** Above, the same slack bounds a settlement's gain before tax exactly when the cash and the move of
      the mark together are within it, share for share; where shares change there is no gain at all. */
  lemma SettlementGainsAtMostTheSlackExactlyWhen(profile: Profile, a: State, i: nat, bar: Bar, event: Distribution,
                                                 terms: Terms)
    requires i < |a.book| && a.day.Some? && SoundPosition(a.book[i])
    requires PlanExDate(profile, a.book[i], bar, event) == Settle(terms) &&
            ApplyTerms(profile, a, i, event, terms).Done?
    ensures var gain, q := Equity(ApplyTerms(profile, a, i, event, terms).value) + terms.withheld - Equity(a),
            a.book[i].quantity as real;
            gain <= q * 0.0050005 <==>
            terms.ratio.Some? || event.cashPerShare + MarkMove(a.book[i], terms.preClose) <= 0.0050005
  {
    hide PlanExDate;
    hide ApplyTerms;
    hide Equity;
    hide MarkMove;
    SettlementMovesEquity(profile, a, i, bar, event, terms);
    ScaledComparison(a.book[i].quantity as real, event.cashPerShare + MarkMove(a.book[i], terms.preClose), 0.0050005);
  }

  lemma ScaledComparison(q: real, x: real, y: real)
    requires q > 0.0
    ensures q * x <= q * y <==> x <= y
    ensures y >= 0.0 ==> q * y >= 0.0
  {
    if x <= y {
      assert q * (y - x) >= 0.0;
    } else {
      assert q * (x - y) > 0.0;
    }
  }

  /** A reference price that rises on a cash ex-date changes no share count. */
  lemma ARiseOnACashExDateKeepsTheShares(lastClose: real, preClose: real, cashPerShare: real)
    requires preClose > lastClose > cashPerShare > 0.0
    ensures ShareMultiplier(lastClose, preClose, cashPerShare) == NoShareChange
  {
    Round6IsMonotone(lastClose - cashPerShare - preClose, 0.0);
    Round6FixesIntegers(0);
    QuotientIsPositive(lastClose - cashPerShare, preClose);
  }

  /** The condition can fail: where the reference price rises by more than a tick's worth on a cash ex-date,
      the settlement goes through and the cash and the whole rise stay in the equity. */
  lemma ARiseOnACashExDateGainsMoreThanTheSlack(profile: Profile, a: State, i: nat, bar: Bar, event: Distribution)
    requires i < |a.book| && a.day.Some? && SoundPosition(a.book[i]) && !profile.dividendTax && a.cash >= 0.0
    requires bar.preClose.Some? && bar.preClose.value > a.book[i].lastPrice + 0.006
    requires a.book[i].lastPrice > event.cashPerShare > 0.006
    requires event.bonusPerShare.None? || event.bonusPerShare.value >= 0.0
    ensures SettleExDate(profile, a, i, bar, event).Done?
    ensures Equity(SettleExDate(profile, a, i, bar, event).value) - Equity(a) > a.book[i].quantity as real * 0.0050005
  {
    hide Equity;
    hide ApplyTerms;
    hide PlanExDate;
    var p := a.book[i];
    var terms := KeptTerms(p, bar.preClose.value, event.cashPerShare);
    PlansARise(profile, p, bar, event);
    CoveredTermsApply(profile, a, i, event, terms);
    SettlementGainsAtMostTheSlackExactlyWhen(profile, a, i, bar, event, terms);
    RiseIsAReset(p.lastPrice, terms.preClose);
    hide PriceReset;
  }

  /** The plan of a cash ex-date that keeps the shares and resets the quote, untaxed. */
  function KeptTerms(p: Position, pre: real, cash: real): (terms: Terms)
  {
    Terms(None, cash, None, 0.0, p.quantity, p.quantity as real * cash, pre, pre)
  }

  lemma PlansARise(profile: Profile, p: Position, bar: Bar, event: Distribution)
    requires SoundPosition(p) && !profile.dividendTax
    requires bar.preClose.Some? && bar.preClose.value > p.lastPrice + 0.006
    requires p.lastPrice > event.cashPerShare > 0.006
    requires event.bonusPerShare.None? || event.bonusPerShare.value >= 0.0
    ensures PlanExDate(profile, p, bar, event) == Settle(KeptTerms(p, bar.preClose.value, event.cashPerShare))
  {
    ARiseOnACashExDateKeepsTheShares(p.lastPrice, bar.preClose.value, event.cashPerShare);
    RiseIsAReset(p.lastPrice, bar.preClose.value);
    hide ShareMultiplier;
    hide PriceReset;
    hide ExDateShares;
  }

  lemma RiseIsAReset(lastClose: real, preClose: real)
    requires preClose > lastClose + 0.006
    ensures PriceReset(lastClose, preClose)
  {
    Round6IsNear(preClose - lastClose);
  }

  lemma CoveredTermsApply(profile: Profile, a: State, i: nat, event: Distribution, terms: Terms)
    requires i < |a.book| && a.day.Some? && !profile.dividendTax && terms.after != 0 && terms.withheld == 0.0
    requires a.cash >= 0.0 && event.cashPerShare >= 0.0 && a.book[i].quantity > 0
    requires terms.credit == a.book[i].quantity as real * event.cashPerShare
    ensures ApplyTerms(profile, a, i, event, terms).Done?
  {
    assert terms.credit >= 0.0;
  }

  lemma QuotientIsPositive(x: real, y: real)
    requires x > 0.0 && y > 0.0
    ensures x / y > 0.0
  {}
}
