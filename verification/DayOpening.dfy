/** Entering a day, in the words of its feed and its bars: what each held name is paid, how its shares and
    its mark move, and what is recorded of it. */
module DayOpening {
  import opened Options
  import opened Sums
  import opened Calendar
  import opened DividendTax
  import opened LotRules
  import opened ExDate
  import opened Lots
  import opened LotRelease
  import opened OrderGates
  import opened Account
  import opened Ledger
  import opened Conservation

  /** What the day's feed declares of a name: its distribution, or its cash per share, or nothing. */
  predicate Declares(feed: Feed, symbol: string, event: Distribution)
  {
    && (feed.distributions.Some? && symbol in feed.distributions.value ==> event == feed.distributions.value[symbol])
    && (!(feed.distributions.Some? && symbol in feed.distributions.value) ==>
          event.bonusPerShare == Some(0.0) && event.recordDate.None?)
    && (feed.distributions.None? && feed.cashDividends.Some? && symbol in feed.cashDividends.value ==>
          event.cashPerShare == feed.cashDividends.value[symbol])
    && ((feed.distributions.Some? ==> symbol !in feed.distributions.value)
        && (feed.cashDividends.Some? ==> feed.distributions.Some? || symbol !in feed.cashDividends.value)
        ==> event.cashPerShare == 0.0)
  }

  lemma EventForIsDeclared(feed: Feed, symbol: string, event: Distribution)
    ensures Declares(feed, symbol, event) <==> event == EventFor(feed, symbol)
  {}

  function BonusOf(event: Distribution): (bonus: real)
  {
    if event.bonusPerShare.Some? then event.bonusPerShare.value else 0.0
  }

  /** The dividend's record date puts it under the old rule. */
  predicate OldDated(event: Distribution)
  {
    event.recordDate.Some? && ParseDay(event.recordDate.value).Some?
    && ParseDay(event.recordDate.value).value.Rank() < Date(2015, 9, 8).Rank()
  }

  predicate DatedSince2013(event: Distribution)
  {
    event.recordDate.Some? && ParseDay(event.recordDate.value).Some?
    && ParseDay(event.recordDate.value).value.year >= 2013
  }

  /** The taxable income of one share: its cash, and the bonus shares where the count changes. */
  function IncomeOf(last: real, pre: real, event: Distribution): (income: real)
  {
    event.cashPerShare + if Splits(last, pre, event.cashPerShare) then BonusOf(event) else 0.0
  }

  function CreditOf(p: Position, pre: real, event: Distribution, after: int): (credit: real)
  {
    if Splits(p.lastPrice, pre, event.cashPerShare)
    then p.quantity as real * p.lastPrice - after as real * pre
    else p.quantity as real * event.cashPerShare
  }

  function WithholdingOf(profile: Profile, p: Position, pre: real, event: Distribution): (withheld: real)
  {
    if profile.dividendTax && OldDated(event) then 0.05 * (p.quantity as real * IncomeOf(p.lastPrice, pre, event))
    else 0.0
  }

  /** Something happens on the ex-date: cash is paid or the share count changes. */
  predicate Settles(p: Position, pre: real, event: Distribution)
  {
    event.cashPerShare > 0.0 || Splits(p.lastPrice, pre, event.cashPerShare)
  }

  /** The whole shares a position has after the ex-date. */
  predicate SharesAfter(p: Position, pre: real, event: Distribution, after: int)
  {
    if Splits(p.lastPrice, pre, event.cashPerShare)
    then WholeShares(p.quantity, p.lastPrice, pre, event.cashPerShare, after)
    else after == p.quantity
  }

  /** What one ex-date makes of a position, and the one record it leaves, if any. */
  ghost predicate PaidOut(profile: Profile, p: Position, q: Position, pre: real, event: Distribution,
                          recorded: seq<CorporateAction>, day: Day)
  {
    && SharesAfter(p, pre, event, q.quantity)
    && q.available == Min(p.quantity, q.quantity)
    && q.lastPrice == (if Moved(p.lastPrice, pre) then pre else p.lastPrice)
    && q.averageCost * q.quantity as real
       == p.averageCost * p.quantity as real - CreditOf(p, pre, event, q.quantity)
    && recorded == if !Settles(p, pre, event) then [] else
         [CorporateAction(day, p.symbol, p.lastPrice, pre, event.cashPerShare, p.quantity, q.quantity,
                          CreditOf(p, pre, event, q.quantity), WithholdingOf(profile, p, pre, event))]
  }

  /** Everything an ex-date asks before the books move. */
  ghost predicate Acceptable(profile: Profile, p: Position, bar: Bar, event: Distribution)
  {
    && bar.preClose.Some? && bar.preClose.value > 0.0
    && (profile.dividendTax ==> event.bonusPerShare.Some?)
    && event.cashPerShare >= 0.0 && BonusOf(event) >= 0.0
    && (Moved(p.lastPrice, bar.preClose.value) ==> p.lastPrice > event.cashPerShare)
    && (profile.dividendTax && IncomeOf(p.lastPrice, bar.preClose.value, event) > 0.0 ==> DatedSince2013(event))
    && (Splits(p.lastPrice, bar.preClose.value, event.cashPerShare) ==>
          p.quantity as real * (p.lastPrice - event.cashPerShare) >= (1.0 - 0.0000005) * bar.preClose.value)
  }

  // ---- one position ----

  lemma RuleIsDated(event: Distribution)
    ensures var text := if event.recordDate.Some? then event.recordDate.value else "";
            && (RuleFor(text).Some? <==> DatedSince2013(event))
            && (RuleFor(text).Some? ==> (RuleFor(text).value == OldRule <==> OldDated(event)))
  {
    hide TextBefore;
    if event.recordDate.Some? && ParseDay(event.recordDate.value).Some? {
      RuleFollowsTheCalendar(event.recordDate.value);
    }
    hide Number;
  }

  /** The terms of a planned ex-date are the ones its own numbers give. */
  ghost predicate TermsFit(profile: Profile, p: Position, pre: real, event: Distribution, terms: Terms)
  {
    && (terms.ratio.Some? <==> Splits(p.lastPrice, pre, event.cashPerShare))
    && (terms.ratio.Some? ==> terms.ratio.value > 0.0 && terms.ratio.value * pre == p.lastPrice - event.cashPerShare)
    && terms.incomePerShare == IncomeOf(p.lastPrice, pre, event)
    && (terms.rule == Some(OldRule) <==> profile.dividendTax && terms.incomePerShare != 0.0 && OldDated(event))
    && terms.withheld == WithholdingOf(profile, p, pre, event)
    && SharesAfter(p, pre, event, terms.after) && terms.after > 0
    && terms.credit == CreditOf(p, pre, event, terms.after)
    && terms.price == (if Moved(p.lastPrice, pre) then pre else p.lastPrice)
    && terms.preClose == pre
  }

  lemma ScaledShares(p: Position, pre: real, cash: real, ratio: real)
    requires pre > 0.0 && ratio * pre == p.lastPrice - cash
    ensures WholeShares(p.quantity, p.lastPrice, pre, cash, ExDateShares(p.quantity, ratio))
    ensures ExDateShares(p.quantity, ratio) >= 1 <==>
              p.quantity as real * (p.lastPrice - cash) >= (1.0 - 0.0000005) * pre
  {
    SharesAreTheWholeOnes(p.quantity, p.lastPrice, pre, cash, ratio, ExDateShares(p.quantity, ratio));
    SharesAreTheWholeOnes(p.quantity, p.lastPrice, pre, cash, ratio, 1);
    hide WholeShares;
    hide ExDateShares;
  }

  /** What a taxed income is withheld at, and refused for. */
  lemma PlanWithMultiplierExactly(profile: Profile, p: Position, pre: real, event: Distribution, m: Multiplier)
    requires SoundPosition(p) && pre > 0.0 && event.cashPerShare >= 0.0 && BonusOf(event) >= 0.0 && !m.InvalidRatio?
    requires m.Scaled? <==> Splits(p.lastPrice, pre, event.cashPerShare)
    requires m.Scaled? ==> m.ratio > 0.0 && m.ratio * pre == p.lastPrice - event.cashPerShare
    ensures var plan := PlanWithMultiplier(profile, p, pre, event, BonusOf(event), m);
            && (plan.Refuse? <==>
                  || (profile.dividendTax && IncomeOf(p.lastPrice, pre, event) > 0.0 && !DatedSince2013(event))
                  || (m.Scaled? && ExDateShares(p.quantity, m.ratio) < 1))
            && (!plan.Refuse? ==> (plan.Settle? <==> Settles(p, pre, event)))
            && (plan.Settle? ==>
                  && plan.terms.ratio == (if m.Scaled? then Some(m.ratio) else None)
                  && plan.terms.incomePerShare == IncomeOf(p.lastPrice, pre, event)
                  && (plan.terms.rule == Some(OldRule) <==>
                        profile.dividendTax && plan.terms.incomePerShare != 0.0 && OldDated(event))
                  && plan.terms.withheld == WithholdingOf(profile, p, pre, event)
                  && plan.terms.after == (if m.Scaled? then ExDateShares(p.quantity, m.ratio) else p.quantity)
                  && plan.terms.credit == CreditOf(p, pre, event, plan.terms.after)
                  && plan.terms.price == (if m.Scaled? || PriceReset(p.lastPrice, pre) then pre else p.lastPrice)
                  && plan.terms.preClose == pre)
  {
    hide RuleFor;
    hide OldDated;
    hide DatedSince2013;
    hide ExDateShares;
    hide PriceReset;
    hide Splits;
    RuleIsDated(event);
    var income := IncomeOf(p.lastPrice, pre, event);
    WithheldAtTheRate(p.quantity, income);
  }

  lemma WithheldAtTheRate(quantity: int, income: real)
    ensures Payment(quantity, income) * Rule.OldRule.WithholdingRate() == 0.05 * (quantity as real * income)
    ensures Payment(quantity, income) * Rule.NewRule.WithholdingRate() == 0.0
    ensures income == 0.0 ==> quantity as real * income == 0.0
  {}

  lemma PlanExactly(profile: Profile, p: Position, bar: Bar, event: Distribution)
    requires SoundPosition(p)
    ensures var plan := PlanExDate(profile, p, bar, event);
            && (plan.Refuse? <==> !Acceptable(profile, p, bar, event))
            && (!plan.Refuse? ==> (plan.Settle? <==> Settles(p, bar.preClose.value, event)))
            && (plan.Settle? ==> TermsFit(profile, p, bar.preClose.value, event, plan.terms))
  {
    hide DatedSince2013;
    hide ShareMultiplier;
    hide ExDateShares;
    hide WholeShares;
    hide PlanWithMultiplier;
    hide WithholdingOf;
    hide CreditOf;
    hide IncomeOf;
    hide OldDated;
    if bar.preClose.Some? && bar.preClose.value > 0.0 && event.cashPerShare >= 0.0 {
      var pre, cash := bar.preClose.value, event.cashPerShare;
      ResetsExactlyWhen(p.lastPrice, pre);
      hide PriceReset;
      MultiplierExactlyWhen(p.lastPrice, pre, cash);
      hide Moved;
      var m := ShareMultiplier(p.lastPrice, pre, cash);
      if !m.InvalidRatio? && BonusOf(event) >= 0.0 {
        PlanWithMultiplierExactly(profile, p, pre, event, m);
        hide Settles;
        if m.Scaled? {
          ScaledShares(p, pre, cash, m.ratio);
        }
        hide Splits;
      }
    }
  }

  /** The lots an ex-date leaves a name: credited with the income on the base of its record date, and resized
      only where the share count changes. */
  function LotsAfter(profile: Profile, p: Position, lots: seq<Lot>, pre: real, event: Distribution): (after: seq<Lot>)
    requires pre > 0.0
  {
    if !profile.dividendTax || !Settles(p, pre, event) then lots
    else SettleLots(lots, IncomeOf(p.lastPrice, pre, event),
                    if Splits(p.lastPrice, pre, event.cashPerShare) then Some((p.lastPrice - event.cashPerShare) / pre)
                    else None,
                    IncomeOf(p.lastPrice, pre, event) != 0.0 && OldDated(event))
  }

  lemma TheRatioIsTheQuotient(ratio: real, pre: real, moved: real)
    requires pre > 0.0 && ratio * pre == moved
    ensures ratio == moved / pre
  {}

  lemma SettledPositionIsPaidOut(profile: Profile, p: Position, pre: real, event: Distribution, terms: Terms)
    requires SoundPosition(p) && pre > 0.0 && TermsFit(profile, p, pre, event, terms)
    ensures var u := p.(available := p.quantity);
            var q := SettledPosition(u, terms);
            && q.symbol == p.symbol && SharesAfter(p, pre, event, q.quantity)
            && q.available == Min(p.quantity, q.quantity)
            && q.lastPrice == (if Moved(p.lastPrice, pre) then pre else p.lastPrice)
            && q.averageCost * q.quantity as real
               == p.averageCost * p.quantity as real - CreditOf(p, pre, event, q.quantity)
  {
    hide Splits;
    hide Moved;
    hide WholeShares;
    hide CreditOf;
    hide IncomeOf;
    hide WithholdingOf;
    QuotientTimesDivisor(p.averageCost * p.quantity as real - terms.credit, terms.after);
  }

  lemma PlanIgnoresTheSellable(profile: Profile, p: Position, bar: Bar, event: Distribution, available: int)
    ensures PlanExDate(profile, p.(available := available), bar, event) == PlanExDate(profile, p, bar, event)
  {
    hide ShareMultiplier;
    hide ExDateShares;
    hide RuleFor;
    hide PriceReset;
  }

  lemma ApplyPaysOut(profile: Profile, a: State, i: nat, pre: real, event: Distribution, terms: Terms)
    requires i < |a.book| && a.day.Some? && SoundPosition(a.book[i]) && pre > 0.0
    requires TermsFit(profile, a.book[i], pre, event, terms) && Settles(a.book[i], pre, event)
    requires ApplyTerms(profile, Unlock(a, i), i, event, terms).Done?
    ensures var p, b := a.book[i], ApplyTerms(profile, Unlock(a, i), i, event, terms).value;
            && |b.book| == |a.book| && b.executions == a.executions && |b.actions| == |a.actions| + 1
            && b.actions[..|a.actions|] == a.actions
            && b.cash == a.cash + NetCreditOf(b.actions[|a.actions|])
            && PaidOut(profile, p, b.book[i], pre, event, [b.actions[|a.actions|]], a.day.value)
            && LotsOf(b, p.symbol) == LotsAfter(profile, p, LotsOf(a, p.symbol), pre, event)
            && (forall s :: s != p.symbol ==> LotsOf(b, s) == LotsOf(a, s))
  {
    SettledPositionIsPaidOut(profile, a.book[i], pre, event, terms);
    if terms.ratio.Some? {
      TheRatioIsTheQuotient(terms.ratio.value, pre, a.book[i].lastPrice - event.cashPerShare);
    }
    hide SettledPosition;
    hide SettleLots;
    hide Settles;
    hide Splits;
    hide Moved;
    hide SharesAfter;
    hide CreditOf;
    hide IncomeOf;
    hide WithholdingOf;
    hide OldDated;
  }

  /** A name's own records among these. */
  function RecordsOf(actions: seq<CorporateAction>, symbol: string): (own: seq<CorporateAction>)
  {
    if actions == [] then []
    else (if actions[0].symbol == symbol then [actions[0]] else []) + RecordsOf(actions[1..], symbol)
  }

  /** What entering the day makes of the position `p` that is number `j`, its lots and its records. */
  ghost predicate Opened(profile: Profile, a: State, b: State, p: Position, j: nat, bars: map<string, Bar>,
                         event: Distribution)
    requires b.day.Some?
  {
    && j < |b.book| && b.book[j].symbol == p.symbol && |a.actions| <= |b.actions|
    && var recorded := RecordsOf(b.actions[|a.actions|..], p.symbol);
       if p.symbol !in bars then
         b.book[j] == p.(available := p.quantity) && recorded == [] && LotsOf(b, p.symbol) == LotsOf(a, p.symbol)
       else
         && bars[p.symbol].preClose.Some? && bars[p.symbol].preClose.value > 0.0
         && var pre := bars[p.symbol].preClose.value;
            && PaidOut(profile, p, b.book[j], pre, event, recorded, b.day.value)
            && LotsOf(b, p.symbol) == LotsAfter(profile, p, LotsOf(a, p.symbol), pre, event)
  }

  /** Names but this one keep their positions, lots and records. */
  ghost predicate OnlyMoves(a: State, b: State, i: nat, symbol: string)
  {
    && |b.book| == |a.book| && a.actions <= b.actions && b.executions == a.executions && b.day == a.day
    && (forall j :: 0 <= j < |a.book| && j != i ==> b.book[j] == a.book[j])
    && (forall s :: s != symbol ==> LotsOf(b, s) == LotsOf(a, s) && RecordsOf(b.actions[|a.actions|..], s) == [])
  }

  /** One position entering a day: what its feed declares is what it gets. */
  lemma PositionIsPaidOut(profile: Profile, a: State, i: nat, bars: map<string, Bar>, feed: Feed, event: Distribution)
    requires i < |a.book| && a.day.Some? && SoundPosition(a.book[i])
    requires Declares(feed, a.book[i].symbol, event) && OpenPosition(profile, a, i, bars, feed).Done?
    ensures Opened(profile, a, OpenPosition(profile, a, i, bars, feed).value, a.book[i], i, bars, event)
    ensures var b := OpenPosition(profile, a, i, bars, feed).value;
            OnlyMoves(a, b, i, a.book[i].symbol) && b.cash == a.cash + Sum(b.actions[|a.actions|..], NetCreditOf)
  {
    EventForIsDeclared(feed, a.book[i].symbol, event);
    hide Declares;
    hide EventFor;
    var p, u := a.book[i], Unlock(a, i);
    if p.symbol in bars {
      var bar := bars[p.symbol];
      PlanIgnoresTheSellable(profile, p, bar, event, p.quantity);
      PlanExactly(profile, p, bar, event);
      var plan := PlanExDate(profile, p, bar, event);
      hide PlanExDate;
      assert Acceptable(profile, p, bar, event);
      if plan.Settle? {
        ApplyPaysOut(profile, a, i, bar.preClose.value, event, plan.terms);
        hide PaidOut;
        hide ApplyTerms;
        hide LotsAfter;
        var b := ApplyTerms(profile, u, i, event, plan.terms).value;
        assert b.actions[|a.actions|..] == [b.actions[|a.actions|]];
        OneRecord(b.actions[|a.actions|]);
      } else {
        NothingIsPaidOut(profile, p, bar, event, a.day.value);
        hide PaidOut;
      }
    }
  }

  lemma OneRecord(c: CorporateAction)
    ensures Sum([c], NetCreditOf) == NetCreditOf(c)
    ensures forall symbol :: RecordsOf([c], symbol) == if c.symbol == symbol then [c] else []
  {
    assert [c][1..] == [];
  }

  lemma NothingIsPaidOut(profile: Profile, p: Position, bar: Bar, event: Distribution, day: Day)
    requires Acceptable(profile, p, bar, event) && !Settles(p, bar.preClose.value, event)
    ensures PaidOut(profile, p, p.(available := p.quantity), bar.preClose.value, event, [], day)
  {
    assert event.cashPerShare == 0.0 && p.quantity as real * 0.0 == 0.0;
  }

  // ---- a whole day ----

  lemma {:induction false} RecordsConcat(x: seq<CorporateAction>, y: seq<CorporateAction>, symbol: string)
    ensures RecordsOf(x + y, symbol) == RecordsOf(x, symbol) + RecordsOf(y, symbol)
  {
    if x == [] {
      assert x + y == y;
    } else {
      assert (x + y)[1..] == x[1..] + y;
      RecordsConcat(x[1..], y, symbol);
    }
  }

  /** What two steps record is what the first and then the second do. */
  lemma RecordsOfTwoSteps(a: State, b: State, c: State, symbol: string)
    requires a.actions <= b.actions && b.actions <= c.actions
    ensures RecordsOf(c.actions[|a.actions|..], symbol)
            == RecordsOf(b.actions[|a.actions|..], symbol) + RecordsOf(c.actions[|b.actions|..], symbol)
    ensures Sum(c.actions[|a.actions|..], NetCreditOf)
            == Sum(b.actions[|a.actions|..], NetCreditOf) + Sum(c.actions[|b.actions|..], NetCreditOf)
  {
    assert c.actions[|a.actions|..] == b.actions[|a.actions|..] + c.actions[|b.actions|..];
    RecordsConcat(b.actions[|a.actions|..], c.actions[|b.actions|..], symbol);
    SumConcat(b.actions[|a.actions|..], c.actions[|b.actions|..], NetCreditOf);
  }

  lemma {:induction false} OpenFromPaysOut(profile: Profile, a: State, i: nat, bars: map<string, Bar>, feed: Feed,
                                           j: nat, event: Distribution)
    requires Valid(profile, a) && i <= |a.book| && a.day.Some? && OpenFrom(profile, a, i, bars, feed).Done?
    requires j < |a.book| && Declares(feed, a.book[j].symbol, event)
    ensures var b := OpenFrom(profile, a, i, bars, feed).value;
            && a.actions <= b.actions && b.executions == a.executions && b.day == a.day && |b.book| == |a.book|
            && b.cash == a.cash + Sum(b.actions[|a.actions|..], NetCreditOf)
            && (j < i ==> b.book[j] == a.book[j] && LotsOf(b, a.book[j].symbol) == LotsOf(a, a.book[j].symbol)
                          && RecordsOf(b.actions[|a.actions|..], a.book[j].symbol) == [])
            && (i <= j ==> Opened(profile, a, b, a.book[j], j, bars, event))
    decreases |a.book| - i
  {
    hide OpenPosition;
    hide LotsBackTheBook;
    hide BoardOf;
    hide Declares;
    hide RecordsOf;
    hide PaidOut;
    hide LotsAfter;
    hide LotsOf;
    if i == |a.book| {
      NoRecords(a, a.book[j].symbol);
    } else {
      var symbol := a.book[j].symbol;
      EventForIsDeclared(feed, a.book[i].symbol, EventFor(feed, a.book[i].symbol));
      EventForIsDeclared(feed, symbol, event);
      hide EventFor;
      PositionIsPaidOut(profile, a, i, bars, feed, EventFor(feed, a.book[i].symbol));
      OpenPositionKeepsValid(profile, a, i, bars, feed);
      var c := OpenPosition(profile, a, i, bars, feed).value;
      assert c.book[j].symbol == symbol;
      OpenFromPaysOut(profile, c, i + 1, bars, feed, j, event);
      var b := OpenFrom(profile, c, i + 1, bars, feed).value;
      hide OpenFrom;
      RecordsOfTwoSteps(a, c, b, symbol);
      if i <= j {
        OpenedInTwoSteps(profile, a, c, b, a.book[j], j, bars, event);
      }
    }
  }

  /** A name opened in one of two steps and left alone in the other is opened by both together. */
  lemma OpenedInTwoSteps(profile: Profile, a: State, c: State, b: State, p: Position, j: nat, bars: map<string, Bar>,
                         event: Distribution)
    requires a.actions <= c.actions <= b.actions && j < |c.book| == |b.book| && b.day == c.day && b.day.Some?
    requires || (Opened(profile, a, c, p, j, bars, event) && b.book[j] == c.book[j]
                 && LotsOf(b, p.symbol) == LotsOf(c, p.symbol) && RecordsOf(b.actions[|c.actions|..], p.symbol) == [])
             || (Opened(profile, c, b, p, j, bars, event)
                 && LotsOf(c, p.symbol) == LotsOf(a, p.symbol) && RecordsOf(c.actions[|a.actions|..], p.symbol) == [])
    ensures Opened(profile, a, b, p, j, bars, event)
  {
    hide RecordsOf;
    hide PaidOut;
    hide LotsAfter;
    hide LotsOf;
    RecordsOfTwoSteps(a, c, b, p.symbol);
    var first, second := RecordsOf(c.actions[|a.actions|..], p.symbol), RecordsOf(b.actions[|c.actions|..], p.symbol);
    assert first + [] == first && [] + second == second;
  }

  lemma NoRecords(a: State, symbol: string)
    ensures RecordsOf(a.actions[|a.actions|..], symbol) == [] && Sum(a.actions[|a.actions|..], NetCreditOf) == 0.0
  {}

  /** Entering a new day, name by name: a name without a bar is only unlocked; one with a bar is paid what the
      feed declares for it, its shares, cost and mark move as that distribution asks, its lots are credited
      with it, and one record says so exactly where cash is paid or shares change. */
  lemma ADayPaysWhatItsFeedDeclares(profile: Profile, a: State, day: Day, bars: map<string, Bar>, feed: Feed, j: nat,
                                    event: Distribution)
    requires Valid(profile, a) && a.day != Some(day) && OpenDay(profile, a, day, bars, feed).Done?
    requires j < |a.book| && Declares(feed, a.book[j].symbol, event)
    ensures var b := OpenDay(profile, a, day, bars, feed).value;
            && b.day == Some(day) && |b.book| == |a.book| && a.actions <= b.actions && b.executions == a.executions
            && b.cash == a.cash + Sum(b.actions[|a.actions|..], NetCreditOf)
            && Opened(profile, a, b, a.book[j], j, bars, event)
  {
    hide OpenFrom;
    hide BoardOf;
    hide Declares;
    hide PaidOut;
    hide LotsAfter;
    OpenFromPaysOut(profile, a.(day := Some(day)), 0, bars, feed, j, event);
  }

  // ---- exactly when a day opens ----

  lemma PositionOpensExactlyWhen(profile: Profile, a: State, i: nat, bars: map<string, Bar>, feed: Feed,
                                 event: Distribution, after: int)
    requires Valid(profile, a) && i < |a.book| && a.day.Some? && a.book[i].symbol in bars
    requires Declares(feed, a.book[i].symbol, event)
    requires Acceptable(profile, a.book[i], bars[a.book[i].symbol], event) ==>
               SharesAfter(a.book[i], bars[a.book[i].symbol].preClose.value, event, after)
    ensures var p, bar, outcome := a.book[i], bars[a.book[i].symbol], OpenPosition(profile, a, i, bars, feed);
            && (outcome.Done? <==>
                  Acceptable(profile, p, bar, event) && Covered(profile, p, bar.preClose.value, event, after, a.cash))
            && (outcome.Done? ==>
                  outcome.value.cash == a.cash + NetOf(profile, p, bar.preClose.value, event, after))
  {
    EventForIsDeclared(feed, a.book[i].symbol, event);
    hide EventFor;
    hide Declares;
    hide BoardOf;
    var p, bar := a.book[i], bars[a.book[i].symbol];
    PlanIgnoresTheSellable(profile, p, bar, event, p.quantity);
    PlanExactly(profile, p, bar, event);
    var plan := PlanExDate(profile, p, bar, event);
    hide PlanExDate;
    if plan.Settle? {
      OneShareCount(p, bar.preClose.value, event, plan.terms.after, after);
      ApplyGoesThrough(profile, a, i, event, plan.terms);
      hide ApplyTerms;
    }
    hide LotsBackTheBook;
    hide Acceptable;
    hide Settles;
    hide SharesAfter;
    hide CreditOf;
    hide WithholdingOf;
    hide IncomeOf;
    hide Moved;
    hide Splits;
  }

  lemma OneShareCount(p: Position, pre: real, event: Distribution, x: int, y: int)
    requires pre > 0.0 && SharesAfter(p, pre, event, x) && SharesAfter(p, pre, event, y)
    ensures x == y
  {
    var moved := p.lastPrice - event.cashPerShare;
    QuotientSign(moved, pre);
    SharesAreTheWholeOnes(p.quantity, p.lastPrice, pre, event.cashPerShare, moved / pre, x);
    SharesAreTheWholeOnes(p.quantity, p.lastPrice, pre, event.cashPerShare, moved / pre, y);
    hide WholeShares;
    hide ExDateShares;
  }

  lemma ApplyGoesThrough(profile: Profile, a: State, i: nat, event: Distribution, terms: Terms)
    requires Valid(profile, a) && i < |a.book| && a.day.Some? && terms.after != 0
    ensures ApplyTerms(profile, Unlock(a, i), i, event, terms).Done? <==>
              a.cash + terms.credit >= terms.withheld - 0.000000001
    ensures ApplyTerms(profile, Unlock(a, i), i, event, terms).Done? ==>
              ApplyTerms(profile, Unlock(a, i), i, event, terms).value.cash == a.cash + (terms.credit - terms.withheld)
  {
    hide SettledPosition;
    hide BoardOf;
  }

  /** What an ex-date moves in cash. */
  function NetOf(profile: Profile, p: Position, pre: real, event: Distribution, after: int): (net: real)
  {
    if Settles(p, pre, event) then CreditOf(p, pre, event, after) - WithholdingOf(profile, p, pre, event) else 0.0
  }

  /** The cash, and what the ex-date credits, pay the withholding. */
  predicate Covered(profile: Profile, p: Position, pre: real, event: Distribution, after: int, cash: real)
  {
    Settles(p, pre, event) ==>
      cash + CreditOf(p, pre, event, after) >= WithholdingOf(profile, p, pre, event) - 0.000000001
  }

  // What the feed declares for each position, and the shares it leaves it.
  datatype Expected = Expected(event: Distribution, after: int)

  /** `expected` reads the feed and the bars right. */
  ghost predicate Reads(profile: Profile, book: seq<Position>, bars: map<string, Bar>, feed: Feed,
                        expected: seq<Expected>)
  {
    && |expected| == |book|
    && forall i :: 0 <= i < |book| && book[i].symbol in bars ==>
         && Declares(feed, book[i].symbol, expected[i].event)
         && (Acceptable(profile, book[i], bars[book[i].symbol], expected[i].event) ==>
               SharesAfter(book[i], bars[book[i].symbol].preClose.value, expected[i].event, expected[i].after))
  }

  /** From `cash` on, every ex-date in turn is acceptable and its withholding is covered. */
  ghost predicate AllOpen(profile: Profile, cash: real, book: seq<Position>, bars: map<string, Bar>,
                          expected: seq<Expected>)
    requires |expected| == |book|
    decreases |book|
  {
    book == [] ||
    var p, event, after := book[0], expected[0].event, expected[0].after;
    if p.symbol !in bars then AllOpen(profile, cash, book[1..], bars, expected[1..])
    else
      && Acceptable(profile, p, bars[p.symbol], event)
      && var pre := bars[p.symbol].preClose.value;
         && Covered(profile, p, pre, event, after, cash)
         && AllOpen(profile, cash + NetOf(profile, p, pre, event, after), book[1..], bars, expected[1..])
  }

  lemma {:induction false} OpenFromExactlyWhen(profile: Profile, a: State, i: nat, bars: map<string, Bar>, feed: Feed,
                                               expected: seq<Expected>)
    requires Valid(profile, a) && i <= |a.book| && a.day.Some?
    requires Reads(profile, a.book[i..], bars, feed, expected)
    ensures OpenFrom(profile, a, i, bars, feed).Done? <==> AllOpen(profile, a.cash, a.book[i..], bars, expected)
    decreases |a.book| - i
  {
    hide OpenPosition;
    hide LotsBackTheBook;
    hide BoardOf;
    hide Declares;
    hide Acceptable;
    hide Covered;
    hide NetOf;
    hide SharesAfter;
    if i == |a.book| {
    } else {
      var p, rest := a.book[i], a.book[i + 1..];
      assert a.book[i..][0] == p && a.book[i..][1..] == rest;
      if p.symbol in bars {
        PositionOpensExactlyWhen(profile, a, i, bars, feed, expected[0].event, expected[0].after);
      } else {
        UnlockingIsDone(profile, a, i, bars, feed);
      }
      if OpenPosition(profile, a, i, bars, feed).Done? {
        OpenPositionKeepsValid(profile, a, i, bars, feed);
        var b := OpenPosition(profile, a, i, bars, feed).value;
        assert b.book[i + 1..] == rest;
        assert forall k :: 0 <= k < |rest| ==> rest[k] == a.book[i..][k + 1];
        OpenFromExactlyWhen(profile, b, i + 1, bars, feed, expected[1..]);
      }
    }
  }

  lemma UnlockingIsDone(profile: Profile, a: State, i: nat, bars: map<string, Bar>, feed: Feed)
    requires i < |a.book| && a.day.Some? && a.book[i].quantity > 0 && a.book[i].symbol !in bars
    ensures OpenPosition(profile, a, i, bars, feed).Done?
    ensures OpenPosition(profile, a, i, bars, feed).value.cash == a.cash
  {}

  /** A new day opens exactly when it has one feed, a taxed account has the record-dated one, and every held
      name's ex-date in turn is acceptable and covered. */
  lemma ADayOpensExactlyWhen(profile: Profile, a: State, day: Day, bars: map<string, Bar>, feed: Feed,
                             expected: seq<Expected>)
    requires Valid(profile, a) && a.day != Some(day) && Reads(profile, a.book, bars, feed, expected)
    ensures OpenDay(profile, a, day, bars, feed).Done? <==>
              && (profile.dividendTax ==> feed.distributions.Some?)
              && !(feed.distributions.Some? && feed.cashDividends.Some?)
              && AllOpen(profile, a.cash, a.book, bars, expected)
  {
    hide OpenFrom;
    hide BoardOf;
    hide Reads;
    hide AllOpen;
    var b := a.(day := Some(day));
    assert b.book[0..] == a.book;
    OpenFromExactlyWhen(profile, b, 0, bars, feed, expected);
  }
}
