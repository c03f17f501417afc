/** What every operation keeps: the books, the lots behind them, and the T+1 order of the lots. */
module Ledger {
  import opened Options
  import opened Calendar
  import opened DividendTax
  import opened LotRules
  import opened ExDate
  import opened Lots
  import opened LotRelease
  import opened OrderGates
  import opened Account

  predicate Unique(book: seq<Position>)
  {
    forall i, j :: 0 <= i < j < |book| ==> book[i].symbol != book[j].symbol
  }

  predicate SoundPosition(p: Position)
  {
    p.quantity > 0 && 0 <= p.available <= p.quantity && p.lastPrice > 0.0
  }

  ghost predicate Books(profile: Profile, a: State)
  {
    && Unique(a.book)
    && (forall i :: 0 <= i < |a.book| ==> SoundPosition(a.book[i]))
    && (a.book != [] ==> a.day.Some?)
    && (profile.maxTotalHoldings.Some? ==> |a.book| <= profile.maxTotalHoldings.value)
    && (profile.permittedBoards.Some? ==> forall i :: 0 <= i < |a.book| ==>
          BoardOf(a.book[i].symbol).Some? && BoardOf(a.book[i].symbol).value in profile.permittedBoards.value)
  }

  predicate SoundLots(lots: seq<Lot>, quantity: int)
  {
    AllPositive(lots) && Total(lots) == quantity && IncomesNonNegative(lots)
  }

  /** With the tax on, the lot table and the book name the same symbols and every name's lots add up
      to its position; with it off there are no lots. */
  ghost predicate LotsBackTheBook(profile: Profile, a: State)
  {
    if profile.dividendTax then
      && (forall i :: 0 <= i < |a.book| ==>
            a.book[i].symbol in a.lots && SoundLots(a.lots[a.book[i].symbol], a.book[i].quantity))
      && (forall s :: s in a.lots ==> Find(a.book, s) < |a.book|)
    else a.lots == map[]
  }

  predicate DatedLots(lots: seq<Lot>, available: int, day: Day)
  {
    Ordered(lots) && AllBy(lots, day) && available <= TotalBefore(lots, day)
  }

  /** T+1 over FIFO: what may be sold today never exceeds the shares of lots from before today, and
      those lots come first. */
  ghost predicate SellableIsOlder(profile: Profile, a: State)
  {
    profile.dividendTax ==>
      forall i :: 0 <= i < |a.book| && a.day.Some? && a.book[i].symbol in a.lots ==>
        DatedLots(a.lots[a.book[i].symbol], a.book[i].available, a.day.value)
  }

  ghost predicate Valid(profile: Profile, a: State)
  {
    Books(profile, a) && LotsBackTheBook(profile, a)
  }

  lemma FindIsThePosition(book: seq<Position>, i: nat)
    requires Unique(book) && i < |book|
    ensures Find(book, book[i].symbol) == i
  {}

  // ---- an ex-date ----

  /** Whatever an ex-date plans, it never asks for a share count or a price the books cannot hold. */
  lemma PlansAreSound(profile: Profile, p: Position, bar: Bar, event: Distribution)
    requires SoundPosition(p) && PlanExDate(profile, p, bar, event).Settle?
    ensures var terms := PlanExDate(profile, p, bar, event).terms;
            && terms.after > 0 && terms.price > 0.0 && terms.preClose > 0.0
            && terms.incomePerShare >= 0.0 && event.cashPerShare >= 0.0
            && terms.after == (if terms.ratio.Some? then ExDateShares(p.quantity, terms.ratio.value) else p.quantity)
            && (terms.ratio.Some? ==> terms.ratio.value > 0.0 && terms.price == terms.preClose)
            && (terms.rule.Some? ==> profile.dividendTax)
            && terms.withheld == (if terms.rule == Some(OldRule) then 0.05 * Payment(p.quantity, terms.incomePerShare)
                                  else 0.0)
            && (terms.ratio.Some? ==>
                terms.credit == Credit(p.quantity, p.lastPrice, terms.preClose, terms.after)
                && ShareMultiplier(p.lastPrice, terms.preClose, event.cashPerShare) == Scaled(terms.ratio.value))
            && (terms.ratio.None? ==>
                terms.credit == p.quantity as real * event.cashPerShare
                && ShareMultiplier(p.lastPrice, terms.preClose, event.cashPerShare) == NoShareChange
                && terms.price == if PriceReset(p.lastPrice, terms.preClose) then terms.preClose else p.lastPrice)
  {
    hide ExDateShares;
    hide RuleFor;
    hide PriceReset;
    hide Payment;
    assert forall r: Rule :: r.WithholdingRate() == (if r == OldRule then 0.05 else 0.0);
  }

  lemma SettleKeepsValid(profile: Profile, a: State, i: nat, bar: Bar, event: Distribution)
    requires Valid(profile, a) && i < |a.book| && a.day.Some?
    requires SettleExDate(profile, a, i, bar, event).Done?
    ensures Valid(profile, SettleExDate(profile, a, i, bar, event).value)
    ensures SellableIsOlder(profile, a) && AllOlder(profile, a, i)
            ==> SellableIsOlder(profile, SettleExDate(profile, a, i, bar, event).value)
  {
    hide PlanExDate;
    if PlanExDate(profile, a.book[i], bar, event).Settle? {
      PlansAreSound(profile, a.book[i], bar, event);
      ApplyKeepsValid(profile, a, i, event, PlanExDate(profile, a.book[i], bar, event).terms);
    }
  }

  /** All of one position's lots are from before today, as they are when the day opens. */
  ghost predicate AllOlder(profile: Profile, a: State, i: nat)
    requires i < |a.book|
  {
    profile.dividendTax && a.day.Some? && a.book[i].symbol in a.lots ==>
        AllBefore(a.lots[a.book[i].symbol], a.day.value)
  }

  lemma ApplyKeepsValid(profile: Profile, a: State, i: nat, event: Distribution, terms: Terms)
    requires Valid(profile, a) && i < |a.book| && a.day.Some?
    requires terms.after > 0 && terms.price > 0.0 && terms.incomePerShare >= 0.0
    requires terms.ratio.Some? ==> terms.ratio.value > 0.0
    requires terms.after == (if terms.ratio.Some? then ExDateShares(a.book[i].quantity, terms.ratio.value)
                             else a.book[i].quantity)
    requires ApplyTerms(profile, a, i, event, terms).Done?
    ensures Valid(profile, ApplyTerms(profile, a, i, event, terms).value)
    ensures SellableIsOlder(profile, a) && AllOlder(profile, a, i)
            ==> SellableIsOlder(profile, ApplyTerms(profile, a, i, event, terms).value)
  {
    hide ApplyTerms;
    hide Books;
    hide LotsBackTheBook;
    hide SellableIsOlder;
    ApplyKeepsBooks(profile, a, i, event, terms);
    if profile.dividendTax {
      ApplyKeepsLots(profile, a, i, event, terms);
    } else {
      UntaxedKeepsNoLots(profile, a, i, event, terms);
    }
  }

  lemma UntaxedKeepsNoLots(profile: Profile, a: State, i: nat, event: Distribution, terms: Terms)
    requires LotsBackTheBook(profile, a) && i < |a.book| && a.day.Some? && terms.after != 0 && !profile.dividendTax
    requires ApplyTerms(profile, a, i, event, terms).Done?
    ensures LotsBackTheBook(profile, ApplyTerms(profile, a, i, event, terms).value)
    ensures SellableIsOlder(profile, ApplyTerms(profile, a, i, event, terms).value)
  {}

  lemma ApplyKeepsBooks(profile: Profile, a: State, i: nat, event: Distribution, terms: Terms)
    requires Books(profile, a) && i < |a.book| && a.day.Some?
    requires terms.after > 0 && terms.price > 0.0 && (terms.ratio.None? ==> terms.after == a.book[i].quantity)
    requires ApplyTerms(profile, a, i, event, terms).Done?
    ensures Books(profile, ApplyTerms(profile, a, i, event, terms).value)
  {
    hide SettledPosition;
    hide BoardOf;
    SettledPositionFields(a.book[i], terms);
  }

  lemma ApplyKeepsLots(profile: Profile, a: State, i: nat, event: Distribution, terms: Terms)
    requires Valid(profile, a) && i < |a.book| && a.day.Some? && profile.dividendTax
    requires terms.after > 0 && terms.price > 0.0 && terms.incomePerShare >= 0.0
    requires terms.ratio.Some? ==> terms.ratio.value > 0.0
    requires terms.after == (if terms.ratio.Some? then ExDateShares(a.book[i].quantity, terms.ratio.value)
                             else a.book[i].quantity)
    requires ApplyTerms(profile, a, i, event, terms).Done?
    ensures LotsBackTheBook(profile, ApplyTerms(profile, a, i, event, terms).value)
    ensures SellableIsOlder(profile, a) && AllOlder(profile, a, i)
            ==> SellableIsOlder(profile, ApplyTerms(profile, a, i, event, terms).value)
  {
    hide ExDateShares;
    hide SettleLots;
    hide SettledPosition;
    hide SoundLots;
    hide DatedLots;
    var b := ApplyTerms(profile, a, i, event, terms).value;
    SettledPositionFields(a.book[i], terms);
    SettledNameStaysBacked(a.lots[a.book[i].symbol], a.book[i], terms, a.day.value);
    ReplacingOneName(profile, a, b, i);
  }

  lemma SettledNameStaysBacked(lots: seq<Lot>, p: Position, terms: Terms, day: Day)
    requires SoundPosition(p) && SoundLots(lots, p.quantity)
    requires terms.after > 0 && terms.price > 0.0 && terms.incomePerShare >= 0.0
    requires terms.ratio.Some? ==> terms.ratio.value > 0.0
    requires terms.after == (if terms.ratio.Some? then ExDateShares(p.quantity, terms.ratio.value) else p.quantity)
    ensures var kept := SettleLots(lots, terms.incomePerShare, terms.ratio, terms.rule == Some(OldRule));
            && SoundLots(kept, SettledPosition(p, terms).quantity)
            && (AllBefore(lots, day) && DatedLots(lots, p.available, day)
                ==> DatedLots(kept, SettledPosition(p, terms).available, day))
  {
    hide ExDateShares;
    hide SettleLots;
    SettledPositionFields(p, terms);
    SettleKeepsTheLots(lots, terms.incomePerShare, terms.ratio, terms.rule == Some(OldRule), day);
    TotalBeforeBounds(SettleLots(lots, terms.incomePerShare, terms.ratio, terms.rule == Some(OldRule)), day);
  }

  lemma SettledPositionFields(p: Position, terms: Terms)
    requires SoundPosition(p) && terms.after > 0 && terms.price > 0.0
    requires terms.ratio.None? ==> terms.after == p.quantity
    ensures SoundPosition(SettledPosition(p, terms))
    ensures SettledPosition(p, terms).symbol == p.symbol && SettledPosition(p, terms).quantity == terms.after
  {}

  /** Replacing one position together with its lots leaves every other pair as it was. */
  lemma ReplacingOneName(profile: Profile, a: State, b: State, i: nat)
    requires Valid(profile, a) && profile.dividendTax && i < |a.book| == |b.book| && a.day == b.day
    requires forall j :: 0 <= j < |a.book| && j != i ==> b.book[j] == a.book[j]
    requires b.book[i].symbol == a.book[i].symbol && a.book[i].symbol in b.lots
    requires b.lots == a.lots[a.book[i].symbol := b.lots[a.book[i].symbol]]
    requires SoundLots(b.lots[a.book[i].symbol], b.book[i].quantity)
    ensures LotsBackTheBook(profile, b)
    ensures SellableIsOlder(profile, a) &&
            (a.day.Some? ==> DatedLots(b.lots[a.book[i].symbol], b.book[i].available, a.day.value))
            ==> SellableIsOlder(profile, b)
  {
    hide SoundLots;
    hide DatedLots;
    hide BoardOf;
    SameNamesFindTheSame(a.book, b.book);
    forall j | 0 <= j < |a.book| && j != i
      ensures b.book[j].symbol in b.lots && b.lots[b.book[j].symbol] == a.lots[a.book[j].symbol]
    {
      assert a.book[j].symbol != a.book[i].symbol;
    }
  }

  lemma SameNamesFindTheSame(a: seq<Position>, b: seq<Position>)
    requires |a| == |b| && forall j :: 0 <= j < |a| ==> b[j].symbol == a[j].symbol
    ensures forall s :: Find(b, s) == Find(a, s)
  {
    forall s
      ensures Find(b, s) == Find(a, s)
    {}
  }

  // ---- entering a day ----

  lemma UnlockKeepsValid(profile: Profile, a: State, i: nat)
    requires Valid(profile, a) && i < |a.book|
    ensures Valid(profile, Unlock(a, i))
    ensures SellableIsOlder(profile, a) && AllOlder(profile, a, i) ==> SellableIsOlder(profile, Unlock(a, i))
  {
    hide BoardOf;
    SameNamesFindTheSame(a.book, Unlock(a, i).book);
    if profile.dividendTax && a.day.Some? {
      TotalBeforeBounds(a.lots[a.book[i].symbol], a.day.value);
    }
  }

  /** Opening one position changes no other name's lots. */
  lemma OpenTouchesOneName(profile: Profile, a: State, i: nat, bars: map<string, Bar>, feed: Feed, j: nat)
    requires Unique(a.book) && i < |a.book| && j < |a.book| && j != i && a.day.Some? && a.book[i].quantity > 0
    requires OpenPosition(profile, a, i, bars, feed).Done?
    ensures var b := OpenPosition(profile, a, i, bars, feed).value;
            && b.book[j] == a.book[j]
            && (AllOlder(profile, a, j) ==> AllOlder(profile, b, j))
  {
    hide PlanExDate;
    hide SettleLots;
    assert a.book[j].symbol != a.book[i].symbol;
  }

  lemma OpenPositionKeepsValid(profile: Profile, a: State, i: nat, bars: map<string, Bar>, feed: Feed)
    requires Valid(profile, a) && i < |a.book| && a.day.Some?
    requires OpenPosition(profile, a, i, bars, feed).Done?
    ensures Valid(profile, OpenPosition(profile, a, i, bars, feed).value)
    ensures SellableIsOlder(profile, a) && AllOlder(profile, a, i)
            ==> SellableIsOlder(profile, OpenPosition(profile, a, i, bars, feed).value)
  {
    hide SettleExDate;
    hide Books;
    hide LotsBackTheBook;
    hide SellableIsOlder;
    var symbol := a.book[i].symbol;
    UnlockKeepsValid(profile, a, i);
    if symbol in bars {
      SettleKeepsValid(profile, Unlock(a, i), i, bars[symbol], EventFor(feed, symbol));
    }
  }

  lemma {:induction false} OpenFromKeepsValid(profile: Profile, a: State, i: nat, bars: map<string, Bar>, feed: Feed)
    requires Valid(profile, a) && i <= |a.book| && a.day.Some?
    requires OpenFrom(profile, a, i, bars, feed).Done?
    ensures Valid(profile, OpenFrom(profile, a, i, bars, feed).value)
    ensures OpenFrom(profile, a, i, bars, feed).value.day == a.day
    ensures SellableIsOlder(profile, a) && (forall j :: i <= j < |a.book| ==> AllOlder(profile, a, j))
            ==> SellableIsOlder(profile, OpenFrom(profile, a, i, bars, feed).value)
    decreases |a.book| - i
  {
    hide OpenPosition;
    hide LotsBackTheBook;
    hide SellableIsOlder;
    hide AllOlder;
    hide BoardOf;
    if i == |a.book| {
    } else {
      OpenPositionKeepsValid(profile, a, i, bars, feed);
      var b := OpenPosition(profile, a, i, bars, feed).value;
      forall j | i < j < |a.book|
        ensures b.book[j] == a.book[j] && (AllOlder(profile, a, j) ==> AllOlder(profile, b, j))
      {
        OpenTouchesOneName(profile, a, i, bars, feed, j);
      }
      OpenFromKeepsValid(profile, b, i + 1, bars, feed);
    }
  }

  /** Days enter in order: the same day again changes nothing, any other is later. */
  ghost predicate InOrder(a: State, day: Day)
  {
    a.day.Some? ==> a.day.value.Rank() < day.Rank() || a.day.value == day
  }

  lemma OpenDayKeepsValid(profile: Profile, a: State, day: Day, bars: map<string, Bar>, feed: Feed)
    requires Valid(profile, a) && OpenDay(profile, a, day, bars, feed).Done?
    ensures Valid(profile, OpenDay(profile, a, day, bars, feed).value)
    ensures OpenDay(profile, a, day, bars, feed).value.day == Some(day)
    ensures a.day == Some(day) ==> OpenDay(profile, a, day, bars, feed).value == a
    ensures SellableIsOlder(profile, a) && InOrder(a, day)
            ==> SellableIsOlder(profile, OpenDay(profile, a, day, bars, feed).value)
  {
    hide OpenFrom;
    hide BoardOf;
    if a.day != Some(day) {
      var b := a.(day := Some(day));
      OpenFromKeepsValid(profile, b, 0, bars, feed);
      if profile.dividendTax && SellableIsOlder(profile, a) && InOrder(a, day) {
        LaterDayFindsOlderLots(profile, a, day);
      }
    }
  }

  lemma LaterDayFindsOlderLots(profile: Profile, a: State, day: Day)
    requires Valid(profile, a) && SellableIsOlder(profile, a) && InOrder(a, day) && a.day != Some(day) &&
            profile.dividendTax
    ensures var b := a.(day := Some(day));
            SellableIsOlder(profile, b) && forall j :: 0 <= j < |b.book| ==> AllOlder(profile, b, j)
  {
    hide BoardOf;
    var b := a.(day := Some(day));
    forall j | 0 <= j < |b.book|
      ensures AllOlder(profile, b, j) && DatedLots(b.lots[b.book[j].symbol], b.book[j].available, day)
    {
      TotalBeforeBounds(b.lots[b.book[j].symbol], day);
    }
  }

  // ---- marking ----

  lemma MarkKeepsValid(profile: Profile, a: State, prices: map<string, Option<real>>)
    requires Valid(profile, a)
    ensures Valid(profile, Mark(a, prices))
    ensures SellableIsOlder(profile, a) ==> SellableIsOlder(profile, Mark(a, prices))
  {
    hide BoardOf;
    SameNamesFindTheSame(a.book, Mark(a, prices).book);
  }

  /** Marking moves no money and no shares: each name that has a usable price is marked at it, the others keep
      theirs. */
  lemma MarkReadsThePrices(a: State, prices: map<string, Option<real>>)
    ensures var b := Mark(a, prices);
            && b == a.(book := b.book) && |b.book| == |a.book|
            && forall i :: 0 <= i < |a.book| ==>
                 var p, q := a.book[i], b.book[i];
                 && q == p.(lastPrice := q.lastPrice)
                 && (p.symbol in prices && prices[p.symbol].Some? && prices[p.symbol].value > 0.0 ==>
                       q.lastPrice == prices[p.symbol].value)
                 && (p.symbol !in prices || prices[p.symbol].None? || prices[p.symbol].value <= 0.0 ==>
                       q.lastPrice == p.lastPrice)
  {}
}
