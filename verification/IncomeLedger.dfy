/** Dividend income, step by step and base by base: what ex-dates credit to the lots is on them still,
    was released by sales, or was lost with a lot rounded to nothing. */
module IncomeLedger {
  import opened Options
  import opened DividendTax
  import opened LotRules
  import opened Lots
  import opened LotRelease
  import opened OrderGates
  import opened Account
  import opened Ledger
  import opened OrderSteps

  // What an event does to one base: credited at ex-dates, released by sales, dropped with empty lots.
  datatype Flow = Flow(credited: real, released: real, dropped: real) {
    function Net(): real { credited - released - dropped }

    function Plus(other: Flow): Flow {
      Flow(credited + other.credited, released + other.released, dropped + other.dropped)
    }
  }

  lemma NoNet()
    ensures STILL.Net() == 0.0
  {}

  lemma NetAdds(x: Flow, y: Flow)
    ensures x.Plus(y).Net() == x.Net() + y.Net()
  {}

  const STILL := Flow(0.0, 0.0, 0.0)

  function NameIncome(lots: map<string, seq<Lot>>, symbol: string, base: Rule): (income: real)
  {
    if symbol in lots then IncomeOn(lots[symbol], base) else 0.0
  }

  /** The income of one base on the lots of every held name. */
  function IncomeHeld(book: seq<Position>, lots: map<string, seq<Lot>>, base: Rule): (income: real)
  {
    if book == [] then 0.0 else NameIncome(lots, book[0].symbol, base) + IncomeHeld(book[1..], lots, base)
  }

  lemma {:induction false} HeldConcat(x: seq<Position>, y: seq<Position>, lots: map<string, seq<Lot>>, base: Rule)
    ensures IncomeHeld(x + y, lots, base) == IncomeHeld(x, lots, base) + IncomeHeld(y, lots, base)
  {
    hide NameIncome;
    if x == [] {
      assert x + y == y;
    } else {
      assert (x + y)[1..] == x[1..] + y;
      HeldConcat(x[1..], y, lots, base);
    }
  }

  lemma {:induction false} HeldAgrees(x: seq<Position>, y: seq<Position>, lots: map<string, seq<Lot>>,
                                      other: map<string, seq<Lot>>, base: Rule)
    requires |x| == |y| && forall j :: 0 <= j < |x| ==> x[j].symbol == y[j].symbol
    requires forall j :: 0 <= j < |x| ==> NameIncome(lots, x[j].symbol, base) == NameIncome(other, x[j].symbol, base)
    ensures IncomeHeld(x, lots, base) == IncomeHeld(y, other, base)
  {
    hide NameIncome;
    if x == [] {
    } else {
      assert NameIncome(lots, x[0].symbol, base) == NameIncome(other, x[0].symbol, base);
      forall j | 0 <= j < |x[1..]|
        ensures NameIncome(lots, x[1..][j].symbol, base) == NameIncome(other, x[1..][j].symbol, base)
        ensures x[1..][j].symbol == y[1..][j].symbol
      {
        assert x[1..][j] == x[j + 1] && y[1..][j] == y[j + 1];
      }
      HeldAgrees(x[1..], y[1..], lots, other, base);
    }
  }

  lemma HeldSplitAt(book: seq<Position>, lots: map<string, seq<Lot>>, i: nat, base: Rule)
    requires i < |book|
    ensures IncomeHeld(book, lots, base)
            == IncomeHeld(book[..i], lots, base) + NameIncome(lots, book[i].symbol, base)
                + IncomeHeld(book[i + 1..], lots, base)
  {
    hide NameIncome;
    assert book == book[..i] + [book[i]] + book[i + 1..];
    HeldConcat(book[..i] + [book[i]], book[i + 1..], lots, base);
    HeldConcat(book[..i], [book[i]], lots, base);
    assert [book[i]][1..] == [];
  }

  /** Changing one name's position and lots moves the total by that name's difference. */
  lemma HeldOfOneName(book: seq<Position>, after: seq<Position>, lots: map<string, seq<Lot>>,
                      other: map<string, seq<Lot>>, i: nat, base: Rule)
    requires Unique(book) && i < |book| == |after|
    requires forall j :: 0 <= j < |book| ==> after[j].symbol == book[j].symbol
    requires forall s :: s != book[i].symbol ==> NameIncome(other, s, base) == NameIncome(lots, s, base)
    ensures IncomeHeld(after, other, base) - NameIncome(other, book[i].symbol, base)
            == IncomeHeld(book, lots, base) - NameIncome(lots, book[i].symbol, base)
  {
    hide NameIncome;
    hide IncomeHeld;
    HeldSplitAt(book, lots, i, base);
    HeldSplitAt(after, other, i, base);
    HeldAgrees(book[..i], after[..i], lots, other, base);
    HeldAgrees(book[i + 1..], after[i + 1..], lots, other, base);
  }

  lemma HeldWithoutOneName(book: seq<Position>, lots: map<string, seq<Lot>>, other: map<string, seq<Lot>>, i: nat,
                           base: Rule)
    requires Unique(book) && i < |book|
    requires forall s :: s != book[i].symbol ==> NameIncome(other, s, base) == NameIncome(lots, s, base)
    ensures IncomeHeld(book[..i] + book[i + 1..], other, base)
            == IncomeHeld(book, lots, base) - NameIncome(lots, book[i].symbol, base)
  {
    hide NameIncome;
    hide IncomeHeld;
    HeldSplitAt(book, lots, i, base);
    HeldAgrees(book[..i], book[..i], lots, other, base);
    HeldAgrees(book[i + 1..], book[i + 1..], lots, other, base);
    HeldConcat(book[..i], book[i + 1..], other, base);
  }

  // ---- ex-dates ----

  /** What one ex-date does to a base: the rule's own base is credited for every share on the lots. */
  function FlowAt(profile: Profile, a: State, i: nat, terms: Terms, base: Rule): (flow: Flow)
    requires i < |a.book|
  {
    if profile.dividendTax && a.book[i].symbol in a.lots then
      var lots, oldRule := a.lots[a.book[i].symbol], terms.rule == Some(OldRule);
      Flow(if base == BaseOf(oldRule) then Payment(Total(lots), terms.incomePerShare) else 0.0, 0.0,
           IncomeOn(DroppedOf(SettledFrom(lots, terms.incomePerShare, terms.ratio, oldRule, 0)), base))
    else STILL
  }

  lemma ApplyMovesIncome(profile: Profile, a: State, i: nat, event: Distribution, terms: Terms, base: Rule)
    requires Unique(a.book) && i < |a.book| && a.day.Some? && terms.after > 0
    requires ApplyTerms(profile, a, i, event, terms).Done?
    ensures var b := ApplyTerms(profile, a, i, event, terms).value;
            IncomeHeld(b.book, b.lots, base) == IncomeHeld(a.book, a.lots, base)
                + FlowAt(profile, a, i, terms, base).Net()
  {
    hide ApplyTerms;
    hide IncomeHeld;
    hide NameIncome;
    hide FlowAt;
    AppliedBook(profile, a, i, event, terms);
    AppliedLots(profile, a, i, event, terms, base);
    var b := ApplyTerms(profile, a, i, event, terms).value;
    HeldOfOneName(a.book, b.book, a.lots, b.lots, i, base);
  }

  lemma AppliedBook(profile: Profile, a: State, i: nat, event: Distribution, terms: Terms)
    requires i < |a.book| && a.day.Some? && terms.after > 0 && ApplyTerms(profile, a, i, event, terms).Done?
    ensures var b := ApplyTerms(profile, a, i, event, terms).value;
            |b.book| == |a.book| && forall j :: 0 <= j < |a.book| ==> b.book[j].symbol == a.book[j].symbol
  {
    hide SettledPosition;
    SettledPositionSymbol(a.book[i], terms);
  }

  lemma AppliedLots(profile: Profile, a: State, i: nat, event: Distribution, terms: Terms, base: Rule)
    requires i < |a.book| && a.day.Some? && terms.after > 0 && ApplyTerms(profile, a, i, event, terms).Done?
    ensures var b, symbol := ApplyTerms(profile, a, i, event, terms).value, a.book[i].symbol;
            && NameIncome(b.lots, symbol, base) == NameIncome(a.lots, symbol, base)
                + FlowAt(profile, a, i, terms, base).Net()
            && (forall s :: s != symbol ==> NameIncome(b.lots, s, base) == NameIncome(a.lots, s, base))
  {
    hide SettledPosition;
    hide SettleLots;
    hide SettledFrom;
    hide DroppedOf;
    hide IncomeOn;
    hide NameIncome;
    hide Payment;
    if profile.dividendTax {
      var symbol, oldRule := a.book[i].symbol, terms.rule == Some(OldRule);
      ReplacingLots(a.lots, symbol, SettleLots(a.lots[symbol], terms.incomePerShare, terms.ratio, oldRule), base);
      SettleConservesIncome(a.lots[symbol], terms.incomePerShare, terms.ratio, oldRule, base);
    }
  }

  lemma ReplacingLots(lots: map<string, seq<Lot>>, symbol: string, replaced: seq<Lot>, base: Rule)
    ensures NameIncome(lots[symbol := replaced], symbol, base) == IncomeOn(replaced, base)
    ensures symbol in lots ==> NameIncome(lots, symbol, base) == IncomeOn(lots[symbol], base)
    ensures forall s :: s != symbol ==> NameIncome(lots[symbol := replaced], s, base) == NameIncome(lots, s, base)
  {}

  lemma SettledPositionSymbol(p: Position, terms: Terms)
    requires terms.after != 0
    ensures SettledPosition(p, terms).symbol == p.symbol
  {}

  /** What opening one position does to a base, and opening all from `i` on. */
  function FlowOpening(profile: Profile, a: State, i: nat, bars: map<string, Bar>, feed: Feed, base: Rule): (flow: Flow)
    requires i < |a.book|
  {
    var u, symbol := Unlock(a, i), a.book[i].symbol;
    if symbol !in bars then STILL
    else match PlanExDate(profile, u.book[i], bars[symbol], EventFor(feed, symbol))
      case Settle(terms) => FlowAt(profile, u, i, terms, base)
      case _ => STILL
  }

  function FlowFrom(profile: Profile, a: State, i: nat, bars: map<string, Bar>, feed: Feed, base: Rule): (flow: Flow)
    requires i <= |a.book| && a.day.Some?
    requires forall j :: i <= j < |a.book| ==> a.book[j].quantity > 0
    decreases |a.book| - i
  {
    if i == |a.book| then STILL
    else match OpenPosition(profile, a, i, bars, feed)
      case Raised(_) => STILL
      case Done(b) => FlowOpening(profile, a, i, bars, feed, base).Plus(FlowFrom(profile, b, i + 1, bars, feed, base))
  }

  lemma UnlockMovesNoIncome(a: State, i: nat, base: Rule)
    requires i < |a.book|
    ensures IncomeHeld(Unlock(a, i).book, a.lots, base) == IncomeHeld(a.book, a.lots, base)
  {
    hide NameIncome;
    HeldAgrees(a.book, Unlock(a, i).book, a.lots, a.lots, base);
  }

  lemma OpenPositionMovesIncome(profile: Profile, a: State, i: nat, bars: map<string, Bar>, feed: Feed, base: Rule)
    requires Valid(profile, a) && i < |a.book| && a.day.Some? && OpenPosition(profile, a, i, bars, feed).Done?
    ensures var b := OpenPosition(profile, a, i, bars, feed).value;
            IncomeHeld(b.book, b.lots, base)
            == IncomeHeld(a.book, a.lots, base) + FlowOpening(profile, a, i, bars, feed, base).Net()
  {
    hide PlanExDate;
    hide ApplyTerms;
    hide IncomeHeld;
    hide NameIncome;
    hide FlowAt;
    hide LotsBackTheBook;
    hide BoardOf;
    var u, symbol := Unlock(a, i), a.book[i].symbol;
    UnlockKeepsValid(profile, a, i);
    UnlockMovesNoIncome(a, i, base);
    if symbol in bars && PlanExDate(profile, u.book[i], bars[symbol], EventFor(feed, symbol)).Settle? {
      var event := EventFor(feed, symbol);
      PlansAreSound(profile, u.book[i], bars[symbol], event);
      ApplyMovesIncome(profile, u, i, event, PlanExDate(profile, u.book[i], bars[symbol], event).terms, base);
    }
  }

  lemma {:induction false} OpenFromMovesIncome(profile: Profile, a: State, i: nat, bars: map<string, Bar>, feed: Feed,
                                               base: Rule)
    requires Valid(profile, a) && i <= |a.book| && a.day.Some? && OpenFrom(profile, a, i, bars, feed).Done?
    ensures var b := OpenFrom(profile, a, i, bars, feed).value;
            IncomeHeld(b.book, b.lots, base)
            == IncomeHeld(a.book, a.lots, base) + FlowFrom(profile, a, i, bars, feed, base).Net()
    decreases |a.book| - i
  {
    hide OpenPosition;
    hide FlowOpening;
    hide Flow.Net;
    hide Flow.Plus;
    hide IncomeHeld;
    hide LotsBackTheBook;
    hide Unique;
    hide BoardOf;
    if i == |a.book| {
      NoNet();
    } else {
      OpenPositionMovesIncome(profile, a, i, bars, feed, base);
      OpenPositionKeepsValid(profile, a, i, bars, feed);
      var b := OpenPosition(profile, a, i, bars, feed).value;
      OpenFromMovesIncome(profile, b, i + 1, bars, feed, base);
      NetAdds(FlowOpening(profile, a, i, bars, feed, base), FlowFrom(profile, b, i + 1, bars, feed, base));
    }
  }

  // ---- orders ----

  lemma BuyMovesNoIncome(profile: Profile, a: State, order: Order, price: real, base: Rule)
    requires Valid(profile, a) && a.day.Some?
    ensures var b := BuyShares(profile, a, order, price);
            IncomeHeld(b.book, b.lots, base) == IncomeHeld(a.book, a.lots, base)
  {
    hide RequiredCash;
    hide Notional;
    hide BoughtPosition;
    hide BoardOf;
    hide IncomeHeld;
    hide IncomeOn;
    hide LotsBackTheBook;
    var b, i := BuyShares(profile, a, order, price), Find(a.book, order.symbol);
    if b.book != a.book || b.lots != a.lots {
      BuyAddsNoIncome(profile, a, b, order, base);
      if i < |a.book| {
        BoughtPositionSymbol(a.book[i], order.quantity, RequiredCash(profile, order, price), price);
        HeldOfOneName(a.book, b.book, a.lots, b.lots, i, base);
      } else {
        HeldOfANewName(profile, a, b, base);
      }
    }
  }

  lemma BoughtPositionSymbol(p: Position, quantity: int, cost: real, price: real)
    requires p.quantity + quantity != 0
    ensures BoughtPosition(p, quantity, cost, price).symbol == p.symbol
  {}

  lemma BuyAddsNoIncome(profile: Profile, a: State, b: State, order: Order, base: Rule)
    requires LotsBackTheBook(profile, a) && a.day.Some?
    requires b.lots == if profile.dividendTax then
                         a.lots[order.symbol := LotsOf(a, order.symbol) + [Lot(order.quantity, a.day.value, 0.0, 0.0)]]
                       else a.lots
    ensures forall s :: NameIncome(b.lots, s, base) == NameIncome(a.lots, s, base)
  {
    hide IncomeOn;
    var lot := Lot(order.quantity, a.day.value, 0.0, 0.0);
    IncomeConcat(LotsOf(a, order.symbol), [lot], base);
    OneLot(lot, base);
  }

  lemma HeldOfANewName(profile: Profile, a: State, b: State, base: Rule)
    requires LotsBackTheBook(profile, a) && |b.book| == |a.book| + 1 && b.book[..|a.book|] == a.book
    requires Find(a.book, b.book[|a.book|].symbol) == |a.book|
    requires forall s :: NameIncome(b.lots, s, base) == NameIncome(a.lots, s, base)
    ensures IncomeHeld(b.book, b.lots, base) == IncomeHeld(a.book, a.lots, base)
  {
    var p := b.book[|a.book|];
    assert b.book == a.book + [p];
    HeldConcat(a.book, [p], b.lots, base);
    HeldAgrees(a.book, a.book, a.lots, b.lots, base);
    assert [p][1..] == [];
    assert NameIncome(a.lots, p.symbol, base) == 0.0;
  }

  /** The single shares a filled sale takes off the lots. */
  function SoldShares(profile: Profile, a: State, order: Order): (shares: seq<Share>)
  {
    if profile.dividendTax && AllPositive(LotsOf(a, order.symbol)) && order.quantity <= Total(LotsOf(a, order.symbol))
    then Shares(LotsOf(a, order.symbol))[..order.quantity]
    else []
  }

  lemma SaleReleasesIncome(profile: Profile, a: State, order: Order, price: real, base: Rule)
    requires Valid(profile, a) && SellableIsOlder(profile, a) && SaleAdmitted(a, order)
    requires ReleaseFor(profile, a, order).Done?
    ensures var b := SoldState(profile, a, order, price, ReleaseFor(profile, a, order).value);
            IncomeHeld(b.book, b.lots, base)
            == IncomeHeld(a.book, a.lots, base) - SharesIncome(SoldShares(profile, a, order), base)
  {
    hide Notional;
    hide BoardOf;
    hide IncomeHeld;
    hide IncomeOn;
    hide ReleaseLots;
    hide SharesIncome;
    hide Shares;
    var b, i := SoldState(profile, a, order, price, ReleaseFor(profile, a, order).value), Find(a.book, order.symbol);
    NothingCarriesNoIncome(base);
    if profile.dividendTax {
      ReleaseConservesIncome(a.lots[order.symbol], order.quantity, a.day.value, base);
      SalesLeaveSoundLots(profile, a, order);
    }
    if a.book[i].quantity == order.quantity {
      HeldWithoutOneName(a.book, a.lots, b.lots, i, base);
    } else {
      HeldOfOneName(a.book, b.book, a.lots, b.lots, i, base);
    }
  }

  lemma NothingCarriesNoIncome(base: Rule)
    ensures IncomeOn([], base) == 0.0 && SharesIncome([], base) == 0.0
  {}

  /** The order fills a sale, if it goes through. */
  predicate FillsSale(profile: Profile, a: State, order: Order, bar: Option<Bar>, raw: Option<real>)
  {
    order.action.Sell? && RejectReason(profile, a, order, bar, raw).None?
    && FillPrice(profile, order, bar.value, raw.value).FilledAt?
  }

  function FlowOfOrder(profile: Profile, a: State, order: Order, bar: Option<Bar>, raw: Option<real>,
                       base: Rule): (flow: Flow)
  {
    if FillsSale(profile, a, order, bar, raw) then Flow(0.0, SharesIncome(SoldShares(profile, a, order), base), 0.0)
        else STILL
  }

  lemma ExecuteMovesIncome(profile: Profile, a: State, order: Order, bar: Option<Bar>, raw: Option<real>, base: Rule)
    requires Valid(profile, a) && SellableIsOlder(profile, a) && Execute(profile, a, order, bar, raw).Done?
    ensures var b := Execute(profile, a, order, bar, raw).value;
            IncomeHeld(b.book, b.lots, base)
            == IncomeHeld(a.book, a.lots, base) + FlowOfOrder(profile, a, order, bar, raw, base).Net()
  {
    hide FillPrice;
    hide RejectReason;
    hide ReleaseFor;
    hide SoldState;
    hide BuyShares;
    hide IncomeHeld;
    hide LotsBackTheBook;
    hide SellableIsOlder;
    hide SoldShares;
    hide SharesIncome;
    if RejectReason(profile, a, order, bar, raw).None? {
      match FillPrice(profile, order, bar.value, raw.value)
      case NotFilled(_) =>
      case FilledAt(price) =>
        if order.action.Buy? {
          BuyMovesNoIncome(profile, a, order, price, base);
        } else {
          SaleReleasesIncome(profile, a, order, price, base);
        }
    }
  }

  lemma MarkMovesNoIncome(a: State, prices: map<string, Option<real>>, base: Rule)
    ensures IncomeHeld(Mark(a, prices).book, a.lots, base) == IncomeHeld(a.book, a.lots, base)
  {
    HeldAgrees(a.book, Mark(a, prices).book, a.lots, a.lots, base);
  }
}
