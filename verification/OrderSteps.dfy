/** Orders keep the ledger, and the lots never refuse a sale the gates let through. */
module OrderSteps {
  import opened Options
  import opened Calendar
  import opened LotRules
  import opened DividendTax
  import opened Lots
  import opened LotRelease
  import opened OrderGates
  import opened Account
  import opened Ledger

  lemma RejectionKeepsValid(profile: Profile, a: State, order: Order, reason: Reject)
    requires Valid(profile, a)
    ensures Valid(profile, Rejected(a, order, reason))
    ensures SellableIsOlder(profile, a) ==> SellableIsOlder(profile, Rejected(a, order, reason))
  {
    hide BoardOf;
    hide SoundLots;
    hide DatedLots;
  }

  // ---- buys ----

  /** What the gates promise of a buy before it is filled. */
  ghost predicate BuyAdmitted(profile: Profile, a: State, order: Order)
  {
    && a.day.Some?
    && (profile.permittedBoards.Some? ==>
          BoardOf(order.symbol).Some? && BoardOf(order.symbol).value in profile.permittedBoards.value)
    && (profile.maxTotalHoldings.Some? ==>
          Find(a.book, order.symbol) < |a.book| || |a.book| < profile.maxTotalHoldings.value)
  }

  lemma BoughtPositionFields(p: Position, quantity: int, cost: real, price: real)
    requires SoundPosition(p) && quantity > 0 && price > 0.0
    ensures var q := BoughtPosition(p, quantity, cost, price);
            SoundPosition(q) && q.symbol == p.symbol && q.quantity == p.quantity + quantity &&
                q.available == p.available
  {}

  /** A buy appends today's lot: the totals grow together and nothing sellable changes. */
  lemma BuyingAppendsALot(lots: seq<Lot>, quantity: int, bought: int, available: int, day: Day)
    requires SoundLots(lots, quantity) && bought > 0
    ensures SoundLots(lots + [Lot(bought, day, 0.0, 0.0)], quantity + bought)
    ensures DatedLots(lots, available, day) ==> DatedLots(lots + [Lot(bought, day, 0.0, 0.0)], available, day)
  {
    var lot := Lot(bought, day, 0.0, 0.0);
    OneLot(lot, OldRule);
    TotalConcat(lots, [lot]);
    TotalBeforeConcat(lots, [lot], day);
    TotalBeforeBounds([lot], day);
  }

  lemma NoLotsAreSound(day: Day)
    ensures SoundLots([], 0) && DatedLots([], 0, day)
  {}

  lemma BuyKeepsBooks(profile: Profile, a: State, order: Order, price: real)
    requires Books(profile, a) && BuyAdmitted(profile, a, order) && price > 0.0
    ensures Books(profile, BuyShares(profile, a, order, price))
  {
    hide BoardOf;
    hide BoughtPosition;
    hide RequiredCash;
    hide Notional;
    var i := Find(a.book, order.symbol);
    if i < |a.book| {
      BoughtPositionFields(a.book[i], order.quantity, RequiredCash(profile, order, price), price);
    }
  }

  lemma FindAfterAppend(book: seq<Position>, p: Position, symbol: string)
    ensures Find(book, symbol) < |book| ==> Find(book + [p], symbol) <= |book|
    ensures p.symbol == symbol ==> Find(book + [p], symbol) <= |book|
  {
    var k := if Find(book, symbol) < |book| then Find(book, symbol) else |book|;
    assert (book + [p])[k] == if k < |book| then book[k] else p;
  }

  lemma BuyKeepsLots(profile: Profile, a: State, order: Order, price: real)
    requires Valid(profile, a) && BuyAdmitted(profile, a, order) && price > 0.0 && profile.dividendTax
    ensures LotsBackTheBook(profile, BuyShares(profile, a, order, price))
    ensures SellableIsOlder(profile, a) ==> SellableIsOlder(profile, BuyShares(profile, a, order, price))
  {
    hide BoughtPosition;
    hide RequiredCash;
    hide Notional;
    hide LotsBackTheBook;
    hide SellableIsOlder;
    hide BoardOf;
    if RequiredCash(profile, order, price) > a.cash + 0.000000001 {
      RejectionKeepsValid(profile, a, order, InsufficientCash);
    } else if Find(a.book, order.symbol) < |a.book| {
      BuyMoreKeepsLots(profile, a, order, price);
    } else {
      var b := BuyShares(profile, a, order, price);
      BuyNewKeepsLots(profile, a, b, b.book[|a.book|]);
    }
  }

  lemma BuyMoreKeepsLots(profile: Profile, a: State, order: Order, price: real)
    requires Valid(profile, a) && BuyAdmitted(profile, a, order) && price > 0.0 && profile.dividendTax
    requires RequiredCash(profile, order, price) <= a.cash + 0.000000001 && Find(a.book, order.symbol) < |a.book|
    ensures LotsBackTheBook(profile, BuyShares(profile, a, order, price))
    ensures SellableIsOlder(profile, a) ==> SellableIsOlder(profile, BuyShares(profile, a, order, price))
  {
    hide BoughtPosition;
    hide RequiredCash;
    hide Notional;
    hide SoundLots;
    hide DatedLots;
    hide BoardOf;
    var i := Find(a.book, order.symbol);
    var p := a.book[i];
    BoughtPositionFields(p, order.quantity, RequiredCash(profile, order, price), price);
    BuyingAppendsALot(a.lots[p.symbol], p.quantity, order.quantity, p.available, a.day.value);
    ReplacingOneName(profile, a, BuyShares(profile, a, order, price), i);
  }

  lemma BuyNewKeepsLots(profile: Profile, a: State, b: State, p: Position)
    requires Valid(profile, a) && profile.dividendTax && a.day.Some? && b.day == a.day
    requires Find(a.book, p.symbol) == |a.book| && b.book == a.book + [p] && p.quantity > 0 && p.available == 0
    requires b.lots == a.lots[p.symbol := LotsOf(a, p.symbol) + [Lot(p.quantity, a.day.value, 0.0, 0.0)]]
    ensures LotsBackTheBook(profile, b)
    ensures SellableIsOlder(profile, a) ==> SellableIsOlder(profile, b)
  {
    hide SoundLots;
    hide DatedLots;
    hide BoardOf;
    var n, day := |a.book|, a.day.value;
    NoLotsAreSound(day);
    BuyingAppendsALot([], 0, p.quantity, 0, day);
    assert LotsOf(a, p.symbol) == [];
    forall s | s in b.lots
      ensures Find(b.book, s) < |b.book|
    {
      FindAfterAppend(a.book, p, s);
    }
    forall j | 0 <= j < |b.book|
      ensures b.book[j].symbol in b.lots && SoundLots(b.lots[b.book[j].symbol], b.book[j].quantity)
      ensures SellableIsOlder(profile, a) ==> DatedLots(b.lots[b.book[j].symbol], b.book[j].available, day)
    {
      if j < n {
        assert b.book[j] == a.book[j] && a.book[j].symbol != p.symbol;
      }
    }
  }

  // ---- sales ----

  /** A release takes exactly its shares, whatever the days. */
  lemma {:induction false} ReleaseTakesItsShares(lots: seq<Lot>, quantity: nat, day: Day)
    requires AllPositive(lots) && ReleaseLots(lots, quantity, day).Released?
    ensures AllPositive(ReleaseLots(lots, quantity, day).lots)
    ensures Total(ReleaseLots(lots, quantity, day).lots) == Total(lots) - quantity
    decreases |lots|
  {
    hide Due;
    hide Part;
    if quantity > 0 {
      var taken := Taken(lots[0], quantity);
      if taken < lots[0].quantity {
        assert ([Remainder(lots[0], taken)] + lots[1..])[1..] == lots[1..];
      } else {
        ReleaseTakesItsShares(lots[1..], quantity - taken, day);
      }
    }
  }

  ghost predicate SaleAdmitted(a: State, order: Order)
  {
    a.day.Some? && Find(a.book, order.symbol) < |a.book|
    && order.quantity <= a.book[Find(a.book, order.symbol)].available
  }

  lemma SalesLeaveSoundLots(profile: Profile, a: State, order: Order)
    requires Valid(profile, a) && SaleAdmitted(a, order) && profile.dividendTax
    requires ReleaseFor(profile, a, order).Done?
    ensures var p, lots := a.book[Find(a.book, order.symbol)], ReleaseFor(profile, a, order).value.lots;
            && SoundLots(lots, p.quantity - order.quantity)
            && (lots == [] <==> p.quantity == order.quantity)
  {
    hide BoardOf;
    hide ReleaseLots;
    var lots, day := a.lots[order.symbol], a.day.value;
    ReleaseTakesItsShares(lots, order.quantity, day);
    ReleaseKeepsIncomesNonNegative(lots, order.quantity, day);
    PositiveLotsAddUp(ReleaseLots(lots, order.quantity, day).lots);
  }

  /** A sale the gates let through finds its lots, all of them from before today. */
  lemma AdmittedSalesRelease(profile: Profile, a: State, order: Order)
    requires Valid(profile, a) && SellableIsOlder(profile, a) && SaleAdmitted(a, order)
    ensures ReleaseFor(profile, a, order).Done?
    ensures profile.dividendTax ==>
              DatedLots(ReleaseFor(profile, a, order).value.lots,
                        a.book[Find(a.book, order.symbol)].available - order.quantity, a.day.value)
  {
    hide BoardOf;
    hide ReleaseLots;
    if profile.dividendTax {
      AvailableSharesRelease(a.lots[order.symbol], order.quantity, a.day.value);
    }
  }

  lemma PositiveLotsAddUp(lots: seq<Lot>)
    requires AllPositive(lots)
    ensures Total(lots) >= 0 && (Total(lots) == 0 <==> lots == [])
  {
    if lots != [] {
      PositiveLotsAddUp(lots[1..]);
    }
  }

  lemma {:induction false} ReleaseKeepsIncomesNonNegative(lots: seq<Lot>, quantity: nat, day: Day)
    requires AllPositive(lots) && IncomesNonNegative(lots) && ReleaseLots(lots, quantity, day).Released?
    ensures IncomesNonNegative(ReleaseLots(lots, quantity, day).lots)
    decreases |lots|
  {
    hide Part;
    if quantity > 0 {
      var taken := Taken(lots[0], quantity);
      if taken < lots[0].quantity {
        PartIsNoMore(lots[0].incomeNew, taken, lots[0]);
        PartIsNoMore(lots[0].incomeOld, taken, lots[0]);
      } else {
        ReleaseKeepsIncomesNonNegative(lots[1..], quantity - taken, day);
      }
    }
  }

  lemma PartIsNoMore(income: real, taken: int, lot: Lot)
    requires income >= 0.0 && 0 <= taken <= lot.quantity && lot.quantity > 0
    ensures Part(income, taken, lot) <= income
  {
    PartIsPerShare(income, taken, lot);
    var each, n, q := income / lot.quantity as real, taken as real, lot.quantity as real;
    assert each * q == income;
    assert each * n <= each * q;
  }

  lemma RemovalKeepsThePositions(book: seq<Position>, i: nat)
    requires i < |book| && Unique(book)
    ensures var rest := book[..i] + book[i + 1..];
            && Unique(rest)
            && (forall j :: 0 <= j < |rest| ==> rest[j] == book[if j < i then j else j + 1])
            && (forall s :: Find(book, s) < |book| && s != book[i].symbol ==> Find(rest, s) < |rest|)
  {
    var rest := book[..i] + book[i + 1..];
    forall s | Find(book, s) < |book| && s != book[i].symbol
      ensures Find(rest, s) < |rest|
    {
      var k := Find(book, s);
      assert rest[if k < i then k else k - 1].symbol == s;
    }
  }

  lemma SoldKeepsBooks(profile: Profile, a: State, order: Order, price: real, release: Release)
    requires Books(profile, a) && SaleAdmitted(a, order) && price > 0.0 && release.Released?
    ensures Books(profile, SoldState(profile, a, order, price, release))
  {
    hide BoardOf;
    hide Notional;
    RemovalKeepsThePositions(a.book, Find(a.book, order.symbol));
  }

  lemma SoldKeepsLots(profile: Profile, a: State, order: Order, price: real)
    requires Valid(profile, a) && SaleAdmitted(a, order) && profile.dividendTax
    requires ReleaseFor(profile, a, order).Done?
    ensures var b := SoldState(profile, a, order, price, ReleaseFor(profile, a, order).value);
            LotsBackTheBook(profile, b) && (SellableIsOlder(profile, a) ==> SellableIsOlder(profile, b))
  {
    hide BoardOf;
    hide SoundLots;
    hide DatedLots;
    hide ReleaseFor;
    hide Notional;
    hide LotsBackTheBook;
    hide SellableIsOlder;
    var i := Find(a.book, order.symbol);
    var b := SoldState(profile, a, order, price, ReleaseFor(profile, a, order).value);
    SalesLeaveSoundLots(profile, a, order);
    if SellableIsOlder(profile, a) {
      AdmittedSalesRelease(profile, a, order);
    }
    if a.book[i].quantity == order.quantity {
      RemovingOneName(profile, a, b, i);
    } else {
      ReplacingOneName(profile, a, b, i);
    }
  }

  lemma RemovingOneName(profile: Profile, a: State, b: State, i: nat)
    requires Valid(profile, a) && profile.dividendTax && i < |a.book| && a.day == b.day
    requires b.book == a.book[..i] + a.book[i + 1..] && b.lots == a.lots - {a.book[i].symbol}
    ensures LotsBackTheBook(profile, b)
    ensures SellableIsOlder(profile, a) ==> SellableIsOlder(profile, b)
  {
    hide BoardOf;
    hide SoundLots;
    hide DatedLots;
    RemovalKeepsThePositions(a.book, i);
    forall j | 0 <= j < |b.book|
      ensures b.book[j].symbol in b.lots && SoundLots(b.lots[b.book[j].symbol], b.book[j].quantity)
      ensures SellableIsOlder(profile, a) && a.day.Some? ==>
                DatedLots(b.lots[b.book[j].symbol], b.book[j].available, a.day.value)
    {
      var k := if j < i then j else j + 1;
      assert b.book[j] == a.book[k] && a.book[k].symbol != a.book[i].symbol;
    }
  }

  // ---- any order ----

  /** Under the invariants an order never raises once a day is open, taxed or not: the lots are
      there, they are enough, and none of them is from today. */
  lemma OrdersNeverRaise(profile: Profile, a: State, order: Order, bar: Option<Bar>, raw: Option<real>)
    requires Valid(profile, a) && SellableIsOlder(profile, a)
    ensures Execute(profile, a, order, bar, raw).Raised? ==>
              a.day.None? && Execute(profile, a, order, bar, raw).error == NoTradingDay
  {
    hide FillPrice;
    hide RejectReason;
    hide ReleaseFor;
    hide SellableIsOlder;
    hide LotsBackTheBook;
    hide SoldState;
    hide BuyShares;
    if RejectReason(profile, a, order, bar, raw).None? && a.day.Some? && order.action.Sell? {
      AdmittedSalesRelease(profile, a, order);
    }
  }

  lemma ExecuteKeepsValid(profile: Profile, a: State, order: Order, bar: Option<Bar>, raw: Option<real>)
    requires profile.Valid() && Valid(profile, a) && Execute(profile, a, order, bar, raw).Done?
    ensures Valid(profile, Execute(profile, a, order, bar, raw).value)
    ensures SellableIsOlder(profile, a) ==> SellableIsOlder(profile, Execute(profile, a, order, bar, raw).value)
    ensures Execute(profile, a, order, bar, raw).value.day == a.day
  {
    hide FillPrice;
    hide RejectReason;
    hide ReleaseFor;
    hide SellableIsOlder;
    hide LotsBackTheBook;
    match RejectReason(profile, a, order, bar, raw)
    case Some(reason) => RejectionKeepsValid(profile, a, order, reason);
    case None =>
      match FillPrice(profile, order, bar.value, raw.value)
      case NotFilled(reason) => RejectionKeepsValid(profile, a, order, reason);
      case FilledAt(price) =>
        FillsStayInsideTheLimit(profile, order, bar.value, raw.value);
        if order.action.Buy? {
          BuyKeepsValid(profile, a, order, price);
        } else {
          SellKeepsValid(profile, a, order, price);
        }
  }

  lemma BuyKeepsValid(profile: Profile, a: State, order: Order, price: real)
    requires Valid(profile, a) && BuyAdmitted(profile, a, order) && price > 0.0
    ensures Valid(profile, BuyShares(profile, a, order, price))
    ensures SellableIsOlder(profile, a) ==> SellableIsOlder(profile, BuyShares(profile, a, order, price))
  {
    hide SellableIsOlder;
    BuyKeepsBooks(profile, a, order, price);
    if profile.dividendTax {
      BuyKeepsLots(profile, a, order, price);
    } else {
      UntaxedHasNoLots(profile, BuyShares(profile, a, order, price));
    }
  }

  lemma UntaxedHasNoLots(profile: Profile, a: State)
    requires !profile.dividendTax
    ensures SellableIsOlder(profile, a) && (LotsBackTheBook(profile, a) <==> a.lots == map[])
  {}

  lemma SellKeepsValid(profile: Profile, a: State, order: Order, price: real)
    requires Valid(profile, a) && SaleAdmitted(a, order) && price > 0.0 && ReleaseFor(profile, a, order).Done?
    ensures var b := SoldState(profile, a, order, price, ReleaseFor(profile, a, order).value);
            Valid(profile, b) && (SellableIsOlder(profile, a) ==> SellableIsOlder(profile, b))
  {
    hide SellableIsOlder;
    hide Books;
    hide ReleaseFor;
    var release := ReleaseFor(profile, a, order).value;
    SoldKeepsBooks(profile, a, order, price, release);
    if profile.dividendTax {
      SoldKeepsLots(profile, a, order, price);
    } else {
      UntaxedHasNoLots(profile, SoldState(profile, a, order, price, release));
    }
  }
}
