/** A sale takes shares off the lots first in first out. The reference it is proved against is a
    plain queue of single shares, each carrying its acquisition day and its own income. */
module LotRelease {
  import opened Options
  import opened Calendar
  import opened DividendTax
  import opened Lots

  datatype Release = Released(tax: real, lots: seq<Lot>) | Refused

  function Min(a: int, b: int): int { if a < b then a else b }

  function Taken(lot: Lot, quantity: int): (taken: int) { Min(quantity, lot.quantity) }

  /** The part of an income that goes with `taken` of the lot's shares. */
  function Part(income: real, taken: int, lot: Lot): (part: real)
    requires lot.quantity > 0
  {
    income * taken as real / lot.quantity as real
  }

  function Remainder(lot: Lot, taken: int): (left: Lot)
    requires lot.quantity > 0
  {
    Lot(lot.quantity - taken, lot.acquired,
        lot.incomeNew - Part(lot.incomeNew, taken, lot), lot.incomeOld - Part(lot.incomeOld, taken, lot))
  }

  /** Refused stands for the exceptions: no lot left, an empty lot, or shares that may not be sold. */
  function ReleaseLots(lots: seq<Lot>, quantity: nat, day: Day): (release: Release)
    decreases |lots|, quantity
  {
    if quantity == 0 then Released(0.0, lots)
    else if lots == [] || lots[0].quantity <= 0 then Refused
    else
      var taken := Taken(lots[0], quantity);
      match Due(lots[0].acquired, day, Part(lots[0].incomeOld, taken, lots[0]), Part(lots[0].incomeNew, taken, lots[0]))
      case None => Refused
      case Some(due) =>
        if taken < lots[0].quantity then Released(0.0 + due, [Remainder(lots[0], taken)] + lots[1..])
        else match ReleaseLots(lots[1..], quantity - taken, day)
          case Refused => Refused
          case Released(tax, rest) => Released(due + tax, rest)
  }

  // ---- T+1 and FIFO ----

  /** Shares available from before today are always at the head of the queue: such a sale is never
      refused, and it leaves the lots positive, ordered and exactly that much smaller. */
  lemma {:induction false} AvailableSharesRelease(lots: seq<Lot>, quantity: nat, day: Day)
    requires AllPositive(lots) && Ordered(lots) && quantity <= TotalBefore(lots, day)
    ensures ReleaseLots(lots, quantity, day).Released?
    ensures var rest := ReleaseLots(lots, quantity, day).lots;
            && AllPositive(rest) && Ordered(rest)
            && Total(rest) == Total(lots) - quantity
            && TotalBefore(rest, day) == TotalBefore(lots, day) - quantity
            && (AllBy(lots, day) ==> AllBy(rest, day))
    decreases |lots|
  {
    hide Due;
    hide Part;
    if quantity > 0 {
      HeadIsFromBefore(lots, quantity, day);
      var taken := Taken(lots[0], quantity);
      if taken < lots[0].quantity {
        var rest := [Remainder(lots[0], taken)] + lots[1..];
        assert rest[1..] == lots[1..];
        assert forall i :: 0 <= i < |rest| ==> rest[i].acquired == lots[i].acquired;
      } else {
        AvailableSharesRelease(lots[1..], quantity - taken, day);
      }
    }
  }

  lemma HeadIsFromBefore(lots: seq<Lot>, quantity: nat, day: Day)
    requires AllPositive(lots) && Ordered(lots) && 0 < quantity <= TotalBefore(lots, day)
    ensures lots != [] && lots[0].acquired.Rank() < day.Rank()
    ensures var taken := Taken(lots[0], quantity);
            && Due(lots[0].acquired, day, Part(lots[0].incomeOld, taken, lots[0]),
                   Part(lots[0].incomeNew, taken, lots[0])).Some?
            && (taken == lots[0].quantity ==> quantity - taken <= TotalBefore(lots[1..], day))
  {
    hide Due;
    hide Part;
    TotalBeforeBounds(lots, day);
    var taken := Taken(lots[0], quantity);
    DueRefusesOnlySameDayIncome(lots[0].acquired, day, Part(lots[0].incomeOld, taken, lots[0]),
                                Part(lots[0].incomeNew, taken, lots[0]));
  }

  /** No sale is ever paid tax: what it owes is never negative, on whatever days. */
  lemma {:induction false} ReleaseTaxIsNonNegative(lots: seq<Lot>, quantity: nat, day: Day)
    requires AllPositive(lots) && IncomesNonNegative(lots) && ReleaseLots(lots, quantity, day).Released?
    ensures ReleaseLots(lots, quantity, day).tax >= 0.0
    decreases |lots|
  {
    hide Due;
    if quantity > 0 {
      var lot, taken := lots[0], Taken(lots[0], quantity);
      PartIsNonNegative(lot.incomeOld, taken, lot);
      PartIsNonNegative(lot.incomeNew, taken, lot);
      hide Part;
      DueRefusesOnlySameDayIncome(lot.acquired, day, Part(lot.incomeOld, taken, lot), Part(lot.incomeNew, taken, lot));
      if lot.acquired.Rank() < day.Rank() {
        DueCompletesTheFinalTax(lot.acquired, day, Part(lot.incomeOld, taken, lot), Part(lot.incomeNew, taken, lot));
      } else {
        NothingIsDueOnNothing(lot.acquired, day);
      }
      if taken == lot.quantity {
        ReleaseTaxIsNonNegative(lots[1..], quantity - taken, day);
      }
    }
  }

  lemma PartIsNonNegative(income: real, taken: int, lot: Lot)
    requires income >= 0.0 && taken >= 0 && lot.quantity > 0
    ensures Part(income, taken, lot) >= 0.0
  {
    assert income * taken as real >= 0.0;
  }

  lemma NothingIsDueOnNothing(acquired: Day, day: Day)
    ensures Due(acquired, day, 0.0, 0.0) == Some(0.0)
  {}

  // ---- the queue of single shares ----

  datatype Share = Share(acquired: Day, incomeOld: real, incomeNew: real)

  function Shares(lots: seq<Lot>): (shares: seq<Share>)
    requires AllPositive(lots)
    ensures |shares| == Total(lots)
  {
    if lots == [] then [] else Copies(ShareOf(lots[0]), lots[0].quantity) + Shares(lots[1..])
  }

  function ShareOf(lot: Lot): (share: Share)
    requires lot.quantity > 0
  {
    Share(lot.acquired, lot.incomeOld / lot.quantity as real, lot.incomeNew / lot.quantity as real)
  }

  function Copies(share: Share, n: nat): (copies: seq<Share>)
    ensures |copies| == n && forall i :: 0 <= i < n ==> copies[i] == share
  {
    seq(n, _ => share)
  }

  /** The supplement one share owes: its final tax less the 5% its old income paid. */
  function ShareTax(share: Share, day: Day): (tax: real)
  {
    FinalTax(share.acquired, day, share.incomeOld, share.incomeNew) - 0.05 * share.incomeOld
  }

  function SharesTax(shares: seq<Share>, day: Day): (tax: real)
  {
    if shares == [] then 0.0 else ShareTax(shares[0], day) + SharesTax(shares[1..], day)
  }

  lemma {:induction false} SharesTaxConcat(a: seq<Share>, b: seq<Share>, day: Day)
    ensures SharesTax(a + b, day) == SharesTax(a, day) + SharesTax(b, day)
  {
    if a == [] {
      assert a + b == b;
    } else {
      assert (a + b)[1..] == a[1..] + b;
      SharesTaxConcat(a[1..], b, day);
    }
  }

  function Times(x: real, n: int): real { x * n as real }

  lemma OneMoreTimes(x: real, n: int)
    ensures Times(x, n + 1) == Times(x, n) + x
    ensures Times(x, 0) == 0.0
  {}

  lemma {:induction false} SharesTaxOfCopies(share: Share, n: nat, day: Day)
    ensures SharesTax(Copies(share, n), day) == Times(ShareTax(share, day), n)
  {
    hide ShareTax;
    hide Times;
    OneMoreTimes(ShareTax(share, day), n - 1);
    if n == 0 {
      assert Copies(share, n) == [];
    } else {
      SharesTaxOfCopies(share, n - 1, day);
      OneMoreCopy(share, n, day);
    }
  }

  lemma OneMoreCopy(share: Share, n: nat, day: Day)
    requires n > 0
    ensures SharesTax(Copies(share, n), day) == ShareTax(share, day) + SharesTax(Copies(share, n - 1), day)
  {
    hide ShareTax;
    assert Copies(share, n)[1..] == Copies(share, n - 1);
  }

  /** A part of a lot owes the tax of that many of its shares. */
  lemma PartOwesItsShares(lot: Lot, taken: nat, day: Day)
    requires lot.quantity > 0 && lot.acquired.Rank() < day.Rank()
    ensures var due := Due(lot.acquired, day, Part(lot.incomeOld, taken, lot), Part(lot.incomeNew, taken, lot));
            due.Some? && due.value == SharesTax(Copies(ShareOf(lot), taken), day)
  {
    hide Due;
    hide FinalTax;
    hide SharesTax;
    PartIsPerShare(lot.incomeOld, taken, lot);
    PartIsPerShare(lot.incomeNew, taken, lot);
    var share := ShareOf(lot);
    DueIsProportional(lot.acquired, day, share.incomeOld, share.incomeNew, taken as real,
                      Part(lot.incomeOld, taken, lot), Part(lot.incomeNew, taken, lot), ShareTax(share, day));
    SharesTaxOfCopies(share, taken, day);
  }

  lemma PartIsPerShare(income: real, taken: int, lot: Lot)
    requires lot.quantity > 0
    ensures Part(income, taken, lot) == (income / lot.quantity as real) * taken as real
  {
    QuotientOfProduct(income, taken as real, lot.quantity as real);
  }

  lemma QuotientOfProduct(income: real, taken: real, quantity: real)
    requires quantity > 0.0
    ensures income * taken / quantity == (income / quantity) * taken
  {
    var perShare := income / quantity;
    assert perShare * quantity == income;
    assert income * taken == (perShare * taken) * quantity;
  }

  /** The shares left in a lot are worth what they were: taking some changes no other share. */
  lemma RemainderKeepsItsShares(lot: Lot, taken: nat)
    requires taken < lot.quantity
    ensures ShareOf(Remainder(lot, taken)) == ShareOf(lot)
  {
    hide Part;
    PerShareUnchanged(lot.incomeOld, taken, lot);
    PerShareUnchanged(lot.incomeNew, taken, lot);
  }

  lemma PerShareUnchanged(income: real, taken: nat, lot: Lot)
    requires taken < lot.quantity
    ensures (income - Part(income, taken, lot)) / (lot.quantity - taken) as real == income / lot.quantity as real
  {
    hide Part;
    PartIsPerShare(income, taken, lot);
    QuotientOfRest(income, taken as real, lot.quantity as real, Part(income, taken, lot));
  }

  lemma QuotientOfRest(income: real, taken: real, quantity: real, part: real)
    requires 0.0 <= taken < quantity && part == (income / quantity) * taken
    ensures (income - part) / (quantity - taken) == income / quantity
  {
    var perShare, left := income / quantity, quantity - taken;
    assert perShare * quantity == income;
    assert income - part == perShare * left;
  }

  lemma SharesOfASplitLot(lots: seq<Lot>, taken: nat, left: Lot)
    requires lots != [] && AllPositive(lots) && taken < lots[0].quantity
    requires left.quantity == lots[0].quantity - taken && ShareOf(left) == ShareOf(lots[0])
    ensures AllPositive([left] + lots[1..])
    ensures Shares(lots)[..taken] == Copies(ShareOf(lots[0]), taken)
    ensures Shares([left] + lots[1..]) == Shares(lots)[taken..]
  {
    var rest := [left] + lots[1..];
    assert rest[1..] == lots[1..];
    assert AllPositive(rest);
    assert Shares(rest) == Copies(ShareOf(lots[0]), lots[0].quantity - taken) + Shares(lots[1..]);
    assert Shares(lots) == Copies(ShareOf(lots[0]), lots[0].quantity) + Shares(lots[1..]);
    assert Shares(lots)[..taken] == Copies(ShareOf(lots[0]), taken);
    assert Shares(rest) == Shares(lots)[taken..];
  }

  /** First in, first out, exactly: a release takes the first shares of the queue, leaves the others
      untouched, and its tax is the sum of what each share taken owes. */
  lemma {:induction false} ReleaseIsTheShareQueue(lots: seq<Lot>, quantity: nat, day: Day)
    requires AllPositive(lots) && Ordered(lots) && quantity <= TotalBefore(lots, day)
    ensures ReleaseLots(lots, quantity, day).Released?
    ensures AllPositive(ReleaseLots(lots, quantity, day).lots)
    ensures quantity <= |Shares(lots)|
    ensures ReleaseLots(lots, quantity, day).tax == SharesTax(Shares(lots)[..quantity], day)
    ensures Shares(ReleaseLots(lots, quantity, day).lots) == Shares(lots)[quantity..]
    decreases |lots|
  {
    hide SharesTax;
    hide Shares;
    TotalBeforeBounds(lots, day);
    if quantity == 0 {
      NothingTaken(lots, day);
    } else {
      HeadIsFromBefore(lots, quantity, day);
      ReleaseFromTheHead(lots, quantity, day);
      if quantity < lots[0].quantity {
        RemainderKeepsItsShares(lots[0], quantity);
        SharesOfASplitLot(lots, quantity, Remainder(lots[0], quantity));
      } else {
        ReleaseIsTheShareQueue(lots[1..], quantity - lots[0].quantity, day);
        SharesPastTheHead(lots, quantity, day);
      }
    }
  }

  lemma NothingTaken(lots: seq<Lot>, day: Day)
    requires AllPositive(lots)
    ensures SharesTax(Shares(lots)[..0], day) == 0.0 && Shares(lots)[0..] == Shares(lots)
  {}

  /** One turn of the release loop, its tax read as that of single shares. */
  lemma ReleaseFromTheHead(lots: seq<Lot>, quantity: nat, day: Day)
    requires AllPositive(lots) && Ordered(lots) && 0 < quantity <= TotalBefore(lots, day)
    requires lots != [] && lots[0].acquired.Rank() < day.Rank()
    ensures var due := SharesTax(Copies(ShareOf(lots[0]), Taken(lots[0], quantity)), day);
            ReleaseLots(lots, quantity, day) ==
            if quantity < lots[0].quantity then Released(due, [Remainder(lots[0], quantity)] + lots[1..])
            else match ReleaseLots(lots[1..], quantity - lots[0].quantity, day)
              case Refused => Refused
              case Released(tax, rest) => Released(due + tax, rest)
  {
    hide Due;
    hide Part;
    hide ShareOf;
    hide SharesTax;
    PartOwesItsShares(lots[0], Taken(lots[0], quantity), day);
  }

  lemma SharesPastTheHead(lots: seq<Lot>, quantity: nat, day: Day)
    requires lots != [] && AllPositive(lots) && lots[0].quantity <= quantity <= Total(lots)
    ensures var past := quantity - lots[0].quantity;
            && past <= Total(lots[1..])
            && SharesTax(Shares(lots)[..quantity], day)
               == SharesTax(Copies(ShareOf(lots[0]), lots[0].quantity), day) + SharesTax(Shares(lots[1..])[..past], day)
            && Shares(lots)[quantity..] == Shares(lots[1..])[past..]
  {
    hide SharesTax;
    hide ShareOf;
    var head, rest := Copies(ShareOf(lots[0]), lots[0].quantity), Shares(lots[1..]);
    assert Shares(lots)[..quantity] == head + rest[..quantity - lots[0].quantity];
    SharesTaxConcat(head, rest[..quantity - lots[0].quantity], day);
  }

  // ---- one sale or two ----

  /** Selling in two orders the same day owes the same tax and leaves the same lots as selling at once. */
  lemma TwoSalesAreOne(lots: seq<Lot>, first: nat, second: nat, day: Day)
    requires AllPositive(lots) && Ordered(lots) && first + second <= TotalBefore(lots, day)
    ensures ReleaseLots(lots, first, day).Released?
    ensures var one, two := ReleaseLots(lots, first, day), ReleaseLots(ReleaseLots(lots, first, day).lots, second, day);
            two.Released? && ReleaseLots(lots, first + second, day) == Released(one.tax + two.tax, two.lots)
  {
    hide ReleaseLots;
    hide Shares;
    hide SharesTax;
    hide AllPositive;
    hide Ordered;
    hide TotalBefore;
    AvailableSharesRelease(lots, first, day);
    TwoSalesLeaveTheSameLots(lots, first, second, day);
    TwoSalesOweTheSame(lots, first, second, day);
  }

  lemma TwoSalesOweTheSame(lots: seq<Lot>, first: nat, second: nat, day: Day)
    requires AllPositive(lots) && Ordered(lots) && first + second <= TotalBefore(lots, day)
    requires ReleaseLots(lots, first, day).Released?
    requires ReleaseLots(ReleaseLots(lots, first, day).lots, second, day).Released? &&
            ReleaseLots(lots, first + second, day).Released?
    ensures ReleaseLots(lots, first + second, day).tax
            == ReleaseLots(lots, first, day).tax + ReleaseLots(ReleaseLots(lots, first, day).lots, second, day).tax
  {
    hide ReleaseLots;
    hide Shares;
    hide SharesTax;
    hide AllPositive;
    hide Ordered;
    hide TotalBefore;
    AvailableSharesRelease(lots, first, day);
    var rest := ReleaseLots(lots, first, day).lots;
    ReleaseIsTheShareQueue(lots, first, day);
    ReleaseIsTheShareQueue(rest, second, day);
    ReleaseIsTheShareQueue(lots, first + second, day);
    TaxOfTwoRuns(Shares(lots), first, second, day);
  }

  lemma TaxOfTwoRuns(shares: seq<Share>, first: nat, second: nat, day: Day)
    requires first + second <= |shares|
    ensures SharesTax(shares[..first + second], day)
            == SharesTax(shares[..first], day) + SharesTax(shares[first..][..second], day)
  {
    var both := shares[..first + second];
    assert both == both[..first] + both[first..];
    assert both[..first] == shares[..first] && both[first..] == shares[first..][..second];
    SharesTaxConcat(shares[..first], shares[first..][..second], day);
  }

  lemma {:induction false} TwoSalesLeaveTheSameLots(lots: seq<Lot>, first: nat, second: nat, day: Day)
    requires AllPositive(lots) && Ordered(lots) && first + second <= TotalBefore(lots, day)
    requires ReleaseLots(lots, first, day).Released?
    ensures ReleaseLots(ReleaseLots(lots, first, day).lots, second, day).Released?
    ensures ReleaseLots(lots, first + second, day).Released?
    ensures ReleaseLots(ReleaseLots(lots, first, day).lots, second, day).lots
            == ReleaseLots(lots, first + second, day).lots
    decreases |lots|
  {
    hide Due;
    hide Part;
    hide SharesTax;
    hide ReleaseLots;
    hide TotalBefore;
    AvailableSharesRelease(lots, first, day);
    AvailableSharesRelease(ReleaseLots(lots, first, day).lots, second, day);
    AvailableSharesRelease(lots, first + second, day);
    ReleaseNothing(lots, day);
    ReleaseNothing(ReleaseLots(lots, first, day).lots, day);
    if first > 0 && second > 0 {
      HeadIsFromBefore(lots, first, day);
      HeadIsFromBefore(lots, first + second, day);
      ReleaseFromTheHead(lots, first, day);
      ReleaseFromTheHead(lots, first + second, day);
      if first < lots[0].quantity {
        SecondSaleFromTheSameHead(lots, first, second, day);
      } else {
        TwoSalesLeaveTheSameLots(lots[1..], first - lots[0].quantity, second, day);
      }
    }
  }

  lemma ReleaseNothing(lots: seq<Lot>, day: Day)
    ensures ReleaseLots(lots, 0, day) == Released(0.0, lots)
  {}

  lemma SecondSaleFromTheSameHead(lots: seq<Lot>, first: nat, second: nat, day: Day)
    requires AllPositive(lots) && Ordered(lots) && first + second <= TotalBefore(lots, day)
    requires lots != [] && 0 < first < lots[0].quantity && second > 0 && lots[0].acquired.Rank() < day.Rank()
    requires ReleaseLots([Remainder(lots[0], first)] + lots[1..], second, day).Released?
    requires ReleaseLots(lots, first + second, day).Released?
    ensures ReleaseLots([Remainder(lots[0], first)] + lots[1..], second, day).lots
            == ReleaseLots(lots, first + second, day).lots
  {
    hide Due;
    hide Part;
    var left := [Remainder(lots[0], first)] + lots[1..];
    assert left[1..] == lots[1..];
    if first + second < lots[0].quantity {
      RemainderOfRemainder(lots[0], first, second);
      assert ReleaseLots(left, second, day).lots == [Remainder(left[0], second)] + left[1..];
      assert ReleaseLots(lots, first + second, day).lots == [Remainder(lots[0], first + second)] + lots[1..];
    }
  }

  lemma RemainderOfRemainder(lot: Lot, first: nat, second: nat)
    requires first + second < lot.quantity
    ensures Remainder(Remainder(lot, first), second) == Remainder(lot, first + second)
  {
    var left := Remainder(lot, first);
    IncomeOfRemainder(lot, left, lot.incomeOld, left.incomeOld, first, second);
    IncomeOfRemainder(lot, left, lot.incomeNew, left.incomeNew, first, second);
  }

  lemma IncomeOfRemainder(lot: Lot, left: Lot, income: real, leftIncome: real, first: nat, second: nat)
    requires first + second < lot.quantity && left.quantity == lot.quantity - first
    requires leftIncome == income - Part(income, first, lot)
    ensures leftIncome - Part(leftIncome, second, left) == income - Part(income, first + second, lot)
  {
    hide Part;
    var each := income / lot.quantity as real;
    PerShareUnchanged(income, first, lot);
    PartIsPerShare(income, first, lot);
    PartIsPerShare(income, first + second, lot);
    PartIsPerShare(leftIncome, second, left);
    assert each * (first + second) as real == each * first as real + each * second as real;
  }

  // ---- income and final tax ----

  function ShareIncome(share: Share, base: Rule): real { if base.OldRule? then share.incomeOld else share.incomeNew }

  function SharesIncome(shares: seq<Share>, base: Rule): (income: real)
  {
    if shares == [] then 0.0 else ShareIncome(shares[0], base) + SharesIncome(shares[1..], base)
  }

  function SharesFinalTax(shares: seq<Share>, day: Day): (tax: real)
  {
    if shares == [] then 0.0
    else FinalTax(shares[0].acquired, day, shares[0].incomeOld, shares[0].incomeNew) + SharesFinalTax(shares[1..], day)
  }

  lemma {:induction false} SharesIncomeConcat(a: seq<Share>, b: seq<Share>, base: Rule)
    ensures SharesIncome(a + b, base) == SharesIncome(a, base) + SharesIncome(b, base)
  {
    if a == [] {
      assert a + b == b;
    } else {
      assert (a + b)[1..] == a[1..] + b;
      SharesIncomeConcat(a[1..], b, base);
    }
  }

  lemma {:induction false} SharesTaxIsFinalLessWithheld(shares: seq<Share>, day: Day)
    ensures SharesTax(shares, day) == SharesFinalTax(shares, day) - 0.05 * SharesIncome(shares, OldRule)
  {
    hide FinalTax;
    if shares == [] {
    } else {
      SharesTaxIsFinalLessWithheld(shares[1..], day);
    }
  }

  lemma {:induction false} CopiesIncome(share: Share, n: nat, base: Rule)
    ensures SharesIncome(Copies(share, n), base) == Times(ShareIncome(share, base), n)
  {
    hide Times;
    OneMoreTimes(ShareIncome(share, base), n - 1);
    if n == 0 {
    } else {
      assert Copies(share, n)[1..] == Copies(share, n - 1);
      CopiesIncome(share, n - 1, base);
    }
  }

  /** The lots and their single shares carry the same income, on either base. */
  lemma {:induction false} LotsAndSharesCarryTheSameIncome(lots: seq<Lot>, base: Rule)
    requires AllPositive(lots)
    ensures SharesIncome(Shares(lots), base) == IncomeOn(lots, base)
  {
    hide Copies;
    hide ShareOf;
    hide BaseIncome;
    if lots == [] {
    } else {
      LotsAndSharesCarryTheSameIncome(lots[1..], base);
      SharesIncomeConcat(Copies(ShareOf(lots[0]), lots[0].quantity), Shares(lots[1..]), base);
      LotIsItsShares(lots[0], base);
    }
  }

  lemma LotIsItsShares(lot: Lot, base: Rule)
    requires lot.quantity > 0
    ensures SharesIncome(Copies(ShareOf(lot), lot.quantity), base) == BaseIncome(lot, base)
  {
    hide Copies;
    hide SharesIncome;
    CopiesIncome(ShareOf(lot), lot.quantity, base);
    QuotientTimesItself(BaseIncome(lot, base), lot.quantity as real);
  }

  lemma QuotientTimesItself(x: real, q: real)
    requires q != 0.0
    ensures x / q * q == x
  {}

  /** Income released and income kept are the income before, on either base: what left the lots is what
      the shares sold carried. */
  lemma ReleaseConservesIncome(lots: seq<Lot>, quantity: nat, day: Day, base: Rule)
    requires AllPositive(lots) && Ordered(lots) && quantity <= TotalBefore(lots, day)
    ensures ReleaseLots(lots, quantity, day).Released? && quantity <= |Shares(lots)|
    ensures SharesIncome(Shares(lots)[..quantity], base) + IncomeOn(ReleaseLots(lots, quantity, day).lots, base)
            == IncomeOn(lots, base)
  {
    hide ReleaseLots;
    hide Shares;
    hide SharesTax;
    hide SharesIncome;
    hide IncomeOn;
    ReleaseIsTheShareQueue(lots, quantity, day);
    var release, shares := ReleaseLots(lots, quantity, day), Shares(lots);
    LotsAndSharesCarryTheSameIncome(lots, base);
    LotsAndSharesCarryTheSameIncome(release.lots, base);
    assert shares == shares[..quantity] + shares[quantity..];
    SharesIncomeConcat(shares[..quantity], shares[quantity..], base);
  }

  /** What a sale pays is the final tax of the shares it released, less the 5% their old income has
      paid already. */
  lemma ReleaseCompletesTheFinalTax(lots: seq<Lot>, quantity: nat, day: Day)
    requires AllPositive(lots) && Ordered(lots) && quantity <= TotalBefore(lots, day)
    ensures ReleaseLots(lots, quantity, day).Released? && quantity <= |Shares(lots)|
    ensures var sold := Shares(lots)[..quantity];
            ReleaseLots(lots, quantity, day).tax == SharesFinalTax(sold, day) - 0.05 * SharesIncome(sold, OldRule)
  {
    hide ReleaseLots;
    hide Shares;
    hide SharesTax;
    hide SharesFinalTax;
    hide SharesIncome;
    ReleaseIsTheShareQueue(lots, quantity, day);
    SharesTaxIsFinalLessWithheld(Shares(lots)[..quantity], day);
  }
}
