/** The buy lots of one held name: sized on ex-dates by running totals, released first in first out. */
module Lots {
  import opened Options
  import opened Calendar
  import opened DividendTax
  import opened ExDate

  datatype Lot = Lot(quantity: int, acquired: Day, incomeNew: real, incomeOld: real)

  /** The income on a lot that one rule taxes. */
  function BaseIncome(lot: Lot, base: Rule): real { if base.OldRule? then lot.incomeOld else lot.incomeNew }

  function IncomeOn(lots: seq<Lot>, base: Rule): (income: real)
  {
    if lots == [] then 0.0 else BaseIncome(lots[0], base) + IncomeOn(lots[1..], base)
  }

  function Total(lots: seq<Lot>): (n: int)
  {
    if lots == [] then 0 else lots[0].quantity + Total(lots[1..])
  }

  predicate AllPositive(lots: seq<Lot>) { forall i :: 0 <= i < |lots| ==> lots[i].quantity > 0 }

  predicate Ordered(lots: seq<Lot>)
  {
    forall i, j :: 0 <= i < j < |lots| ==> lots[i].acquired.Rank() <= lots[j].acquired.Rank()
  }

  predicate IncomesNonNegative(lots: seq<Lot>)
  {
    forall i :: 0 <= i < |lots| ==> lots[i].incomeNew >= 0.0 && lots[i].incomeOld >= 0.0
  }

  predicate AllBefore(lots: seq<Lot>, day: Day)
  {
    forall i :: 0 <= i < |lots| ==> lots[i].acquired.Rank() < day.Rank()
  }

  predicate AllBy(lots: seq<Lot>, day: Day)
  {
    forall i :: 0 <= i < |lots| ==> lots[i].acquired.Rank() <= day.Rank()
  }

  /** Shares in lots acquired before a day: what that day's sales may draw on. */
  function TotalBefore(lots: seq<Lot>, day: Day): (n: int)
  {
    if lots == [] then 0
    else (if lots[0].acquired.Rank() < day.Rank() then lots[0].quantity else 0) + TotalBefore(lots[1..], day)
  }

  lemma {:induction false} TotalConcat(a: seq<Lot>, b: seq<Lot>)
    ensures Total(a + b) == Total(a) + Total(b)
  {
    if a == [] {
      assert a + b == b;
    } else {
      assert (a + b)[1..] == a[1..] + b;
      TotalConcat(a[1..], b);
    }
  }

  lemma {:induction false} IncomeConcat(a: seq<Lot>, b: seq<Lot>, base: Rule)
    ensures IncomeOn(a + b, base) == IncomeOn(a, base) + IncomeOn(b, base)
  {
    if a == [] {
      assert a + b == b;
    } else {
      assert (a + b)[1..] == a[1..] + b;
      IncomeConcat(a[1..], b, base);
    }
  }

  lemma {:induction false} TotalBeforeConcat(a: seq<Lot>, b: seq<Lot>, day: Day)
    ensures TotalBefore(a + b, day) == TotalBefore(a, day) + TotalBefore(b, day)
  {
    if a == [] {
      assert a + b == b;
    } else {
      assert (a + b)[1..] == a[1..] + b;
      TotalBeforeConcat(a[1..], b, day);
    }
  }

  lemma {:induction false} TotalBeforeBounds(lots: seq<Lot>, day: Day)
    requires AllPositive(lots)
    ensures 0 <= TotalBefore(lots, day) <= Total(lots)
    ensures AllBefore(lots, day) ==> TotalBefore(lots, day) == Total(lots)
    ensures (forall i :: 0 <= i < |lots| ==> lots[i].acquired.Rank() >= day.Rank()) ==> TotalBefore(lots, day) == 0
  {
    if lots == [] {
    } else {
      TotalBeforeBounds(lots[1..], day);
    }
  }

  // ---- an ex-date ----

  function Credited(lot: Lot, income: real, oldRule: bool): (credited: Lot)
  {
    var received := lot.quantity as real * income;
    if oldRule then lot.(incomeOld := lot.incomeOld + received)
    else lot.(incomeNew := lot.incomeNew + received)
  }

  function Resized(held: int, quantity: int, ratio: Option<real>): (size: int)
  {
    match ratio
    case None => quantity
    case Some(r) => ExDateShares(held + quantity, r) - ExDateShares(held, r)
  }

  /** Every lot as the ex-date leaves it, those rounded to nothing included; `held` counts the
      shares of the lots before these. */
  function SettledFrom(lots: seq<Lot>, income: real, ratio: Option<real>, oldRule: bool, held: int): (settled: seq<Lot>)
  {
    if lots == [] then []
    else
      [Credited(lots[0], income, oldRule).(quantity := Resized(held, lots[0].quantity, ratio))]
      + SettledFrom(lots[1..], income, ratio, oldRule, held + lots[0].quantity)
  }

  function KeptOf(settled: seq<Lot>): (kept: seq<Lot>)
  {
    if settled == [] then []
    else (if settled[0].quantity > 0 then [settled[0]] else []) + KeptOf(settled[1..])
  }

  function DroppedOf(settled: seq<Lot>): (dropped: seq<Lot>)
  {
    if settled == [] then []
    else (if settled[0].quantity > 0 then [] else [settled[0]]) + DroppedOf(settled[1..])
  }

  function SettleLots(lots: seq<Lot>, income: real, ratio: Option<real>, oldRule: bool): (kept: seq<Lot>)
  {
    KeptOf(SettledFrom(lots, income, ratio, oldRule, 0))
  }

  /** A lot's new end on the running total is what all shares up to it become, so the sizes
      telescope: any leading part of the lots adds up to the ex-date shares of that part. */
  lemma {:induction false} SizesTelescope(lots: seq<Lot>, income: real, ratio: real, oldRule: bool, held: int, k: nat)
    requires k <= |lots|
    ensures |SettledFrom(lots, income, Some(ratio), oldRule, held)| == |lots|
    ensures Total(SettledFrom(lots, income, Some(ratio), oldRule, held)[..k])
            == ExDateShares(held + Total(lots[..k]), ratio) - ExDateShares(held, ratio)
  {
    hide ExDateShares;
    var settled := SettledFrom(lots, income, Some(ratio), oldRule, held);
    if lots == [] {
      assert settled[..k] == [] && lots[..k] == [];
    } else if k == 0 {
      SizesTelescope(lots[1..], income, ratio, oldRule, held + lots[0].quantity, 0);
      assert settled[..k] == [] && lots[..k] == [];
    } else {
      SizesTelescope(lots[1..], income, ratio, oldRule, held + lots[0].quantity, k - 1);
      assert settled[..k] == [settled[0]] + settled[1..][..k - 1];
      assert lots[..k] == [lots[0]] + lots[1..][..k - 1];
      assert settled[1..] == SettledFrom(lots[1..], income, Some(ratio), oldRule, held + lots[0].quantity);
      assert Total(settled[..k]) == settled[0].quantity + Total(settled[1..][..k - 1]);
      assert Total(lots[..k]) == lots[0].quantity + Total(lots[1..][..k - 1]);
    }
  }

  /** Each settled lot is its own old lot, credited on the shares it had and resized on the running
      total of the lots before it. */
  lemma {:induction false} SettledLotByLot(lots: seq<Lot>, income: real, ratio: Option<real>, oldRule: bool, held: int,
                                           i: nat)
    requires i < |lots|
    ensures |SettledFrom(lots, income, ratio, oldRule, held)| == |lots|
    ensures SettledFrom(lots, income, ratio, oldRule, held)[i]
            == Credited(lots[i], income, oldRule).(quantity := Resized(held + Total(lots[..i]), lots[i].quantity,
                    ratio))
  {
    hide Resized;
    hide Credited;
    SettledHasEveryLot(lots, income, ratio, oldRule, held);
    if i == 0 {
      assert lots[..0] == [];
    } else {
      SettledLotByLot(lots[1..], income, ratio, oldRule, held + lots[0].quantity, i - 1);
      assert lots[..i] == [lots[0]] + lots[1..][..i - 1];
    }
  }

  lemma ResizedIsNonNegative(held: int, quantity: int, ratio: Option<real>)
    requires quantity >= 0 && (ratio.Some? ==> ratio.value > 0.0)
    ensures Resized(held, quantity, ratio) >= 0
  {
    hide ExDateShares;
    if ratio.Some? {
      SharesGrowWithTheHolding(held, held + quantity, ratio.value);
    }
  }

  lemma CreditedKeepsIncomesNonNegative(lot: Lot, income: real, oldRule: bool)
    requires lot.quantity >= 0 && income >= 0.0 && lot.incomeNew >= 0.0 && lot.incomeOld >= 0.0
    ensures Credited(lot, income, oldRule).incomeNew >= 0.0 && Credited(lot, income, oldRule).incomeOld >= 0.0
  {
    assert lot.quantity as real * income >= 0.0;
  }

  /** Dropping the lots rounded to nothing keeps the shares. */
  lemma {:induction false} DroppingKeepsTheShares(settled: seq<Lot>)
    requires forall i :: 0 <= i < |settled| ==> settled[i].quantity >= 0
    ensures Total(KeptOf(settled)) == Total(settled)
    ensures AllPositive(KeptOf(settled))
  {
    if settled == [] {
    } else {
      DroppingKeepsTheShares(settled[1..]);
      var kept := if settled[0].quantity > 0 then [settled[0]] else [];
      TotalConcat(kept, KeptOf(settled[1..]));
      OneLot(settled[0], OldRule);
    }
  }

  /** Each base's income splits between the lots kept and the lots dropped. */
  lemma {:induction false} KeptAndDroppedIncome(settled: seq<Lot>, base: Rule)
    ensures IncomeOn(settled, base) == IncomeOn(KeptOf(settled), base) + IncomeOn(DroppedOf(settled), base)
  {
    if settled == [] {
    } else {
      KeptAndDroppedIncome(settled[1..], base);
      var kept := if settled[0].quantity > 0 then [settled[0]] else [];
      var dropped := if settled[0].quantity > 0 then [] else [settled[0]];
      IncomeConcat(kept, KeptOf(settled[1..]), base);
      IncomeConcat(dropped, DroppedOf(settled[1..]), base);
      OneLot(settled[0], base);
    }
  }

  lemma OneLot(lot: Lot, base: Rule)
    ensures IncomeOn([lot], base) == BaseIncome(lot, base) && IncomeOn([], base) == 0.0
    ensures Total([lot]) == lot.quantity && Total([]) == 0
  {
    assert [lot][1..] == [];
  }

  lemma {:induction false} KeptAreSettled(settled: seq<Lot>)
    ensures forall i :: 0 <= i < |KeptOf(settled)| ==> KeptOf(settled)[i] in settled
  {
    if settled == [] {
    } else {
      KeptAreSettled(settled[1..]);
      assert settled[0] in settled && forall lot :: lot in settled[1..] ==> lot in settled;
    }
  }

  lemma {:induction false} KeptStayOrdered(settled: seq<Lot>)
    requires Ordered(settled)
    ensures Ordered(KeptOf(settled))
  {
    if settled == [] {
    } else {
      KeptStayOrdered(settled[1..]);
      KeptAreSettled(settled[1..]);
      var rest := KeptOf(settled[1..]);
      forall j | 0 <= j < |rest|
        ensures settled[0].acquired.Rank() <= rest[j].acquired.Rank()
      {
        var k :| 0 <= k < |settled[1..]| && settled[1..][k] == rest[j];
        assert settled[k + 1] == rest[j];
      }
    }
  }

  /** What holds of every settled lot, its date and its incomes, holds of the lots kept. */
  lemma KeptInherit(settled: seq<Lot>, day: Day)
    ensures Ordered(settled) ==> Ordered(KeptOf(settled))
    ensures AllBefore(settled, day) ==> AllBefore(KeptOf(settled), day)
    ensures IncomesNonNegative(settled) ==> IncomesNonNegative(KeptOf(settled))
  {
    hide KeptOf;
    KeptAreSettled(settled);
    if Ordered(settled) {
      KeptStayOrdered(settled);
    }
  }

  /** An ex-date leaves the lots positive, in order, no younger, and adding up to the whole shares
      the holding became. */
  lemma SettleKeepsTheLots(lots: seq<Lot>, income: real, ratio: Option<real>, oldRule: bool, day: Day)
    requires AllPositive(lots) && (ratio.Some? ==> ratio.value > 0.0)
    ensures var kept := SettleLots(lots, income, ratio, oldRule);
            && AllPositive(kept)
            && Total(kept) == (if ratio.Some? then ExDateShares(Total(lots), ratio.value) else Total(lots))
            && (Ordered(lots) ==> Ordered(kept))
            && (AllBefore(lots, day) ==> AllBefore(kept, day))
            && (income >= 0.0 && IncomesNonNegative(lots) ==> IncomesNonNegative(kept))
  {
    hide ExDateShares;
    hide SettledFrom;
    SettledTotal(lots, income, ratio, oldRule);
    SettledLots(lots, income, ratio, oldRule);
    DroppingKeepsTheShares(SettledFrom(lots, income, ratio, oldRule, 0));
    KeptInherit(SettledFrom(lots, income, ratio, oldRule, 0), day);
  }

  lemma SettledLots(lots: seq<Lot>, income: real, ratio: Option<real>, oldRule: bool)
    requires AllPositive(lots) && (ratio.Some? ==> ratio.value > 0.0)
    ensures var settled := SettledFrom(lots, income, ratio, oldRule, 0);
            && |settled| == |lots|
            && (forall i :: 0 <= i < |lots| ==> settled[i].acquired == lots[i].acquired && settled[i].quantity >= 0)
            && (income >= 0.0 && IncomesNonNegative(lots) ==> IncomesNonNegative(settled))
  {
    hide Resized;
    hide ExDateShares;
    var settled := SettledFrom(lots, income, ratio, oldRule, 0);
    SettledHasEveryLot(lots, income, ratio, oldRule, 0);
    forall i | 0 <= i < |lots|
      ensures settled[i].acquired == lots[i].acquired && settled[i].quantity >= 0
      ensures income >= 0.0 && IncomesNonNegative(lots) ==> settled[i].incomeOld >= 0.0 && settled[i].incomeNew >= 0.0
    {
      SettledLotByLot(lots, income, ratio, oldRule, 0, i);
      ResizedIsNonNegative(Total(lots[..i]), lots[i].quantity, ratio);
      if income >= 0.0 && IncomesNonNegative(lots) {
        CreditedKeepsIncomesNonNegative(lots[i], income, oldRule);
      }
    }
  }

  lemma SettledTotal(lots: seq<Lot>, income: real, ratio: Option<real>, oldRule: bool)
    ensures Total(SettledFrom(lots, income, ratio, oldRule, 0))
            == (if ratio.Some? then ExDateShares(Total(lots), ratio.value) else Total(lots))
  {
    hide ExDateShares;
    var settled := SettledFrom(lots, income, ratio, oldRule, 0);
    SettledHasEveryLot(lots, income, ratio, oldRule, 0);
    match ratio
    case Some(r) =>
      SizesTelescope(lots, income, r, oldRule, 0, |lots|);
      NoSharesStayNone(r);
      assert settled[..|lots|] == settled && lots[..|lots|] == lots;
    case None =>
      UnscaledTotal(lots, income, oldRule, 0);
  }

  lemma {:induction false} SettledHasEveryLot(lots: seq<Lot>, income: real, ratio: Option<real>, oldRule: bool,
                                              held: int)
    ensures |SettledFrom(lots, income, ratio, oldRule, held)| == |lots|
  {
    if lots == [] {
    } else {
      SettledHasEveryLot(lots[1..], income, ratio, oldRule, held + lots[0].quantity);
    }
  }

  lemma {:induction false} UnscaledTotal(lots: seq<Lot>, income: real, oldRule: bool, held: int)
    ensures Total(SettledFrom(lots, income, None, oldRule, held)) == Total(lots)
  {
    if lots == [] {
    } else {
      UnscaledTotal(lots[1..], income, oldRule, held + lots[0].quantity);
    }
  }

  /** The base an ex-date credits. */
  function BaseOf(oldRule: bool): Rule { if oldRule then OldRule else NewRule }

  /** What an ex-date pays on so many shares. */
  function Payment(shares: int, income: real): real { shares as real * income }

  /** What the lots are credited on the rule's base is the income of all their shares together; the
      other base stays. */
  lemma {:induction false} CreditedIncome(lots: seq<Lot>, income: real, ratio: Option<real>, oldRule: bool, held: int,
                                          base: Rule)
    ensures IncomeOn(SettledFrom(lots, income, ratio, oldRule, held), base)
            == IncomeOn(lots, base) + (if base == BaseOf(oldRule) then Payment(Total(lots), income) else 0.0)
  {
    hide Resized;
    if lots == [] {
      assert Payment(0, income) == 0.0;
    } else {
      hide Credited;
      CreditedIncome(lots[1..], income, ratio, oldRule, held + lots[0].quantity, base);
      CreditedBase(lots[0], income, oldRule, Resized(held, lots[0].quantity, ratio), base);
      Distribute(lots[0].quantity as real, Total(lots[1..]) as real, income);
      FirstSettled(lots, income, ratio, oldRule, held);
    }
  }

  lemma CreditedBase(lot: Lot, income: real, oldRule: bool, size: int, base: Rule)
    ensures BaseIncome(Credited(lot, income, oldRule).(quantity := size), base)
            == BaseIncome(lot, base) + if base == BaseOf(oldRule) then lot.quantity as real * income else 0.0
  {}

  lemma FirstSettled(lots: seq<Lot>, income: real, ratio: Option<real>, oldRule: bool, held: int)
    requires lots != []
    ensures var settled := SettledFrom(lots, income, ratio, oldRule, held);
            && settled != []
            && settled[0] == Credited(lots[0], income, oldRule).(quantity := Resized(held, lots[0].quantity, ratio))
            && settled[1..] == SettledFrom(lots[1..], income, ratio, oldRule, held + lots[0].quantity)
  {
    hide Resized;
    hide Credited;
  }

  /** The income ledger across an ex-date, base by base: what is on the lots after it, plus what the
      lots dropped take with them, is what was there before plus what the ex-date paid on all shares. */
  lemma SettleConservesIncome(lots: seq<Lot>, income: real, ratio: Option<real>, oldRule: bool, base: Rule)
    ensures IncomeOn(SettleLots(lots, income, ratio, oldRule), base)
            + IncomeOn(DroppedOf(SettledFrom(lots, income, ratio, oldRule, 0)), base)
            == IncomeOn(lots, base) + (if base == BaseOf(oldRule) then Payment(Total(lots), income) else 0.0)
  {
    hide SettledFrom;
    hide IncomeOn;
    hide Payment;
    KeptAndDroppedIncome(SettledFrom(lots, income, ratio, oldRule, 0), base);
    CreditedIncome(lots, income, ratio, oldRule, 0, base);
  }
}
