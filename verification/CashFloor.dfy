/** How far the cash can fall: only a sale whose fees and tax exceed its proceeds takes it below zero. */
module CashFloor {
  import opened Options
  import opened Sums
  import opened Calendar
  import opened LotRules
  import opened OrderGates
  import opened Account
  import opened Ledger
  import opened Conservation
  import opened IncomeLedger
  import opened AccountRuns

  const CASH_TOLERANCE := 0.000000001

  /** What a sale cost beyond what it brought in: its fees and tax are charged whatever its proceeds. */
  function LossOf(e: Execution): (loss: real)
    ensures loss <= 0.0
  {
    if e.order.action.Sell? && CashFlowOf(e) < 0.0 then CashFlowOf(e) else 0.0
  }

  lemma {:induction false} LossesAreNotPositive(executions: seq<Execution>)
    ensures Sum(executions, LossOf) <= 0.0
    ensures (forall e :: e in executions ==> LossOf(e) == 0.0) ==> Sum(executions, LossOf) == 0.0
  {
    hide LossOf;
    if executions == [] {
    } else {
      LossesAreNotPositive(executions[1..]);
      assert executions[0] in executions && forall e :: e in executions[1..] ==> e in executions;
    }
  }

  lemma {:induction false} OpeningNeverOverdraws(profile: Profile, a: State, i: nat, bars: map<string, Bar>,
                                                 feed: Feed, floor: real)
    requires Valid(profile, a) && i <= |a.book| && a.day.Some? && OpenFrom(profile, a, i, bars, feed).Done?
    requires a.cash >= floor && -CASH_TOLERANCE >= floor
    ensures OpenFrom(profile, a, i, bars, feed).value.cash >= floor
    ensures OpenFrom(profile, a, i, bars, feed).value.executions == a.executions
    decreases |a.book| - i
  {
    hide PlanExDate;
    hide LotsBackTheBook;
    hide BoardOf;
    if i == |a.book| {
    } else {
      OpenPositionKeepsValid(profile, a, i, bars, feed);
      OpeningNeverOverdraws(profile, OpenPosition(profile, a, i, bars, feed).value, i + 1, bars, feed, floor);
    }
  }

  lemma OpenDayNeverOverdraws(profile: Profile, a: State, day: Day, bars: map<string, Bar>, feed: Feed, floor: real)
    requires Valid(profile, a) && OpenDay(profile, a, day, bars, feed).Done?
    requires a.cash >= floor && -CASH_TOLERANCE >= floor
    ensures OpenDay(profile, a, day, bars, feed).value.cash >= floor
    ensures OpenDay(profile, a, day, bars, feed).value.executions == a.executions
  {
    hide OpenFrom;
    hide BoardOf;
    if a.day != Some(day) {
      OpeningNeverOverdraws(profile, a.(day := Some(day)), 0, bars, feed, floor);
    }
  }

  lemma OrdersOverdrawByTheirLoss(profile: Profile, a: State, order: Order, bar: Option<Bar>, raw: Option<real>,
                                  floor: real)
    requires Valid(profile, a) && Execute(profile, a, order, bar, raw).Done?
    requires a.cash >= floor && -CASH_TOLERANCE >= floor
    ensures var b := Execute(profile, a, order, bar, raw).value;
            && |b.executions| == |a.executions| + 1 && b.executions[..|a.executions|] == a.executions
            && b.cash >= floor + LossOf(b.executions[|a.executions|])
  {
    hide FillPrice;
    hide RejectReason;
    hide ReleaseFor;
    hide SoldBook;
    hide BoughtPosition;
    hide LotsBackTheBook;
    hide BoardOf;
    hide Notional;
    hide Profile.TradeFee;
    hide Profile.StampDuty;
  }

  lemma StepOverdrawsByItsLoss(profile: Profile, a: State, e: Event)
    requires Valid(profile, a) && Step(profile, a, e).Done? && a.cash >= -CASH_TOLERANCE + Sum(a.executions, LossOf)
    ensures Step(profile, a, e).value.cash >= -CASH_TOLERANCE + Sum(Step(profile, a, e).value.executions, LossOf)
  {
    hide OpenDay;
    hide Execute;
    hide LossOf;
    hide Sum;
    hide LotsBackTheBook;
    hide BoardOf;
    LossesAreNotPositive(a.executions);
    var floor := -CASH_TOLERANCE + Sum(a.executions, LossOf);
    match e
    case EnterDay(day, bars, feed) =>
      OpenDayNeverOverdraws(profile, a, day, bars, feed, floor);
    case Place(order, bar, raw) =>
      OrdersOverdrawByTheirLoss(profile, a, order, bar, raw, floor);
      var executions := Execute(profile, a, order, bar, raw).value.executions;
      assert executions == a.executions + [executions[|a.executions|]];
      SumAppend(a.executions, executions[|a.executions|], LossOf);
    case MarkTo(_) =>
  }

  /** Over every run, only losing sales take the cash below zero, and no further than their losses. */
  lemma {:induction false} OnlyLosingSalesOverdraw(profile: Profile, events: seq<Event>)
    requires profile.Valid() && Run(profile, events).Done?
    ensures var a := Run(profile, events).value; a.cash >= -CASH_TOLERANCE + Sum(a.executions, LossOf)
    decreases |events|
  {
    if events == [] {
    } else {
      hide Step;
      hide LossOf;
      hide Sum;
      OnlyLosingSalesOverdraw(profile, events[..|events| - 1]);
      StepOverdrawsByItsLoss(profile, Before(profile, events), events[|events| - 1]);
    }
  }

  /** So a run in which no sale lost money keeps the cash at zero, to the tolerance. */
  lemma WithoutLosingSalesNothingOverdraws(profile: Profile, events: seq<Event>)
    requires profile.Valid() && Run(profile, events).Done?
    requires forall e :: e in Run(profile, events).value.executions ==> LossOf(e) == 0.0
    ensures Run(profile, events).value.cash >= -CASH_TOLERANCE
  {
    OnlyLosingSalesOverdraw(profile, events);
    LossesAreNotPositive(Run(profile, events).value.executions);
  }

  lemma RecordsItsOrder(profile: Profile, a: State, order: Order, bar: Option<Bar>, raw: Option<real>)
    requires Valid(profile, a) && Execute(profile, a, order, bar, raw).Done?
    ensures var executions := Execute(profile, a, order, bar, raw).value.executions;
            |executions| == |a.executions| + 1 && executions[..|a.executions|] == a.executions
            && executions[|a.executions|].order == order
  {
    hide FillPrice;
    hide RejectReason;
    hide ReleaseFor;
    hide SoldBook;
    hide BoughtPosition;
    hide RequiredCash;
    hide LotsBackTheBook;
    hide BoardOf;
  }

  lemma {:induction false} NoSalesPlacedNoneRecorded(profile: Profile, events: seq<Event>)
    requires profile.Valid() && Run(profile, events).Done?
    requires forall i :: 0 <= i < |events| && events[i].Place? ==> events[i].order.action.Buy?
    ensures forall e :: e in Run(profile, events).value.executions ==> e.order.action.Buy?
    decreases |events|
  {
    if events == [] {
    } else {
      hide OpenDay;
      hide Execute;
      hide LotsBackTheBook;
      hide BoardOf;
      var a := Before(profile, events);
      NoSalesPlacedNoneRecorded(profile, events[..|events| - 1]);
      match events[|events| - 1]
      case EnterDay(day, bars, feed) => OpenDayNeverOverdraws(profile, a, day, bars, feed, Lower(a.cash));
      case Place(order, bar, raw) =>
        RecordsItsOrder(profile, a, order, bar, raw);
        var executions := Execute(profile, a, order, bar, raw).value.executions;
        assert executions == a.executions + [executions[|a.executions|]];
      case MarkTo(_) =>
    }
  }

  /** Some floor under a cash balance, at or below the tolerance. */
  function Lower(cash: real): (floor: real)
    ensures floor <= cash && floor <= -CASH_TOLERANCE
  {
    if cash < -CASH_TOLERANCE then cash else -CASH_TOLERANCE
  }

  /** And so does a run that places no sale. */
  lemma WithoutSalesNothingOverdraws(profile: Profile, events: seq<Event>)
    requires profile.Valid() && Run(profile, events).Done?
    requires forall i :: 0 <= i < |events| && events[i].Place? ==> events[i].order.action.Buy?
    ensures Run(profile, events).value.cash >= -CASH_TOLERANCE
  {
    NoSalesPlacedNoneRecorded(profile, events);
    WithoutLosingSalesNothingOverdraws(profile, events);
  }

  // ---- exactly when ----

  /** The guard the sale branch lacks: what the order would bring in does not cover its fees, its duty and
      its tax, and the cash does not make up the difference. */
  ghost predicate Overdraws(profile: Profile, a: State, order: Order, bar: Option<Bar>, raw: Option<real>)
  {
    FillsSale(profile, a, order, bar, raw) && a.day.Some? && ReleaseFor(profile, a, order).Done?
    && var notional := Notional(order, FillPrice(profile, order, bar.value, raw.value).price);
       a.cash + notional + CASH_TOLERANCE
       < profile.TradeFee(notional) + profile.StampDuty(notional, a.day.value) + ReleaseFor(profile, a, order).value.tax
  }

  /** From cash at or above the tolerance, an order that goes through leaves it below exactly when it is a
      sale that overdraws. */
  lemma OrderOverdrawsExactlyWhen(profile: Profile, a: State, order: Order, bar: Option<Bar>, raw: Option<real>)
    requires Valid(profile, a) && a.cash >= -CASH_TOLERANCE && Execute(profile, a, order, bar, raw).Done?
    ensures Execute(profile, a, order, bar, raw).value.cash < -CASH_TOLERANCE <==>
              Overdraws(profile, a, order, bar, raw)
  {
    hide FillPrice;
    hide RejectReason;
    hide ReleaseFor;
    hide SoldBook;
    hide BoughtPosition;
    hide LotsBackTheBook;
    hide BoardOf;
    hide Notional;
    hide Profile.TradeFee;
    hide Profile.StampDuty;
  }

  /** The state a run is in before event `k`, and at its end. */
  ghost function StateAt(profile: Profile, events: seq<Event>, k: nat): (a: State)
    requires profile.Valid() && Run(profile, events).Done? && k <= |events|
    ensures Run(profile, events[..k]) == Done(a) && Valid(profile, a)
    decreases |events|
  {
    if k == |events| then
      assert events[..k] == events;
      Run(profile, events).value
    else
      assert events[..|events| - 1][..k] == events[..k];
      var _ := Before(profile, events);
      StateAt(profile, events[..|events| - 1], k)
  }

  ghost predicate NeverBelow(profile: Profile, events: seq<Event>)
    requires profile.Valid() && Run(profile, events).Done?
  {
    forall k :: 0 <= k <= |events| ==> StateAt(profile, events, k).cash >= -CASH_TOLERANCE
  }

  ghost predicate NoSaleOverdraws(profile: Profile, events: seq<Event>)
    requires profile.Valid() && Run(profile, events).Done?
  {
    forall k :: 0 <= k < |events| && events[k].Place? ==>
      !Overdraws(profile, StateAt(profile, events, k), events[k].order, events[k].bar, events[k].raw)
  }

  lemma NeverBelowSplits(profile: Profile, events: seq<Event>)
    requires profile.Valid() && Run(profile, events).Done? && events != []
    ensures Run(profile, events[..|events| - 1]).Done?
    ensures NeverBelow(profile, events) <==>
              NeverBelow(profile, events[..|events| - 1]) && Run(profile, events).value.cash >= -CASH_TOLERANCE
  {
    hide Run;
    var before, n := events[..|events| - 1], |events| - 1;
    var _ := Before(profile, events);
    assert events[..|events|] == events;
    forall k | 0 <= k <= n
      ensures StateAt(profile, before, k) == StateAt(profile, events, k)
    {
      assert before[..k] == events[..k];
    }
    assert StateAt(profile, events, |events|) == Run(profile, events).value;
  }

  lemma NoSaleOverdrawsSplits(profile: Profile, events: seq<Event>)
    requires profile.Valid() && Run(profile, events).Done? && events != []
    ensures Run(profile, events[..|events| - 1]).Done?
    ensures var last := events[|events| - 1];
            NoSaleOverdraws(profile, events) <==>
              && NoSaleOverdraws(profile, events[..|events| - 1])
              && (last.Place? ==> !Overdraws(profile, Before(profile, events), last.order, last.bar, last.raw))
  {
    hide Run;
    hide Overdraws;
    var before, n := events[..|events| - 1], |events| - 1;
    var a := Before(profile, events);
    assert StateAt(profile, events, n) == a;
    forall k | 0 <= k < n
      ensures StateAt(profile, before, k) == StateAt(profile, events, k) && before[k] == events[k]
    {
      assert before[..k] == events[..k];
    }
  }

  lemma StepOverdrawsExactlyWhen(profile: Profile, a: State, e: Event)
    requires Valid(profile, a) && a.cash >= -CASH_TOLERANCE && Step(profile, a, e).Done?
    ensures Step(profile, a, e).value.cash < -CASH_TOLERANCE <==>
              e.Place? && Overdraws(profile, a, e.order, e.bar, e.raw)
  {
    hide OpenDay;
    hide Execute;
    hide Overdraws;
    hide LotsBackTheBook;
    hide BoardOf;
    match e
    case EnterDay(day, bars, feed) => OpenDayNeverOverdraws(profile, a, day, bars, feed, -CASH_TOLERANCE);
    case Place(order, bar, raw) => OrderOverdrawsExactlyWhen(profile, a, order, bar, raw);
    case MarkTo(_) =>
  }

  /** Over every run, the cash is never below zero by more than the tolerance exactly when no sale is
      placed that overdraws the account as it then stands. */
  lemma {:induction false} CashStaysExactlyWhenNoSaleOverdraws(profile: Profile, events: seq<Event>)
    requires profile.Valid() && Run(profile, events).Done?
    ensures NeverBelow(profile, events) <==> NoSaleOverdraws(profile, events)
    decreases |events|
  {
    if events == [] {
      assert StateAt(profile, events, 0).cash == profile.initialCash;
    } else {
      hide Step;
      hide Overdraws;
      hide NeverBelow;
      hide NoSaleOverdraws;
      var before := events[..|events| - 1];
      var a := Before(profile, events);
      CashStaysExactlyWhenNoSaleOverdraws(profile, before);
      NeverBelowSplits(profile, events);
      NoSaleOverdrawsSplits(profile, events);
      if NeverBelow(profile, before) {
        NeverBelowAtTheEnd(profile, before);
        StepOverdrawsExactlyWhen(profile, a, events[|events| - 1]);
      }
    }
  }

  lemma NeverBelowAtTheEnd(profile: Profile, events: seq<Event>)
    requires profile.Valid() && Run(profile, events).Done? && NeverBelow(profile, events)
    ensures Run(profile, events).value.cash >= -CASH_TOLERANCE
  {
    assert events[..|events|] == events;
    assert StateAt(profile, events, |events|).cash >= -CASH_TOLERANCE;
  }

  // ---- a sale that overdraws ----

  const PENNY := "600000.SH"

  lemma PennyTakesTheOrdinaryLadder()
    ensures !IsStarMarket(PENNY) && !IsBseMarket(PENNY) && BuyLotAllowed(100, PENNY)
  {
    var code := Upper(PENNY);
    assert code[..3][1] == '0' && "688"[1] == '8' && "689"[1] == '8';
    assert code[|code| - 3..][1] == 'S' && ".BJ"[1] == 'B';
  }

  // A hundred shares at a cent, bought and sold under a minimum commission of five.
  const PENNY_PROFILE := Profile(7.0, 0.0, 5.0, 0.0, 0.0, 0.0, 0.0, None, None, false, None)
  const PENNY_BAR := Bar(Some(0.01), Some(0.01), Some(0.01), Some(0.01), Some(0.01), None, None, Some(1.0),
                         Some(0.001), false)
  const PENNY_RUN := [
    EnterDay(Date(2024, 1, 2), map[], Feed(None, None)),
    Place(PENNY_BUY, Some(PENNY_BAR), Some(0.01)),
    EnterDay(Date(2024, 1, 3), map[], Feed(None, None)),
    Place(PENNY_SALE, Some(PENNY_BAR), Some(0.01))
  ]

  const PENNY_BUY := Order(PENNY, Buy, 100, None, None)
  const PENNY_SALE := Order(PENNY, Sell, 100, None, None)
  const PENNY_STATES := [
    Opening(PENNY_PROFILE).(day := Some(Date(2024, 1, 2))),
    State(1.0, [Position(PENNY, 100, 0, 0.06, 0.01)], map[], [Filled(PENNY_BUY, 0.01, 5.0, 0.0, 0.0, None)], [],
          Some(Date(2024, 1, 2))),
    State(1.0, [Position(PENNY, 100, 100, 0.06, 0.01)], map[], [Filled(PENNY_BUY, 0.01, 5.0, 0.0, 0.0, None)], [],
          Some(Date(2024, 1, 3)))
  ]

  lemma PennyBuy()
    ensures Step(PENNY_PROFILE, PENNY_STATES[0], PENNY_RUN[1]) == Done(PENNY_STATES[1])
  {
    PennyTakesTheOrdinaryLadder();
    hide BuyLotAllowed;
    hide IsStarMarket;
    hide IsBseMarket;
    var profile, a := PENNY_PROFILE, PENNY_STATES[0];
    assert Find(a.book, PENNY) == 0;
    assert RejectReason(profile, a, PENNY_BUY, Some(PENNY_BAR), Some(0.01)).None?;
    assert FillPrice(profile, PENNY_BUY, PENNY_BAR, 0.01) == FilledAt(0.01);
    assert Notional(PENNY_BUY, 0.01) == 1.0 && profile.TradeFee(1.0) == 5.0 &&
        RequiredCash(profile, PENNY_BUY, 0.01) == 6.0;
    assert BuyShares(profile, a, PENNY_BUY, 0.01) == PENNY_STATES[1];
  }

  lemma PennyDay()
    ensures Step(PENNY_PROFILE, PENNY_STATES[1], PENNY_RUN[2]) == Done(PENNY_STATES[2])
  {
    var profile, a, b := PENNY_PROFILE, PENNY_STATES[1].(day := Some(Date(2024, 1, 3))), PENNY_STATES[2];
    assert Unlock(a, 0) == b;
    assert OpenFrom(profile, b, 1, map[], Feed(None, None)) == Done(b);
    assert OpenFrom(profile, a, 0, map[], Feed(None, None)) == Done(b);
  }

  lemma PennySale()
    ensures Step(PENNY_PROFILE, PENNY_STATES[2], PENNY_RUN[3]).Done?
    ensures Step(PENNY_PROFILE, PENNY_STATES[2], PENNY_RUN[3]).value.cash == -3.0
  {
    PennyTakesTheOrdinaryLadder();
    hide IsStarMarket;
    hide IsBseMarket;
    var profile, a := PENNY_PROFILE, PENNY_STATES[2];
    assert Find(a.book, PENNY) == 0;
    assert RejectReason(profile, a, PENNY_SALE, Some(PENNY_BAR), Some(0.01)).None?;
    assert FillPrice(profile, PENNY_SALE, PENNY_BAR, 0.01) == FilledAt(0.01);
    assert Notional(PENNY_SALE, 0.01) == 1.0 && profile.TradeFee(1.0) == 5.0;
  }

  /** Such sales are real: this run ends three below zero. */
  lemma ALosingSaleOverdraws()
    ensures PENNY_PROFILE.Valid() && Run(PENNY_PROFILE, PENNY_RUN).Done? &&
            Run(PENNY_PROFILE, PENNY_RUN).value.cash == -3.0
  {
    hide Execute;
    hide OpenFrom;
    hide Step;
    var profile := PENNY_PROFILE;
    FirstPennyDay();
    PennyBuy();
    PennyDay();
    PennySale();
    assert PENNY_RUN[..4] == PENNY_RUN;
    assert PENNY_RUN[..4][..3] == PENNY_RUN[..3] && PENNY_RUN[..3][..2] == PENNY_RUN[..2] &&
        PENNY_RUN[..2][..1] == PENNY_RUN[..1];
    assert PENNY_RUN[..1][..0] == [];
    assert Run(profile, []) == Done(Opening(profile));
    assert Run(profile, PENNY_RUN[..1]) == Done(PENNY_STATES[0]);
    assert Run(profile, PENNY_RUN[..2]) == Done(PENNY_STATES[1]);
    assert Run(profile, PENNY_RUN[..3]) == Done(PENNY_STATES[2]);
  }

  lemma FirstPennyDay()
    ensures Step(PENNY_PROFILE, Opening(PENNY_PROFILE), PENNY_RUN[0]) == Done(PENNY_STATES[0])
  {}
}
