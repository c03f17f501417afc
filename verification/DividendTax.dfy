/** Individual dividend tax: the record date fixes the rule, the holding period its final rate. */
module DividendTax {
  import opened Options
  import opened Calendar

  const FIRST_SUPPORTED := "20130101"
  const CUTOVER := "20150908"

  datatype Rule = OldRule | NewRule {
    function WithholdingRate(): real { if OldRule? then 0.05 else 0.0 }
    function RateBeyond(): real { if OldRule? then 0.05 else 0.0 }
  }

  const TIERS: seq<(nat, real)> := [(1, 0.20), (12, 0.10)]

  /** None where the source refuses the date. */
  function RuleFor(recordDate: string): (rule: Option<Rule>)
  {
    if ParseDay(recordDate).None? || TextBefore(recordDate, FIRST_SUPPORTED) then None
    else if TextBefore(recordDate, CUTOVER) then Some(OldRule)
    else Some(NewRule)
  }

  lemma RuleFollowsTheCalendar(recordDate: string)
    requires ParseDay(recordDate).Some?
    ensures var day := ParseDay(recordDate).value;
            && (RuleFor(recordDate).None? <==> day.year < 2013)
            && (RuleFor(recordDate) == Some(OldRule) <==>
                2013 <= day.year && day.Rank() < Date(2015, 9, 8).Rank())
  {
    CutoffDays();
    TextOrderIsCalendarOrder(recordDate, FIRST_SUPPORTED);
    TextOrderIsCalendarOrder(recordDate, CUTOVER);
    RankIsTheCalendarOrder(ParseDay(recordDate).value, Date(2013, 1, 1));
  }

  lemma CutoffDays()
    ensures ParseDay(FIRST_SUPPORTED) == Some(Date(2013, 1, 1))
    ensures ParseDay(CUTOVER) == Some(Date(2015, 9, 8))
  {
    NumberOfFour(FIRST_SUPPORTED[..4]);
    NumberOfTwo(FIRST_SUPPORTED[4..6]);
    NumberOfTwo(FIRST_SUPPORTED[6..8]);
    NumberOfFour(CUTOVER[..4]);
    NumberOfTwo(CUTOVER[4..6]);
    NumberOfTwo(CUTOVER[6..8]);
  }

  lemma NumberOfTwo(t: string)
    requires |t| == 2 && IsDigits(t)
    ensures Number(t) == (t[0] as int - '0' as int) * 10 + (t[1] as int - '0' as int)
  {
    assert t[..1][..0] == "" && t[..1][0] == t[0];
    assert Number(t[..1]) == t[0] as int - '0' as int;
  }

  lemma NumberOfFour(t: string)
    requires |t| == 4 && IsDigits(t)
    ensures Number(t) == (t[0] as int - '0' as int) * 1000 + (t[1] as int - '0' as int) * 100
                         + (t[2] as int - '0' as int) * 10 + (t[3] as int - '0' as int)
  {
    NumberOfTwo(t[..2]);
    assert t[..3][..2] == t[..2] && t[..2][0] == t[0] && t[..2][1] == t[1];
    assert Number(t[..3]) == Number(t[..2]) * 10 + (t[2] as int - '0' as int);
  }

  function TierRate(tiers: seq<(nat, real)>, acquired: Day, sold: Day, rule: Rule): (rate: real)
  {
    if tiers == [] then rule.RateBeyond()
    else if sold.Rank() <= MonthsLater(acquired, tiers[0].0).Rank() then tiers[0].1
    else TierRate(tiers[1..], acquired, sold, rule)
  }

  /** None for shares sold on or before the day they were acquired, which the source refuses. */
  function Rate(acquired: Day, sold: Day, rule: Rule): (rate: Option<real>)
  {
    if sold.Rank() <= acquired.Rank() then None else Some(TierRate(TIERS, acquired, sold, rule))
  }

  /** What a sale still owes: old income has already paid its withholding. A zero income asks for
      no rate, so a same-day sale of shares without income is not refused. */
  function Due(acquired: Day, sold: Day, oldIncome: real, newIncome: real): (tax: Option<real>)
  {
    match (Supplement(acquired, sold, oldIncome, OldRule), Supplement(acquired, sold, newIncome, NewRule))
    case (Some(o), Some(n)) => Some(o + n)
    case _ => None
  }

  function Supplement(acquired: Day, sold: Day, income: real, rule: Rule): (tax: Option<real>)
  {
    if income == 0.0 then Some(0.0)
    else match Rate(acquired, sold, rule)
      case None => None
      case Some(rate) => Some(income * (rate - rule.WithholdingRate()))
  }

  /** The tax on an income at the holding period's final rates, nothing having been withheld. */
  function FinalTax(acquired: Day, sold: Day, oldIncome: real, newIncome: real): (tax: real)
  {
    oldIncome * TierRate(TIERS, acquired, sold, OldRule) + newIncome * TierRate(TIERS, acquired, sold, NewRule)
  }

  /** The rate a holding period earns: a fifth up to a month, a tenth up to a year, and beyond it 5% under the old rule
      and nothing under the new one; 5% is withheld under the old rule only. */
  lemma RateByTier(acquired: Day, sold: Day, rule: Rule)
    ensures TierRate(TIERS, acquired, sold, rule) ==
            if sold.Rank() <= MonthsLater(acquired, 1).Rank() then 0.20
            else if sold.Rank() <= MonthsLater(acquired, 12).Rank() then 0.10
            else if rule.OldRule? then 0.05 else 0.0
    ensures rule.WithholdingRate() == if rule.OldRule? then 0.05 else 0.0
    ensures rule.WithholdingRate() <= TierRate(TIERS, acquired, sold, rule) <= 0.20
  {
    assert TierRate(TIERS[1..][1..], acquired, sold, rule) == rule.RateBeyond();
    assert TierRate(TIERS[1..], acquired, sold, rule) ==
           if sold.Rank() <= MonthsLater(acquired, 12).Rank() then 0.10 else rule.RateBeyond();
  }

  /** Over any two sales: a longer holding, at either end, never pays a higher rate. */
  lemma LongerHoldingNeverPaysMore(earlier: Day, later: Day, sold: Day, soldLater: Day, rule: Rule)
    requires earlier.Rank() <= later.Rank() < sold.Rank() <= soldLater.Rank()
    ensures Rate(earlier, soldLater, rule).Some? && Rate(later, sold, rule).Some?
    ensures Rate(earlier, soldLater, rule).value <= Rate(later, sold, rule).value
  {
    RateByTier(earlier, soldLater, rule);
    RateByTier(later, sold, rule);
    MonthsLaterIsMonotone(earlier, later, 1, 1);
    MonthsLaterIsMonotone(earlier, later, 12, 12);
  }

  /** A sale after the acquisition owes what brings the withheld 5% up to the final tax, never less
      than nothing. */
  lemma DueCompletesTheFinalTax(acquired: Day, sold: Day, oldIncome: real, newIncome: real)
    requires acquired.Rank() < sold.Rank()
    ensures Due(acquired, sold, oldIncome, newIncome) ==
            Some(FinalTax(acquired, sold, oldIncome, newIncome) - 0.05 * oldIncome)
    ensures oldIncome >= 0.0 && newIncome >= 0.0 ==> Due(acquired, sold, oldIncome, newIncome).value >= 0.0
  {
    hide TierRate;
    hide Supplement;
    SupplementCompletesTheRate(acquired, sold, oldIncome, OldRule);
    SupplementCompletesTheRate(acquired, sold, newIncome, NewRule);
    assert Due(acquired, sold, oldIncome, newIncome).value ==
           Supplement(acquired, sold, oldIncome, OldRule).value + Supplement(acquired, sold, newIncome, NewRule).value;
    assert Due(acquired, sold, oldIncome, newIncome).value ==
           FinalTax(acquired, sold, oldIncome, newIncome) - 0.05 * oldIncome;
  }

  lemma SupplementCompletesTheRate(acquired: Day, sold: Day, income: real, rule: Rule)
    requires acquired.Rank() < sold.Rank()
    ensures var tax := Supplement(acquired, sold, income, rule);
            && tax.Some?
            && tax.value == income * TierRate(TIERS, acquired, sold, rule) - rule.WithholdingRate() * income
            && (income >= 0.0 ==> tax.value >= 0.0)
  {
    hide TierRate;
    hide Supplement;
    hide Rule.WithholdingRate;
    RateByTier(acquired, sold, rule);
    hide MonthsLater;
    var rate, withheld := TierRate(TIERS, acquired, sold, rule), rule.WithholdingRate();
    var supplement := rate - withheld;
    SupplementByRate(acquired, sold, income, rule, supplement);
    DistributeRate(income, rate, withheld, supplement);
  }

  lemma SupplementByRate(acquired: Day, sold: Day, income: real, rule: Rule, supplement: real)
    requires acquired.Rank() < sold.Rank()
    requires supplement == TierRate(TIERS, acquired, sold, rule) - rule.WithholdingRate()
    ensures Supplement(acquired, sold, income, rule).Some?
    ensures Supplement(acquired, sold, income, rule).value == income * supplement
  {
    hide TierRate;
    hide Rule.WithholdingRate;
  }

  lemma DistributeRate(income: real, rate: real, withheld: real, supplement: real)
    requires supplement == rate - withheld
    ensures income * supplement == income * rate - withheld * income
    ensures rate >= withheld && income >= 0.0 ==> income * supplement >= 0.0
  {}

  /** A sale is refused exactly when it would tax shares acquired that day or later. */
  lemma DueRefusesOnlySameDayIncome(acquired: Day, sold: Day, oldIncome: real, newIncome: real)
    ensures Due(acquired, sold, oldIncome, newIncome).None? <==>
            sold.Rank() <= acquired.Rank() && (oldIncome != 0.0 || newIncome != 0.0)
  {}

  /** The final tax of `n` equal incomes is `n` times that of one. */
  lemma FinalTaxIsProportional(acquired: Day, sold: Day, oldIncome: real, newIncome: real, n: real,
                               oldOfAll: real, newOfAll: real)
    requires oldOfAll == oldIncome * n && newOfAll == newIncome * n
    ensures FinalTax(acquired, sold, oldOfAll, newOfAll) == FinalTax(acquired, sold, oldIncome, newIncome) * n
  {
    hide TierRate;
    var o, w := TierRate(TIERS, acquired, sold, OldRule), TierRate(TIERS, acquired, sold, NewRule);
    var oldTax, newTax := oldIncome * o, newIncome * w;
    ScaledProduct(oldIncome, n, oldOfAll, o, oldTax);
    ScaledProduct(newIncome, n, newOfAll, w, newTax);
    Distribute(oldTax, newTax, n);
  }

  lemma ScaledProduct(x: real, n: real, scaled: real, rate: real, product: real)
    requires scaled == x * n && product == x * rate
    ensures scaled * rate == product * n
  {
    Rearrange(x, n, rate);
  }

  /** So is what a sale still owes: `n` equal shares owe `n` times what one of them does. */
  lemma DueIsProportional(acquired: Day, sold: Day, oldIncome: real, newIncome: real, n: real,
                          oldOfAll: real, newOfAll: real, each: real)
    requires acquired.Rank() < sold.Rank()
    requires oldOfAll == oldIncome * n && newOfAll == newIncome * n
    requires each == FinalTax(acquired, sold, oldIncome, newIncome) - 0.05 * oldIncome
    ensures Due(acquired, sold, oldOfAll, newOfAll).Some? && Due(acquired, sold, oldOfAll, newOfAll).value == each * n
  {
    hide Due;
    hide FinalTax;
    var tax := FinalTax(acquired, sold, oldIncome, newIncome);
    FinalTaxIsProportional(acquired, sold, oldIncome, newIncome, n, oldOfAll, newOfAll);
    DueCompletesTheFinalTax(acquired, sold, oldOfAll, newOfAll);
    assert each * n == tax * n - (0.05 * oldIncome) * n;
  }

  lemma Rearrange(a: real, b: real, c: real)
    ensures a * b * c == a * c * b
  {}

  lemma Distribute(a: real, b: real, c: real)
    ensures (a + b) * c == a * c + b * c
  {}
}
