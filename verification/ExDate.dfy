/** What one ex-date's opening price reset does to a holding. */
module ExDate {
  import opened Rounding

  const HALF_TICK: real := 0.005

  function Abs(x: real): real { if x < 0.0 then -x else x }

  /** The day's reference price moved off the last close by more than half a tick. */
  predicate PriceReset(lastClose: real, preClose: real)
  {
    Round6(Abs(preClose - lastClose)) > HALF_TICK
  }

  datatype Multiplier = NoShareChange | Scaled(ratio: real) | InvalidRatio

  function ShareMultiplier(lastClose: real, preClose: real, cashPerShare: real): (m: Multiplier)
    requires preClose > 0.0
  {
    if !PriceReset(lastClose, preClose) then NoShareChange
    else
      var ratio := (lastClose - cashPerShare) / preClose;
      if ratio <= 0.0 then InvalidRatio
      else if cashPerShare > 0.0 && Round6(lastClose - cashPerShare - preClose) <= HALF_TICK then NoShareChange
      else Scaled(ratio)
  }

  /** The whole shares a holding becomes: floor(round(quantity * ratio, 6)). */
  function ExDateShares(quantity: int, ratio: real): (shares: int)
  {
    Round6(quantity as real * ratio).Floor
  }

  lemma SharesGrowWithTheHolding(fewer: int, more: int, ratio: real)
    requires fewer <= more && ratio > 0.0
    ensures ExDateShares(fewer, ratio) <= ExDateShares(more, ratio)
  {
    assert fewer as real * ratio <= more as real * ratio;
    Round6IsMonotone(fewer as real * ratio, more as real * ratio);
    FloorIsMonotone(Round6(fewer as real * ratio), Round6(more as real * ratio));
  }

  lemma NoSharesStayNone(ratio: real)
    ensures ExDateShares(0, ratio) == 0
  {
    assert 0 as real * ratio == 0.0;
    Round6FixesIntegers(0);
  }

  /** Rounding before flooring gains at most half a millionth of a share, and the fraction left
      over is always less than one share. */
  lemma SharesAreNearTheProduct(quantity: int, ratio: real)
    ensures -0.0000005 <= quantity as real * ratio - ExDateShares(quantity, ratio) as real < 1.0
  {
    Round6IsNear(quantity as real * ratio);
    FloorOfRound6(quantity as real * ratio);
  }

  /** Where cash is paid and shares change, the share count does not go down. */
  lemma CashDividendNeverShrinks(quantity: nat, lastClose: real, preClose: real, cashPerShare: real, ratio: real)
    requires preClose > 0.0 && cashPerShare > 0.0
    requires ShareMultiplier(lastClose, preClose, cashPerShare) == Scaled(ratio)
    ensures ratio > 1.0 && ExDateShares(quantity, ratio) >= quantity
  {
    Round6IsNear(lastClose - cashPerShare - preClose);
    QuotientAboveOne(lastClose - cashPerShare, preClose);
    GrowingRatioKeepsShares(quantity, ratio);
  }

  lemma GrowingRatioKeepsShares(quantity: nat, ratio: real)
    requires ratio > 1.0
    ensures ExDateShares(quantity, ratio) >= quantity
  {
    hide ExDateShares;
    hide Round6;
    var product := quantity as real * ratio;
    ProductAtLeast(quantity as real, ratio, product);
    FloorOfRound6AtLeast(quantity, product);
    SharesOfProduct(quantity, ratio, product);
  }

  lemma SharesOfProduct(quantity: int, ratio: real, product: real)
    requires product == quantity as real * ratio
    ensures ExDateShares(quantity, ratio) == Round6(product).Floor
  {
    hide Round6;
  }

  lemma ProductAtLeast(a: real, b: real, product: real)
    requires a >= 0.0 && b > 1.0 && product == a * b
    ensures product >= a
  {
    var excess := b - 1.0;
    NonNegativeProduct(a, excess);
    assert product == a + a * excess;
  }

  lemma NonNegativeProduct(a: real, b: real)
    requires a >= 0.0 && b >= 0.0
    ensures a * b >= 0.0
  {}

  lemma QuotientAboveOne(a: real, b: real)
    requires a > b > 0.0
    ensures a / b > 1.0
  {
  }

  function Credit(quantity: int, lastClose: real, preClose: real, after: int): (credit: real)
  {
    quantity as real * lastClose - after as real * preClose
  }

  /** Wherever shares change, the cash credited is the declared dividend plus a fractional share,
      short of it by at most what rounding gave away in shares. */
  lemma CreditIsDividendPlusFraction(quantity: int, lastClose: real, preClose: real, cashPerShare: real, ratio: real)
    requires preClose > 0.0
    requires ShareMultiplier(lastClose, preClose, cashPerShare) == Scaled(ratio)
    ensures quantity as real * cashPerShare - 0.0000005 * preClose
            <= Credit(quantity, lastClose, preClose, ExDateShares(quantity, ratio))
            < quantity as real * cashPerShare + preClose
  {
    var after := ExDateShares(quantity, ratio);
    assert -0.0000005 <= quantity as real * ratio - after as real < 1.0 by {
      SharesAreNearTheProduct(quantity, ratio);
    }
    CreditByGap(quantity as real, ratio, after as real, lastClose, preClose, cashPerShare);
  }

  lemma CreditByGap(q: real, ratio: real, after: real, lastClose: real, preClose: real, cash: real)
    requires preClose > 0.0 && ratio == (lastClose - cash) / preClose
    requires -0.0000005 <= q * ratio - after < 1.0
    ensures q * cash - 0.0000005 * preClose <= q * lastClose - after * preClose < q * cash + preClose
  {
    var moved, gap := lastClose - cash, q * ratio - after;
    assert gap * preClose == q * lastClose - q * cash - after * preClose by {
      assert ratio * preClose == moved;
      assert gap * preClose == (q * ratio) * preClose - after * preClose;
      assert (q * ratio) * preClose == q * moved;
      assert q * moved == q * lastClose - q * cash;
    }
    assert -0.0000005 * preClose <= gap * preClose < preClose;
  }

  /** Where no share changes hands although the quote was reset, the cash explains the fall to half
      a tick; without a reset the quote itself moved no more than that. */
  lemma KeptSharesHideAtMostHalfATick(lastClose: real, preClose: real, cashPerShare: real)
    requires preClose > 0.0 && cashPerShare >= 0.0
    requires ShareMultiplier(lastClose, preClose, cashPerShare).NoShareChange?
    ensures lastClose - cashPerShare - preClose <= HALF_TICK + 0.0000005
    ensures !PriceReset(lastClose, preClose) ==> Abs(preClose - lastClose) <= HALF_TICK + 0.0000005
    ensures PriceReset(lastClose, preClose) ==> cashPerShare > 0.0
  {
    Round6IsNear(Abs(preClose - lastClose));
    Round6IsNear(lastClose - cashPerShare - preClose);
  }

  // ---- exactly when, in the day's own numbers ----

  /** A move of the quote that counts as a reset: more than half a tick, rounding included. */
  predicate Moved(lastClose: real, preClose: real)
  {
    preClose - lastClose > 0.0050005 || lastClose - preClose > 0.0050005
  }

  /** A reset changes the share count unless the cash explains the fall. */
  predicate Splits(lastClose: real, preClose: real, cashPerShare: real)
  {
    Moved(lastClose, preClose) && (cashPerShare == 0.0 || lastClose - cashPerShare - preClose > 0.0050005)
  }

  lemma ResetsExactlyWhen(lastClose: real, preClose: real)
    ensures PriceReset(lastClose, preClose) <==> Moved(lastClose, preClose)
  {
    EvenThresholds(Abs(preClose - lastClose) * 1000000.0, 2500);
  }

  /** What the multiplier is, without rounding: refused where the cash eats the whole price, a change of
      shares exactly where the cash does not explain the reset. */
  lemma MultiplierExactlyWhen(lastClose: real, preClose: real, cashPerShare: real)
    requires preClose > 0.0 && cashPerShare >= 0.0
    ensures var m := ShareMultiplier(lastClose, preClose, cashPerShare);
            && (m.InvalidRatio? <==> Moved(lastClose, preClose) && lastClose <= cashPerShare)
            && (!m.InvalidRatio? ==> (m.Scaled? <==> Splits(lastClose, preClose, cashPerShare)))
            && (m.Scaled? ==> m.ratio > 0.0 && m.ratio * preClose == lastClose - cashPerShare)
  {
    ResetsExactlyWhen(lastClose, preClose);
    EvenThresholds((lastClose - cashPerShare - preClose) * 1000000.0, 2500);
    QuotientSign(lastClose - cashPerShare, preClose);
  }

  lemma QuotientSign(x: real, y: real)
    requires y > 0.0
    ensures x / y <= 0.0 <==> x <= 0.0
    ensures x / y * y == x
  {}

  /** `after` is the whole number of shares that many shares become, up to half a millionth of a share. */
  predicate WholeShares(quantity: int, lastClose: real, preClose: real, cashPerShare: real, after: int)
  {
    (after as real - 0.0000005) * preClose
    <= quantity as real * (lastClose - cashPerShare)
    < (after as real + 1.0 - 0.0000005) * preClose
  }

  /** That fixes the share count. */
  lemma SharesAreTheWholeOnes(quantity: int, lastClose: real, preClose: real, cashPerShare: real, ratio: real,
                              after: int)
    requires preClose > 0.0 && ratio * preClose == lastClose - cashPerShare
    ensures ExDateShares(quantity, ratio) == after <==> WholeShares(quantity, lastClose, preClose, cashPerShare, after)
    ensures ExDateShares(quantity, ratio) >= after <==>
              quantity as real * (lastClose - cashPerShare) >= (after as real - 0.0000005) * preClose
  {
    var product, total := quantity as real * ratio, quantity as real * (lastClose - cashPerShare);
    ScaledUp(quantity as real, ratio, preClose, lastClose - cashPerShare, product);
    SharesByThreshold(quantity, ratio, product, after);
    ThresholdsScale(product, preClose, total, after);
    hide ExDateShares;
  }

  lemma SharesByThreshold(quantity: int, ratio: real, product: real, after: int)
    requires product == quantity as real * ratio
    ensures ExDateShares(quantity, ratio) >= after <==> product >= after as real - 0.0000005
    ensures ExDateShares(quantity, ratio) == after <==>
              after as real - 0.0000005 <= product < after as real + 1.0 - 0.0000005
  {
    SharesOfProduct(quantity, ratio, product);
    FloorOfRound6Exactly(after, product);
    FloorOfRound6Exactly(after + 1, product);
    hide Round6;
    hide ExDateShares;
  }

  lemma ThresholdsScale(product: real, preClose: real, total: real, after: int)
    requires preClose > 0.0 && product * preClose == total
    ensures product >= after as real - 0.0000005 <==> total >= (after as real - 0.0000005) * preClose
    ensures product < after as real + 1.0 - 0.0000005 <==> total < (after as real + 1.0 - 0.0000005) * preClose
  {
    var low, high := after as real - 0.0000005, after as real + 1.0 - 0.0000005;
    ProductOrder(product, low, preClose, total, low * preClose);
    ProductOrder(product, high, preClose, total, high * preClose);
  }

  lemma ScaledUp(q: real, ratio: real, pre: real, moved: real, product: real)
    requires ratio * pre == moved && product == q * ratio
    ensures product * pre == q * moved
  {
    assert q * (ratio * pre) == (q * ratio) * pre;
  }

  lemma ProductOrder(x: real, y: real, pre: real, scaledX: real, scaledY: real)
    requires pre > 0.0 && scaledX == x * pre && scaledY == y * pre
    ensures x >= y <==> scaledX >= scaledY
  {
    if x >= y {
      NonNegativeProduct(x - y, pre);
    } else {
      assert (y - x) * pre > 0.0;
    }
  }
}
