/** The paper-trading price and fee formulas, over exact reals. */
module TradeHelpers {
  import opened TradeConstants
  import opened TradeModels

  /** How far the liquidation price sits from the entry price: the part of
      the entry price that the margin (one leverage-th of the notional
      value), less the maintenance margin, can absorb. */
  function LiquidationDistance(entryPrice: real, leverage: real): real
    requires leverage > 0.0
  {
    entryPrice * (1.0 - MaintenanceRatio()) / leverage
  }

  /** The liquidation price of a trade, maintenance margin included. */
  function LiquidationPrice(entryPrice: real, leverage: real, direction: TradeDirection): (r: real)
    requires leverage > 0.0
    ensures direction == Long && entryPrice > 0.0 ==> r < entryPrice
    ensures direction == Short && entryPrice > 0.0 ==> r > entryPrice
    ensures direction == Long && leverage >= 1.0 && entryPrice >= 0.0 ==> r >= 0.0
  {
    if direction == Long then
      entryPrice * (1.0 - (1.0 / leverage) + (MaintenanceRatio() / leverage))
    else
      entryPrice * (1.0 + (1.0 / leverage) - (MaintenanceRatio() / leverage))
  }

  /** Long liquidation sits one distance below entry, Short one distance
      above it. */
  lemma LiquidationAtDistance(entryPrice: real, leverage: real)
    requires leverage > 0.0
    ensures LiquidationPrice(entryPrice, leverage, Long) == entryPrice - LiquidationDistance(entryPrice, leverage)
    ensures LiquidationPrice(entryPrice, leverage, Short) == entryPrice + LiquidationDistance(entryPrice, leverage)
  {
    var m := MaintenanceRatio();
    calc {
      entryPrice * (1.0 - (1.0 / leverage) + (m / leverage));
      entryPrice - entryPrice * ((1.0 - m) / leverage);
      entryPrice - LiquidationDistance(entryPrice, leverage);
    }
    calc {
      entryPrice * (1.0 + (1.0 / leverage) - (m / leverage));
      entryPrice + entryPrice * ((1.0 - m) / leverage);
      entryPrice + LiquidationDistance(entryPrice, leverage);
    }
  }

  /** The Long and Short liquidation prices of one entry and leverage are
      symmetric about the entry price. */
  lemma LiquidationSymmetric(entryPrice: real, leverage: real)
    requires leverage > 0.0
    ensures LiquidationPrice(entryPrice, leverage, Long) + LiquidationPrice(entryPrice, leverage, Short)
      == 2.0 * entryPrice
  {
    LiquidationAtDistance(entryPrice, leverage);
  }

  /** At 1x a Long is liquidated only once the price has fallen to the
      maintenance margin's share of the entry price. */
  lemma LongLiquidationAtOneX(entryPrice: real)
    ensures LiquidationPrice(entryPrice, 1.0, Long) == entryPrice * MAINTENANCE_MARGIN / 100.0
  {
  }

  /** A Long opened at 100 with 3x leverage liquidates at exactly 67. */
  lemma LongLiquidationAtThreeX()
    ensures LiquidationPrice(100.0, 3.0, Long) == 67.0
  {
  }

  /** Higher leverage moves the liquidation price strictly closer to the
      entry price, for both directions. */
  lemma HigherLeverageLiquidatesCloser(entryPrice: real, low: real, high: real, direction: TradeDirection)
    requires entryPrice > 0.0
    requires 0.0 < low < high
    ensures direction == Long ==>
      LiquidationPrice(entryPrice, low, Long) < LiquidationPrice(entryPrice, high, Long) < entryPrice
    ensures direction == Short ==>
      entryPrice < LiquidationPrice(entryPrice, high, Short) < LiquidationPrice(entryPrice, low, Short)
  {
    LiquidationAtDistance(entryPrice, low);
    LiquidationAtDistance(entryPrice, high);
    var a := entryPrice * (1.0 - MaintenanceRatio());
    assert a > 0.0;
    DivisionAntitone(a, low, high);
  }

  /** Dividing a positive amount by a larger divisor gives a smaller share. */
  lemma DivisionAntitone(a: real, low: real, high: real)
    requires a > 0.0 && 0.0 < low < high
    ensures a / high < a / low
  {
    var x, y := a / high, a / low;
    assert x * high == a;
    assert y * low == a;
    assert y * (high - low) > 0.0;
    assert (y - x) * high == y * (high - low);
  }

  /** The liquidation price scales linearly with the entry price. */
  lemma LiquidationLinearInEntry(entryPrice: real, k: real, leverage: real, direction: TradeDirection)
    requires leverage > 0.0
    ensures LiquidationPrice(k * entryPrice, leverage, direction) == k * LiquidationPrice(entryPrice, leverage, direction)
  {
  }

  /** The fee for one leg (opening or closing) of a trade of `quantity` units
      at `price`. */
  function LegFee(quantity: real, price: real): real
  {
    EXECUTION_FEE_PERCENTAGE / 100.0 * quantity * price
  }

  /** The execution fee of a paper trade: opening and closing are both
      charged, each on the notional value at the entry price. */
  function FinalExecutionFees(quantity: real, entryPrice: real): (r: real)
    ensures r == LegFee(quantity, entryPrice) + LegFee(quantity, entryPrice)
    ensures r == quantity * entryPrice / 1000.0
    ensures quantity >= 0.0 && entryPrice >= 0.0 ==> r >= 0.0
  {
    2.0 * (EXECUTION_FEE_PERCENTAGE / 100.0 * quantity * entryPrice)
  }

  /** The execution fee is monotone in the traded quantity at a positive
      price, and additive over splitting the quantity. */
  lemma ExecutionFeesAdditive(q1: real, q2: real, entryPrice: real)
    ensures FinalExecutionFees(q1 + q2, entryPrice) == FinalExecutionFees(q1, entryPrice) + FinalExecutionFees(q2, entryPrice)
    ensures entryPrice > 0.0 && q1 <= q2 ==> FinalExecutionFees(q1, entryPrice) <= FinalExecutionFees(q2, entryPrice)
  {
  }

  /** The liquidation price of a trade at one of the enum's leverage levels:
      every level is at least 1x, so a Long never liquidates below zero. */
  lemma EnumLeverageLongLiquidationNonNegative(entryPrice: real, l: TradeLeverage)
    requires entryPrice >= 0.0
    ensures 0.0 <= LiquidationPrice(entryPrice, Multiplier(l), Long) <= entryPrice
  {
  }
}
