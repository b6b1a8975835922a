/** The trading constants of the paper-trading engine, as exact reals, and
    the funding-schedule helper that their documentation describes. */
module TradeConstants {

  /** Fee charged for opening and for closing a trade, in percent. */
  const EXECUTION_FEE_PERCENTAGE: real := 0.05

  /** Funding fee for holding a trade over one 8-hour interval, in percent. */
  const FUNDING_FEE_8H_PERCENTAGE: real := 0.01

  /** UTC hours at which funding fees accrue (a `[u8; 3]` in the program). */
  const FUNDING_FEE_HOURS: seq<nat> := [0, 8, 16]

  /** Margin, in percent of the notional value, that keeps a trade open. */
  const MAINTENANCE_MARGIN: real := 1.0

  const SECONDS_PER_HOUR: nat := 3600
  const SECONDS_PER_DAY: nat := 86400

  /** Length of one funding interval in seconds (8 hours). */
  const FUNDING_INTERVAL: nat := 8 * SECONDS_PER_HOUR

  /** The maintenance margin as a ratio instead of a percentage. */
  function MaintenanceRatio(): real
  {
    MAINTENANCE_MARGIN / 100.0
  }

  /** The ratio lies strictly between 0 and 1: the hypothesis under which
      liquidation prices lie on the losing side of the entry price. */
  lemma MaintenanceRatioInUnitInterval()
    ensures 0.0 < MaintenanceRatio() < 1.0
  {
  }

  /** Both fee percentages are positive, so fees on non-negative notional
      values are non-negative. */
  lemma FeePercentagesPositive()
    ensures EXECUTION_FEE_PERCENTAGE > 0.0
    ensures FUNDING_FEE_8H_PERCENTAGE > 0.0
  {
  }

  /** The funding hours are strictly increasing, are hours of one day, and
      fit the `u8` the program stores them in. */
  lemma FundingHoursWellFormed()
    ensures |FUNDING_FEE_HOURS| == 3
    ensures forall i, j :: 0 <= i < j < |FUNDING_FEE_HOURS| ==> FUNDING_FEE_HOURS[i] < FUNDING_FEE_HOURS[j]
    ensures forall i :: 0 <= i < |FUNDING_FEE_HOURS| ==> FUNDING_FEE_HOURS[i] < 24 < 256
  {
  }

  /** Consecutive funding hours are 8 hours apart, the last one wrapping
      around midnight to the first one of the next day. */
  lemma FundingHoursEightHoursApart()
    ensures forall i, j :: 0 <= i && j == i + 1 < |FUNDING_FEE_HOURS| ==>
      FUNDING_FEE_HOURS[j] == FUNDING_FEE_HOURS[i] + 8
    ensures FUNDING_FEE_HOURS[0] + 24 == FUNDING_FEE_HOURS[|FUNDING_FEE_HOURS| - 1] + 8
  {
  }

  /** True when `s` (seconds since midnight UTC) is a funding instant of the
      day, counting the midnight that ends it (`SECONDS_PER_DAY`). */
  predicate IsFundingSecond(s: nat)
  {
    s == SECONDS_PER_DAY || (s % SECONDS_PER_HOUR == 0 && s / SECONDS_PER_HOUR in FUNDING_FEE_HOURS)
  }

  /** The first funding instant strictly after `t`, scanning the listed hours
      from index `i` on; midnight of the next day when none is left. */
  function FirstFundingSecondFrom(t: nat, i: nat): (r: nat)
    requires t < SECONDS_PER_DAY
    requires i <= |FUNDING_FEE_HOURS|
    requires forall j :: 0 <= j < i ==> FUNDING_FEE_HOURS[j] * SECONDS_PER_HOUR <= t
    ensures t < r <= SECONDS_PER_DAY
    ensures IsFundingSecond(r)
    ensures forall j :: 0 <= j < |FUNDING_FEE_HOURS| && t < FUNDING_FEE_HOURS[j] * SECONDS_PER_HOUR ==>
      r <= FUNDING_FEE_HOURS[j] * SECONDS_PER_HOUR
    decreases |FUNDING_FEE_HOURS| - i
  {
    if i == |FUNDING_FEE_HOURS| then SECONDS_PER_DAY
    else if t < FUNDING_FEE_HOURS[i] * SECONDS_PER_HOUR then FUNDING_FEE_HOURS[i] * SECONDS_PER_HOUR
    else FirstFundingSecondFrom(t, i + 1)
  }

  /** The next funding instant strictly after second-of-day `t`: the
      smallest listed hour above `t`, or midnight of the next day. */
  function NextFundingSecond(t: nat): (r: nat)
    requires t < SECONDS_PER_DAY
    ensures t < r <= SECONDS_PER_DAY
    ensures IsFundingSecond(r)
    ensures forall s :: t < s < r ==> !IsFundingSecond(s)
  {
    FirstFundingSecondFrom(t, 0)
  }

  /** Funding instants fall on the 8-hour grid that starts at midnight, so
      the next one is the next multiple of the funding interval. */
  lemma NextFundingSecondOnGrid(t: nat)
    requires t < SECONDS_PER_DAY
    ensures NextFundingSecond(t) == (t / FUNDING_INTERVAL + 1) * FUNDING_INTERVAL
  {
    var r := NextFundingSecond(t);
    var g := (t / FUNDING_INTERVAL + 1) * FUNDING_INTERVAL;
    assert IsFundingSecond(g) by {
      var q := t / FUNDING_INTERVAL;
      assert 0 <= q < 3;
      if q == 0 { assert g == 8 * SECONDS_PER_HOUR; }
      else if q == 1 { assert g == 16 * SECONDS_PER_HOUR; }
      else { assert g == SECONDS_PER_DAY; }
    }
    assert t < g;
  }

  /** The worked example of the program's documentation: a trade opened at
      07:59 UTC starts accruing funding at 08:00 UTC. */
  lemma OpenedAt0759AccruesFrom0800()
    ensures NextFundingSecond(7 * SECONDS_PER_HOUR + 59 * 60) == 8 * SECONDS_PER_HOUR
  {
    NextFundingSecondOnGrid(7 * SECONDS_PER_HOUR + 59 * 60);
  }

  /** The next funding instant strictly after a Unix timestamp (seconds, UTC). */
  function NextFundingInstant(ts: int): (r: int)
    ensures ts < r <= ts + FUNDING_INTERVAL
    ensures r % FUNDING_INTERVAL == 0
    ensures IsFundingSecond(r % SECONDS_PER_DAY)
  {
    var day := ts - ts % SECONDS_PER_DAY;
    NextFundingSecondOnGrid(ts % SECONDS_PER_DAY);
    day + NextFundingSecond(ts % SECONDS_PER_DAY)
  }
}
