/** The trade vocabulary: the enums with their serialized string tags, the
    active and closed trade records, and the signal-to-direction bridge. */
module TradeModels {
  import opened Optional

  /** A buy or sell signal carried by an inbound alert. */
  datatype TradeSignal = Buy | Sell

  /** Paper (simulated) or live trading. */
  datatype TradeKind = Paper | Live

  /** The side of an open position. */
  datatype TradeDirection = Long | Short

  /** Whether a trade is still open or has been closed. */
  datatype TradeStatus = Active | Closed

  /** The leverage levels a trade may use; spot trades use `One`. */
  datatype TradeLeverage = One | Two | Three | Five | Ten

  /** Opaque database identifier of a trade. */
  type TradeId = nat

  /** An open trade. Timestamps are whole seconds since the Unix epoch, the
      resolution at which they are stored. */
  datatype ActiveTrade = ActiveTrade(
    id: TradeId,
    pair: string,
    direction: TradeDirection,
    kind: TradeKind,
    openTimestamp: int,
    quantity: real,
    entryPrice: real,
    leverage: TradeLeverage,
    liquidationPrice: real,
    takeProfit: Option<real>,
    stopLoss: Option<real>)

  /** A trade that has been closed, with its outcome and the fees paid. */
  datatype ClosedTrade = ClosedTrade(
    id: TradeId,
    pair: string,
    direction: TradeDirection,
    kind: TradeKind,
    quantity: real,
    entryPrice: real,
    exitPrice: real,
    leverage: TradeLeverage,
    liquidationPrice: real,
    openTimestamp: int,
    closeTimestamp: int,
    pnl: real,
    roe: real,
    executionFees: real,
    fundingFees: real)

  // ---------------------------------------------------------------------
  // Signal to direction
  // ---------------------------------------------------------------------

  /** The explicit conversion of a signal into the direction it opens. */
  function DirectionOf(signal: TradeSignal): (d: TradeDirection)
    ensures signal == Buy <==> d == Long
    ensures signal == Sell <==> d == Short
  {
    match signal
    case Buy => Long
    case Sell => Short
  }

  /** The signal that opens a given direction: the inverse of `DirectionOf`. */
  function SignalFor(d: TradeDirection): TradeSignal
  {
    match d
    case Long => Buy
    case Short => Sell
  }

  /** `DirectionOf` is one-to-one, and with `SignalFor` forms a bijection
      between the two two-element enums. */
  lemma DirectionOfBijective(s1: TradeSignal, s2: TradeSignal, d: TradeDirection)
    ensures DirectionOf(s1) == DirectionOf(s2) ==> s1 == s2
    ensures DirectionOf(SignalFor(d)) == d
    ensures SignalFor(DirectionOf(s1)) == s1
  {
  }

  /** The close-or-keep rule applied when an alert arrives for a pair that
      already has an open trade: the trade is closed exactly when the
      alert's signal points the other way. */
  function ShouldCloseExisting(existing: TradeDirection, signal: TradeSignal): (close: bool)
    ensures existing == Long && signal == Buy ==> !close
    ensures existing == Long && signal == Sell ==> close
    ensures existing == Short && signal == Sell ==> !close
    ensures existing == Short && signal == Buy ==> close
  {
    existing != DirectionOf(signal)
  }

  /** After a trade has been (re)opened in the direction of a signal, the
      same signal again keeps it: repeating an alert never closes the trade
      it opened; the opposite signal always closes it. */
  lemma RepeatedSignalKeepsTrade(signal: TradeSignal, other: TradeSignal)
    ensures !ShouldCloseExisting(DirectionOf(signal), signal)
    ensures other != signal ==> ShouldCloseExisting(DirectionOf(signal), other)
  {
  }

  // ---------------------------------------------------------------------
  // Serialized string tags
  // ---------------------------------------------------------------------

  /** Lower-case tag of a signal. */
  function SignalTag(s: TradeSignal): string
  {
    match s
    case Buy => "buy"
    case Sell => "sell"
  }

  /** Reads a signal tag; serde matches tags exactly, case included. */
  function ParseSignal(tag: string): (r: Option<TradeSignal>)
    ensures r.Some? ==> SignalTag(r.value) == tag
  {
    if tag == "buy" then Some(Buy)
    else if tag == "sell" then Some(Sell)
    else None
  }

  /** Camel-case (here: lower-case) tag of a trade kind. */
  function KindTag(k: TradeKind): string
  {
    match k
    case Paper => "paper"
    case Live => "live"
  }

  function ParseKind(tag: string): (r: Option<TradeKind>)
    ensures r.Some? ==> KindTag(r.value) == tag
  {
    if tag == "paper" then Some(Paper)
    else if tag == "live" then Some(Live)
    else None
  }

  /** Lower-case tag of a direction. */
  function DirectionTag(d: TradeDirection): string
  {
    match d
    case Long => "long"
    case Short => "short"
  }

  function ParseDirection(tag: string): (r: Option<TradeDirection>)
    ensures r.Some? ==> DirectionTag(r.value) == tag
  {
    if tag == "long" then Some(Long)
    else if tag == "short" then Some(Short)
    else None
  }

  /** Lower-case tag of a status. */
  function StatusTag(s: TradeStatus): string
  {
    match s
    case Active => "active"
    case Closed => "closed"
  }

  function ParseStatus(tag: string): (r: Option<TradeStatus>)
    ensures r.Some? ==> StatusTag(r.value) == tag
  {
    if tag == "active" then Some(Active)
    else if tag == "closed" then Some(Closed)
    else None
  }

  /** Explicitly renamed tag of a leverage level. */
  function LeverageTag(l: TradeLeverage): string
  {
    match l
    case One => "1x"
    case Two => "2x"
    case Three => "3x"
    case Five => "5x"
    case Ten => "10x"
  }

  function ParseLeverage(tag: string): (r: Option<TradeLeverage>)
    ensures r.Some? ==> LeverageTag(r.value) == tag
  {
    if tag == "1x" then Some(One)
    else if tag == "2x" then Some(Two)
    else if tag == "3x" then Some(Three)
    else if tag == "5x" then Some(Five)
    else if tag == "10x" then Some(Ten)
    else None
  }

  /** Decoding an encoded signal returns it, and a tag decodes exactly when
      it is the encoding of something. */
  lemma SignalTagRoundTrip(s: TradeSignal, tag: string)
    ensures ParseSignal(SignalTag(s)) == Some(s)
    ensures ParseSignal(tag) == Some(s) <==> SignalTag(s) == tag
  {
  }

  lemma KindTagRoundTrip(k: TradeKind, tag: string)
    ensures ParseKind(KindTag(k)) == Some(k)
    ensures ParseKind(tag) == Some(k) <==> KindTag(k) == tag
  {
  }

  lemma DirectionTagRoundTrip(d: TradeDirection, tag: string)
    ensures ParseDirection(DirectionTag(d)) == Some(d)
    ensures ParseDirection(tag) == Some(d) <==> DirectionTag(d) == tag
  {
  }

  lemma StatusTagRoundTrip(s: TradeStatus, tag: string)
    ensures ParseStatus(StatusTag(s)) == Some(s)
    ensures ParseStatus(tag) == Some(s) <==> StatusTag(s) == tag
  {
  }

  lemma LeverageTagRoundTrip(l: TradeLeverage, tag: string)
    ensures ParseLeverage(LeverageTag(l)) == Some(l)
    ensures ParseLeverage(tag) == Some(l) <==> LeverageTag(l) == tag
  {
  }

  /** The five leverage tags are pairwise distinct: encoding is one-to-one. */
  lemma LeverageTagsDistinct(a: TradeLeverage, b: TradeLeverage)
    ensures LeverageTag(a) == LeverageTag(b) ==> a == b
  {
    LeverageTagRoundTrip(a, LeverageTag(a));
    LeverageTagRoundTrip(b, LeverageTag(b));
  }

  /** Tags of other enums are never read as a leverage: upper-case or
      unsuffixed spellings are rejected. */
  lemma LeverageParseRejectsOtherSpellings()
    ensures ParseLeverage("1X") == None
    ensures ParseLeverage("1") == None
    ensures ParseLeverage("4x") == None
    ensures ParseSignal("BUY") == None
  {
  }

  // ---------------------------------------------------------------------
  // Leverage multiplier and closed-trade invariant
  // ---------------------------------------------------------------------

  /** The multiplier a leverage tag stands for ("2x" is 2). */
  function Multiplier(l: TradeLeverage): (m: real)
    ensures m >= 1.0
    ensures m == 1.0 <==> l == One
  {
    match l
    case One => 1.0
    case Two => 2.0
    case Three => 3.0
    case Five => 5.0
    case Ten => 10.0
  }

  /** What the field documentation of a closed trade requires: spot trades
      (leverage `One`) never accrue funding fees. */
  predicate WellFormedClosed(c: ClosedTrade)
  {
    c.leverage == One ==> c.fundingFees == 0.0
  }
}
