/** The tick consumer: for each ticker update it reads the price, selects
    the active trades of the update's product and closes the ones whose
    trigger is hit. The in-memory map is a snapshot; the trigger test and
    the close action are supplied from outside. */
module PriceListener {
  import opened Optional
  import opened TradeModels
  import opened AsciiCase
  import opened CoinbaseFeed

  /** The float parser, as a function from text to an optional number. */
  type PriceParser = string -> Option<real>

  /** The trigger test applied to a trade at a price. */
  type Trigger = (ActiveTrade, real) -> bool

  /** The price of an update: its price text parsed as a number, where a
      missing price reads as "0.0" and unparseable text as 0.0. The parser
      must read "0.0" as zero, as the standard float parser does. */
  function TickPrice(price: Option<string>, parseF64: PriceParser): (r: real)
    requires parseF64("0.0") == Some(0.0)
    ensures price.None? ==> r == 0.0
    ensures price.Some? && parseF64(price.value).None? ==> r == 0.0
    ensures price.Some? && parseF64(price.value).Some? ==> r == parseF64(price.value).value
  {
    UnwrapOr(parseF64(UnwrapOr(price, "0.0")), 0.0)
  }

  /** No key is listed twice. */
  predicate NoDuplicates(order: seq<TradeId>)
  {
    forall i, j :: 0 <= i < j < |order| ==> order[i] != order[j]
  }

  /** `order` lists every key of the map exactly once: the order in which
      the map happens to yield its values. */
  predicate ListsKeys(active: map<TradeId, ActiveTrade>, order: seq<TradeId>)
  {
    && (forall k :: k in active ==> k in order)
    && (forall k :: k in order ==> k in active)
    && NoDuplicates(order)
  }

  /** The keys listed in `order` whose trade's pair matches `productId`
      ignoring ASCII case. */
  function MatchingKeys(active: map<TradeId, ActiveTrade>, order: seq<TradeId>, productId: string): set<TradeId>
    requires forall k :: k in order ==> k in active
  {
    set k | k in order && EqIgnoreAsciiCase(active[k].pair, productId)
  }

  /** The keys listed in `order` whose trade's pair matches `productId`
      and whose trigger is hit at `price`. */
  function TriggeredKeys(active: map<TradeId, ActiveTrade>, order: seq<TradeId>, productId: string,
                         price: real, hit: Trigger): set<TradeId>
    requires forall k :: k in order ==> k in active
  {
    set k | k in order && EqIgnoreAsciiCase(active[k].pair, productId) && hit(active[k], price)
  }

  /** Peeling the first key off a listing: every listed key is the first
      one or listed in the rest, and in a duplicate-free listing the first
      key is not listed again. */
  lemma ListingCons(order: seq<TradeId>)
    requires order != []
    ensures forall k :: k in order <==> k == order[0] || k in order[1..]
    ensures NoDuplicates(order) ==> NoDuplicates(order[1..]) && order[0] !in order[1..]
  {
    assert order == [order[0]] + order[1..];
  }

  /** The matching keys of a listing are its first key, when that matches,
      together with the matching keys of the rest; over a duplicate-free
      listing their counts add up. */
  lemma MatchingKeysCons(active: map<TradeId, ActiveTrade>, order: seq<TradeId>, productId: string)
    requires order != []
    requires forall k :: k in order ==> k in active
    ensures var m := EqIgnoreAsciiCase(active[order[0]].pair, productId);
      NoDuplicates(order) ==>
        |MatchingKeys(active, order, productId)| == (if m then 1 else 0) + |MatchingKeys(active, order[1..], productId)|
  {
    ListingCons(order);
    var m := EqIgnoreAsciiCase(active[order[0]].pair, productId);
    assert MatchingKeys(active, order, productId)
      == (if m then {order[0]} else {}) + MatchingKeys(active, order[1..], productId);
  }

  /** The same split for the keys whose trigger is hit as well. */
  lemma TriggeredKeysCons(active: map<TradeId, ActiveTrade>, order: seq<TradeId>, productId: string,
                          price: real, hit: Trigger)
    requires order != []
    requires forall k :: k in order ==> k in active
    ensures var t := active[order[0]];
      var m := EqIgnoreAsciiCase(t.pair, productId) && hit(t, price);
      NoDuplicates(order) ==>
        |TriggeredKeys(active, order, productId, price, hit)|
        == (if m then 1 else 0) + |TriggeredKeys(active, order[1..], productId, price, hit)|
  {
    ListingCons(order);
    var t := active[order[0]];
    var m := EqIgnoreAsciiCase(t.pair, productId) && hit(t, price);
    assert TriggeredKeys(active, order, productId, price, hit)
      == (if m then {order[0]} else {}) + TriggeredKeys(active, order[1..], productId, price, hit);
  }

  /** The trades, visited in `order`, whose pair equals `productId` up to
      ASCII case. */
  function SelectMatching(active: map<TradeId, ActiveTrade>, order: seq<TradeId>, productId: string)
    : (r: seq<ActiveTrade>)
    requires forall k :: k in order ==> k in active
    ensures |r| <= |order|
    ensures forall t :: t in r ==> t in active.Values && EqIgnoreAsciiCase(t.pair, productId)
    ensures forall j :: 0 <= j < |order| && EqIgnoreAsciiCase(active[order[j]].pair, productId) ==>
      active[order[j]] in r
    ensures NoDuplicates(order) ==> |r| == |MatchingKeys(active, order, productId)|
  {
    if order == [] then []
    else
      var rest := SelectMatching(active, order[1..], productId);
      var t := active[order[0]];
      ListingCons(order);
      MatchingKeysCons(active, order, productId);
      if EqIgnoreAsciiCase(t.pair, productId) then [t] + rest else rest
  }

  /** Over a full listing of the map, the selected trades are exactly the
      map's values whose pair matches the product ignoring ASCII case. */
  lemma SelectedExactly(active: map<TradeId, ActiveTrade>, order: seq<TradeId>, productId: string, t: ActiveTrade)
    requires ListsKeys(active, order)
    ensures t in SelectMatching(active, order, productId) <==>
      t in active.Values && EqIgnoreAsciiCase(t.pair, productId)
  {
    if t in active.Values && EqIgnoreAsciiCase(t.pair, productId) {
      var k :| k in active && active[k] == t;
      var j :| 0 <= j < |order| && order[j] == k;
    }
  }

  /** Upper-casing the product before selection selects the same trades, in
      the same order. */
  lemma {:induction false} UppercaseSelectsSame(active: map<TradeId, ActiveTrade>, order: seq<TradeId>, productId: string)
    requires forall k :: k in order ==> k in active
    requires IsAscii(productId)
    ensures SelectMatching(active, order, Uppercase(productId)) == SelectMatching(active, order, productId)
    decreases |order|
  {
    if order != [] {
      UppercaseSelectsSame(active, order[1..], productId);
      UppercaseKeepsMatches(active[order[0]].pair, productId);
    }
  }

  /** The selected trades whose trigger is hit at `price`, in selection
      order: the trades the consumer closes. */
  function TriggeredTrades(selected: seq<ActiveTrade>, price: real, hit: Trigger): (r: seq<ActiveTrade>)
    ensures |r| <= |selected|
    ensures forall t :: t in r <==> t in selected && hit(t, price)
    ensures forall t :: multiset(r)[t] == if hit(t, price) then multiset(selected)[t] else 0
  {
    if selected == [] then []
    else
      var rest := TriggeredTrades(selected[1..], price, hit);
      assert forall t :: t in selected <==> t == selected[0] || t in selected[1..];
      assert selected == [selected[0]] + selected[1..];
      if hit(selected[0], price) then [selected[0]] + rest else rest
  }

  /** Over a duplicate-free listing, the consumer closes one trade per
      listed key whose trade matches the product and whose trigger is hit. */
  lemma {:induction false} TriggeredCount(active: map<TradeId, ActiveTrade>, order: seq<TradeId>, productId: string,
                                          price: real, hit: Trigger)
    requires forall k :: k in order ==> k in active
    requires NoDuplicates(order)
    ensures |TriggeredTrades(SelectMatching(active, order, productId), price, hit)|
      == |TriggeredKeys(active, order, productId, price, hit)|
    decreases |order|
  {
    if order != [] {
      ListingCons(order);
      TriggeredKeysCons(active, order, productId, price, hit);
      TriggeredCount(active, order[1..], productId, price, hit);
      var t := active[order[0]];
      var rest := SelectMatching(active, order[1..], productId);
      if EqIgnoreAsciiCase(t.pair, productId) {
        assert SelectMatching(active, order, productId) == [t] + rest;
        assert ([t] + rest)[1..] == rest;
      }
    }
  }

  /** Selecting with the upper-cased product over a full listing of the map
      closes one trade per map entry that matches and whose trigger is hit. */
  lemma TriggeredEntriesCount(active: map<TradeId, ActiveTrade>, order: seq<TradeId>, productId: string,
                              price: real, hit: Trigger)
    requires ListsKeys(active, order)
    requires IsAscii(productId)
    ensures |TriggeredTrades(SelectMatching(active, order, Uppercase(productId)), price, hit)|
      == |set k | k in active && EqIgnoreAsciiCase(active[k].pair, productId) && hit(active[k], price)|
  {
    UppercaseSelectsSame(active, order, productId);
    TriggeredCount(active, order, productId, price, hit);
    assert TriggeredKeys(active, order, productId, price, hit)
      == set k | k in active && EqIgnoreAsciiCase(active[k].pair, productId) && hit(active[k], price);
  }

  /** A request to close the trade with the given id at the given price. */
  datatype CloseCall = CloseCall(tradeId: TradeId, exitPrice: real)

  /** The close requests issued for a list of trades at one price, in order. */
  function CloseCalls(trades: seq<ActiveTrade>, price: real): (r: seq<CloseCall>)
    ensures |r| == |trades|
    ensures forall j :: 0 <= j < |r| ==> r[j] == CloseCall(trades[j].id, price)
  {
    if trades == [] then [] else [CloseCall(trades[0].id, price)] + CloseCalls(trades[1..], price)
  }

  /** What one ticker update does: read the price, upper-case the product,
      select the matching trades of the snapshot, and request a close, at
      the update's price, of each whose trigger is hit. */
  function OnTickerUpdate(active: map<TradeId, ActiveTrade>, order: seq<TradeId>, update: TickerUpdate,
                          parseF64: PriceParser, hit: Trigger): (calls: seq<CloseCall>)
    requires ListsKeys(active, order)
    requires IsAscii(update.productId)
    requires parseF64("0.0") == Some(0.0)
    ensures var price := TickPrice(update.price, parseF64);
      && (forall j :: 0 <= j < |calls| ==> calls[j].exitPrice == price)
      && (forall t :: t in active.Values && EqIgnoreAsciiCase(t.pair, update.productId) && hit(t, price) ==>
            CloseCall(t.id, price) in calls)
      && |calls| == |set k | k in active && EqIgnoreAsciiCase(active[k].pair, update.productId) && hit(active[k], price)|
  {
    var productId := Uppercase(update.productId);
    var price := TickPrice(update.price, parseF64);
    var selected := SelectMatching(active, order, productId);
    var closing := TriggeredTrades(selected, price, hit);
    var calls := CloseCalls(closing, price);
    assert forall t :: t in active.Values && EqIgnoreAsciiCase(t.pair, update.productId) && hit(t, price) ==>
      CloseCall(t.id, price) in calls by {
      forall t | t in active.Values && EqIgnoreAsciiCase(t.pair, update.productId) && hit(t, price)
        ensures CloseCall(t.id, price) in calls
      {
        UppercaseKeepsMatches(t.pair, update.productId);
        SelectedExactly(active, order, productId, t);
        var j :| 0 <= j < |closing| && closing[j] == t;
        assert calls[j] == CloseCall(t.id, price);
      }
    }
    TriggeredEntriesCount(active, order, update.productId, price, hit);
    calls
  }

  /** No trade outside the selection is touched: every close request names
      a trade of the snapshot whose pair matches the product ignoring ASCII
      case and whose trigger is hit at the update's price. */
  lemma OnlyTriggeredMatchingTradesClose(active: map<TradeId, ActiveTrade>, order: seq<TradeId>, update: TickerUpdate,
                                         parseF64: PriceParser, hit: Trigger, c: CloseCall)
    requires ListsKeys(active, order)
    requires IsAscii(update.productId)
    requires parseF64("0.0") == Some(0.0)
    requires c in OnTickerUpdate(active, order, update, parseF64, hit)
    ensures exists t :: (t in active.Values && t.id == c.tradeId && EqIgnoreAsciiCase(t.pair, update.productId)
                         && hit(t, TickPrice(update.price, parseF64)))
  {
    var price := TickPrice(update.price, parseF64);
    var productId := Uppercase(update.productId);
    var selected := SelectMatching(active, order, productId);
    var closing := TriggeredTrades(selected, price, hit);
    var calls := CloseCalls(closing, price);
    var j :| 0 <= j < |calls| && calls[j] == c;
    var t := closing[j];
    assert t in closing;
    SelectedExactly(active, order, productId, t);
    UppercaseKeepsMatches(t.pair, update.productId);
  }
}
