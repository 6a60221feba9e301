/**
 * The trailing stop-loss: `calculate_stop_loss_price` and the main-loop rule
 * that replaces the protective stop only when the new price is tighter.
 */
module StopLoss {
  import opened Wrappers

  datatype Side = Long | Short

  /** Python's truth value of an optional price: None and 0 are false (`not stop_loss_price`). */
  predicate Truthy(price: Option<real>) {
    price.Some? && price.value != 0.0
  }

  /** `price` moved `pct` percent against the position: below it for LONG, above it for SHORT. */
  function Offset(price: real, side: Side, pct: real): real {
    if side == Long then price - (price / 100.0) * pct else price + (price / 100.0) * pct
  }

  /** `side` prefers `a` to `b`: higher for LONG, lower for SHORT. */
  predicate Tighter(side: Side, a: real, b: real) {
    if side == Long then a > b else a < b
  }

  /**
   * `calculate_stop_loss_price`: start from the existing stop (or the order
   * price moved by `pct` when there is none), move to the market price moved by
   * `pct` when that is tighter, and with `noActionAtLoss` refuse a stop that
   * would not lock in a gain over the order price.
   */
  function StopLossPrice(market: real, order: real, stop: Option<real>, side: Side, pct: real, noActionAtLoss: bool)
    : (r: Option<real>)
    // the result is the tightest of its candidates, and is one of them
    ensures r.Some? && side == Long ==> r.value >= Offset(market, Long, pct)
    ensures r.Some? && side == Short ==> r.value <= Offset(market, Short, pct)
    ensures r.Some? && Truthy(stop) && side == Long ==> r.value >= stop.value
    ensures r.Some? && Truthy(stop) && side == Short ==> r.value <= stop.value
    ensures r.Some? && !Truthy(stop) && side == Long ==> r.value >= Offset(order, Long, pct)
    ensures r.Some? && !Truthy(stop) && side == Short ==> r.value <= Offset(order, Short, pct)
    ensures r.Some? ==> (|| r.value == Offset(market, side, pct)
                         || (Truthy(stop) && r.value == stop.value)
                         || (!Truthy(stop) && r.value == Offset(order, side, pct)))
    // the veto
    ensures r.Some? && noActionAtLoss ==> Tighter(side, r.value, order)
    ensures !noActionAtLoss ==> r.Some?
    ensures r.None? ==> (&& noActionAtLoss
                         && !Tighter(side, Offset(market, side, pct), order)
                         && !Tighter(side, if Truthy(stop) then stop.value else Offset(order, side, pct), order))
  {
    var start := if Truthy(stop) then stop.value else Offset(order, side, pct);
    var trail := Offset(market, side, pct);
    var candidate := if Tighter(side, trail, start) then trail else start;
    if !noActionAtLoss || Tighter(side, candidate, order) then Some(candidate) else None
  }

  lemma StopLossPriceExamples()
    // SHORT
    ensures StopLossPrice(10100.0, 10000.0, None, Short, 5.0, false) == Some(10500.0)
    ensures StopLossPrice(10100.0, 9500.0, None, Short, 5.0, true) == None
    ensures StopLossPrice(10100.0, 9500.0, None, Short, 5.0, false) == Some(9975.0)
    ensures StopLossPrice(10500.0, 9500.0, Some(10050.0), Short, 5.0, false) == Some(10050.0)
    ensures StopLossPrice(9500.0, 10000.0, None, Short, 5.0, false) == Some(9975.0)
    // LONG
    ensures StopLossPrice(9400.0, 10000.0, Some(9000.0), Long, 5.0, false) == Some(9000.0)
    ensures StopLossPrice(9600.0, 10000.0, None, Long, 5.0, false) == Some(9500.0)
    ensures StopLossPrice(9600.0, 10000.0, None, Long, 5.0, true) == None
    ensures StopLossPrice(10000.0, 10000.0, Some(10600.0), Long, 5.0, true) == Some(10600.0)
  {
  }

  /**
   * The main-loop guard: a candidate replaces the stop when there is no stop
   * order yet or when it is strictly tighter than the current stop price.
   */
  predicate Replaces(side: Side, hasStopOrder: bool, stopPrice: Option<real>, candidate: real)
    requires hasStopOrder ==> stopPrice.Some?
  {
    !hasStopOrder || Tighter(side, candidate, stopPrice.value)
  }

  /**
   * One pass of the main loop's stop maintenance, in prices, when the exchange
   * places every requested stop at the requested price (so a stop order exists
   * exactly when a stop price is known and non-zero).
   */
  function NextStop(stop: Option<real>, market: real, order: real, side: Side, pct: real, noActionAtLoss: bool)
    : (r: Option<real>)
    ensures Truthy(stop) ==> Truthy(r) && !Tighter(side, stop.value, r.value)
    ensures r != stop ==> r.Some? && r.value != 0.0
    // a truthy candidate is adopted exactly when there is no stop yet or it is strictly tighter
    ensures var c := StopLossPrice(market, order, stop, side, pct, noActionAtLoss);
            Truthy(c) && (!Truthy(stop) || Tighter(side, c.value, stop.value)) ==> r == c
    ensures var c := StopLossPrice(market, order, stop, side, pct, noActionAtLoss);
            !(Truthy(c) && (!Truthy(stop) || Tighter(side, c.value, stop.value))) ==> r == stop
  {
    var candidate := StopLossPrice(market, order, stop, side, pct, noActionAtLoss);
    if candidate.Some? && candidate.value != 0.0
       && Replaces(side, Truthy(stop), if Truthy(stop) then stop else Some(0.0), candidate.value)
    then candidate
    else stop
  }

  /** The stops the main loop holds after each of the market prices `markets`, in order. */
  function Trail(stop: Option<real>, markets: seq<real>, order: real, side: Side, pct: real, noActionAtLoss: bool)
    : (r: seq<Option<real>>)
    ensures |r| == |markets|
    decreases |markets|
  {
    if markets == [] then []
    else
      var next := NextStop(stop, markets[0], order, side, pct, noActionAtLoss);
      [next] + Trail(next, markets[1..], order, side, pct, noActionAtLoss)
  }

  /**
   * The ratchet: once a stop is in place, every later stop of a LONG position
   * is at least as high as every earlier one (for SHORT at least as low),
   * whatever the market does.
   */
  lemma {:induction false} TrailRatchets(stop: Option<real>, markets: seq<real>, order: real, side: Side, pct: real,
                                         noActionAtLoss: bool, i: int, j: int)
    requires 0 <= i < j < |markets|
    requires Truthy(Trail(stop, markets, order, side, pct, noActionAtLoss)[i])
    ensures var t := Trail(stop, markets, order, side, pct, noActionAtLoss);
            Truthy(t[j]) && !Tighter(side, t[i].value, t[j].value)
    decreases |markets|
  {
    var next := NextStop(stop, markets[0], order, side, pct, noActionAtLoss);
    var rest := Trail(next, markets[1..], order, side, pct, noActionAtLoss);
    assert Trail(stop, markets, order, side, pct, noActionAtLoss) == [next] + rest;
    if i == 0 {
      if j == 1 {
        assert rest[0] == NextStop(next, markets[1], order, side, pct, noActionAtLoss);
      } else {
        TrailRatchets(next, markets[1..], order, side, pct, noActionAtLoss, 0, j - 1);
        assert rest[0] == NextStop(next, markets[1], order, side, pct, noActionAtLoss);
      }
    } else {
      TrailRatchets(next, markets[1..], order, side, pct, noActionAtLoss, i - 1, j - 1);
    }
  }
}
