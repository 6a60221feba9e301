/**
 * The daemon's trading state and how it moves: the action marker it keeps in
 * its `.act` file, the reconciliation `init` does at startup, and the two
 * steps of each main-loop round (follow the signal, protect the position).
 */
module Trading {
  import opened Wrappers
  import opened Strings
  import opened Signal
  import opened Orders
  import opened StopLoss

  // ---------------------------------------------------------------- the marker

  /** The part of an action `write_action` keeps: at most five characters, trailing whitespace removed. */
  function ActionToken(act: string): (r: string)
    ensures |r| <= 5 && StartsWith(act, r)
    ensures r == [] || !IsSpace(r[|r| - 1])
    ensures forall i :: |r| <= i < |act| && i < 5 ==> IsSpace(act[i])
  {
    var t := Take(act, 5);
    var r := RStrip(t);
    assert act[..|r|] == t[..|r|];
    r
  }

  /** The contents `write_action` leaves in the action file. */
  function MarkerLine(act: string, now: string): (r: string)
    ensures StartsWith(r, ActionToken(act))
    ensures |r| > 0 && r[|r| - 1] == ')'
  {
    ActionToken(act) + " (since " + now + " UTC)"
  }

  /** `read_action`: the stripped contents of the action file, None when there is no file. */
  function ReadAction(file: Option<string>): Option<string> {
    if file.None? then None else Some(Strip(file.value))
  }

  /** The actions the daemon writes are kept whole. */
  lemma ActionTokenOfActions()
    ensures ActionToken("BUY") == "BUY" && ActionToken("SELL") == "SELL" && ActionToken("NIX") == "NIX"
    ensures ActionToken("-BUY") == "-BUY" && ActionToken("-SELL") == "-SELL"
  {
  }

  /** A prefix of at most five characters that ends in a non-blank survives the truncation. */
  lemma ActionTokenKeeps(act: string, p: string)
    requires StartsWith(act, p) && |p| <= 5 && p != [] && !IsSpace(p[|p| - 1])
    ensures StartsWith(ActionToken(act), p)
  {
    var r := ActionToken(act);
    assert r[..|p|] == act[..|p|];
  }

  /** A marker whose action starts with a non-blank reads back exactly as it was written. */
  lemma ReadBackMarker(act: string, now: string)
    requires ActionToken(act) != [] && !IsSpace(act[0])
    ensures ReadAction(Some(MarkerLine(act, now))) == Some(MarkerLine(act, now))
  {
    var line := MarkerLine(act, now);
    assert line[0] == ActionToken(act)[0] == act[0];
    StripTrimmed(line);
  }

  /**
   * Re-writing a recovered pending marker keeps five characters of the old
   * line: the BUY marker becomes `BUY (` followed by the new date, the SELL
   * marker plain `SELL`. Both still start with the action.
   */
  lemma RewrittenMarkerToken(now: string)
    ensures ActionToken("BUY (since " + now + " UTC)") == "BUY ("
    ensures ActionToken("SELL (since " + now + " UTC)") == "SELL"
  {
    var b := "BUY (since " + now + " UTC)";
    var s := "SELL (since " + now + " UTC)";
    assert Take(b, 5) == "BUY (" by { assert b[..5] == "BUY ("; }
    assert Take(s, 5) == "SELL " by { assert s[..5] == "SELL "; }
    assert RStrip("SELL ") == "SELL" by { assert "SELL "[..4] == "SELL"; }
  }

  /** The main loop trades exactly when the last action does not start with the signal's name. */
  lemma NamesStartWith(a: Signal, b: Signal)
    ensures StartsWith(Name(a), Name(b)) <==> a == b
    ensures !StartsWith("NIX", Name(b))
  {
    assert "SELL"[..3][0] == 'S';
    assert "NIX"[..3][0] == 'N';
  }

  // ---------------------------------------------------------------- recovery

  /** The global `STATE` dictionary, less the Liquid trade id. */
  datatype TradingState = TradingState(lastAction: Option<string>, order: Option<Order>,
                                       stopLossOrder: Option<Order>, stopLossPrice: Option<real>)

  const Empty := TradingState(None, None, None, None)

  /** An open Liquid trade. `stopLoss` is None when the trade carries no stop. */
  datatype Trade = Trade(id: string, stopLoss: Option<real>)

  /** The exchange's answers during `init`. */
  datatype Startup = Startup(
    openOrder: Option<Order>,   // get_open_order()
    cancelStatus: string,       // cancel_order(): the status the order had before the cancel
    signal: Signal,             // buy_or_sell()
    reset: bool,                // started with -reset
    closedOrder: Option<Order>, // get_closed_order()
    liquid: bool,               // the exchange is Liquid
    openTrade: Option<Trade>    // get_open_trade()
  )

  /** The end of `init`: a state and the action file it leaves, or a crash. */
  datatype Recovery = Recovered(state: TradingState, marker: Option<string>) | Crashed

  /** An open order that is not a stop: a limit order the daemon was waiting on. */
  predicate PendingOrder(s: Startup) {
    s.openOrder.Some? && s.openOrder.value.kind != "stop"
  }

  /** The stop order Liquid keeps inside the trade, seen as an order against the adopted one. */
  function LiquidStop(adopted: Order, trade: Trade, price: real): (r: Order)
    ensures r.kind == "stop" && r.price == Some(price) && r.id == trade.id && r.amount == adopted.amount
    ensures adopted.side == "buy" ==> r.side == "sell"
    ensures adopted.side != "buy" ==> r.side == "buy"
  {
    Order(trade.id, Some(price), adopted.amount, if adopted.side == "buy" then "sell" else "buy", "stop", adopted.datetime)
  }

  /** The tail of `init`: adopt the last closed order unless it is a stop. */
  function Adopt(st: TradingState, s: Startup): TradingState {
    if s.closedOrder.Some? && s.closedOrder.value.kind != "stop" then
      var st1 := st.(order := s.closedOrder);
      if s.liquid && s.openTrade.Some? && s.openTrade.value.stopLoss.Some? then
        var sl := s.openTrade.value.stopLoss.value;
        st1.(stopLossOrder := Some(LiquidStop(s.closedOrder.value, s.openTrade.value, sl)), stopLossPrice := Some(sl))
      else st1
    else st
  }

  /**
   * `init` on the action file `marker`. With a pending limit order: it is
   * cancelled, and a pending marker is replaced by the current signal when the
   * order was still open (a filled one crashes on `None[1:]`, a missing file on
   * `None.startswith`). Otherwise an open stop order is kept; RESET gives
   * `NIX` without a stop; a missing or empty marker adopts the signal; a
   * pending `-` prefix is dropped; and the last closed order that is not a stop
   * becomes the position.
   */
  function Recover(marker: Option<string>, s: Startup, now: string): Recovery {
    if PendingOrder(s) then
      var act := ReadAction(marker);
      if act.None? then Crashed
      else if StartsWith(act.value, "-") then
        if s.cancelStatus == "open" then
          Recovered(Empty.(lastAction := Some(Name(s.signal))), Some(MarkerLine(Name(s.signal), now)))
        else Crashed
      else Recovered(Empty, marker)
    else
      var st := if s.openOrder.Some? then Empty.(stopLossOrder := s.openOrder, stopLossPrice := s.openOrder.value.price)
                else Empty;
      if s.reset then Recovered(st.(lastAction := Some("NIX"), stopLossOrder := None, stopLossPrice := None), marker)
      else
        var act := ReadAction(marker);
        if act.None? || act.value == [] then
          Recovered(st.(lastAction := Some(Name(s.signal))), Some(MarkerLine(Name(s.signal), now)))
        else if StartsWith(act.value, "-") then
          Recovered(Adopt(st.(lastAction := Some(act.value[1..])), s), Some(MarkerLine(act.value[1..], now)))
        else
          Recovered(Adopt(st.(lastAction := act), s), marker)
  }

  /** `init` crashes exactly on a pending order with no action file, or with a pending marker whose order filled. */
  lemma RecoverCrashes(marker: Option<string>, s: Startup, now: string)
    ensures Recover(marker, s, now).Crashed? <==>
              PendingOrder(s) && (|| ReadAction(marker).None?
                                  || (StartsWith(ReadAction(marker).value, "-") && s.cancelStatus != "open"))
  {
  }

  /** A pending order still open when cancelled: the marker and the last action become the current signal. */
  lemma RecoverCancelledPending(marker: Option<string>, s: Startup, now: string)
    requires PendingOrder(s) && ReadAction(marker).Some? && s.cancelStatus == "open"
    ensures var r := Recover(marker, s, now);
            && r.Recovered?
            && r.state.order.None? && r.state.stopLossOrder.None? && r.state.stopLossPrice.None?
            && (StartsWith(ReadAction(marker).value, "-") ==>
                  r.state.lastAction == Some(Name(s.signal)) && r.marker == Some(MarkerLine(Name(s.signal), now)))
            && (!StartsWith(ReadAction(marker).value, "-") ==> r.state.lastAction.None? && r.marker == marker)
  {
  }

  /** RESET gives the action `NIX`, no stop and no position, and leaves the file alone. */
  lemma RecoverReset(marker: Option<string>, s: Startup, now: string)
    requires !PendingOrder(s) && s.reset
    ensures Recover(marker, s, now) == Recovered(TradingState(Some("NIX"), None, None, None), marker)
  {
  }

  /** A first run (no marker, or an empty one) adopts the current signal and records it. */
  lemma RecoverFirstRun(marker: Option<string>, s: Startup, now: string)
    requires !PendingOrder(s) && !s.reset
    requires marker.None? || Strip(marker.value) == []
    ensures var r := Recover(marker, s, now);
            && r.Recovered? && r.state.lastAction == Some(Name(s.signal)) && r.state.order.None?
            && r.marker == Some(MarkerLine(Name(s.signal), now))
            && StartsWith(r.marker.value, Name(s.signal))
  {
    ActionTokenKeeps(Name(s.signal), Name(s.signal));
  }

  /** A pending marker whose order is gone loses its `-`, and the shorter action is written back. */
  lemma RecoverStripsPending(marker: Option<string>, s: Startup, now: string)
    requires !PendingOrder(s) && !s.reset
    requires marker.Some? && StartsWith(Strip(marker.value), "-")
    ensures var act := Strip(marker.value);
            var r := Recover(marker, s, now);
            && r.Recovered? && r.state.lastAction == Some(act[1..])
            && r.marker == Some(MarkerLine(act[1..], now))
  {
  }

  /**
   * `Adopt` makes the last closed order that is not a stop the position; on
   * Liquid a stop on the open trade becomes the stop order, on the other side
   * of the position. Otherwise the stop fields are left as they were.
   */
  lemma AdoptClosed(st: TradingState, s: Startup)
    ensures var r := Adopt(st, s);
            && r.lastAction == st.lastAction
            && (s.closedOrder.Some? && s.closedOrder.value.kind != "stop" ==> r.order == s.closedOrder)
            && (s.closedOrder.None? || s.closedOrder.value.kind == "stop" ==> r.order == st.order)
            && (if s.closedOrder.Some? && s.closedOrder.value.kind != "stop" && s.liquid
                   && s.openTrade.Some? && s.openTrade.value.stopLoss.Some?
                then && r.stopLossPrice == s.openTrade.value.stopLoss
                     && r.stopLossOrder == Some(LiquidStop(s.closedOrder.value, s.openTrade.value,
                                                          s.openTrade.value.stopLoss.value))
                else r.stopLossOrder == st.stopLossOrder && r.stopLossPrice == st.stopLossPrice)
  {
  }

  /**
   * Past RESET and the first run, `init` ends in `Adopt`, starting from the
   * open stop order if there is one and no position.
   */
  lemma RecoverAdoptsClosed(marker: Option<string>, s: Startup, now: string)
    requires !PendingOrder(s) && !s.reset && marker.Some? && Strip(marker.value) != []
    ensures var r := Recover(marker, s, now);
            var act := Strip(marker.value);
            var st := TradingState(Some(if StartsWith(act, "-") then act[1..] else act), None,
                                   s.openOrder, if s.openOrder.Some? then s.openOrder.value.price else None);
            r.Recovered? && r.state == Adopt(st, s)
  {
  }

  /** A settled marker (no leading `-`) is kept as it is and becomes the last action. */
  lemma RecoverKeepsMarker(marker: Option<string>, s: Startup, now: string)
    requires !PendingOrder(s) && !s.reset && marker.Some?
    requires Strip(marker.value) != [] && !StartsWith(Strip(marker.value), "-")
    ensures var r := Recover(marker, s, now);
            r.Recovered? && r.marker == marker && r.state.lastAction == Some(Strip(marker.value))
  {
    var st := if s.openOrder.Some? then Empty.(stopLossOrder := s.openOrder, stopLossPrice := s.openOrder.value.price)
              else Empty;
    AdoptClosed(st.(lastAction := Some(Strip(marker.value))), s);
  }

  /**
   * The round trip through the marker: after a trade of `sig` the file holds
   * `MarkerLine(Name(sig), earlier)`; a restart without a pending order reads it
   * back unchanged, and the recovered action starts with the signal, so the
   * main loop does not trade `sig` again.
   */
  lemma RestartAfterTrade(sig: Signal, earlier: string, s: Startup, now: string)
    requires !PendingOrder(s) && !s.reset
    ensures var marker := Some(MarkerLine(Name(sig), earlier));
            var r := Recover(marker, s, now);
            && r.Recovered? && r.marker == marker
            && r.state.lastAction.Some? && StartsWith(r.state.lastAction.value, Name(sig))
  {
    var line := MarkerLine(Name(sig), earlier);
    ActionTokenKeeps(Name(sig), Name(sig));
    ReadBackMarker(Name(sig), earlier);
    assert Strip(line) == line;
    assert !StartsWith(line, "-") by {
      assert StartsWith(line, Name(sig));
      assert line[..1] == Name(sig)[..1];
    }
    RecoverKeepsMarker(Some(line), s, now);
    StartsWithTransitive(line, ActionToken(Name(sig)), Name(sig));
  }

  /**
   * A restart after the daemon stopped between placing an order for `sig` and
   * recording the trade: the pending `-` is dropped, and both the recovered
   * action and the rewritten marker start with the signal.
   */
  lemma RestartAfterPending(sig: Signal, earlier: string, s: Startup, now: string)
    requires !PendingOrder(s) && !s.reset
    ensures var marker := Some(MarkerLine("-" + Name(sig), earlier));
            var r := Recover(marker, s, now);
            && r.Recovered?
            && r.state.lastAction.Some? && StartsWith(r.state.lastAction.value, Name(sig))
            && r.marker.Some? && StartsWith(r.marker.value, Name(sig))
  {
    var p := "-" + Name(sig);
    ActionTokenKeeps(p, p);
    ReadBackMarker(p, earlier);
    var line := MarkerLine(p, earlier);
    assert Strip(line) == line;
    assert StartsWith(line, "-") by {
      assert StartsWith(line, p);
      assert line[..1] == p[..1];
    }
    RecoverStripsPending(Some(line), s, now);
    var rest := line[1..];
    assert StartsWith(rest, Name(sig)) by {
      assert line[..|p|] == p;
      assert rest[..|Name(sig)|] == line[1..|p|];
    }
    ActionTokenKeeps(rest, Name(sig));
    StartsWithTransitive(MarkerLine(rest, now), ActionToken(rest), Name(sig));
  }

  /** The four startup situations the daemon's tests describe. */
  lemma RecoverExamples(o: Order, now: string)
    requires o.kind == "limit" && o.side == "sell" && o.id == "s1o"
    ensures var r := Recover(None, Startup(None, "", Buy, false, None, false, None), now);
            r.Recovered? && r.state.lastAction == Some("BUY") && r.state.order.None?
    ensures var r := Recover(None, Startup(None, "", Buy, true, None, false, None), now);
            r.Recovered? && r.state.lastAction == Some("NIX") && r.state.order.None?
    ensures var r := Recover(Some("-SELL (since 2020-05-20 06:55:08 UTC)"), Startup(Some(o), "open", Buy, false, None, false, None), now);
            r.Recovered? && r.state.lastAction == Some("BUY") && r.state.order.None?
    ensures var r := Recover(Some("-SELL (since 2020-05-20 06:55:08 UTC)"), Startup(None, "", Buy, false, Some(o), false, None), now);
            && r.Recovered? && r.state.lastAction.Some? && StartsWith(r.state.lastAction.value, "SELL")
            && r.state.order == Some(o)
  {
    var line := "-SELL (since 2020-05-20 06:55:08 UTC)";
    StripTrimmed(line);
    assert StartsWith(line, "-") by { assert line[..1] == "-"; }
    assert StartsWith(line[1..], "SELL") by {
      assert forall i | 0 <= i < 4 :: line[1..][i] == "SELL"[i];
    }
  }

  // ---------------------------------------------------------------- protecting the position

  /** `'SHORT' if str(order.side).startswith('s') else 'LONG'`. */
  function PositionSide(o: Order): (side: Side)
    ensures side == Short <==> StartsWith(o.side, "s")
  {
    if StartsWith(o.side, "s") then Short else Long
  }

  /** `do_post_stop_loss_action`: the stop filled, so there is neither a position nor a stop any more. */
  function AfterStopLoss(s: TradingState): (r: TradingState)
    ensures r.order.None? && r.stopLossOrder.None? && r.stopLossPrice.None?
    ensures r.lastAction == s.lastAction
  {
    s.(order := None, stopLossOrder := None, stopLossPrice := None)
  }

  /** The order with its price repaired by `fix_order_price`; None when that crashes on a missing closed order. */
  function Repriced(o: Order, closed: Option<Order>): (r: Option<Order>)
    ensures Truthy(o.price) ==> r == Some(o)
    ensures r.None? <==> !Truthy(o.price) && closed.None?
    ensures !Truthy(o.price) && closed.Some? ==> r == Some(FixOrderPrice(o, closed.value))
    ensures r.Some? ==> r.value.id == o.id && r.value.side == o.side && r.value.amount == o.amount
  {
    if Truthy(o.price) then Some(o)
    else if closed.None? then None
    else Some(FixOrderPrice(o, closed.value))
  }

  predicate StopFilled(stopStatus: string) {
    stopStatus in {"closed", "filled"}
  }

  /**
   * The stop-loss part of a main-loop round. `price` is the current price,
   * `stopStatus` the status of the stop order, `closed` the last closed order
   * (for `fix_order_price`) and `placed` what `update_stop_loss_order`
   * returns. None stands for the crashes of the source: a `None` order price in
   * `calculate_stop_loss_price`, and a stop order without a stop price in the
   * guard's comparison.
   */
  function Protect(s: TradingState, enabled: bool, price: Option<real>, stopStatus: string, closed: Option<Order>,
                   pct: real, noActionAtLoss: bool, placed: Option<Order>): Option<TradingState>
  {
    if !enabled || s.order.None? || !(price.Some? && price.value > 0.0) then Some(s)
    else if s.stopLossOrder.Some? && StopFilled(stopStatus) then Some(AfterStopLoss(s))
    else
      var o := Repriced(s.order.value, closed);
      if o.None? then None
      else if o.value.price.None? && (!Truthy(s.stopLossPrice) || noActionAtLoss) then None
      else
        var s2 := s.(order := o);
        var side := PositionSide(o.value);
        var candidate := StopLossPrice(price.value, o.value.price.GetOr(0.0), s.stopLossPrice, side, pct, noActionAtLoss);
        if !Truthy(candidate) then Some(s2)
        else if s.stopLossOrder.Some? && s.stopLossPrice.None? then None
        else if s.stopLossOrder.None? || Tighter(side, candidate.value, s.stopLossPrice.value) then
          Some(s2.(stopLossOrder := placed, stopLossPrice := if placed.Some? then placed.value.price else None))
        else Some(s2)
  }

  /** Without stop-loss configured, without a position or without a positive price nothing changes. */
  lemma ProtectSkips(s: TradingState, enabled: bool, price: Option<real>, stopStatus: string, closed: Option<Order>,
                     pct: real, noActionAtLoss: bool, placed: Option<Order>)
    requires !enabled || s.order.None? || price.None? || price.value <= 0.0
    ensures Protect(s, enabled, price, stopStatus, closed, pct, noActionAtLoss, placed) == Some(s)
  {
  }

  /** A filled stop ends the position: order, stop order and stop price are all cleared, the action kept. */
  lemma ProtectExitsOnFilledStop(s: TradingState, price: real, stopStatus: string, closed: Option<Order>,
                                 pct: real, noActionAtLoss: bool, placed: Option<Order>)
    requires s.order.Some? && price > 0.0 && s.stopLossOrder.Some? && StopFilled(stopStatus)
    ensures Protect(s, true, Some(price), stopStatus, closed, pct, noActionAtLoss, placed)
            == Some(TradingState(s.lastAction, None, None, None))
  {
  }

  /**
   * The guard: the stop order changes only on a filled stop, or to the order
   * `placed` for a truthy candidate, when there was no stop order or the
   * candidate is strictly tighter than the current stop price.
   */
  lemma ProtectOnlyTightens(s: TradingState, enabled: bool, price: Option<real>, stopStatus: string,
                            closed: Option<Order>, pct: real, noActionAtLoss: bool, placed: Option<Order>)
    requires Protect(s, enabled, price, stopStatus, closed, pct, noActionAtLoss, placed).Some?
    ensures var t := Protect(s, enabled, price, stopStatus, closed, pct, noActionAtLoss, placed).value;
            || (t.stopLossOrder == s.stopLossOrder && t.stopLossPrice == s.stopLossPrice)
            || (&& s.stopLossOrder.Some? && StopFilled(stopStatus)
                && t.order.None? && t.stopLossOrder.None? && t.stopLossPrice.None?)
            || (&& t.order.Some? && price.Some? && t.stopLossOrder == placed
                && var side := PositionSide(t.order.value);
                   var c := StopLossPrice(price.value, t.order.value.price.GetOr(0.0), s.stopLossPrice, side, pct,
                                          noActionAtLoss);
                   && Truthy(c)
                   && (s.stopLossOrder.None? || (s.stopLossPrice.Some? && Tighter(side, c.value, s.stopLossPrice.value))))
  {
  }

  /**
   * When the exchange places each stop at the price asked for, and a stop
   * order exists exactly when the stop price is truthy, a round moves the
   * stop price as the ratchet `NextStop` does; `TrailRatchets` then says that
   * the stops of successive rounds never loosen.
   */
  lemma ProtectFollowsNextStop(s: TradingState, price: real, stopStatus: string, closed: Option<Order>,
                               pct: real, noActionAtLoss: bool, placed: Option<Order>)
    requires s.order.Some? && Truthy(s.order.value.price) && price > 0.0
    requires !(s.stopLossOrder.Some? && StopFilled(stopStatus))
    requires s.stopLossOrder.Some? <==> Truthy(s.stopLossPrice)
    requires placed.Some? && placed.value.price == StopLossPrice(price, s.order.value.price.value, s.stopLossPrice,
                                                                 PositionSide(s.order.value), pct, noActionAtLoss)
    ensures var r := Protect(s, true, Some(price), stopStatus, closed, pct, noActionAtLoss, placed);
            && r.Some? && r.value.order == s.order
            && r.value.stopLossPrice == NextStop(s.stopLossPrice, price, s.order.value.price.value,
                                                 PositionSide(s.order.value), pct, noActionAtLoss)
  {
  }

  // ---------------------------------------------------------------- the trader

  /** The daemon's mutable state: `STATE` and the action file. */
  class Trader {
    var lastAction: Option<string>
    var order: Option<Order>
    var stopLossOrder: Option<Order>
    var stopLossPrice: Option<real>
    var tradeId: Option<string>
    /** The contents of the action file; None when there is none. */
    var marker: Option<string>

    function State(): TradingState
      reads this
    {
      TradingState(lastAction, order, stopLossOrder, stopLossPrice)
    }

    constructor (file: Option<string>)
      ensures State() == Empty && tradeId.None? && marker == file
    {
      lastAction, order, stopLossOrder, stopLossPrice := None, None, None, None;
      tradeId := None;
      marker := file;
    }

    /** `write_action`. */
    method WriteAction(act: string, now: string)
      modifies this
      ensures marker == Some(MarkerLine(act, now))
      ensures State() == old(State()) && tradeId == old(tradeId)
    {
      marker := Some(MarkerLine(act, now));
    }

    /** `init`; `ok` is false where the source crashes. */
    method Init(s: Startup, now: string) returns (ok: bool)
      modifies this
      ensures var r := Recover(old(marker), s, now);
              && (ok <==> r.Recovered?)
              && (ok ==> State() == r.state && marker == r.marker)
      ensures tradeId == old(tradeId)
    {
      lastAction, order, stopLossOrder, stopLossPrice := None, None, None, None;
      if s.openOrder.Some? {
        var o := s.openOrder.value;
        if o.kind != "stop" {
          var act := ReadAction(marker);
          if act.None? {
            return false;
          }
          if StartsWith(act.value, "-") {
            if s.cancelStatus == "open" {
              lastAction := Some(Name(s.signal));
            } else {
              return false;
            }
            WriteAction(lastAction.value, now);
          }
          return true;
        }
        stopLossOrder := Some(o);
        stopLossPrice := o.price;
      }
      if s.reset {
        lastAction := Some("NIX");
        stopLossOrder := None;
        stopLossPrice := None;
        return true;
      }
      lastAction := ReadAction(marker);
      if lastAction.None? || lastAction.value == [] {
        lastAction := Some(Name(s.signal));
        WriteAction(lastAction.value, now);
        return true;
      }
      if StartsWith(lastAction.value, "-") {
        lastAction := Some(lastAction.value[1..]);
        WriteAction(lastAction.value, now);
      }
      if s.closedOrder.Some? && s.closedOrder.value.kind != "stop" {
        order := s.closedOrder;
        if s.liquid && s.openTrade.Some? && s.openTrade.value.stopLoss.Some? {
          var sorder := LiquidStop(s.closedOrder.value, s.openTrade.value, s.openTrade.value.stopLoss.value);
          stopLossOrder := Some(sorder);
          stopLossPrice := sorder.price;
        }
      }
      return true;
    }

    /** `do_post_trade_action`: record the action, and on Liquid the id of the open trade. */
    method PostTrade(action: Signal, liquid: bool, openTradeId: string, now: string)
      modifies this
      ensures lastAction == Some(Name(action)) && marker == Some(MarkerLine(Name(action), now))
      ensures order == old(order) && stopLossOrder == old(stopLossOrder) && stopLossPrice == old(stopLossPrice)
      ensures tradeId == if liquid then Some(openTradeId) else old(tradeId)
    {
      lastAction := Some(Name(action));
      WriteAction(Name(action), now);
      if liquid {
        tradeId := Some(openTradeId);
      }
    }

    /** `do_post_stop_loss_action`. */
    method PostStopLoss()
      modifies this
      ensures State() == AfterStopLoss(old(State()))
      ensures marker == old(marker) && tradeId == old(tradeId)
    {
      order := None;
      stopLossOrder := None;
      stopLossPrice := None;
    }

    /**
     * The first step of a main-loop round: when the last action does not
     * start with the signal's name, run `do_buy`/`do_sell` (whose exchange
     * answers are the parameters of `RunTrials`) and record the trade. `ok` is
     * false where the source crashes on a missing last action.
     */
    method FollowSignal(action: Signal, trials: nat, sellSized: bool, attempts: seq<Attempt>, marketSized: bool,
                        marketOrder: Option<Order>, handedOver: Option<Order>, liquid: bool, openTradeId: string,
                        now: string)
      returns (ok: bool, outcome: Option<TrialOutcome>)
      requires trials <= |attempts|
      modifies this
      ensures ok <==> old(lastAction).Some?
      ensures !ok || StartsWith(old(lastAction).value, Name(action)) ==>
                outcome.None? && State() == old(State()) && marker == old(marker) && tradeId == old(tradeId)
      ensures ok && !StartsWith(old(lastAction).value, Name(action)) ==>
                && outcome == Some(Trials(action, trials, sellSized, attempts, marketSized))
                && order == ReturnedOrder(outcome.value, attempts, marketOrder, handedOver)
                && lastAction == Some(Name(action)) && marker == Some(MarkerLine(Name(action), now))
                && stopLossOrder == old(stopLossOrder) && stopLossPrice == old(stopLossPrice)
                && tradeId == (if liquid then Some(openTradeId) else old(tradeId))
    {
      if lastAction.None? {
        return false, None;
      }
      if StartsWith(lastAction.value, Name(action)) {
        return true, None;
      }
      var o, returned, pending := RunTrials(action, trials, sellSized, attempts, marketSized, marketOrder, handedOver);
      if pending {
        // left behind if the daemon stops before the trade is recorded
        WriteAction("-" + Name(action), now);
      }
      order := returned;
      PostTrade(action, liquid, openTradeId, now);
      return true, Some(o);
    }

    /** The second step of a main-loop round, as `Protect` describes it; `ok` is false where the source crashes. */
    method ProtectPosition(enabled: bool, price: Option<real>, stopStatus: string, closed: Option<Order>,
                           pct: real, noActionAtLoss: bool, placed: Option<Order>)
      returns (ok: bool)
      modifies this
      ensures var r := Protect(old(State()), enabled, price, stopStatus, closed, pct, noActionAtLoss, placed);
              (ok <==> r.Some?) && (ok ==> State() == r.value)
      ensures marker == old(marker) && tradeId == old(tradeId)
    {
      if !enabled || order.None? || !(price.Some? && price.value > 0.0) {
        return true;
      }
      if stopLossOrder.Some? && StopFilled(stopStatus) {
        PostStopLoss();
      }
      if order.None? {
        return true;
      }
      var side := PositionSide(order.value);
      if !Truthy(order.value.price) {
        if closed.None? {
          return false;
        }
        order := Some(FixOrderPrice(order.value, closed.value));
      }
      if order.value.price.None? && (!Truthy(stopLossPrice) || noActionAtLoss) {
        return false;
      }
      var candidate := StopLossPrice(price.value, order.value.price.GetOr(0.0), stopLossPrice, side, pct, noActionAtLoss);
      if Truthy(candidate) {
        if stopLossOrder.Some? && stopLossPrice.None? {
          return false;
        }
        if stopLossOrder.None? || Tighter(side, candidate.value, stopLossPrice.value) {
          stopLossOrder := placed;
          stopLossPrice := if placed.Some? then placed.value.price else None;
        }
      }
      return true;
    }
  }
}
