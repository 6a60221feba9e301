/**
 * Orders as the daemon sees them: normalising an exchange order, the limit
 * prices it asks for, which exchange errors end a retry, polling an order's
 * status, and the limit-order trials that end in a market order.
 */
module Orders {
  import opened Wrappers
  import opened Strings
  import Arith
  import opened Signal

  /** An order as the exchange library returns it. `stopPx` is None when `info` carries no `stopPx` key. */
  datatype ExchangeOrder = ExchangeOrder(id: string, amount: real, side: string, kind: string, price: Option<real>,
                                         stopPx: Option<Option<real>>, datetime: string)

  /** The daemon's `Order`. */
  datatype Order = Order(id: string, price: Option<real>, amount: real, side: string, kind: string, datetime: string)

  /** Stop-like order types are all called `stop`. */
  function NormaliseKind(kind: string): (k: string)
    ensures k == "stop" <==> kind in {"stop", "stop-loss", "trailing_stop"}
    ensures k != "stop" ==> k == kind
  {
    if kind in {"stop-loss", "trailing_stop"} then "stop" else kind
  }

  /** `Order(ccxt_order)`: the side in lower case, the type normalised, and a stop's price taken from `stopPx` when present. */
  function FromExchange(o: ExchangeOrder): (r: Order)
    ensures r.id == o.id && r.amount == o.amount && r.datetime == o.datetime
    ensures r.side == Lower(o.side)
    ensures r.kind == "stop" <==> o.kind in {"stop", "stop-loss", "trailing_stop"}
    ensures r.kind != "stop" ==> r.kind == o.kind
    ensures r.price == if r.kind == "stop" && o.stopPx.Some? then o.stopPx.value else o.price
  {
    var kind := NormaliseKind(o.kind);
    var price := if kind == "stop" && o.stopPx.Some? then o.stopPx.value else o.price;
    Order(o.id, price, o.amount, Lower(o.side), kind, o.datetime)
  }

  /** The exchange-side view of an order the daemon already holds. */
  function AsExchangeOrder(o: Order): ExchangeOrder {
    ExchangeOrder(o.id, o.amount, o.side, o.kind, o.price, None, o.datetime)
  }

  /** Normalising is idempotent: an `Order` handed back through the exchange format comes out unchanged. */
  lemma FromExchangeIdempotent(o: ExchangeOrder)
    ensures FromExchange(AsExchangeOrder(FromExchange(o))) == FromExchange(o)
  {
    LowerIdempotent(o.side);
  }

  /** `fix_order_price`: an order without a price takes the price of the last closed order when that is the same order. */
  function FixOrderPrice(order: Order, closed: Order): (r: Order)
    ensures r.id == order.id && r.amount == order.amount && r.side == order.side && r.kind == order.kind
    ensures r.datetime == order.datetime
    ensures order.price.Some? && order.price.value != 0.0 ==> r == order
    ensures (&& (order.price.None? || order.price.value == 0.0) && closed.id == order.id
             && closed.price.Some? && closed.price.value != 0.0) ==> r == order.(price := closed.price)
    ensures r.price != order.price ==> closed.id == order.id && r.price == closed.price
                                       && closed.price.Some? && closed.price.value != 0.0
  {
    if (order.price.None? || order.price.value == 0.0) && closed.id == order.id
       && closed.price.Some? && closed.price.value != 0.0
    then order.(price := closed.price)
    else order
  }

  // ---------------------------------------------------------- exchange errors

  /** `STOP_ERRORS`: exchange error texts after which a call is not retried. */
  const StopErrors: seq<string> :=
    ["nsufficient", "too low", "not_enough", "margin_below", "liquidation price", "closed_already", "zero margin"]

  /** `any(e in str(error.args) for e in STOP_ERRORS)`, case-sensitive as in the code. */
  function IsTerminalError(message: string): (r: bool)
    ensures r <==> exists k :: 0 <= k < |StopErrors| && Contains(message, StopErrors[k])
  {
    AnyOccurs(StopErrors, message)
  }

  function AnyOccurs(markers: seq<string>, message: string): (r: bool)
    ensures r <==> exists k :: 0 <= k < |markers| && Contains(message, markers[k])
  {
    if markers == [] then false
    else Contains(message, markers[0]) || AnyOccurs(markers[1..], message)
  }

  datatype ErrorHandling = GiveUp | RetryLater

  /** What an order wrapper does with an exchange error: give up (return None) on a terminal one, otherwise retry. */
  function OnExchangeError(message: string): (h: ErrorHandling)
    ensures h == GiveUp <==> exists k :: 0 <= k < |StopErrors| && Contains(message, StopErrors[k])
  {
    if IsTerminalError(message) then GiveUp else RetryLater
  }

  /** A liquidation-price error from BitMEX and an insufficient-funds error are terminal. */
  lemma TerminalErrorExamples(m: string, n: string)
    requires m == "bitmex {\"error\":\"liquidation price\"}"
    requires n == "Account has insufficient Available Balance"
    ensures OnExchangeError(m) == GiveUp
    ensures OnExchangeError(n) == GiveUp
  {
    LiquidationPriceIsTerminal(m);
    InsufficientFundsIsTerminal(n);
  }

  lemma LiquidationPriceIsTerminal(m: string)
    requires m == "bitmex {\"error\":\"liquidation price\"}"
    ensures OnExchangeError(m) == GiveUp
  {
    var e := StopErrors[4];
    assert e == "liquidation price";
    assert m[17..34] == e by {
      assert forall i | 0 <= i < 17 :: m[17 + i] == e[i];
    }
    TerminalAt(m, 4, 17);
  }

  lemma InsufficientFundsIsTerminal(n: string)
    requires n == "Account has insufficient Available Balance"
    ensures OnExchangeError(n) == GiveUp
  {
    var e := StopErrors[0];
    assert e == "nsufficient";
    assert n[13..24] == e by {
      assert forall i | 0 <= i < 11 :: n[13 + i] == e[i];
    }
    TerminalAt(n, 0, 13);
  }

  /** A message holding a marker at offset `i` is terminal. */
  lemma TerminalAt(message: string, k: int, i: int)
    requires 0 <= k < |StopErrors| && OccursAt(StopErrors[k], message, i)
    ensures OnExchangeError(message) == GiveUp
  {
    assert Contains(message, StopErrors[k]);
  }

  /** The markers are matched case-sensitively: a message without lower-case letters is never terminal. */
  lemma UpperCaseIsNotTerminal(message: string)
    requires forall i :: 0 <= i < |message| ==> !('a' <= message[i] <= 'z')
    ensures !IsTerminalError(message)
  {
    assert forall k :: 0 <= k < |StopErrors| ==> 'a' <= StopErrors[k][0] <= 'z' by {
      assert StopErrors[0][0] == 'n' && StopErrors[1][0] == 't' && StopErrors[2][0] == 'n';
      assert StopErrors[3][0] == 'm' && StopErrors[4][0] == 'l' && StopErrors[5][0] == 'c';
      assert StopErrors[6][0] == 'z';
    }
    forall k, i | 0 <= k < |StopErrors| ensures !OccursAt(StopErrors[k], message, i) {
      if 0 <= i && i + |StopErrors[k]| <= |message| {
        assert message[i..i + |StopErrors[k]|][0] == message[i];
      }
    }
  }

  // ---------------------------------------------------------------- prices

  /** The factor `1 + trade_advantage_in_percent / 100` both limit prices use. */
  function Advantage(advantagePercent: real): real {
    1.0 + advantagePercent / 100.0
  }

  /** `calculate_buy_price`: the market price lowered by the trade advantage, to one decimal. */
  function BuyPrice(price: real, advantagePercent: real): (r: real)
    requires advantagePercent != -100.0
    ensures -0.05 <= r - price / Advantage(advantagePercent) <= 0.05
  {
    Arith.RoundToTenth(price / Advantage(advantagePercent))
  }

  /** `calculate_sell_price`: the market price raised by the trade advantage, to one decimal. */
  function SellPrice(price: real, advantagePercent: real): (r: real)
    ensures -0.05 <= r - price * Advantage(advantagePercent) <= 0.05
  {
    Arith.RoundToTenth(price * Advantage(advantagePercent))
  }

  lemma LimitPriceExamples()
    ensures BuyPrice(10000.0, 0.018) == 9998.2
    ensures SellPrice(10000.0, 0.018) == 10001.8
  {
    assert (10000.0 / (1.0 + 0.018 / 100.0) * 10.0).Floor == 99982;
    assert (10000.0 * (1.0 + 0.018 / 100.0) * 10.0).Floor == 100018;
  }

  /** For a whole market price and a non-negative advantage, the buy price is at most and the sell price at least the market. */
  lemma LimitPricesBracketMarket(price: int, advantagePercent: real)
    requires price >= 0 && advantagePercent >= 0.0
    ensures BuyPrice(price as real, advantagePercent) <= price as real <= SellPrice(price as real, advantagePercent)
  {
    BuyBelow(price as real, advantagePercent);
    SellAbove(price as real, advantagePercent);
    Arith.RoundToTenthOfInt(price);
  }

  lemma BuyBelow(price: real, advantagePercent: real)
    requires price >= 0.0 && advantagePercent >= 0.0
    ensures BuyPrice(price, advantagePercent) <= Arith.RoundToTenth(price)
  {
    assert BuyPrice(price, advantagePercent) == Arith.RoundToTenth(price / Advantage(advantagePercent));
    assert Arith.RoundToTenth(price / Advantage(advantagePercent)) <= Arith.RoundToTenth(price) by {
      Shrunk(price, Advantage(advantagePercent));
      Arith.RoundToTenthMonotone(price / Advantage(advantagePercent), price);
    }
  }

  lemma SellAbove(price: real, advantagePercent: real)
    requires price >= 0.0 && advantagePercent >= 0.0
    ensures Arith.RoundToTenth(price) <= SellPrice(price, advantagePercent)
  {
    assert SellPrice(price, advantagePercent) == Arith.RoundToTenth(price * Advantage(advantagePercent));
    assert Arith.RoundToTenth(price) <= Arith.RoundToTenth(price * Advantage(advantagePercent)) by {
      Grown(price, Advantage(advantagePercent));
      Arith.RoundToTenthMonotone(price, price * Advantage(advantagePercent));
    }
  }

  lemma Grown(p: real, f: real)
    requires p >= 0.0 && f >= 1.0
    ensures p <= p * f
  {
    NonNegativeProduct(p, f - 1.0);
  }

  lemma Shrunk(p: real, f: real)
    requires p >= 0.0 && f >= 1.0
    ensures p / f <= p
  {
    var q := p / f;
    assert q * f == p;
    NonNegativeProduct(q, f - 1.0);
  }

  lemma NonNegativeProduct(a: real, b: real)
    requires a >= 0.0 && b >= 0.0
    ensures a * b >= 0.0
  {
  }

  // --------------------------------------------------------------- polling

  /** How often `poll_order_status` fetches: `round(order_adjust_seconds / interval)` when that exceeds one interval, else once. */
  function PollAttempts(orderAdjustSeconds: int, interval: int): (n: int)
    requires interval > 0
    ensures n >= 1
    ensures orderAdjustSeconds <= interval ==> n == 1
    // above one interval: the nearest whole number of intervals, ties to the even one
    ensures orderAdjustSeconds > interval ==>
              && 2 * (orderAdjustSeconds - n * interval) <= interval
              && 2 * (n * interval - orderAdjustSeconds) <= interval
    ensures orderAdjustSeconds > interval
            && (2 * (orderAdjustSeconds - n * interval) == interval || 2 * (n * interval - orderAdjustSeconds) == interval)
            ==> n % 2 == 0
  {
    if orderAdjustSeconds > interval then Arith.RoundDiv(orderAdjustSeconds, interval) else 1
  }

  /**
   * `poll_order_status`: `answers` are the statuses the successive fetches
   * return. Fetching stops at the first status other than `open` or after
   * `PollAttempts` fetches; the last status seen is returned.
   */
  method PollOrderStatus(answers: seq<string>, orderAdjustSeconds: int, interval: int)
    returns (status: string, fetches: nat)
    requires interval > 0
    requires |answers| >= PollAttempts(orderAdjustSeconds, interval)
    ensures 1 <= fetches <= PollAttempts(orderAdjustSeconds, interval)
    ensures status == answers[fetches - 1]
    ensures forall k :: 0 <= k < fetches - 1 ==> answers[k] == "open"
    ensures fetches < PollAttempts(orderAdjustSeconds, interval) ==> status != "open"
  {
    var attempts := if orderAdjustSeconds > interval then Arith.RoundDiv(orderAdjustSeconds, interval) else 1;
    status := "open";
    var i := 0;
    while i < attempts && status == "open"
      invariant 0 <= i <= attempts
      invariant i == 0 ==> status == "open"
      invariant i > 0 ==> status == answers[i - 1]
      invariant forall k :: 0 <= k < i - 1 ==> answers[k] == "open"
    {
      status := answers[i];
      i := i + 1;
    }
    fetches := i;
  }

  lemma PollAttemptsExamples()
    ensures PollAttempts(10, 2) == 5 && PollAttempts(90, 10) == 9 && PollAttempts(10, 10) == 1
  {
  }

  // ---------------------------------------------------------------- trials

  /** One limit-order attempt of `do_buy`/`do_sell`, as the exchange and the signal answer it. */
  datatype Attempt = Attempt(
    sized: bool,              // do_buy only: the sizer returned a size for this attempt
    placed: Option<Order>,    // the limit order, when the exchange accepted it
    status: string,           // what polling the order returned
    signalAfterCancel: Signal // buy_or_sell() after the unfilled order was cancelled
  )

  /** How `do_buy`/`do_sell` end. */
  datatype TrialOutcome =
    | Abandoned(ordersPlaced: nat) // no size, or an order was refused: returns None
    | LimitFilled(attempt: nat)    // the limit order of this attempt (1-based) is returned
    | Reversed(attempt: nat)       // the signal turned after this attempt: the opposite side takes over
    | MarketOrder(afterTrials: nat)   // all trials went unfilled: a market order is placed
    | MarketSkipped(afterTrials: nat) // do_buy only: no size left for the market order

  predicate StillOpen(status: string) {
    status in {"open", "live"}
  }

  /** The trials from attempt `k` (0-based) on. */
  function TrialsFrom(side: Signal, trials: nat, attempts: seq<Attempt>, marketSized: bool, k: nat): TrialOutcome
    requires k <= trials <= |attempts|
    decreases trials - k
  {
    if k == trials then
      if side == Buy && !marketSized then MarketSkipped(trials) else MarketOrder(trials)
    else
      var a := attempts[k];
      if side == Buy && !a.sized then Abandoned(k)
      else if !a.placed.Some? then Abandoned(k)
      else if !StillOpen(a.status) then LimitFilled(k + 1)
      else if a.signalAfterCancel != side then Reversed(k + 1)
      else TrialsFrom(side, trials, attempts, marketSized, k + 1)
  }

  /**
   * The whole trial loop. `do_sell` sizes once before the loop (`sellSized`);
   * `do_buy` sizes in every attempt and again for the market order (`marketSized`).
   */
  function Trials(side: Signal, trials: nat, sellSized: bool, attempts: seq<Attempt>, marketSized: bool): TrialOutcome
    requires trials <= |attempts|
  {
    if side == Sell && !sellSized then Abandoned(0) else TrialsFrom(side, trials, attempts, marketSized, 0)
  }

  /** The limit orders an outcome placed. */
  function LimitOrders(o: TrialOutcome): nat {
    match o
    case Abandoned(n) => n
    case LimitFilled(k) => k
    case Reversed(k) => k
    case MarketOrder(n) => n
    case MarketSkipped(n) => n
  }

  /** Whether the pending marker (`-BUY`, `-SELL`) was written: before every order placed. */
  predicate PlacedOrder(o: TrialOutcome) {
    LimitOrders(o) > 0 || o.MarketOrder?
  }

  /**
   * The order `do_buy`/`do_sell` returns: the filled limit order, the market
   * order, or what the opposite side returned after the signal turned.
   */
  function ReturnedOrder(o: TrialOutcome, attempts: seq<Attempt>, marketOrder: Option<Order>, handedOver: Option<Order>)
    : Option<Order>
  {
    match o
    case LimitFilled(k) => if 1 <= k <= |attempts| then attempts[k - 1].placed else None
    case Reversed(_) => handedOver
    case MarketOrder(_) => marketOrder
    case _ => None
  }

  /**
   * The trial loop of `do_buy` (`side == Buy`) and `do_sell` (`side == Sell`).
   * Exchange answers come in as `attempts` (one per trial), `marketOrder` (what
   * `create_market_*_order` returned) and `handedOver` (what the opposite
   * side's call returned); `pendingWritten` says whether the pending marker was
   * written on the way.
   */
  method RunTrials(side: Signal, trials: nat, sellSized: bool, attempts: seq<Attempt>, marketSized: bool,
                   marketOrder: Option<Order>, handedOver: Option<Order>)
    returns (outcome: TrialOutcome, order: Option<Order>, pendingWritten: bool)
    requires trials <= |attempts|
    ensures outcome == Trials(side, trials, sellSized, attempts, marketSized)
    ensures order == ReturnedOrder(outcome, attempts, marketOrder, handedOver)
    ensures pendingWritten == PlacedOrder(outcome)
  {
    if side == Sell && !sellSized {
      return Abandoned(0), None, false;
    }
    pendingWritten := false;
    var i := 1;
    while i <= trials
      invariant 1 <= i <= trials + 1
      invariant TrialsFrom(side, trials, attempts, marketSized, i - 1) == Trials(side, trials, sellSized, attempts, marketSized)
      invariant pendingWritten == (i > 1)
    {
      var a := attempts[i - 1];
      if side == Buy && !a.sized {
        return Abandoned(i - 1), None, pendingWritten;
      }
      if a.placed.None? {
        return Abandoned(i - 1), None, pendingWritten;
      }
      pendingWritten := true;
      if !StillOpen(a.status) {
        return LimitFilled(i), a.placed, true;
      }
      i := i + 1;
      if a.signalAfterCancel != side {
        return Reversed(i - 1), handedOver, true;
      }
    }
    if side == Buy && !marketSized {
      return MarketSkipped(trials), None, pendingWritten;
    }
    return MarketOrder(trials), marketOrder, true;
  }

  /** An attempt that went unfilled and let the trials go on. */
  predicate Unfilled(side: Signal, a: Attempt) {
    (side == Sell || a.sized) && a.placed.Some? && StillOpen(a.status) && a.signalAfterCancel == side
  }

  lemma {:induction false} TrialsFromShape(side: Signal, trials: nat, attempts: seq<Attempt>, marketSized: bool, k: nat)
    requires k <= trials <= |attempts|
    requires forall j :: 0 <= j < k ==> Unfilled(side, attempts[j])
    ensures var o := TrialsFrom(side, trials, attempts, marketSized, k);
            && (o.MarketOrder? || o.MarketSkipped? ==> && o.afterTrials == trials
                                                       && forall j :: 0 <= j < trials ==> Unfilled(side, attempts[j]))
            && (o.LimitFilled? ==> && 1 <= o.attempt <= trials
                                   && attempts[o.attempt - 1].placed.Some? && !StillOpen(attempts[o.attempt - 1].status)
                                   && forall j :: 0 <= j < o.attempt - 1 ==> Unfilled(side, attempts[j]))
            && (o.Reversed? ==> && 1 <= o.attempt <= trials
                                && StillOpen(attempts[o.attempt - 1].status)
                                && attempts[o.attempt - 1].signalAfterCancel == Opposite(side))
            && (o.Abandoned? ==> o.ordersPlaced < trials && forall j :: 0 <= j < o.ordersPlaced ==> Unfilled(side, attempts[j]))
    decreases trials - k
  {
    if k < trials {
      var a := attempts[k];
      if !((side == Buy && !a.sized) || !a.placed.Some? || !StillOpen(a.status) || a.signalAfterCancel != side) {
        TrialsFromShape(side, trials, attempts, marketSized, k + 1);
      }
    }
  }

  /**
   * At most `trials` limit orders are placed; the market order comes only
   * after every trial was created, stayed open and kept the signal; a filled
   * trial is the first one that did not stay open.
   */
  lemma TrialsShape(side: Signal, trials: nat, sellSized: bool, attempts: seq<Attempt>, marketSized: bool)
    requires trials <= |attempts|
    ensures var o := Trials(side, trials, sellSized, attempts, marketSized);
            && LimitOrders(o) <= trials
            && (o.MarketOrder? || o.MarketSkipped? ==> && o.afterTrials == trials
                                                       && forall j :: 0 <= j < trials ==> Unfilled(side, attempts[j]))
            && (o.LimitFilled? ==> && 1 <= o.attempt <= trials
                                   && attempts[o.attempt - 1].placed.Some? && !StillOpen(attempts[o.attempt - 1].status)
                                   && forall j :: 0 <= j < o.attempt - 1 ==> Unfilled(side, attempts[j]))
            && (o.Reversed? ==> 1 <= o.attempt <= trials
                                && attempts[o.attempt - 1].signalAfterCancel == Opposite(side))
  {
    if !(side == Sell && !sellSized) {
      TrialsFromShape(side, trials, attempts, marketSized, 0);
    }
  }

  /** With no trials configured the daemon goes straight to the market order. */
  lemma NoTrialsGoesToMarket(side: Signal, sellSized: bool, attempts: seq<Attempt>)
    requires side == Buy || sellSized
    ensures Trials(side, 0, sellSized, attempts, true) == MarketOrder(0)
  {
  }
}
