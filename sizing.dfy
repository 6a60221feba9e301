/**
 * The position sizer: how much to buy or sell on each exchange, given the
 * balances and position the exchange reports and the configured leverage and
 * short target. Every exchange read is a parameter here.
 */
module Sizing {
  import opened Wrappers

  datatype Exchange = Bitmex | Kraken | Liquid

  /** A balance as `get_balance` returns it. */
  datatype Balance = Balance(free: real, used: real, total: real)

  /** A balance as the exchange reports it: `used` and `free` may be missing (`None`). */
  datatype ReportedBalance = ReportedBalance(free: Option<real>, used: Option<real>, total: real)

  /** The fields of a BitMEX position that sizing reads; the PnL is in satoshi. */
  datatype Position = Position(homeNotional: real, unrealisedGrossPnl: real)

  /** Liquid's per-currency amounts (`get_balances`, `get_wallet_balance`). */
  datatype Holdings = Holdings(crypto: real, fiat: real)

  /** The configuration the sizer reads. */
  datatype Settings = Settings(exchange: Exchange, applyLeverage: bool, leverageDefault: real, shortInPercent: nat)

  /** Which currency funds a Liquid order. */
  datatype Funding = Base | Quote

  const SatoshiFactor: real := 0.00000001

  /** `MIN_ORDER_SIZE`: 0.001, lowered to 0.0001 at startup on BitMEX. */
  function MinOrderSize(exchange: Exchange): real {
    if exchange == Bitmex then 0.0001 else 0.001
  }

  function Abs(x: real): real {
    if x < 0.0 then -x else x
  }

  /** A size is ordered only when it is above the minimum; otherwise there is nothing to do. */
  function AboveMinimum(exchange: Exchange, size: real): (r: Option<real>)
    ensures r.Some? <==> size > MinOrderSize(exchange)
    ensures r.Some? ==> r.value == size
  {
    if size > MinOrderSize(exchange) then Some(size) else None
  }

  /** `get_balance` outside Liquid: a missing `used` or `free` becomes 0. */
  function NormaliseBalance(b: ReportedBalance): (r: Balance)
    ensures r.total == b.total
    ensures b.used.Some? ==> r.used == b.used.value
    ensures b.used.None? ==> r.used == 0.0
    ensures b.free.Some? ==> r.free == b.free.value
    ensures b.free.None? ==> r.free == 0.0
  {
    Balance(b.free.GetOr(0.0), b.used.GetOr(0.0), b.total)
  }

  /** Liquid falls back to the wallet when the trading account holds nothing. */
  function LiquidHoldings(trading: Holdings, wallet: Holdings): (h: Holdings)
    ensures trading.crypto + trading.fiat == 0.0 ==> h == wallet
    ensures trading.crypto + trading.fiat != 0.0 ==> h == trading
  {
    if trading.crypto + trading.fiat == 0.0 then wallet else trading
  }

  /** The leverage multiplier applied to a total when `apply_leverage` is set. */
  function Levered(s: Settings, total: real): real {
    if s.applyLeverage then total * s.leverageDefault else total
  }

  /** `calculate_used_margin_percentage`: the share of the margin balance not free, 0 without a balance. */
  function UsedMarginPercentage(b: Balance): (p: real)
    ensures b.total <= 0.0 ==> p == 0.0
    ensures b.total > 0.0 ==> p * b.total == 100.0 * (b.total - b.free)
    ensures b.total > 0.0 && 0.0 <= b.free <= b.total ==> 0.0 <= p <= 100.0
    ensures b.total > 0.0 && b.used + b.free == b.total ==> p * b.total == 100.0 * b.used
  {
    if b.total <= 0.0 then 0.0 else 100.0 - (b.free / b.total) * 100.0
  }

  lemma UsedMarginPercentageExamples()
    ensures UsedMarginPercentage(Balance(49.0, 0.0, 100.0)) == 51.0
    ensures UsedMarginPercentage(Balance(0.0, 0.0, 0.0)) == 0.0
  {
  }

  /** What `calculate_percentage_used` divides by must not be zero (Python raises otherwise). */
  predicate PercentageUsedDefined(s: Settings, crypto: Balance, margin: Balance, position: Option<Position>) {
    if s.exchange == Bitmex && position.Some? then Levered(s, crypto.total) != 0.0
    else if s.exchange == Kraken then margin.total != 0.0
    else crypto.total != 0.0
  }

  /**
   * `calculate_percentage_used`: on BitMEX with a position, the position's
   * notional as a percentage of the (levered) crypto balance; otherwise the
   * share of the crypto balance (Kraken: the margin balance) that is not free.
   */
  function PercentageUsed(s: Settings, crypto: Balance, margin: Balance, position: Option<Position>): (p: real)
    requires PercentageUsedDefined(s, crypto, margin, position)
    ensures s.exchange == Bitmex && position.Some? ==>
              p * Levered(s, crypto.total) == 100.0 * Abs(position.value.homeNotional)
    ensures !(s.exchange == Bitmex && position.Some?) ==>
              var b := if s.exchange == Kraken then margin else crypto;
              p * b.total == 100.0 * (b.total - b.free)
  {
    if s.exchange == Bitmex && position.Some? then
      Percent(Abs(position.value.homeNotional), Levered(s, crypto.total))
    else
      var b := if s.exchange == Kraken then margin else crypto;
      100.0 - Percent(b.free, b.total)
  }

  /** `(part / whole) * 100`. */
  function Percent(part: real, whole: real): (p: real)
    requires whole != 0.0
    ensures p * whole == 100.0 * part
  {
    (part / whole) * 100.0
  }

  // ---------------------------------------------------------------- buying

  /** What `calculate_buy_order_size` divides by must not be zero. */
  predicate BuySizeDefined(s: Settings, price: real, trading: Holdings, wallet: Holdings) {
    match s.exchange
    case Bitmex => true
    case Kraken => price != 0.0
    case Liquid =>
      var h := LiquidHoldings(trading, wallet);
      h.fiat > Abs(h.crypto) * price ==> price != 0.0
  }

  /** The buy size before the minimum is applied. */
  function BuySize(s: Settings, price: real, crypto: Balance, fiat: Balance, position: Option<Position>,
                   trading: Holdings, wallet: Holdings): real
    requires BuySizeDefined(s, price, trading, wallet)
  {
    match s.exchange
    case Liquid =>
      var h := LiquidHoldings(trading, wallet);
      if h.fiat > Abs(h.crypto) * price then (h.fiat / 1.01) / price else Abs(h.crypto) / 1.01
    case Bitmex =>
      var total := Levered(s, crypto.total);
      if position.Some? then
        var pnl := position.value.unrealisedGrossPnl * SatoshiFactor;
        var notional := position.value.homeNotional;
        if notional < 0.0 then (total + pnl + Abs(notional) / 0.99) / 1.01
        else (total + pnl - notional / 0.99) / 1.01
      else total / 1.01
    case Kraken =>
      var size := (Levered(s, fiat.total) / 1.01) / price;
      var size' := if size == 0.0 then Levered(s, fiat.free) / 1.01 else size;
      size' / 1.04
  }

  /**
   * `calculate_buy_order_size`. BitMEX buys back a short (its notional grossed
   * up by 1%) and goes long the whole levered balance including the unrealised
   * PnL; from a long it only tops up. Kraken spends the levered fiat total (the
   * free fiat when the total buys nothing); Liquid spends whichever side is
   * larger. Each keeps 1% for fees, Kraken another 4%; and only sizes above the
   * minimum are ordered.
   */
  function BuyOrderSize(s: Settings, price: real, crypto: Balance, fiat: Balance, position: Option<Position>,
                        trading: Holdings, wallet: Holdings): (r: Option<real>)
    requires BuySizeDefined(s, price, trading, wallet)
    ensures r.Some? <==> BuySize(s, price, crypto, fiat, position, trading, wallet) > MinOrderSize(s.exchange)
    ensures r.None? || r.value > MinOrderSize(s.exchange)
    ensures r.Some? && s.exchange == Bitmex && position.None? ==> r.value * 1.01 == Levered(s, crypto.total)
    ensures r.Some? && s.exchange == Bitmex && position.Some? ==>
              var p := position.value;
              r.value * 1.01 == Levered(s, crypto.total) + p.unrealisedGrossPnl * SatoshiFactor
                                - p.homeNotional / 0.99
    ensures r.Some? && s.exchange == Kraken && Levered(s, fiat.total) != 0.0 ==>
              r.value * price * 1.01 * 1.04 == Levered(s, fiat.total)
    ensures r.Some? && s.exchange == Kraken && Levered(s, fiat.total) == 0.0 ==>
              r.value * 1.01 * 1.04 == Levered(s, fiat.free)
    ensures r.Some? && s.exchange == Liquid ==>
              var h := LiquidHoldings(trading, wallet);
              if h.fiat > Abs(h.crypto) * price then r.value * price * 1.01 == h.fiat
              else r.value * 1.01 == Abs(h.crypto)
  {
    BuySizeNotional(s, price, crypto, fiat, position, trading, wallet);
    AboveMinimum(s.exchange, BuySize(s, price, crypto, fiat, position, trading, wallet))
  }

  /** The buy size, multiplied back by the fees and the price, gives the capital it spends. */
  lemma BuySizeNotional(s: Settings, price: real, crypto: Balance, fiat: Balance, position: Option<Position>,
                        trading: Holdings, wallet: Holdings)
    requires BuySizeDefined(s, price, trading, wallet)
    ensures var size := BuySize(s, price, crypto, fiat, position, trading, wallet);
            && (s.exchange == Kraken && Levered(s, fiat.total) != 0.0 ==>
                  size * price * 1.01 * 1.04 == Levered(s, fiat.total))
            && (s.exchange == Kraken && Levered(s, fiat.total) == 0.0 ==>
                  size * 1.01 * 1.04 == Levered(s, fiat.free))
            && (s.exchange == Liquid ==>
                  var h := LiquidHoldings(trading, wallet);
                  if h.fiat > Abs(h.crypto) * price then size * price * 1.01 == h.fiat
                  else size * 1.01 == Abs(h.crypto))
  {
    if s.exchange == Kraken && Levered(s, fiat.total) != 0.0 {
      var total := Levered(s, fiat.total);
      assert (total / 1.01) / price != 0.0;
      assert ((total / 1.01) / price / 1.04) * price * 1.01 * 1.04 == total;
    }
    if s.exchange == Kraken && Levered(s, fiat.total) == 0.0 {
      assert (Levered(s, fiat.total) / 1.01) / price == 0.0;
      assert (Levered(s, fiat.free) / 1.01 / 1.04) * 1.01 * 1.04 == Levered(s, fiat.free);
    }
    if s.exchange == Liquid {
      var h := LiquidHoldings(trading, wallet);
      if h.fiat > Abs(h.crypto) * price {
        assert (h.fiat / 1.01) / price * price * 1.01 == h.fiat;
      }
    }
  }

  // --------------------------------------------------------------- selling

  /** What `calculate_sell_order_size` divides by must not be zero. */
  predicate SellSizeDefined(s: Settings, price: real, crypto: Balance, margin: Balance, position: Option<Position>,
                            trading: Holdings, wallet: Holdings) {
    if s.exchange == Liquid then
      LiquidHoldings(trading, wallet).fiat > 0.0 ==> price != 0.0
    else
      && PercentageUsedDefined(s, crypto, margin, position)
      && (s.exchange == Bitmex && position.Some? && position.value.homeNotional > 0.0 ==> s.shortInPercent > 0)
  }

  /** The capital a short is measured against: Kraken always doubles it (or multiplies by leverage + 1). */
  function SellTotal(s: Settings, crypto: Balance): real {
    if s.exchange == Kraken then
      if s.applyLeverage && s.leverageDefault > 1.0 then crypto.total * (s.leverageDefault + 1.0)
      else crypto.total * 2.0
    else Levered(s, crypto.total)
  }

  /** The fee divisor of a sell: 1%, and on Kraken another 4%. */
  function SellFees(exchange: Exchange): real {
    if exchange == Kraken then 1.01 * 1.04 else 1.01
  }

  /** `total / (100 / diff) / 1.01`, on Kraken further `/ 1.04`. */
  function Room(exchange: Exchange, total: real, diff: real): (size: real)
    requires diff > 0.0
    ensures size * SellFees(exchange) * 100.0 == total * diff
  {
    var size := total / (100.0 / diff) / 1.01;
    assert total / (100.0 / diff) * 100.0 == total * diff;
    if exchange == Kraken then size / 1.04 else size
  }

  /**
   * The room left to the short target: `shortInPercent - used` percent of the
   * capital, less the fees. None once the target is met.
   */
  /** The room to the target, less fees, is above the minimum: the condition under which a sell is placed. */
  predicate RoomAboveMinimum(exchange: Exchange, total: real, shortInPercent: nat, used: real) {
    && used < shortInPercent as real
    && total * (shortInPercent as real - used) > SellFees(exchange) * 100.0 * MinOrderSize(exchange)
  }

  function RoomToTarget(exchange: Exchange, total: real, shortInPercent: nat, used: real): (r: Option<real>)
    ensures used >= shortInPercent as real ==> r.None?
    ensures r.Some? <==> RoomAboveMinimum(exchange, total, shortInPercent, used)
    ensures r.None? || r.value > MinOrderSize(exchange)
    ensures r.Some? ==> r.value * SellFees(exchange) * 100.0 == total * (shortInPercent as real - used)
  {
    var diff := shortInPercent as real - used;
    if diff <= 0.0 then None
    else
      assert Room(exchange, total, diff) > MinOrderSize(exchange)
             <==> total * diff > SellFees(exchange) * 100.0 * MinOrderSize(exchange) by {
        AboveScaled(Room(exchange, total, diff), SellFees(exchange) * 100.0, MinOrderSize(exchange));
      }
      AboveMinimum(exchange, Room(exchange, total, diff))
  }

  /** Above a bound exactly when above it after scaling both by the same positive factor. */
  lemma AboveScaled(x: real, k: real, m: real)
    requires k > 0.0
    ensures x > m <==> x * k > k * m
  {
    if x > m {
      assert (x - m) * k > 0.0;
    } else {
      assert (m - x) * k >= 0.0;
    }
  }

  lemma ScaleMonotone(total: real, d: real, d': real, k: real)
    requires total >= 0.0 && d' <= d && k > 0.0
    ensures total * d' / k <= total * d / k
  {
    assert total * d' <= total * d;
  }

  /** The more of the target is already used, the less is sold. */
  lemma RoomToTargetShrinks(exchange: Exchange, total: real, shortInPercent: nat, used: real, used': real)
    requires total >= 0.0 && used <= used'
    requires RoomToTarget(exchange, total, shortInPercent, used').Some?
    ensures RoomToTarget(exchange, total, shortInPercent, used).Some?
    ensures RoomToTarget(exchange, total, shortInPercent, used).value
            >= RoomToTarget(exchange, total, shortInPercent, used').value
  {
    var k := SellFees(exchange) * 100.0;
    var d := shortInPercent as real - used;
    var d' := shortInPercent as real - used';
    var size := Room(exchange, total, d);
    var size' := Room(exchange, total, d');
    assert size == total * d / k;
    assert size' == total * d' / k;
    ScaleMonotone(total, d, d', k);
  }

  /** BitMEX from a long: close the long and short the target share of the capital net of 1% of the long, plus the PnL. */
  function BitmexLongSell(total: real, p: Position, shortInPercent: nat): (size: real)
    requires shortInPercent > 0
    ensures size == p.homeNotional + p.unrealisedGrossPnl * SatoshiFactor
                    + (total - 0.01 * p.homeNotional) * shortInPercent as real / 100.0
  {
    var pnl := p.unrealisedGrossPnl * SatoshiFactor;
    var pct := shortInPercent as real;
    var diff := (total - (p.homeNotional * 1.01)) / (100.0 / pct);
    var factor := (100.0 + pct) / 100.0;
    assert diff == (total - p.homeNotional * 1.01) * pct / 100.0;
    (p.homeNotional * factor + diff) + pnl
  }

  /** The Liquid short: `shortInPercent` of `base`, less the 1% fee. */
  function LiquidShort(base: real, shortInPercent: nat): (size: real)
    ensures size * 1.01 * 100.0 == base * shortInPercent as real
  {
    base * (shortInPercent as real / 100.0) / 1.01
  }

  /**
   * `calculate_sell_order_size`. Liquid shorts `shortInPercent` of whichever
   * side is worth more. BitMEX from a long sells the whole long plus the target
   * share of what remains. Otherwise the room left to the target is sold; on
   * BitMEX with a short position already past the target nothing is sold.
   */
  function SellOrderSize(s: Settings, price: real, crypto: Balance, margin: Balance, position: Option<Position>,
                         trading: Holdings, wallet: Holdings): (r: Option<real>)
    requires SellSizeDefined(s, price, crypto, margin, position, trading, wallet)
    ensures r.None? || r.value > MinOrderSize(s.exchange)
    ensures s.exchange != Liquid && !(s.exchange == Bitmex && position.Some? && position.value.homeNotional > 0.0) ==>
              var used := PercentageUsed(s, crypto, margin, position);
              && (r.Some? <==> RoomAboveMinimum(s.exchange, SellTotal(s, crypto), s.shortInPercent, used))
              && (r.Some? ==> r.value * SellFees(s.exchange) * 100.0
                              == SellTotal(s, crypto) * (s.shortInPercent as real - used))
    ensures (&& s.exchange == Bitmex && position.Some? && position.value.homeNotional <= 0.0
             && PercentageUsed(s, crypto, margin, position) > s.shortInPercent as real) ==> r.None?
    ensures s.exchange == Bitmex && position.Some? && position.value.homeNotional > 0.0 ==>
              r == AboveMinimum(Bitmex, BitmexLongSell(SellTotal(s, crypto), position.value, s.shortInPercent))
    ensures s.exchange == Liquid ==>
              var base := LiquidSellBase(price, trading, wallet);
              && (r.Some? <==> base * s.shortInPercent as real > 1.01 * 100.0 * MinOrderSize(Liquid))
              && (r.Some? ==> r.value * 1.01 * 100.0 == base * s.shortInPercent as real)
  {
    if s.exchange == Liquid then LiquidSellSize(s, price, trading, wallet)
    else ExchangeSellSize(s, crypto, margin, position)
  }

  /** What a Liquid short is a share of: the fiat in crypto when that is worth more than the crypto, else the crypto. */
  function LiquidSellBase(price: real, trading: Holdings, wallet: Holdings): real
    requires LiquidHoldings(trading, wallet).fiat > 0.0 ==> price != 0.0
  {
    var h := LiquidHoldings(trading, wallet);
    if h.fiat > 0.0 && h.fiat / price > h.crypto then h.fiat / price else h.crypto
  }

  /** The Liquid branch: the target share of whichever side is worth more. */
  function LiquidSellSize(s: Settings, price: real, trading: Holdings, wallet: Holdings): (r: Option<real>)
    requires s.exchange == Liquid
    requires LiquidHoldings(trading, wallet).fiat > 0.0 ==> price != 0.0
    ensures r.Some? <==> LiquidSellBase(price, trading, wallet) * s.shortInPercent as real
                         > 1.01 * 100.0 * MinOrderSize(Liquid)
    ensures r.None? || r.value > MinOrderSize(s.exchange)
    ensures r.Some? ==> r.value * 1.01 * 100.0 == LiquidSellBase(price, trading, wallet) * s.shortInPercent as real
  {
    var size := LiquidShort(LiquidSellBase(price, trading, wallet), s.shortInPercent);
    assert size > MinOrderSize(Liquid) <==> size * (1.01 * 100.0) > 1.01 * 100.0 * MinOrderSize(Liquid) by {
      AboveScaled(size, 1.01 * 100.0, MinOrderSize(Liquid));
    }
    AboveMinimum(s.exchange, size)
  }

  /** The BitMEX and Kraken branches. */
  function ExchangeSellSize(s: Settings, crypto: Balance, margin: Balance, position: Option<Position>): (r: Option<real>)
    requires s.exchange != Liquid && PercentageUsedDefined(s, crypto, margin, position)
    requires s.exchange == Bitmex && position.Some? && position.value.homeNotional > 0.0 ==> s.shortInPercent > 0
    ensures r.None? || r.value > MinOrderSize(s.exchange)
    ensures !(s.exchange == Bitmex && position.Some? && position.value.homeNotional > 0.0) ==>
              var used := PercentageUsed(s, crypto, margin, position);
              && (r.Some? <==> RoomAboveMinimum(s.exchange, SellTotal(s, crypto), s.shortInPercent, used))
              && (r.Some? ==> r.value * SellFees(s.exchange) * 100.0
                              == SellTotal(s, crypto) * (s.shortInPercent as real - used))
    ensures (&& s.exchange == Bitmex && position.Some? && position.value.homeNotional <= 0.0
             && PercentageUsed(s, crypto, margin, position) > s.shortInPercent as real) ==> r.None?
    ensures s.exchange == Bitmex && position.Some? && position.value.homeNotional > 0.0 ==>
              r == AboveMinimum(Bitmex, BitmexLongSell(SellTotal(s, crypto), position.value, s.shortInPercent))
  {
    var total := SellTotal(s, crypto);
    var used := PercentageUsed(s, crypto, margin, position);
    if s.exchange == Bitmex && position.Some? && position.value.homeNotional > 0.0 then
      AboveMinimum(s.exchange, BitmexLongSell(total, position.value, s.shortInPercent))
    else if s.exchange == Bitmex && position.Some? && used > s.shortInPercent as real then
      None
    else
      RoomToTarget(s.exchange, total, s.shortInPercent, used)
  }

  /** The funding currency of a Liquid order: the quote currency when the fiat buys more than the crypto holds. */
  function FundingCurrency(buying: bool, s: Settings, price: real, trading: Holdings, wallet: Holdings)
    : (r: Option<Funding>)
    requires price != 0.0
    ensures r.Some? <==> s.exchange == Liquid && (buying ==> s.applyLeverage && s.leverageDefault > 1.0)
    ensures r == Some(Quote) ==> var h := LiquidHoldings(trading, wallet);
                                 h.fiat / price > (if buying then Abs(h.crypto) else h.crypto)
    ensures r == Some(Base) ==> var h := LiquidHoldings(trading, wallet);
                                h.fiat / price <= (if buying then Abs(h.crypto) else h.crypto)
  {
    if s.exchange != Liquid || (buying && !(s.applyLeverage && s.leverageDefault > 1.0)) then None
    else
      var h := LiquidHoldings(trading, wallet);
      var crypto := if buying then Abs(h.crypto) else h.crypto;
      Some(if h.fiat / price > crypto then Quote else Base)
  }

  /** The leverage levels Liquid accepts. */
  const LiquidLevels: set<real> := {2.0, 4.0, 5.0, 10.0, 25.0}

  /** `get_liquid_leverage_level`: a supported leverage as is, any other of at least 2 as 2, below 2 none. */
  function LiquidLeverageLevel(leverage: real): (r: Option<real>)
    ensures r.None? <==> leverage < 2.0
    ensures r.Some? ==> r.value in LiquidLevels
    ensures leverage in LiquidLevels ==> r == Some(leverage)
    ensures leverage >= 2.0 && leverage !in LiquidLevels ==> r == Some(2.0)
  {
    if leverage < 2.0 then None
    else if leverage in LiquidLevels then Some(leverage)
    else Some(2.0)
  }

  // -------------------------------------------------------- worked examples

  function DefaultBitmex(applyLeverage: bool, shortInPercent: nat): Settings {
    Settings(Bitmex, applyLeverage, 2.0, shortInPercent)
  }

  const NoHoldings: Holdings := Holdings(0.0, 0.0)
  const NoBalance: Balance := Balance(0.0, 0.0, 0.0)

  lemma BitmexSellExamples()
    ensures SellOrderSize(DefaultBitmex(false, 50), 10000.0, Balance(0.1, 0.0, 0.1), NoBalance,
                          Some(Position(0.0792, 0.0)), NoHoldings, NoHoldings) == Some(0.128804)
    ensures SellOrderSize(DefaultBitmex(false, 50), 10000.0, Balance(0.1, 0.0, 0.1), NoBalance,
                          Some(Position(0.0792, -500000.0)), NoHoldings, NoHoldings) == Some(0.123804)
    ensures SellOrderSize(DefaultBitmex(false, 50), 10000.0, Balance(0.1, 0.0, 0.1), NoBalance,
                          Some(Position(0.0792, 500000.0)), NoHoldings, NoHoldings) == Some(0.133804)
    ensures SellOrderSize(DefaultBitmex(true, 50), 10000.0, Balance(0.1, 0.0, 0.1), NoBalance,
                          Some(Position(0.0792, 0.0)), NoHoldings, NoHoldings) == Some(0.178804)
    ensures SellOrderSize(DefaultBitmex(false, 50), 10000.0, Balance(0.9, 0.1, 0.9), NoBalance,
                          Some(Position(-0.3, 0.0)), NoHoldings, NoHoldings) == Some(0.15 / 1.01)
    ensures SellOrderSize(DefaultBitmex(false, 50), 10000.0, Balance(0.2, 0.0, 0.2), NoBalance,
                          None, NoHoldings, NoHoldings) == Some(0.1 / 1.01)
  {
  }

  lemma BitmexBuyExamples()
    ensures BuyOrderSize(DefaultBitmex(false, 50), 12345.0, Balance(0.2, 0.0, 0.2), NoBalance,
                         None, NoHoldings, NoHoldings) == Some(0.2 / 1.01)
    ensures BuyOrderSize(DefaultBitmex(true, 50), 12345.0, Balance(0.2, 0.0, 0.2), NoBalance,
                         None, NoHoldings, NoHoldings) == Some(0.4 / 1.01)
    ensures BuyOrderSize(DefaultBitmex(false, 50), 12345.0, Balance(0.2, 0.0, 0.2), NoBalance,
                         Some(Position(-0.099, 0.0)), NoHoldings, NoHoldings) == Some(0.3 / 1.01)
    ensures BuyOrderSize(DefaultBitmex(false, 50), 12345.0, Balance(0.2, 0.0, 0.2), NoBalance,
                         Some(Position(0.099, 0.0)), NoHoldings, NoHoldings) == Some(0.1 / 1.01)
  {
  }

  /** Kraken follows the code's doubled capital: with nothing used, 50% short of 0.1 is 0.1 / 1.0504. */
  lemma KrakenSellExamples()
    ensures SellOrderSize(Settings(Kraken, false, 2.0, 50), 10000.0, Balance(0.1, 0.0, 0.1),
                          Balance(1000.0, 0.0, 1000.0), None, NoHoldings, NoHoldings) == Some(0.1 / 1.01 / 1.04)
    ensures SellOrderSize(Settings(Kraken, false, 2.0, 75), 10000.0, Balance(0.1, 0.3, 0.4),
                          Balance(1000.0, 3000.0, 4000.0), None, NoHoldings, NoHoldings) == None
  {
  }

  lemma LiquidSellExample()
    ensures SellOrderSize(Settings(Liquid, false, 2.0, 50), 10000.0, NoBalance, NoBalance, None,
                          Holdings(0.0, 1000.0), NoHoldings) == Some(0.05 / 1.01)
  {
  }
}
