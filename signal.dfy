/**
 * The moving-average crossover signal: the mean over the most recent stored
 * prices (optionally with the live tick standing in for one sample), the
 * number of samples a window of minutes covers, and the BUY/SELL decision.
 */
module Signal {
  import Arith

  datatype Signal = Buy | Sell

  /** The spelling the daemon uses for a signal in its state and action marker. */
  function Name(s: Signal): string {
    match s
    case Buy => "BUY"
    case Sell => "SELL"
  }

  function Opposite(s: Signal): Signal {
    if s == Buy then Sell else Buy
  }

  /** Sum of a sequence of prices, accumulated from the front. */
  function Sum(s: seq<real>): real {
    if s == [] then 0.0 else Sum(s[..|s| - 1]) + s[|s| - 1]
  }

  /** How many stored samples enter a window of `size`: all of them, or one fewer when the live tick takes a place. */
  function Stored(size: int, current: int): int {
    if current == 0 then size else size - 1
  }

  /** The moving average: the live tick (0 when absent) plus the first stored samples, over the window size. */
  function MovingAverage(rates: seq<real>, size: int, current: int): real
    requires size > 0 && Stored(size, current) <= |rates|
  {
    (current as real + Sum(rates[..Stored(size, current)])) / size as real
  }

  /** `calculate_ma`: `rates` holds the stored prices, most recent first; `current` is the live tick or 0. */
  method CalculateMa(rates: seq<real>, size: int, current: int) returns (ma: real)
    requires size > 0 && Stored(size, current) <= |rates|
    ensures ma == MovingAverage(rates, size, current)
  {
    var total := current as real;
    var stop := if current == 0 then size else size - 1;
    var i := 0;
    while i < stop
      invariant 0 <= i <= stop
      invariant total == current as real + Sum(rates[..i])
    {
      assert rates[..i + 1][..i] == rates[..i];
      total := total + rates[i];
      i := i + 1;
    }
    ma := total / size as real;
  }

  lemma {:induction false} SumBounds(s: seq<real>, lo: real, hi: real)
    requires forall k :: 0 <= k < |s| ==> lo <= s[k] <= hi
    ensures |s| as real * lo <= Sum(s) <= |s| as real * hi
  {
    if s != [] {
      SumBounds(s[..|s| - 1], lo, hi);
    }
  }

  lemma DivBetween(total: real, n: real, lo: real, hi: real)
    requires n > 0.0 && n * lo <= total <= n * hi
    ensures lo <= total / n <= hi
  {
    assert total / n * n == total;
  }

  /** The average lies between the smallest and the largest sample of its window. */
  lemma MovingAverageBetween(rates: seq<real>, size: int, current: int, lo: real, hi: real)
    requires size > 0 && Stored(size, current) <= |rates|
    requires forall k :: 0 <= k < Stored(size, current) ==> lo <= rates[k] <= hi
    requires current != 0 ==> lo <= current as real <= hi
    ensures lo <= MovingAverage(rates, size, current) <= hi
  {
    var n := Stored(size, current);
    SumBounds(rates[..n], lo, hi);
    var total := current as real + Sum(rates[..n]);
    if current == 0 {
      assert n == size;
    } else {
      assert n as real + 1.0 == size as real;
      assert n as real * lo + lo == size as real * lo;
      assert n as real * hi + hi == size as real * hi;
    }
    DivBetween(total, size as real, lo, hi);
  }

  lemma MovingAverageExamples()
    ensures MovingAverage([15000.0, 10000.0, 5000.0], 3, 0) == 10000.0
    ensures MovingAverage([15000.0, 10000.0, 5000.0], 2, 0) == 12500.0
    ensures MovingAverage([15000.0, 10000.0, 5000.0], 1, 0) == 15000.0
    ensures MovingAverage([15000.0, 10000.0], 3, 20000) == 15000.0
    ensures MovingAverage([15000.0, 10000.0], 2, 20000) == 17500.0
    ensures MovingAverage([15000.0, 10000.0], 1, 20000) == 20000.0
  {
    var r := [15000.0, 10000.0, 5000.0];
    assert r[..3][..2] == r[..2] && r[..2][..1] == r[..1] && r[..1][..0] == [];
    assert Sum(r[..1]) == 15000.0;
    assert Sum(r[..2]) == 25000.0;
    assert Sum(r[..3]) == 30000.0;
    var c := [15000.0, 10000.0];
    assert c[..2][..1] == c[..1] && c[..1][..0] == [];
    assert Sum(c[..0]) == 0.0;
    assert Sum(c[..1]) == 15000.0;
    assert Sum(c[..2]) == 25000.0;
  }

  /** `calculate_fetch_size`: the samples covering `minutes` when one is stored every `interval` minutes. */
  function FetchSize(minutes: int, interval: int): (n: int)
    requires interval > 0
    ensures n >= 1
    ensures minutes >= interval ==> 2 * (minutes - n * interval) <= interval && 2 * (n * interval - minutes) <= interval
    ensures minutes >= interval && (2 * (minutes - n * interval) == interval || 2 * (n * interval - minutes) == interval)
            ==> n % 2 == 0
    ensures minutes < interval ==> n == 1
  {
    if minutes >= interval then Arith.RoundDiv(minutes, interval) else 1
  }

  lemma FetchSizeExamples()
    ensures FetchSize(60, 10) == 6 && FetchSize(20, 10) == 2
    ensures FetchSize(5, 10) == 1 && FetchSize(25, 10) == 2 && FetchSize(35, 10) == 4
  {
  }

  /** `buy_or_sell` over the two averages. */
  function BuyOrSell(maShort: real, maLong: real): (s: Signal)
    ensures s == Buy <==> maShort > maLong
  {
    if maShort > maLong then Buy else Sell
  }

  /** `get_mas` followed by `buy_or_sell`: the live tick only counts on the BTC/USD pair. */
  method Decide(rates: seq<real>, minutesShort: int, minutesLong: int, interval: int, pair: string, tick: int)
    returns (s: Signal)
    requires interval > 0
    requires Stored(FetchSize(minutesShort, interval), if pair == "BTC/USD" then tick else 0) <= |rates|
    requires Stored(FetchSize(minutesLong, interval), if pair == "BTC/USD" then tick else 0) <= |rates|
    ensures var current := if pair == "BTC/USD" then tick else 0;
            s == Buy <==> MovingAverage(rates, FetchSize(minutesShort, interval), current)
                            > MovingAverage(rates, FetchSize(minutesLong, interval), current)
  {
    var current := if pair == "BTC/USD" then tick else 0;
    var maShort := CalculateMa(rates, FetchSize(minutesShort, interval), current);
    var maLong := CalculateMa(rates, FetchSize(minutesLong, interval), current);
    s := BuyOrSell(maShort, maLong);
  }

  /** In a flat market both averages agree, and a tie is a SELL. */
  lemma FlatMarketSells(rates: seq<real>, shortSize: int, longSize: int, current: int, price: real)
    requires shortSize > 0 && longSize > 0
    requires Stored(shortSize, current) <= |rates| && Stored(longSize, current) <= |rates|
    requires forall k :: 0 <= k < |rates| ==> rates[k] == price
    requires current != 0 ==> current as real == price
    ensures BuyOrSell(MovingAverage(rates, shortSize, current), MovingAverage(rates, longSize, current)) == Sell
  {
    MovingAverageBetween(rates, shortSize, current, price, price);
    MovingAverageBetween(rates, longSize, current, price, price);
  }
}
