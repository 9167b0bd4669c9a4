/**
 * The quoting model of avellaneda_with_trend.py: a fixed-capacity FIFO window
 * of mid-price increments (CircularBuffer), the mid-price / spread tracking of
 * update_order_book, and the linear part of get_bid_ask.
 *
 * The transcendental parts of the quote, `log_part` (a logarithm) and
 * `sqrt_part` (a square root of a real power), are inputs here; everything
 * computed from them is exact real arithmetic.
 */
module Avellaneda {
  import opened Wrappers

  /** The capacity a window of `length` really has: a negative length keeps nothing. */
  function Capacity(length: int): nat {
    if length < 0 then 0 else length
  }

  /** The newest `Capacity(length)` values of `xs`, oldest first. */
  function Window(xs: seq<real>, length: int): (w: seq<real>)
    ensures |w| <= Capacity(length) && |w| <= |xs|
  {
    if |xs| <= Capacity(length) then xs else xs[|xs| - Capacity(length)..]
  }

  /** A window holds min(|xs|, capacity) values, and they are the last ones of `xs`. */
  lemma WindowIsNewest(xs: seq<real>, length: int)
    ensures |Window(xs, length)| == (if |xs| <= Capacity(length) then |xs| else Capacity(length))
    ensures forall i :: 0 <= i < |Window(xs, length)| ==>
              Window(xs, length)[i] == xs[|xs| - |Window(xs, length)| + i]
  {
  }

  /** Appending to a window and trimming gives the window of the longer history. */
  lemma WindowAppend(xs: seq<real>, length: int, x: real)
    ensures Window(Window(xs, length) + [x], length) == Window(xs + [x], length)
  {
    var c := Capacity(length);
    var w := Window(xs, length);
    if |xs| + 1 > c && c > 0 {
      assert |w| == c || |w| == |xs|;
      var lhs := Window(w + [x], length);
      var rhs := Window(xs + [x], length);
      assert |lhs| == c && |rhs| == c;
      forall i | 0 <= i < c
        ensures lhs[i] == rhs[i]
      {
        if i < c - 1 {
          assert lhs[i] == w[|w| + 1 - c + i];
          assert rhs[i] == xs[|xs| + 1 - c + i];
        }
      }
    }
  }

  /** A window is full exactly when at least `length` values have been appended. */
  lemma WindowFull(xs: seq<real>, length: int)
    ensures |Window(xs, length)| == length <==> 0 <= length <= |xs|
  {
  }

  function Sum(xs: seq<real>): real {
    if xs == [] then 0.0 else xs[0] + Sum(xs[1..])
  }

  /** The sum of `n` equal values is `n` times that value. */
  lemma SumOfEqual(xs: seq<real>)
    requires xs != []
    ensures (forall i :: 0 <= i < |xs| ==> xs[i] == xs[0]) ==> Sum(xs) == |xs| as real * xs[0]
  {
    if forall i :: 0 <= i < |xs| ==> xs[i] == xs[0] {
      SumOfConstant(xs, xs[0]);
    }
  }

  /** `np.mean`; the mean of equal values is that value. */
  function MeanOf(xs: seq<real>): (m: real)
    requires xs != []
    ensures (forall i :: 0 <= i < |xs| ==> xs[i] == xs[0]) ==> m == xs[0]
  {
    SumOfEqual(xs);
    Sum(xs) / |xs| as real
  }

  /** The sum of squared deviations of `xs` from `m`. */
  function SquaredDeviations(xs: seq<real>, m: real): real {
    if xs == [] then 0.0 else (xs[0] - m) * (xs[0] - m) + SquaredDeviations(xs[1..], m)
  }

  /** `np.std(xs) ** 2`: the population variance (divides by n, not n - 1); never negative. */
  function PopulationVariance(xs: seq<real>): (v: real)
    requires xs != []
    ensures v >= 0.0
  {
    SquaredDeviationsNonNegative(xs, MeanOf(xs));
    SquaredDeviations(xs, MeanOf(xs)) / |xs| as real
  }

  lemma {:induction false} SquaredDeviationsNonNegative(xs: seq<real>, m: real)
    ensures SquaredDeviations(xs, m) >= 0.0
  {
    if xs != [] {
      SquaredDeviationsNonNegative(xs[1..], m);
      assert (xs[0] - m) * (xs[0] - m) >= 0.0;
    }
  }

  lemma {:induction false} SumOfConstant(xs: seq<real>, c: real)
    requires forall i :: 0 <= i < |xs| ==> xs[i] == c
    ensures Sum(xs) == |xs| as real * c
    ensures SquaredDeviations(xs, c) == 0.0
  {
    if xs != [] {
      SumOfConstant(xs[1..], c);
    }
  }

  /** A window whose values are all equal has mean that value and variance 0. */
  lemma ConstantWindowHasZeroVariance(xs: seq<real>, c: real)
    requires xs != []
    requires forall i :: 0 <= i < |xs| ==> xs[i] == c
    ensures MeanOf(xs) == c
    ensures PopulationVariance(xs) == 0.0
  {
    SumOfConstant(xs, c);
  }

  /** CircularBuffer: a FIFO window that drops its oldest value once over `length`. */
  class CircularBuffer {
    const length: int
    var data: seq<real>
    /** Every value ever appended, oldest first. */
    ghost var appended: seq<real>

    ghost predicate Valid()
      reads this
    {
      data == Window(appended, length)
    }

    constructor (length: int)
      ensures Valid()
      ensures this.length == length && data == [] && appended == []
    {
      this.length := length;
      data := [];
      appended := [];
    }

    /** `data.append(x)`, then `data.pop(0)` if that made it longer than `length`. */
    method Append(x: real)
      requires Valid()
      modifies this`data, this`appended
      ensures Valid()
      ensures appended == old(appended) + [x]
      ensures data == Window(old(data) + [x], length)
      ensures |data| <= Capacity(length)
      ensures old(IsReady()) ==> IsReady()
    {
      data := data + [x];
      if |data| > length {
        data := data[1..];
      }
      WindowAppend(appended, length, x);
      appended := appended + [x];
      WindowIsNewest(appended, length);
    }

    /** `len(data)`: how many of the appended values are held. */
    function Len(): (n: nat)
      reads this
      requires Valid()
      ensures n == (if |appended| <= Capacity(length) then |appended| else Capacity(length))
    {
      WindowIsNewest(appended, length);
      |data|
    }

    function IsEmpty(): (empty: bool)
      reads this
      requires Valid()
      ensures empty <==> appended == [] || length <= 0
    {
      WindowIsNewest(appended, length);
      |data| == 0
    }

    /** Ready once `length` values have been appended, and ready from then on. */
    function IsReady(): (ready: bool)
      reads this
      requires Valid()
      ensures ready <==> 0 <= length <= |appended|
    {
      WindowFull(appended, length);
      |data| == length
    }

    /** The mean of the window; a window of equal values has that value as its mean. */
    function Mean(): (m: real)
      reads this
      requires data != []
      ensures (forall i :: 0 <= i < |data| ==> data[i] == data[0]) ==> m == data[0]
    {
      MeanOf(data)
    }
  }

  /** The mid-price of a best bid and best ask: equidistant from both and, on an uncrossed book, between them. */
  function MidPrice(bid: real, ask: real): (s: real)
    ensures s - bid == ask - s
    ensures bid <= ask ==> bid <= s <= ask
  {
    (bid + ask) / 2.0
  }

  /** The bid/ask spread measured in ticks. */
  function SpreadInTicks(bid: real, ask: real, ticksize: real): (ticks: real)
    requires ticksize != 0.0
    ensures ticks * ticksize == ask - bid
  {
    (ask - bid) / ticksize
  }

  /** How k (the arrival intensity) is obtained: the base model's constant or BidAskGenerator's 2 / spread. */
  datatype KRule = FixedK | SpreadDerivedK

  /** The market depth A of both the base model and BidAskGenerator. */
  const DefaultA: real := 0.9
  /** The arrival intensity k of the base model. */
  const DefaultK: real := 0.9

  /** BidAskGenerator.get_k: k is inversely proportional to the spread in ticks. */
  function SpreadK(spreadInTicks: real): (k: real)
    requires spreadInTicks != 0.0
    ensures k * spreadInTicks == 2.0
  {
    2.0 / spreadInTicks
  }

  /** A tighter (positive) spread gives a larger k. */
  lemma TighterSpreadLargerK(tight: real, wide: real)
    requires 0.0 < tight < wide
    ensures SpreadK(tight) > SpreadK(wide)
  {
    var kt, kw := SpreadK(tight), SpreadK(wide);
    assert kt * tight == kw * wide;
    assert kw * wide > kw * tight;
  }

  /**
   * The drift term `mu / gamma / variance` with the division skipped when mu
   * is 0, so that a zero variance does not turn a zero drift into NaN.
   */
  function DriftTerm(mu: real, gamma: real, variance: real): (d: real)
    requires mu != 0.0 ==> gamma != 0.0 && variance != 0.0
    ensures mu == 0.0 ==> d == 0.0
    ensures mu != 0.0 ==> d * gamma * variance == mu
  {
    if mu == 0.0 then 0.0 else mu / gamma / variance
  }

  /**
   * The drift term exactly as get_bid_ask evaluates it, also when mu is 0.
   * A division by zero gives no finite number: NaN (mu of 0) or an infinity
   * (non-zero mu) for the numpy variance of the window, ZeroDivisionError for
   * a Python float.
   */
  function DriftTermAsWritten(mu: real, gamma: real, variance: real): (r: Option<real>)
    ensures r.None? <==> gamma == 0.0 || variance == 0.0
    ensures r.Some? ==> r.value * gamma * variance == mu
  {
    if gamma == 0.0 || variance == 0.0 then None else Some(mu / gamma / variance)
  }

  /** Wherever the as-written drift term is a number, the corrected one is the same number. */
  lemma DriftTermAgrees(mu: real, gamma: real, variance: real)
    requires DriftTermAsWritten(mu, gamma, variance).Some?
    ensures DriftTerm(mu, gamma, variance) == DriftTermAsWritten(mu, gamma, variance).value
  {
  }

  /**
   * A window of equal increments (here a mid-price that did not move) has
   * variance 0; the default mu of 0 then gives the as-written drift term no
   * value, while the corrected one is 0.
   */
  lemma FlatWindowBreaksDriftAsWritten()
    ensures PopulationVariance([0.0, 0.0]) == 0.0
    ensures DriftTermAsWritten(0.0, 1.0, PopulationVariance([0.0, 0.0])).None?
    ensures DriftTerm(0.0, 1.0, PopulationVariance([0.0, 0.0])) == 0.0
  {
    ConstantWindowHasZeroVariance([0.0, 0.0], 0.0);
  }

  /** How far below the mid the bid sits, in half-spreads; an inventory equal to the drift term leaves only the neutral distance. */
  function DeltaBid(logPart: real, sqrtPart: real, drift: real, q: real): (d: real)
    ensures q == drift ==> d == logPart + sqrtPart / 2.0
  {
    logPart + (-drift + (2.0 * q + 1.0) / 2.0) * sqrtPart
  }

  /** How far above the mid the ask sits: the bid's distance with inventory and drift negated. */
  function DeltaAsk(logPart: real, sqrtPart: real, drift: real, q: real): (d: real)
    ensures d == DeltaBid(logPart, sqrtPart, -drift, -q)
  {
    logPart + (drift - (2.0 * q - 1.0) / 2.0) * sqrtPart
  }

  /** A bid and an ask price. */
  datatype BidAsk = BidAsk(bid: real, ask: real)

  /** The final bid and ask: the deltas, scaled by half the spread in price units, around the mid. */
  function QuotePrices(s: real, spreadInTicks: real, ticksize: real, deltaBid: real, deltaAsk: real): (r: BidAsk)
    ensures r.ask - r.bid == (deltaBid + deltaAsk) * spreadInTicks / 2.0 * ticksize
    ensures deltaBid == deltaAsk ==> s - r.bid == r.ask - s
  {
    BidAsk(s - deltaBid * spreadInTicks / 2.0 * ticksize, s + deltaAsk * spreadInTicks / 2.0 * ticksize)
  }

  /** The quote at inventory q and drift term `drift`; its width depends neither on the inventory nor on the drift. */
  function Quote(s: real, spreadInTicks: real, ticksize: real, logPart: real, sqrtPart: real, drift: real, q: real): (r: BidAsk)
    ensures r.ask - r.bid == (2.0 * logPart + sqrtPart) * spreadInTicks / 2.0 * ticksize
  {
    DeltaSum(logPart, sqrtPart, drift, q);
    QuotePrices(s, spreadInTicks, ticksize, DeltaBid(logPart, sqrtPart, drift, q), DeltaAsk(logPart, sqrtPart, drift, q))
  }

  /** The two deltas add up to 2*log_part + sqrt_part whatever the inventory and drift. */
  lemma DeltaSum(logPart: real, sqrtPart: real, drift: real, q: real)
    ensures DeltaBid(logPart, sqrtPart, drift, q) + DeltaAsk(logPart, sqrtPart, drift, q) == 2.0 * logPart + sqrtPart
  {
  }

  /** At zero inventory and zero drift the quote is symmetric about the mid-price. */
  lemma ZeroInventorySymmetric(s: real, spreadInTicks: real, ticksize: real, logPart: real, sqrtPart: real)
    ensures DeltaBid(logPart, sqrtPart, 0.0, 0.0) == DeltaAsk(logPart, sqrtPart, 0.0, 0.0)
    ensures var r := Quote(s, spreadInTicks, ticksize, logPart, sqrtPart, 0.0, 0.0);
            s - r.bid == r.ask - s
  {
  }

  /** One more unit of inventory lowers both the bid and the ask by sqrt_part * half the spread. */
  lemma InventorySkew(s: real, spreadInTicks: real, ticksize: real, logPart: real, sqrtPart: real, drift: real, q: real)
    ensures var lo := Quote(s, spreadInTicks, ticksize, logPart, sqrtPart, drift, q);
            var hi := Quote(s, spreadInTicks, ticksize, logPart, sqrtPart, drift, q + 1.0);
            && hi.bid == lo.bid - sqrtPart * spreadInTicks / 2.0 * ticksize
            && hi.ask == lo.ask - sqrtPart * spreadInTicks / 2.0 * ticksize
  {
  }

  /** With a positive log part, a non-negative sqrt part, a positive spread and tick the bid is below the ask. */
  lemma BidBelowAsk(s: real, spreadInTicks: real, ticksize: real, logPart: real, sqrtPart: real, drift: real, q: real)
    requires logPart > 0.0 && sqrtPart >= 0.0 && spreadInTicks > 0.0 && ticksize > 0.0
    ensures var r := Quote(s, spreadInTicks, ticksize, logPart, sqrtPart, drift, q);
            r.bid < r.ask
  {
    var w := 2.0 * logPart + sqrtPart;
    assert w > 0.0;
    assert w * spreadInTicks > 0.0;
    assert w * spreadInTicks / 2.0 * ticksize > 0.0;
  }

  class AvellanedaWithTrend {
    const gamma: real
    const ticksize: real
    const dt: real
    const kRule: KRule
    const sBuffer: CircularBuffer
    var s: Option<real>
    var bidAskSpread: real
    var bestBid: real
    var bestAsk: real

    ghost predicate Valid()
      reads this, sBuffer
    {
      sBuffer.Valid()
    }

    /** No mid-price yet, zero spread, an empty window of `lookback` increments. */
    constructor (gamma: real, ticksize: real, lookback: int := 20, dt: real := 1.0, kRule: KRule := FixedK)
      ensures Valid() && fresh(sBuffer)
      ensures this.gamma == gamma && this.ticksize == ticksize && this.dt == dt && this.kRule == kRule
      ensures sBuffer.length == lookback && sBuffer.appended == []
      ensures s == None && bidAskSpread == 0.0
    {
      this.gamma := gamma;
      this.ticksize := ticksize;
      this.dt := dt;
      this.kRule := kRule;
      sBuffer := new CircularBuffer(lookback);
      s := None;
      bidAskSpread := 0.0;
      bestBid, bestAsk := 0.0, 0.0;
    }

    /**
     * Records the best prices, the spread in ticks and the new mid-price, and
     * pushes the mid-price increment per time step once a previous mid exists.
     */
    method UpdateOrderBook(bid: real, ask: real)
      requires Valid()
      requires ticksize != 0.0 && (s.Some? ==> dt != 0.0)
      modifies this`bestBid, this`bestAsk, this`bidAskSpread, this`s, sBuffer
      ensures Valid()
      ensures bestBid == bid && bestAsk == ask
      ensures bidAskSpread == SpreadInTicks(bid, ask, ticksize)
      ensures s == Some(MidPrice(bid, ask))
      ensures old(s).None? ==> sBuffer.appended == old(sBuffer.appended) && sBuffer.data == old(sBuffer.data)
      ensures old(s).Some? ==>
                && sBuffer.appended == old(sBuffer.appended) + [(MidPrice(bid, ask) - old(s).value) / dt]
                && sBuffer.data == Window(old(sBuffer.data) + [(MidPrice(bid, ask) - old(s).value) / dt], sBuffer.length)
    {
      bestBid := bid;
      bestAsk := ask;
      bidAskSpread := (bestAsk - bestBid) / ticksize;
      var mid := (bestBid + bestAsk) / 2.0;
      if s.Some? {
        sBuffer.Append((mid - s.value) / dt);
      }
      s := Some(mid);
    }

    /** The market depth A, the same constant for the base model and BidAskGenerator. */
    function GetA(): (a: real)
      ensures a == 0.9
    {
      DefaultA
    }

    function KDefined(): bool
      reads this
    {
      kRule == FixedK || bidAskSpread != 0.0
    }

    function GetK(): (k: real)
      reads this
      requires KDefined()
      ensures kRule == SpreadDerivedK ==> k * bidAskSpread == 2.0
    {
      match kRule
      case FixedK => DefaultK
      case SpreadDerivedK => SpreadK(bidAskSpread)
    }

    function IsReady(): (ready: bool)
      reads this, sBuffer
      requires Valid()
      ensures ready <==> 0 <= sBuffer.length <= |sBuffer.appended|
    {
      sBuffer.IsReady()
    }

    /** get_bid_ask's early return: an empty window and neither mu nor variance supplied. */
    function NoQuote(mu: Option<real>, variance: Option<real>): bool
      reads this, sBuffer
    {
      sBuffer.data == [] && mu.None? && variance.None?
    }

    /** The variance the quote uses: the one supplied, or that of the window. */
    function EffectiveVariance(variance: Option<real>): real
      reads this, sBuffer
      requires variance.Some? || sBuffer.data != []
    {
      match variance
      case Some(v) => v
      case None => PopulationVariance(sBuffer.data)
    }

    /**
     * What get_bid_ask needs once past its early return: a mid-price, a
     * non-zero gamma, a k it can compute, a window to take the variance of
     * when none is supplied, and a non-zero variance for a non-zero drift.
     */
    function CanQuote(mu: Option<real>, variance: Option<real>): bool
      reads this, sBuffer
    {
      NoQuote(mu, variance) ||
      (&& s.Some? && gamma != 0.0 && KDefined()
       && (variance.Some? || sBuffer.data != [])
       && (mu.Some? && mu.value != 0.0 ==> EffectiveVariance(variance) != 0.0))
    }

    /**
     * get_bid_ask for inventory q, an optional drift mu (default 0) and an
     * optional variance (default: the window's population variance).
     */
    function GetBidAsk(q: real, mu: Option<real>, variance: Option<real>, logPart: real, sqrtPart: real): (r: Option<BidAsk>)
      reads this, sBuffer
      requires Valid() && CanQuote(mu, variance)
      ensures r.None? <==> NoQuote(mu, variance)
      ensures r.Some? ==> r.value.ask - r.value.bid == (2.0 * logPart + sqrtPart) * bidAskSpread / 2.0 * ticksize
      ensures r.Some? && q == 0.0 && mu.GetOr(0.0) == 0.0 ==> s.value - r.value.bid == r.value.ask - s.value
    {
      if NoQuote(mu, variance) then None
      else
        var m := mu.GetOr(0.0);
        var drift := DriftTerm(m, gamma, EffectiveVariance(variance));
        Some(Quote(s.value, bidAskSpread, ticksize, logPart, sqrtPart, drift, q))
    }
  }

  /**
   * Window of 3 increments, dt 1, mid-prices 100, 101, 102, 100: the window
   * ends as [1, 1, -2] and becomes ready on the fourth update only.
   */
  method MidIncrementScenario() returns (contents: seq<real>, ready: seq<bool>)
    ensures contents == [1.0, 1.0, -2.0]
    ensures ready == [false, false, false, true]
  {
    var model := new AvellanedaWithTrend(1.0, 1.0, 3, 1.0);
    model.UpdateOrderBook(100.0, 100.0);
    var r1 := model.IsReady();
    model.UpdateOrderBook(101.0, 101.0);
    var r2 := model.IsReady();
    model.UpdateOrderBook(102.0, 102.0);
    var r3 := model.IsReady();
    model.UpdateOrderBook(100.0, 100.0);
    var r4 := model.IsReady();
    contents := model.sBuffer.data;
    ready := [r1, r2, r3, r4];
  }
}
