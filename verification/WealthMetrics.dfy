/**
 * The accounting half of `calculate_wealth_metrics` (domain/wealth_metrics.py): the counting loop,
 * expectancy, the equity and drawdown loop, rounding, and the capital-safe verdict.  Decimals are
 * exact rationals; only the explicit `_quantize` calls round.
 */
module WealthMetrics {

  datatype Trade = Trade(
    id: string, symbol: string, strategy: string, realized: real, commission: real, funding: real,
    slippage: real, unknownRisk: bool)

  function Net(t: Trade): real {
    t.realized - t.commission + t.funding
  }

  // ---- counting ----

  datatype Tally = Tally(
    total: int, wins: int, losses: int, evens: int, profit: real, loss: real, net: real,
    commission: real, funding: real, slippage: real, unknown: int)
  {
    function Plus(u: Tally): Tally {
      Tally(total + u.total, wins + u.wins, losses + u.losses, evens + u.evens, profit + u.profit, loss + u.loss,
            net + u.net, commission + u.commission, funding + u.funding, slippage + u.slippage, unknown + u.unknown)
    }
  }

  const ZERO := Tally(0, 0, 0, 0, 0.0, 0.0, 0.0, 0.0, 0.0, 0.0, 0)

  /** What one trade contributes. */
  function One(t: Trade): Tally {
    var n := Net(t);
    Tally(1, if n > 0.0 then 1 else 0, if n < 0.0 then 1 else 0, if n == 0.0 then 1 else 0,
          if n > 0.0 then n else 0.0, if n < 0.0 then -n else 0.0, n,
          t.commission, t.funding, t.slippage, if t.unknownRisk then 1 else 0)
  }

  function TallyOf(trades: seq<Trade>): Tally {
    if trades == [] then ZERO else TallyOf(trades[..|trades| - 1]).Plus(One(trades[|trades| - 1]))
  }

  method CountTrades(trades: seq<Trade>) returns (r: Tally, nets: seq<real>)
    ensures r == TallyOf(trades)
    ensures nets == NetsOf(trades)
  {
    nets := [];
    var wins, losses, evens, unknown := 0, 0, 0, 0;
    var profit, loss, net, commission, funding, slippage := 0.0, 0.0, 0.0, 0.0, 0.0, 0.0;
    for i := 0 to |trades|
      invariant Tally(i, wins, losses, evens, profit, loss, net, commission, funding, slippage, unknown)
                == TallyOf(trades[..i])
      invariant nets == NetsOf(trades[..i])
    {
      OneTradeMore(trades, i);
      var t := trades[i];
      var n := Net(t);
      nets := nets + [n];
      net, commission := net + n, commission + t.commission;
      funding, slippage := funding + t.funding, slippage + t.slippage;
      if t.unknownRisk { unknown := unknown + 1; }
      if n > 0.0 {
        wins, profit := wins + 1, profit + n;
      } else if n < 0.0 {
        losses, loss := losses + 1, loss + -n;
      } else {
        evens := evens + 1;
      }
    }
    assert trades[..|trades|] == trades;
    r := Tally(|trades|, wins, losses, evens, profit, loss, net, commission, funding, slippage, unknown);
  }

  lemma OneTradeMore(trades: seq<Trade>, i: nat)
    requires i < |trades|
    ensures TallyOf(trades[..i + 1]) == TallyOf(trades[..i]).Plus(One(trades[i]))
    ensures NetsOf(trades[..i + 1]) == NetsOf(trades[..i]) + [Net(trades[i])]
  {
    assert trades[..i + 1][..i] == trades[..i];
  }

  function NetsOf(trades: seq<Trade>): (nets: seq<real>)
    ensures |nets| == |trades|
    ensures forall i :: 0 <= i < |trades| ==> nets[i] == Net(trades[i])
  {
    if trades == [] then [] else NetsOf(trades[..|trades| - 1]) + [Net(trades[|trades| - 1])]
  }

  /** Every trade is a win, a loss or neither, and profit minus loss is the net result. */
  lemma {:induction false} TallyBalances(trades: seq<Trade>)
    ensures
      var r := TallyOf(trades);
      && r.wins + r.losses + r.evens == r.total == |trades|
      && r.profit - r.loss == r.net
      && 0 <= r.wins && 0 <= r.losses && 0 <= r.evens && 0 <= r.unknown
      && (r.wins == 0 ==> r.profit == 0.0) && (r.losses == 0 ==> r.loss == 0.0)
      && (r.wins > 0 ==> r.profit > 0.0) && (r.losses > 0 ==> r.loss > 0.0)
      && (r.unknown == 0 <==> forall i :: 0 <= i < |trades| ==> !trades[i].unknownRisk)
  {
    if trades != [] {
      var rest, last := trades[..|trades| - 1], trades[|trades| - 1];
      TallyBalances(rest);
      assert forall i :: 0 <= i < |trades| ==> trades[i] == if i < |rest| then rest[i] else last;
    }
  }

  lemma PlusAssociates(a: Tally, b: Tally, c: Tally)
    ensures a.Plus(b).Plus(c) == a.Plus(b.Plus(c))
  {
  }

  lemma TallyOfAppend(a: seq<Trade>, t: Trade)
    ensures TallyOf(a + [t]) == TallyOf(a).Plus(One(t))
  {
    assert (a + [t])[..|a|] == a;
  }

  // ---- expectancy ----

  /** win_rate * avg_win - loss_rate * avg_loss, as the code computes it. */
  function Expectancy(r: Tally): real
    requires r.total > 0
  {
    var n := r.total as real;
    var winRate, lossRate := r.wins as real / n, r.losses as real / n;
    var avgWin := if r.wins > 0 then r.profit / r.wins as real else 0.0;
    var avgLoss := if r.losses > 0 then r.loss / r.losses as real else 0.0;
    winRate * avgWin - lossRate * avgLoss
  }

  lemma RateTimesAverage(k: real, n: real, sum: real)
    requires k > 0.0 && n > 0.0
    ensures (k / n) * (sum / k) == sum / n
  {
    var rate, average := k / n, sum / k;
    assert rate * n == k && average * k == sum;
    assert rate * average * n == rate * n * average == sum;
  }

  lemma DifferenceOverCount(a: real, b: real, n: real)
    requires n > 0.0
    ensures a / n - b / n == (a - b) / n
  {
    var x, y := a / n, b / n;
    assert x * n == a && y * n == b;
    assert (x - y) * n == a - b;
  }

  lemma ExpectancyFromSums(wins: int, losses: int, n: real, profit: real, loss: real)
    requires n > 0.0 && 0 <= wins && 0 <= losses
    requires (wins == 0 ==> profit == 0.0) && (losses == 0 ==> loss == 0.0)
    ensures (wins as real / n) * (if wins > 0 then profit / wins as real else 0.0) == profit / n
    ensures (losses as real / n) * (if losses > 0 then loss / losses as real else 0.0) == loss / n
  {
    if wins > 0 { RateTimesAverage(wins as real, n, profit); }
    if losses > 0 { RateTimesAverage(losses as real, n, loss); }
  }

  lemma ExpectancyOfBalanced(r: Tally)
    requires r.total > 0 && 0 <= r.wins && 0 <= r.losses && r.profit - r.loss == r.net
    requires (r.wins == 0 ==> r.profit == 0.0) && (r.losses == 0 ==> r.loss == 0.0)
    ensures Expectancy(r) == Mean(r.net, r.total)
  {
    var n := r.total as real;
    ExpectancyFromSums(r.wins, r.losses, n, r.profit, r.loss);
    DifferenceOverCount(r.profit, r.loss, n);
  }

  function Mean(sum: real, count: int): real
    requires count > 0
  {
    sum / count as real
  }

  /** The expectancy is the mean net result. */
  lemma ExpectancyIsMeanNet(trades: seq<Trade>)
    requires trades != []
    ensures TallyOf(trades).total == |trades|
    ensures Expectancy(TallyOf(trades)) == Mean(TallyOf(trades).net, |trades|)
  {
    TallyBalances(trades);
    ExpectancyOfBalanced(TallyOf(trades));
  }

  // ---- rounding ----

  /** `_quantize(x, "0.01")` with ROUND_HALF_UP: half a cent goes away from zero. */
  function ToCents(x: real): real {
    if x >= 0.0 then (x * 100.0 + 0.5).Floor as real / 100.0 else -((-x * 100.0 + 0.5).Floor as real / 100.0)
  }

  /** The rounded value is the nearest cent, and exactly when a bound is met after rounding. */
  lemma RoundingBounds(x: real)
    ensures x - 0.005 <= ToCents(x) <= x + 0.005
    ensures ToCents(x) >= 0.0 <==> x > -0.005
    ensures ToCents(x) <= 10.0 <==> x < 10.005
  {
    var y := if x >= 0.0 then x * 100.0 + 0.5 else -x * 100.0 + 0.5;
    var f := y.Floor;
    assert f as real <= y < f as real + 1.0;
  }

  // ---- equity and drawdown ----

  function Equity(capital: real, nets: seq<real>): real {
    if nets == [] then capital else Equity(capital, nets[..|nets| - 1]) + nets[|nets| - 1]
  }

  function Max(a: real, b: real): real { if a >= b then a else b }

  function Peak(capital: real, nets: seq<real>): real {
    if nets == [] then capital else Max(Peak(capital, nets[..|nets| - 1]), Equity(capital, nets))
  }

  /** Percentage lost between a high and a later value. */
  function Drop(high: real, low: real): real
    requires high > 0.0
  {
    (high - low) / high * 100.0
  }

  function DropOrZero(high: real, low: real): real {
    if high > 0.0 then Drop(high, low) else 0.0
  }

  function DrawdownNow(capital: real, nets: seq<real>): real {
    DropOrZero(Peak(capital, nets), Equity(capital, nets))
  }

  /** The largest drawdown met at any point, never below zero. */
  function MaxDrawdown(capital: real, nets: seq<real>): real {
    if nets == [] then 0.0 else Max(MaxDrawdown(capital, nets[..|nets| - 1]), DrawdownNow(capital, nets))
  }

  method MeasureDrawdown(capital: real, nets: seq<real>) returns (maxPct: real)
    ensures maxPct == MaxDrawdown(capital, nets)
  {
    var equity, peak := capital, capital;
    maxPct := 0.0;
    for i := 0 to |nets|
      invariant equity == Equity(capital, nets[..i]) && peak == Peak(capital, nets[..i])
      invariant maxPct == MaxDrawdown(capital, nets[..i])
    {
      assert nets[..i + 1][..i] == nets[..i];
      equity := equity + nets[i];
      if equity > peak { peak := equity; }
      var dd := peak - equity;
      if peak > 0.0 {
        var pct := dd / peak * 100.0;
        if pct > maxPct { maxPct := pct; }
      } else {
        NonNegativeDrawdown(capital, nets[..i]);
      }
    }
    assert nets[..|nets|] == nets;
  }

  lemma {:induction false} NonNegativeDrawdown(capital: real, nets: seq<real>)
    ensures MaxDrawdown(capital, nets) >= 0.0
  {
    if nets != [] { NonNegativeDrawdown(capital, nets[..|nets| - 1]); }
  }

  /** The peak is the highest equity so far. */
  lemma {:induction false} PeakIsHighest(capital: real, nets: seq<real>)
    ensures forall j :: 0 <= j <= |nets| ==> Equity(capital, nets[..j]) <= Peak(capital, nets)
    ensures exists j :: 0 <= j <= |nets| && Equity(capital, nets[..j]) == Peak(capital, nets)
  {
    assert nets[..|nets|] == nets;
    if nets != [] {
      var rest := nets[..|nets| - 1];
      PeakIsHighest(capital, rest);
      assert forall j :: 0 <= j <= |rest| ==> rest[..j] == nets[..j];
      var j :| 0 <= j <= |rest| && Equity(capital, rest[..j]) == Peak(capital, rest);
      assert Equity(capital, nets[..j]) == Peak(capital, rest);
    } else {
      assert Equity(capital, nets[..0]) == Peak(capital, nets);
    }
  }

  /** The one-pass value is the maximum over all positions. */
  lemma {:induction false} DrawdownIsMaximum(capital: real, nets: seq<real>)
    ensures forall j :: 0 <= j <= |nets| ==> DrawdownNow(capital, nets[..j]) <= MaxDrawdown(capital, nets)
    ensures MaxDrawdown(capital, nets) == 0.0
         || exists j :: 0 <= j <= |nets| && DrawdownNow(capital, nets[..j]) == MaxDrawdown(capital, nets)
  {
    assert nets[..|nets|] == nets;
    if nets != [] {
      var rest := nets[..|nets| - 1];
      DrawdownIsMaximum(capital, rest);
      assert forall j :: 0 <= j <= |rest| ==> rest[..j] == nets[..j];
      if MaxDrawdown(capital, nets) != DrawdownNow(capital, nets) && MaxDrawdown(capital, rest) != 0.0 {
        var j :| 0 <= j <= |rest| && DrawdownNow(capital, rest[..j]) == MaxDrawdown(capital, rest);
        assert DrawdownNow(capital, nets[..j]) == MaxDrawdown(capital, nets);
      }
    }
  }

  /** More trades never make the maximum drawdown smaller. */
  lemma {:induction false} DrawdownNeverFalls(capital: real, nets: seq<real>, more: seq<real>)
    ensures MaxDrawdown(capital, nets) <= MaxDrawdown(capital, nets + more)
    decreases |more|
  {
    if more == [] {
      assert nets + more == nets;
    } else {
      DrawdownNeverFalls(capital, nets, more[..|more| - 1]);
      assert (nets + more)[..|nets + more| - 1] == nets + more[..|more| - 1];
    }
  }

  function Mapped(f: real -> real, nets: seq<real>): (r: seq<real>)
    ensures |r| == |nets|
    ensures forall i :: 0 <= i < |nets| ==> r[i] == f(nets[i])
  {
    if nets == [] then [] else Mapped(f, nets[..|nets| - 1]) + [f(nets[|nets| - 1])]
  }

  function By(k: real): real -> real {
    x => k * x
  }

  predicate Commutes(f: real -> real, a: real, b: real) {
    && f(a + b) == f(a) + f(b)
    && f(Max(a, b)) == Max(f(a), f(b))
    && DropOrZero(f(a), f(b)) == DropOrZero(a, b)
  }

  /** A change of unit: it commutes with sums and maxima and leaves percentages alone. */
  ghost predicate Rescaling(f: real -> real) {
    forall a, b :: Commutes(f, a, b)
  }

  lemma DropScales(k: real, high: real, low: real)
    requires k > 0.0 && high > 0.0
    ensures k * high > 0.0 && Drop(k * high, k * low) == Drop(high, low)
  {
    var x := (high - low) / high;
    assert x * high == high - low;
    assert x * (k * high) == k * (x * high) == k * high - k * low;
    assert (k * high - k * low) / (k * high) == x;
  }

  lemma ScalingKeepsOrder(k: real, a: real, b: real)
    requires k > 0.0
    ensures k * a >= k * b <==> a >= b
    ensures k * Max(a, b) == Max(k * a, k * b)
  {
    var d := a - b;
    assert k * d == k * a - k * b;
    if d >= 0.0 { assert k * d >= 0.0; } else { assert k * -d > 0.0; }
  }

  lemma {:induction false} EquityScales(f: real -> real, capital: real, nets: seq<real>)
    requires Rescaling(f)
    ensures Equity(f(capital), Mapped(f, nets)) == f(Equity(capital, nets))
  {
    if nets != [] {
      var rest := nets[..|nets| - 1];
      EquityScales(f, capital, rest);
      assert Mapped(f, nets)[..|nets| - 1] == Mapped(f, rest);
      assert Commutes(f, Equity(capital, rest), nets[|nets| - 1]);
    }
  }

  lemma {:induction false} PeakScales(f: real -> real, capital: real, nets: seq<real>)
    requires Rescaling(f)
    ensures Peak(f(capital), Mapped(f, nets)) == f(Peak(capital, nets))
  {
    if nets != [] {
      var rest := nets[..|nets| - 1];
      PeakScales(f, capital, rest);
      assert Mapped(f, nets)[..|nets| - 1] == Mapped(f, rest);
      EquityScales(f, capital, nets);
      assert Commutes(f, Peak(capital, rest), Equity(capital, nets));
    }
  }

  lemma {:induction false} DrawdownScales(f: real -> real, capital: real, nets: seq<real>)
    requires Rescaling(f)
    ensures MaxDrawdown(f(capital), Mapped(f, nets)) == MaxDrawdown(capital, nets)
  {
    if nets != [] {
      var rest := nets[..|nets| - 1];
      DrawdownScales(f, capital, rest);
      assert Mapped(f, nets)[..|nets| - 1] == Mapped(f, rest);
      EquityScales(f, capital, nets);
      PeakScales(f, capital, nets);
      assert Commutes(f, Peak(capital, nets), Equity(capital, nets));
    }
  }

  lemma DropOrZeroScales(k: real, high: real, low: real)
    requires k > 0.0
    ensures DropOrZero(k * high, k * low) == DropOrZero(high, low)
  {
    ScalingKeepsOrder(k, 0.0, high);
    if high > 0.0 { DropScales(k, high, low); }
  }

  lemma MultiplyingCommutes(k: real, a: real, b: real)
    requires k > 0.0
    ensures Commutes(By(k), a, b)
  {
    ScalingKeepsOrder(k, a, b);
    DropOrZeroScales(k, a, b);
  }

  /** Scaling capital and results together changes nothing. */
  lemma DrawdownIsScaleFree(k: real, capital: real, nets: seq<real>)
    requires k > 0.0
    ensures MaxDrawdown(By(k)(capital), Mapped(By(k), nets)) == MaxDrawdown(capital, nets)
  {
    forall a, b ensures Commutes(By(k), a, b) {
      MultiplyingCommutes(k, a, b);
    }
    DrawdownScales(By(k), capital, nets);
  }

  /** From a higher start the same non-negative end is a deeper drop. */
  lemma HigherStartDeeperDrop(high: real, start: real, low: real)
    requires high >= start > 0.0 && low >= 0.0
    ensures Drop(start, low) <= Drop(high, low)
  {
    SmallerShare(high, start, low);
    DifferenceOverCount(start, low, start);
    DifferenceOverCount(high, low, high);
    assert start / start == 1.0 && high / high == 1.0;
  }

  lemma SmallerShare(high: real, start: real, low: real)
    requires high >= start > 0.0 && low >= 0.0
    ensures low / high <= low / start
  {
    var x, y := low / start, low / high;
    assert x >= 0.0 && x * start == low && y * high == low;
    assert x * (high - start) >= 0.0;
    ScalingKeepsOrder(high, x, y);
  }

  /** Starting lower is a smaller drop exactly when the end is not below zero. */
  lemma DropOrderIff(high: real, start: real, low: real)
    requires high >= start > 0.0
    ensures Drop(start, low) <= Drop(high, low) <==> low >= 0.0 || start == high
  {
    if low >= 0.0 {
      HigherStartDeeperDrop(high, start, low);
    } else {
      DifferenceOverCount(start, low, start);
      DifferenceOverCount(high, low, high);
      assert start / start == 1.0 && high / high == 1.0;
      DebtShares(high, start, -low);
      assert low / start == -(-low / start) && low / high == -(-low / high);
    }
  }

  lemma DebtShares(high: real, start: real, debt: real)
    requires high >= start > 0.0 && debt > 0.0
    ensures debt / start <= debt / high <==> start == high
  {
    SmallerShare(high, start, debt);
    var x := debt / start;
    assert x * start == debt;
    if x == debt / high {
      assert x * high == debt;
      assert x * (high - start) == 0.0;
      assert x != 0.0;
    }
  }

  /**
   * A pair of an earlier positive value and a later one drops no further than the running drawdown
   * at the later one exactly when the later one is not negative, or the earlier one is the peak.
   */
  lemma PairDropWithinIff(capital: real, nets: seq<real>, i: nat, j: nat)
    requires i <= j <= |nets| && Equity(capital, nets[..i]) > 0.0
    ensures Drop(Equity(capital, nets[..i]), Equity(capital, nets[..j])) <= DrawdownNow(capital, nets[..j]) <==>
            Equity(capital, nets[..j]) >= 0.0 || Equity(capital, nets[..i]) == Peak(capital, nets[..j])
  {
    PeakIsHighest(capital, nets[..j]);
    assert nets[..j][..i] == nets[..i];
    DropOrderIff(Peak(capital, nets[..j]), Equity(capital, nets[..i]), Equity(capital, nets[..j]));
  }

  /** The lowest positive equity so far, or zero. */
  function LowestPositive(capital: real, nets: seq<real>): (r: real)
    ensures r >= 0.0
  {
    var e := Equity(capital, nets);
    var before := if nets == [] then 0.0 else LowestPositive(capital, nets[..|nets| - 1]);
    if e > 0.0 && (before == 0.0 || e < before) then e else before
  }

  lemma {:induction false} LowestIsLowest(capital: real, nets: seq<real>)
    ensures forall i :: 0 <= i <= |nets| && Equity(capital, nets[..i]) > 0.0 ==>
              0.0 < LowestPositive(capital, nets) <= Equity(capital, nets[..i])
    ensures LowestPositive(capital, nets) > 0.0 ==>
              exists i :: 0 <= i <= |nets| && Equity(capital, nets[..i]) == LowestPositive(capital, nets)
  {
    assert nets[..|nets|] == nets;
    if nets != [] {
      var rest := nets[..|nets| - 1];
      LowestIsLowest(capital, rest);
      assert forall i :: 0 <= i <= |rest| ==> rest[..i] == nets[..i];
      if LowestPositive(capital, nets) > 0.0 && LowestPositive(capital, nets) != Equity(capital, nets) {
        var i :| 0 <= i <= |rest| && Equity(capital, rest[..i]) == LowestPositive(capital, rest);
        assert Equity(capital, nets[..i]) == LowestPositive(capital, nets);
      }
    }
  }

  /** Below zero, the lower the start the deeper the drop. */
  lemma LowerStartDeeperDrop(start: real, lowest: real, low: real)
    requires start >= lowest > 0.0 && low < 0.0
    ensures Drop(start, low) <= Drop(lowest, low)
  {
    SmallerShare(start, lowest, -low);
    DifferenceOverCount(start, low, start);
    DifferenceOverCount(lowest, low, lowest);
    assert start / start == 1.0 && lowest / lowest == 1.0;
    assert low / start == -(-low / start) && low / lowest == -(-low / lowest);
  }

  ghost predicate BoundsAllPairs(capital: real, nets: seq<real>) {
    forall i, j :: 0 <= i <= j <= |nets| && Equity(capital, nets[..i]) > 0.0 ==>
      Drop(Equity(capital, nets[..i]), Equity(capital, nets[..j])) <= MaxDrawdown(capital, nets)
  }

  /** At every point below zero the drop from the lowest positive equity is within the maximum. */
  ghost predicate BoundsLowPoints(capital: real, nets: seq<real>) {
    forall j :: 0 <= j <= |nets| && Equity(capital, nets[..j]) < 0.0 && LowestPositive(capital, nets[..j]) > 0.0 ==>
      Drop(LowestPositive(capital, nets[..j]), Equity(capital, nets[..j])) <= MaxDrawdown(capital, nets)
  }

  lemma PairWithin(capital: real, nets: seq<real>, i: nat, j: nat)
    requires i <= j <= |nets| && Equity(capital, nets[..i]) > 0.0 && BoundsLowPoints(capital, nets)
    ensures Drop(Equity(capital, nets[..i]), Equity(capital, nets[..j])) <= MaxDrawdown(capital, nets)
  {
    if Equity(capital, nets[..j]) >= 0.0 {
      PairDropWithinIff(capital, nets, i, j);
      DrawdownIsMaximum(capital, nets);
    } else {
      LowestIsLowest(capital, nets[..j]);
      assert nets[..j][..i] == nets[..i];
      LowerStartDeeperDrop(Equity(capital, nets[..i]), LowestPositive(capital, nets[..j]), Equity(capital, nets[..j]));
    }
  }

  /** The maximum drawdown bounds every pair drop exactly when it bounds those from the lowest positive equity. */
  lemma WorstPairIff(capital: real, nets: seq<real>)
    ensures BoundsAllPairs(capital, nets) <==> BoundsLowPoints(capital, nets)
  {
    if BoundsAllPairs(capital, nets) {
      forall j | 0 <= j <= |nets| && Equity(capital, nets[..j]) < 0.0 && LowestPositive(capital, nets[..j]) > 0.0
        ensures Drop(LowestPositive(capital, nets[..j]), Equity(capital, nets[..j])) <= MaxDrawdown(capital, nets)
      {
        LowestIsLowest(capital, nets[..j]);
        var i :| 0 <= i <= j && Equity(capital, nets[..j][..i]) == LowestPositive(capital, nets[..j]);
        assert nets[..j][..i] == nets[..i];
      }
    }
    if BoundsLowPoints(capital, nets) {
      forall i, j | 0 <= i <= j <= |nets| && Equity(capital, nets[..i]) > 0.0
        ensures Drop(Equity(capital, nets[..i]), Equity(capital, nets[..j])) <= MaxDrawdown(capital, nets)
      {
        PairWithin(capital, nets, i, j);
      }
    }
  }

  ghost predicate NeverNegative(capital: real, nets: seq<real>) {
    forall j :: 0 <= j <= |nets| ==> Equity(capital, nets[..j]) >= 0.0
  }

  /**
   * While equity never goes negative the maximum drawdown is the worst drop from any earlier to
   * any later value.
   */
  lemma DrawdownIsWorstPairDrop(capital: real, nets: seq<real>, i: nat, j: nat)
    requires NeverNegative(capital, nets) && i <= j <= |nets| && Equity(capital, nets[..i]) > 0.0
    ensures Drop(Equity(capital, nets[..i]), Equity(capital, nets[..j])) <= MaxDrawdown(capital, nets)
  {
    PeakIsHighest(capital, nets[..j]);
    assert nets[..j][..i] == nets[..i];
    HigherStartDeeperDrop(Peak(capital, nets[..j]), Equity(capital, nets[..i]), Equity(capital, nets[..j]));
    DrawdownIsMaximum(capital, nets);
  }

  /** ... and, with or without losses below zero, it is attained by such a pair unless it is zero. */
  lemma DrawdownIsSomePairDrop(capital: real, nets: seq<real>)
    requires MaxDrawdown(capital, nets) > 0.0
    ensures exists i, j :: 0 <= i <= j <= |nets| && Equity(capital, nets[..i]) > 0.0
                        && Drop(Equity(capital, nets[..i]), Equity(capital, nets[..j])) == MaxDrawdown(capital, nets)
  {
    DrawdownIsMaximum(capital, nets);
    var j :| 0 <= j <= |nets| && DrawdownNow(capital, nets[..j]) == MaxDrawdown(capital, nets);
    PeakIsHighest(capital, nets[..j]);
    var i :| 0 <= i <= j && Equity(capital, nets[..j][..i]) == Peak(capital, nets[..j]);
    assert nets[..j][..i] == nets[..i];
    assert Drop(Equity(capital, nets[..i]), Equity(capital, nets[..j])) == MaxDrawdown(capital, nets);
  }

  /** Below zero the pair reading fails: 1, 2, -1 loses 150% from its peak but 200% from its start. */
  lemma NegativeEquityBreaksPairReading()
    ensures
      var nets := [1.0, -3.0];
      MaxDrawdown(1.0, nets) == 150.0 && Drop(Equity(1.0, nets[..0]), Equity(1.0, nets[..2])) == 200.0
  {
    var nets := [1.0, -3.0];
    assert nets[..0] == [] && nets[..1] == [1.0] && nets[..2] == nets;
    assert Equity(1.0, [1.0]) == 2.0 by { assert [1.0][..0] == []; }
    assert Peak(1.0, [1.0]) == 2.0 by { assert [1.0][..0] == []; }
    assert MaxDrawdown(1.0, [1.0]) == 0.0 by { assert [1.0][..0] == []; }
    assert Equity(1.0, nets) == -1.0 && Peak(1.0, nets) == 2.0;
  }

  // ---- the verdict ----

  function IsCapitalSafe(capital: real, trades: seq<Trade>): bool {
    trades != [] &&
    (TallyBalances(trades);
     && ToCents(MaxDrawdown(capital, NetsOf(trades))) <= 10.0
     && TallyOf(trades).unknown == 0
     && ToCents(Expectancy(TallyOf(trades))) >= 0.0)
  }

  function Times(bound: real, count: int): real {
    bound * count as real
  }

  lemma MeanAboveBound(sum: real, count: int, bound: real)
    requires count > 0
    ensures Mean(sum, count) > bound <==> sum > Times(bound, count)
  {
    var x, n := Mean(sum, count), count as real;
    assert n * x == sum;
    ScalingKeepsOrder(n, bound, x);
  }

  /** What the rounded verdict says about the exact figures. */
  lemma CapitalSafeMeans(capital: real, trades: seq<Trade>)
    ensures IsCapitalSafe(capital, trades) <==>
            && trades != []
            && MaxDrawdown(capital, NetsOf(trades)) < 10.005
            && (forall i :: 0 <= i < |trades| ==> !trades[i].unknownRisk)
            && TallyOf(trades).net > Times(-0.005, |trades|)
  {
    if trades != [] {
      TallyBalances(trades);
      ExpectancyIsMeanNet(trades);
      RoundingBounds(MaxDrawdown(capital, NetsOf(trades)));
      RoundingBounds(Expectancy(TallyOf(trades)));
      MeanAboveBound(TallyOf(trades).net, |trades|, -0.005);
    }
  }

  datatype Metrics = Metrics(tally: Tally, expectancy: real, maxDrawdownPct: real, isCapitalSafe: bool)

  /** The modelled part of a report.  No trades means no evidence, so never capital-safe. */
  function Report(capital: real, trades: seq<Trade>): Metrics {
    if trades == [] then Metrics(ZERO, 0.0, 0.0, false) else
    TallyBalances(trades);
    Metrics(TallyOf(trades), ToCents(Expectancy(TallyOf(trades))), ToCents(MaxDrawdown(capital, NetsOf(trades))),
            IsCapitalSafe(capital, trades))
  }

  // ---- the report in terms of the trades ----

  function Sum(trades: seq<Trade>, f: Trade -> real): real {
    if trades == [] then 0.0 else Sum(trades[..|trades| - 1], f) + f(trades[|trades| - 1])
  }

  function Number(trades: seq<Trade>, p: Trade -> bool): nat {
    if trades == [] then 0
    else Number(trades[..|trades| - 1], p) + if p(trades[|trades| - 1]) then 1 else 0
  }

  /** Realized results less commissions, plus funding, each summed on its own. */
  function Earned(trades: seq<Trade>): real {
    Sum(trades, (t: Trade) => t.realized) - Sum(trades, (t: Trade) => t.commission)
    + Sum(trades, (t: Trade) => t.funding)
  }

  /** What one trade earned. */
  const Result: Trade -> real := (t: Trade) => t.realized - t.commission + t.funding

  predicate SumsUp(r: Tally, trades: seq<Trade>) {
    && r.total == |trades| && r.net == Earned(trades)
    && r.commission == Sum(trades, (t: Trade) => t.commission)
    && r.funding == Sum(trades, (t: Trade) => t.funding)
    && r.slippage == Sum(trades, (t: Trade) => t.slippage)
    && r.profit == Sum(trades, (t: Trade) => if Result(t) > 0.0 then Result(t) else 0.0)
    && r.loss == Sum(trades, (t: Trade) => if Result(t) < 0.0 then -Result(t) else 0.0)
    && r.wins == Number(trades, (t: Trade) => Result(t) > 0.0)
    && r.losses == Number(trades, (t: Trade) => Result(t) < 0.0)
    && r.evens == Number(trades, (t: Trade) => Result(t) == 0.0)
    && r.unknown == Number(trades, (t: Trade) => t.unknownRisk)
  }

  /** Every figure of the tally is its own sum or count over the trades. */
  lemma {:induction false} TallySumsUp(trades: seq<Trade>)
    ensures SumsUp(TallyOf(trades), trades)
  {
    if trades != [] { TallySumsUp(trades[..|trades| - 1]); }
  }

  /** The equity after some trades is the capital and what they earned. */
  lemma {:induction false} EquityIsCapitalAndEarnings(capital: real, trades: seq<Trade>, j: nat)
    requires j <= |trades|
    ensures Equity(capital, NetsOf(trades)[..j]) == capital + Earned(trades[..j])
    decreases j
  {
    if j > 0 {
      EquityIsCapitalAndEarnings(capital, trades, j - 1);
      assert NetsOf(trades)[..j][..j - 1] == NetsOf(trades)[..j - 1] && trades[..j][..j - 1] == trades[..j - 1];
    }
  }

  /** `r` is `x` to the nearest whole cent; half a cent goes away from zero. */
  predicate Rounded(x: real, r: real) {
    && (r * 100.0).Floor as real == r * 100.0
    && if x >= 0.0 then -0.005 < r - x <= 0.005 else -0.005 <= r - x < 0.005
  }

  lemma ToCentsRounds(x: real)
    ensures Rounded(x, ToCents(x))
  {
    var k := if x >= 0.0 then (x * 100.0 + 0.5).Floor else -((-x * 100.0 + 0.5).Floor);
    assert ToCents(x) == k as real / 100.0;
  }

  lemma RoundedOnce(x: real, r: real, s: real)
    requires Rounded(x, r) && Rounded(x, s)
    ensures r == s
  {
    var i, j := (r * 100.0).Floor, (s * 100.0).Floor;
    assert -1.0 < (i - j) as real < 1.0;
  }

  /** A report's figures, in terms of the trades and the capital alone. */
  predicate Reports(m: Metrics, capital: real, trades: seq<Trade>) {
    && SumsUp(m.tally, trades)
    && if trades == [] then m.expectancy == m.maxDrawdownPct == 0.0 && !m.isCapitalSafe
       else
         && Rounded(Mean(Earned(trades), |trades|), m.expectancy)
         && Rounded(MaxDrawdown(capital, NetsOf(trades)), m.maxDrawdownPct)
         && (m.isCapitalSafe <==>
              && MaxDrawdown(capital, NetsOf(trades)) < 10.005
              && (forall i :: 0 <= i < |trades| ==> !trades[i].unknownRisk)
              && Earned(trades) > Times(-0.005, |trades|))
  }

  lemma ReportReports(capital: real, trades: seq<Trade>)
    ensures Reports(Report(capital, trades), capital, trades)
  {
    TallySumsUp(trades);
    if trades != [] {
      ExpectancyIsMeanNet(trades);
      ToCentsRounds(Expectancy(TallyOf(trades)));
      ToCentsRounds(MaxDrawdown(capital, NetsOf(trades)));
      CapitalSafeMeans(capital, trades);
    }
  }

  /** A profit of 1 with a commission of 2 is a loss of 1, and not capital-safe. */
  lemma FeesMakeALoss(t: Trade)
    requires t.realized == 1.0 && t.commission == 2.0 && t.funding == 0.0
    ensures
      var m := Report(100.0, [t]);
      && m.tally.net == -1.0 && m.tally.wins == 0 && m.tally.losses == 1 && m.tally.loss == 1.0
      && m.expectancy == -1.0 && m.maxDrawdownPct == 1.0 && !m.isCapitalSafe
  {
    assert [t][..|[t]| - 1] == [];
    assert TallyOf([t]) == ZERO.Plus(One(t));
    ReportReports(100.0, [t]);
    TallySumsUp([t]);
    var nets := NetsOf([t]);
    assert nets == [-1.0];
    OneLoss(100.0, 1.0, nets);
    assert Mean(-1.0, 1) == -1.0;
    assert Rounded(-1.0, -1.0) && Rounded(1.0, 1.0);
    RoundedOnce(-1.0, -1.0, Report(100.0, [t]).expectancy);
    RoundedOnce(1.0, 1.0, Report(100.0, [t]).maxDrawdownPct);
  }

  lemma OneLoss(capital: real, loss: real, nets: seq<real>)
    requires capital > 0.0 && loss > 0.0 && nets == [-loss]
    ensures MaxDrawdown(capital, nets) == loss / capital * 100.0
  {
    assert nets[..|nets| - 1] == [];
    assert Equity(capital, nets) == capital - loss && Peak(capital, nets) == capital;
    assert loss / capital > 0.0;
  }

  method CalculateWealthMetrics(trades: seq<Trade>, capital: real) returns (m: Metrics)
    ensures m == Report(capital, trades) && Reports(m, capital, trades)
  {
    ReportReports(capital, trades);
    if trades == [] {
      return Metrics(ZERO, 0.0, 0.0, false);
    }
    TallyBalances(trades);
    var tally, nets := CountTrades(trades);
    var drawdown := MeasureDrawdown(capital, nets);
    var drawdownPct, expectancy := ToCents(drawdown), ToCents(Expectancy(tally));
    m := Metrics(tally, expectancy, drawdownPct, drawdownPct <= 10.0 && tally.unknown == 0 && expectancy >= 0.0);
  }
}
