/**
 * Price analytics: the 0-100 deal score of a current price against a price
 * history, and the volatility index of that history
 * (backend/modules/analytics/scorer.py).
 */
module Scorer {
  import opened Wrappers
  import opened Numeric

  /**
   * The `price` entry of one history record: no such key, a key holding
   * `None`, or a number.
   */
  datatype PriceField = Missing | Null | Present(value: real)

  datatype Verdict =
    | NotEnoughData
    | NoValidPrices
    | StablePrice
    | GreatDeal
    | GoodPrice
    | FairPrice
    | Overpriced

  /** The text the service shows for each verdict. */
  function Label(v: Verdict): string {
    match v
    case NotEnoughData => "Not enough data"
    case NoValidPrices => "No valid prices"
    case StablePrice => "Stable Price"
    case GreatDeal => "\U{1F525} Great Deal"
    case GoodPrice => "\U{2705} Good Price"
    case FairPrice => "\U{26A0}\U{FE0F} Fair Price"
    case Overpriced => "\U{1F6D1} Overpriced"
  }

  datatype Score = Score(score: int, verdict: Verdict)

  /** A number is truthy in Python unless it is zero. */
  predicate Truthy(f: PriceField) {
    f.Present? && f.value != 0.0
  }

  /**
   * The prices the score is computed from: every record whose `price` is
   * present and non-zero, in history order.
   */
  function ValidPrices(history: seq<PriceField>): (r: seq<real>)
    ensures |r| <= |history|
    ensures forall x :: x in r <==> x != 0.0 && Present(x) in history
  {
    if history == [] then []
    else
      var init, last := history[..|history| - 1], history[|history| - 1];
      assert history == init + [last];
      ValidPrices(init) + (if Truthy(last) then [last.value] else [])
  }

  /** The verdict tier of a clamped score. */
  function Tier(score: int): (v: Verdict)
    ensures v == GreatDeal <==> 85 <= score
    ensures v == GoodPrice <==> 60 <= score < 85
    ensures v == FairPrice <==> 40 <= score < 60
    ensures v == Overpriced <==> score < 40
  {
    if score >= 85 then GreatDeal
    else if score >= 60 then GoodPrice
    else if score >= 40 then FairPrice
    else Overpriced
  }

  /** `max(0, min(100, int(raw)))`. */
  function Clamp(raw: real): (s: int)
    ensures 0 <= s <= 100
    ensures 0.0 <= raw < 101.0 ==> s == raw.Floor
    ensures raw >= 100.0 ==> s == 100
    ensures raw < 1.0 ==> s == 0
  {
    var t := Trunc(raw);
    if t > 100 then 100 else if t < 0 then 0 else t
  }

  lemma ClampMonotone(x: real, y: real)
    requires x <= y
    ensures Clamp(x) <= Clamp(y)
  {
    TruncMonotone(x, y);
  }

  /** `calculate_price_score(current_price, price_history)`. */
  function PriceScore(current: real, history: seq<PriceField>): (r: Score)
    ensures 0 <= r.score <= 100
    ensures |history| < 2 ==> r == Score(50, NotEnoughData)
    ensures |history| >= 2 && ValidPrices(history) == [] ==> r == Score(50, NoValidPrices)
    ensures r.verdict !in {NotEnoughData, NoValidPrices, StablePrice} ==> r.verdict == Tier(r.score)
    ensures |history| >= 2 && ValidPrices(history) != [] && MinOf(ValidPrices(history)) == MaxOf(ValidPrices(history))
      ==> r == Score(50, StablePrice)
    ensures HasSpread(history) ==>
      var lo, hi := MinOf(ValidPrices(history)), MaxOf(ValidPrices(history));
      r.score == Clamp((hi - current) / (hi - lo) * 100.0) && r.verdict == Tier(r.score)
  {
    if |history| < 2 then Score(50, NotEnoughData)
    else
      var prices := ValidPrices(history);
      if prices == [] then Score(50, NoValidPrices)
      else
        var lo, hi := MinOf(prices), MaxOf(prices);
        if hi == lo then Score(50, StablePrice)
        else
          var s := Clamp((hi - current) / (hi - lo) * 100.0);
          Score(s, Tier(s))
  }

  /** The history has at least two records and its valid prices are not all equal. */
  predicate HasSpread(history: seq<PriceField>) {
    |history| >= 2 && ValidPrices(history) != [] && MinOf(ValidPrices(history)) < MaxOf(ValidPrices(history))
  }

  /** A flat history scores 50, "Stable Price", whatever the current price. */
  lemma StableWhateverCurrent(current: real, history: seq<PriceField>)
    requires |history| >= 2 && ValidPrices(history) != []
    requires MinOf(ValidPrices(history)) == MaxOf(ValidPrices(history))
    ensures PriceScore(current, history) == Score(50, StablePrice)
  {
  }

  /** `(hi - c) / (hi - lo) * 100` grows as `c` falls, and meets 100 at `lo` and 0 at `hi`. */
  lemma RawScoreFacts(hi: real, lo: real, c: real)
    requires lo < hi
    ensures c <= lo ==> (hi - c) / (hi - lo) * 100.0 >= 100.0
    ensures c >= hi ==> (hi - c) / (hi - lo) * 100.0 <= 0.0
  {
    var d := hi - lo;
    var q := (hi - c) / d;
    assert q * d == hi - c;
    if c <= lo && q < 1.0 {
      assert (1.0 - q) * d > 0.0;
    }
  }

  lemma RawScoreMonotone(hi: real, lo: real, c1: real, c2: real)
    requires lo < hi && c1 <= c2
    ensures (hi - c2) / (hi - lo) * 100.0 <= (hi - c1) / (hi - lo) * 100.0
  {
    var d := hi - lo;
    assert (hi - c1) / d - (hi - c2) / d == (c2 - c1) / d;
  }

  /** Equal to the historical minimum, or below it, scores 100: a great deal. */
  lemma AtOrBelowMinimumScoresHundred(current: real, history: seq<PriceField>)
    requires HasSpread(history)
    requires current <= MinOf(ValidPrices(history))
    ensures PriceScore(current, history) == Score(100, GreatDeal)
  {
    var lo, hi := MinOf(ValidPrices(history)), MaxOf(ValidPrices(history));
    RawScoreFacts(hi, lo, current);
  }

  /** Equal to the historical maximum, or above it, scores 0: overpriced. */
  lemma AtOrAboveMaximumScoresZero(current: real, history: seq<PriceField>)
    requires HasSpread(history)
    requires current >= MaxOf(ValidPrices(history))
    ensures PriceScore(current, history) == Score(0, Overpriced)
  {
    var lo, hi := MinOf(ValidPrices(history)), MaxOf(ValidPrices(history));
    RawScoreFacts(hi, lo, current);
  }

  /** For a fixed history a higher current price never scores higher. */
  lemma ScoreNonIncreasing(c1: real, c2: real, history: seq<PriceField>)
    requires c1 <= c2
    ensures PriceScore(c2, history).score <= PriceScore(c1, history).score
  {
    if HasSpread(history) {
      var lo, hi := MinOf(ValidPrices(history)), MaxOf(ValidPrices(history));
      RawScoreMonotone(hi, lo, c1, c2);
      ClampMonotone((hi - c2) / (hi - lo) * 100.0, (hi - c1) / (hi - lo) * 100.0);
    }
  }

  /** `statistics.stdev` is given a square root through this contract. */
  ghost predicate IsSquareRoot(sqrt: real -> real) {
    forall x :: 0.0 <= x ==> 0.0 <= sqrt(x) && sqrt(x) * sqrt(x) == x
  }

  /** A square root never decreases when its argument grows. */
  lemma SquareRootMonotone(sqrt: real -> real, x: real, y: real)
    requires IsSquareRoot(sqrt)
    requires 0.0 <= x <= y
    ensures sqrt(x) <= sqrt(y)
  {
    var a, b := sqrt(x), sqrt(y);
    assert (b - a) * (a + b) == y - x;
    if a + b != 0.0 {
      assert b - a == (y - x) / (a + b);
    }
  }

  /** The sample variance that `statistics.stdev` takes the root of. */
  function SampleVariance(xs: seq<real>): (v: real)
    requires |xs| >= 2
    ensures v >= 0.0
  {
    SquaredDeviations(xs, Mean(xs)) / (|xs| - 1) as real
  }

  /**
   * `[h.get('price', 0) for h in history]`: a missing price counts as 0.
   * `None` stands for a record whose price is an explicit null, on which
   * `statistics.stdev` raises.
   */
  function PricesOrZero(history: seq<PriceField>): (r: Option<seq<real>>)
    ensures r.Some? <==> Null !in history
    ensures r.Some? ==> |r.value| == |history|
    ensures r.Some? ==> forall i :: 0 <= i < |history| ==>
      r.value[i] == (if history[i].Present? then history[i].value else 0.0)
  {
    if history == [] then Some([])
    else
      var init, last := history[..|history| - 1], history[|history| - 1];
      assert history == init + [last];
      match (PricesOrZero(init), last)
      case (None, _) => None
      case (_, Null) => None
      case (Some(ps), Missing) => Some(ps + [0.0])
      case (Some(ps), Present(v)) => Some(ps + [v])
  }

  /** `(stdev / avg) * 100 if avg > 0 else 0`, capped at 100 and rounded to cents. */
  function VolatilityIndex(stdev: real, avg: real): (r: real)
    requires stdev >= 0.0
    ensures 0.0 <= r <= 100.0
    ensures avg <= 0.0 ==> r == 0.0
    ensures avg > 0.0 && stdev >= avg ==> r == 100.0
    ensures avg > 0.0 && stdev < avg ==> stdev / avg * 100.0 - 0.005 <= r <= stdev / avg * 100.0 + 0.005
    ensures avg > 0.0 ==> r == Round2(if stdev / avg * 100.0 < 100.0 then stdev / avg * 100.0 else 100.0)
  {
    var index := if avg > 0.0 then stdev / avg * 100.0 else 0.0;
    assert avg > 0.0 && stdev >= avg ==> stdev / avg >= 1.0;
    Round2Exact(0);
    Round2Exact(10000);
    Round2Within(if index < 100.0 then index else 100.0, 0, 10000);
    Round2(if index < 100.0 then index else 100.0)
  }

  /** `calculate_volatility(history)`; the `except` branch returns 0. */
  function Volatility(history: seq<PriceField>, sqrt: real -> real): (r: real)
    requires IsSquareRoot(sqrt)
    ensures 0.0 <= r <= 100.0
    ensures |history| < 2 ==> r == 0.0
    ensures Null in history ==> r == 0.0
    ensures |history| >= 2 && Null !in history ==>
      var prices := PricesOrZero(history).value;
      r == VolatilityIndex(sqrt(SampleVariance(prices)), Mean(prices))
  {
    if |history| < 2 then 0.0
    else
      match PricesOrZero(history)
      case None => 0.0
      case Some(prices) =>
        VolatilityIndex(sqrt(SampleVariance(prices)), Mean(prices))
  }

  /** Every record at the same price gives a volatility of 0. */
  lemma ConstantHistoryNotVolatile(history: seq<PriceField>, c: real, sqrt: real -> real)
    requires IsSquareRoot(sqrt)
    requires forall i :: 0 <= i < |history| ==> history[i] == Present(c)
    ensures Volatility(history, sqrt) == 0.0
  {
    if |history| >= 2 {
      var prices := PricesOrZero(history).value;
      assert forall i :: 0 <= i < |prices| ==> prices[i] == c by {
        ConstantPrices(history, c);
      }
      MeanConstant(prices, c);
      SquaredDeviationsConstant(prices, c);
      assert SampleVariance(prices) == 0.0;
      SquareRootOfZero(sqrt);
      IndexOfZero(Mean(prices));
    }
  }

  lemma SquareRootOfZero(sqrt: real -> real)
    requires IsSquareRoot(sqrt)
    ensures sqrt(0.0) == 0.0
  {
    var s := sqrt(0.0);
    if s > 0.0 {
      calc {
        0.0;
        == s * s;
        > 0.0 * s;
      }
    }
  }

  lemma IndexOfZero(avg: real)
    ensures VolatilityIndex(0.0, avg) == 0.0
  {
    Round2Exact(0);
  }

  lemma IndexMonotone(s1: real, s2: real, avg: real)
    requires 0.0 <= s1 <= s2
    ensures VolatilityIndex(s1, avg) <= VolatilityIndex(s2, avg)
  {
    if avg > 0.0 {
      assert s1 / avg <= s2 / avg;
      var i1, i2 := s1 / avg * 100.0, s2 / avg * 100.0;
      Round2Monotone(if i1 < 100.0 then i1 else 100.0, if i2 < 100.0 then i2 else 100.0);
    }
  }

  lemma {:induction false} ConstantPrices(history: seq<PriceField>, c: real)
    requires forall i :: 0 <= i < |history| ==> history[i] == Present(c)
    ensures PricesOrZero(history).Some?
    ensures forall i :: 0 <= i < |history| ==> PricesOrZero(history).value[i] == c
  {
    if history != [] {
      ConstantPrices(history[..|history| - 1], c);
    }
  }

  /** For two histories with the same positive mean, more dispersion never lowers the index. */
  lemma VolatilityGrowsWithDispersion(h1: seq<PriceField>, h2: seq<PriceField>, sqrt: real -> real)
    requires IsSquareRoot(sqrt)
    requires |h1| == |h2| >= 2 && Null !in h1 && Null !in h2
    requires Mean(PricesOrZero(h1).value) == Mean(PricesOrZero(h2).value) > 0.0
    requires SampleVariance(PricesOrZero(h1).value) <= SampleVariance(PricesOrZero(h2).value)
    ensures Volatility(h1, sqrt) <= Volatility(h2, sqrt)
  {
    var p1, p2 := PricesOrZero(h1).value, PricesOrZero(h2).value;
    SquareRootMonotone(sqrt, SampleVariance(p1), SampleVariance(p2));
    IndexMonotone(sqrt(SampleVariance(p1)), sqrt(SampleVariance(p2)), Mean(p1));
  }
}
