/**
 * The seven-day linear-trend forecast of a product's price
 * (`ForecastEngine.predict_next_week`, backend/modules/ml/forecaster.py).
 * Timestamps are whole seconds; a history record is the pair the price table
 * stores, `price_inr` and `scraped_at`.
 */
module Forecaster {
  import opened Wrappers
  import opened Numeric
  import opened Sorting

  const SecondsPerDay := 86400
  const HorizonDays := 7
  const MinimumPoints := 3

  datatype Observation = Observation(priceInr: real, scrapedAt: int)

  datatype Trend = Upward | Downward | Stable

  datatype Prediction = Prediction(trend: Trend, changePct: real, predictedPrice: real, confidence: int)

  datatype Line = Line(slope: real, intercept: real)

  function ScrapedAt(o: Observation): int {
    o.scrapedAt
  }

  /** `sorted(history, key=lambda x: x['scraped_at'])`. */
  function Chronological(history: seq<Observation>): (r: seq<Observation>)
    ensures |r| == |history| && multiset(r) == multiset(history)
    ensures SortedBy(r, ScrapedAt)
  {
    SortBy(history, ScrapedAt)
  }

  /** `(current_date - start_date).days`: whole days elapsed, rounded down. */
  function DayOffset(start: int, at: int): (r: int)
    ensures r * SecondsPerDay <= at - start < (r + 1) * SecondsPerDay
    ensures start <= at ==> r >= 0
  {
    (at - start) / SecondsPerDay
  }

  /** The day offset of every observation from the first one. */
  function Offsets(sorted: seq<Observation>): (days: seq<int>)
    requires |sorted| > 0
    ensures |days| == |sorted|
    ensures forall i :: 0 <= i < |sorted| ==> days[i] == DayOffset(sorted[0].scrapedAt, sorted[i].scrapedAt)
  {
    seq(|sorted|, i requires 0 <= i < |sorted| => DayOffset(sorted[0].scrapedAt, sorted[i].scrapedAt))
  }

  function Prices(sorted: seq<Observation>): (prices: seq<real>)
    ensures |prices| == |sorted|
    ensures forall i :: 0 <= i < |sorted| ==> prices[i] == sorted[i].priceInr
  {
    seq(|sorted|, i requires 0 <= i < |sorted| => sorted[i].priceInr)
  }

  /** In chronological order the offsets start at 0 and never decrease. */
  lemma OffsetsFromStart(sorted: seq<Observation>)
    requires |sorted| > 0 && SortedBy(sorted, ScrapedAt)
    ensures Offsets(sorted)[0] == 0
    ensures forall i, j :: 0 <= i <= j < |sorted| ==> 0 <= Offsets(sorted)[i] <= Offsets(sorted)[j]
  {
    var days := Offsets(sorted);
    var t0 := sorted[0].scrapedAt;
    forall i, j | 0 <= i <= j < |sorted| ensures 0 <= days[i] <= days[j] {
      assert ScrapedAt(sorted[0]) <= ScrapedAt(sorted[i]) <= ScrapedAt(sorted[j]);
      DivMonotone(sorted[i].scrapedAt - t0, sorted[j].scrapedAt - t0);
    }
  }

  lemma DivMonotone(a: int, b: int)
    requires 0 <= a <= b
    ensures 0 <= a / SecondsPerDay <= b / SecondsPerDay
  {
  }

  function AsReals(xs: seq<int>): (r: seq<real>)
    ensures |r| == |xs|
    ensures forall i :: 0 <= i < |xs| ==> r[i] == xs[i] as real
  {
    seq(|xs|, i requires 0 <= i < |xs| => xs[i] as real)
  }

  /** `sum((x[i] - mx) * (y[i] - my))`, the numerator of the least-squares slope. */
  function CrossDeviations(xs: seq<real>, ys: seq<real>, mx: real, my: real): real
    requires |xs| == |ys|
  {
    Dot(Deviations(xs, mx), Deviations(ys, my))
  }

  lemma CrossDeviationsFlat(xs: seq<real>, ys: seq<real>, mx: real, c: real)
    requires |xs| == |ys|
    requires forall i :: 0 <= i < |ys| ==> ys[i] == c
    ensures CrossDeviations(xs, ys, mx, c) == 0.0
  {
    DotZeroRight(Deviations(xs, mx), Deviations(ys, c));
  }

  /**
   * When every `y` deviates from its mean `a` times as much as the matching
   * `x`, the cross deviations are `a` times the squared deviations of `x`.
   */
  lemma CrossDeviationsScaled(xs: seq<real>, ys: seq<real>, mx: real, my: real, a: real)
    requires |xs| == |ys|
    requires forall i :: 0 <= i < |xs| ==> ys[i] - my == a * (xs[i] - mx)
    ensures CrossDeviations(xs, ys, mx, my) == a * SquaredDeviations(xs, mx)
  {
    DotScaled(Deviations(xs, mx), Deviations(ys, my), a);
  }

  predicate AllEqual(xs: seq<int>) {
    forall i, j :: 0 <= i < |xs| && 0 <= j < |xs| ==> xs[i] == xs[j]
  }

  /** Least squares of `ys` over `xs`; no line when the `xs` do not vary (`den == 0`). */
  function FitLine(xs: seq<int>, ys: seq<real>): (r: Option<Line>)
    requires |xs| == |ys| > 0
    ensures r.None? <==> SquaredDeviations(AsReals(xs), Mean(AsReals(xs))) == 0.0
    ensures r.Some? ==> LeastSquares(r.value, AsReals(xs), ys)
  {
    var x := AsReals(xs);
    var mx, my := Mean(x), Mean(ys);
    var num := CrossDeviations(x, ys, mx, my);
    var den := SquaredDeviations(x, mx);
    if den == 0.0 then None else Some(LineThrough(num, den, mx, my))
  }

  /**
   * `line` is the least-squares line of `ys` over `x`: its slope is the cross
   * deviations over the squared deviations, and it passes through the means.
   */
  ghost predicate LeastSquares(line: Line, x: seq<real>, ys: seq<real>)
    requires |x| == |ys| > 0
  {
    var mx, my := Mean(x), Mean(ys);
    var den := SquaredDeviations(x, mx);
    den != 0.0
    && line.slope == CrossDeviations(x, ys, mx, my) / den
    && line.slope * mx + line.intercept == my
  }

  /** The line of slope `num / den` through the point `(mx, my)`. */
  function LineThrough(num: real, den: real, mx: real, my: real): (l: Line)
    requires den != 0.0
    ensures l.slope == num / den && l.intercept == my - l.slope * mx
  {
    Line(num / den, my - num / den * mx)
  }

  /** The height of `line` at day `x`. */
  function ValueAt(line: Line, x: real): real {
    line.slope * x + line.intercept
  }

  /** Points lying exactly on a line that spans more than one day fit that very line. */
  lemma ExactLineRecovered(xs: seq<int>, ys: seq<real>, a: real, b: real)
    requires |xs| == |ys| > 0 && !AllEqual(xs)
    requires forall i :: 0 <= i < |xs| ==> ys[i] == a * xs[i] as real + b
    ensures FitLine(xs, ys) == Some(Line(a, b))
  {
    var x := AsReals(xs);
    var mx, my := Mean(x), Mean(ys);
    var den := SquaredDeviations(x, mx);
    assert my == a * mx + b by {
      MeanAffine(x, ys, a, b);
    }
    assert CrossDeviations(x, ys, mx, my) == a * den by {
      assert forall i :: 0 <= i < |x| ==> ys[i] - my == a * (x[i] - mx);
      CrossDeviationsScaled(x, ys, mx, my, a);
    }
    assert den != 0.0 by {
      NoVarianceIffAllEqual(xs);
    }
    QuotientOf(CrossDeviations(x, ys, mx, my), den, a);
    var line := FitLine(xs, ys).value;
    assert LeastSquares(line, x, ys);
    assert line.slope == a;
    assert line.slope * mx == a * mx;
    assert line.intercept == b;
  }

  /** The offset variance is zero exactly when every offset is the same. */
  lemma NoVarianceIffAllEqual(xs: seq<int>)
    requires |xs| > 0
    ensures SquaredDeviations(AsReals(xs), Mean(AsReals(xs))) == 0.0 <==> AllEqual(xs)
  {
    var x := AsReals(xs);
    if AllEqual(xs) {
      assert forall i :: 0 <= i < |x| ==> x[i] == xs[0] as real;
      MeanConstant(x, xs[0] as real);
      SquaredDeviationsConstant(x, xs[0] as real);
    }
    if SquaredDeviations(x, Mean(x)) == 0.0 {
      SquaredDeviationsZero(x, Mean(x));
      assert forall i :: 0 <= i < |xs| ==> xs[i] as real == Mean(x);
    }
  }

  /** The trend label of a rounded percentage change. */
  function Classify(changePct: real): (t: Trend)
    ensures t == Upward <==> changePct > 1.5
    ensures t == Downward <==> changePct < -1.5
    ensures t == Stable <==> -1.5 <= changePct <= 1.5
  {
    if changePct > 1.5 then Upward
    else if changePct < -1.5 then Downward
    else Stable
  }

  /** `min(40 + n * 5, 95)`. */
  function Confidence(n: int): int {
    if 40 + n * 5 < 95 then 40 + n * 5 else 95
  }

  /** Confidence grows with the number of points, from 55 at three points to the cap of 95 at eleven. */
  lemma ConfidenceBounds(n: int, m: int)
    requires MinimumPoints <= n <= m
    ensures 55 <= Confidence(n) <= Confidence(m) <= 95
    ensures n >= 11 ==> Confidence(n) == 95
    ensures n < 11 ==> Confidence(n) < 95
  {
  }

  /**
   * Lines 44-78 of `predict_next_week`: fit the series, evaluate the line a
   * week after the last offset, compare with the latest price.
   */
  function Extrapolate(days: seq<int>, prices: seq<real>): (r: Option<Prediction>)
    requires |days| == |prices| > 0
    ensures r.None? <==> FitLine(days, prices).None? || prices[|prices| - 1] == 0.0
    ensures r.Some? ==> r.value.trend == Classify(r.value.changePct)
    ensures r.Some? ==> r.value.confidence == Confidence(|days|)
    ensures r.Some? ==>
      var future := (days[|days| - 1] + HorizonDays) as real;
      var current := prices[|prices| - 1];
      FitLine(days, prices).Some?
      && r.value.predictedPrice == Round2(ValueAt(FitLine(days, prices).value, future))
      && r.value.changePct == Round2((ValueAt(FitLine(days, prices).value, future) - current) / current * 100.0)
  {
    match FitLine(days, prices)
    case None => None
    case Some(line) =>
      var predicted := ValueAt(line, (days[|days| - 1] + HorizonDays) as real);
      var current := prices[|prices| - 1];
      if current == 0.0 then None
      else
        var change := Round2((predicted - current) / current * 100.0);
        Some(Prediction(Classify(change), change, Round2(predicted), Confidence(|days|)))
  }

  /** The result `predict_next_week(history)` returns. */
  function Forecast(history: seq<Observation>): (r: Option<Prediction>)
    ensures |history| < MinimumPoints ==> r == None
    ensures r.Some? ==> 55 <= r.value.confidence <= 95
    ensures r.Some? ==> r.value.confidence == Confidence(|history|)
    ensures r.Some? ==> r.value.trend == Classify(r.value.changePct)
    ensures r.Some? ==>
      var sorted := Chronological(history);
      var future := (DayOffset(sorted[0].scrapedAt, Latest(history).scrapedAt) + HorizonDays) as real;
      var current := Latest(history).priceInr;
      var line := FitLine(Offsets(sorted), Prices(sorted));
      line.Some? && current != 0.0
      && r.value.predictedPrice == Round2(ValueAt(line.value, future))
      && r.value.changePct == Round2((ValueAt(line.value, future) - current) / current * 100.0)
  {
    if |history| < MinimumPoints then None
    else
      var sorted := Chronological(history);
      LatestIsLastPoint(history);
      Extrapolate(Offsets(sorted), Prices(sorted))
  }

  /** The last point of the fitted series is the latest observation. */
  lemma LatestIsLastPoint(history: seq<Observation>)
    requires |history| > 0
    ensures var sorted := Chronological(history);
      Offsets(sorted)[|history| - 1] == DayOffset(sorted[0].scrapedAt, Latest(history).scrapedAt)
      && Prices(sorted)[|history| - 1] == Latest(history).priceInr
  {
  }

  /** `predict_next_week`: the day-offset loop, then the fit and the metrics. */
  method PredictNextWeek(history: seq<Observation>) returns (r: Option<Prediction>)
    ensures r == Forecast(history)
  {
    if |history| < MinimumPoints {
      return None;
    }
    var sorted := Chronological(history);
    var start := sorted[0].scrapedAt;
    var days: seq<int> := [];
    var prices: seq<real> := [];
    for i := 0 to |sorted|
      invariant |days| == |prices| == i
      invariant forall k :: 0 <= k < i ==> days[k] == DayOffset(start, sorted[k].scrapedAt)
      invariant forall k :: 0 <= k < i ==> prices[k] == sorted[k].priceInr
    {
      days := days + [DayOffset(start, sorted[i].scrapedAt)];
      prices := prices + [sorted[i].priceInr];
    }
    assert days == Offsets(sorted) && prices == Prices(sorted);
    r := Extrapolate(days, prices);
  }

  /** All timestamps lie less than one day apart. */
  predicate WithinOneDay(history: seq<Observation>) {
    forall i, j :: 0 <= i < |history| && 0 <= j < |history| ==> history[i].scrapedAt - history[j].scrapedAt < SecondsPerDay
  }

  /** Same-day histories have every day offset equal to 0, and only they do. */
  lemma SameDayIffEqualOffsets(history: seq<Observation>)
    requires |history| > 0
    ensures WithinOneDay(history) <==> AllEqual(Offsets(Chronological(history)))
  {
    var sorted := Chronological(history);
    var days := Offsets(sorted);
    var t0 := sorted[0].scrapedAt;
    OffsetsFromStart(sorted);
    SortByMembers(history, ScrapedAt);
    if WithinOneDay(history) {
      forall i | 0 <= i < |sorted| ensures days[i] == 0 {
        assert sorted[i] in history && sorted[0] in history;
        var a :| 0 <= a < |history| && history[a] == sorted[i];
        var b :| 0 <= b < |history| && history[b] == sorted[0];
        assert ScrapedAt(sorted[0]) <= ScrapedAt(sorted[i]);
      }
    }
    if AllEqual(days) {
      forall i, j | 0 <= i < |history| && 0 <= j < |history|
        ensures history[i].scrapedAt - history[j].scrapedAt < SecondsPerDay
      {
        assert history[i] in sorted && history[j] in sorted;
        var a :| 0 <= a < |sorted| && sorted[a] == history[i];
        var b :| 0 <= b < |sorted| && sorted[b] == history[j];
        assert days[a] == days[0] == 0;
        assert ScrapedAt(sorted[0]) <= ScrapedAt(sorted[b]);
      }
    }
  }

  /** The observation with the latest timestamp: the last of the chronological order. */
  function Latest(history: seq<Observation>): (r: Observation)
    requires |history| > 0
    ensures r in history
    ensures forall o :: o in history ==> o.scrapedAt <= r.scrapedAt
  {
    var sorted := Chronological(history);
    SortByMembers(history, ScrapedAt);
    assert forall o :: o in history ==> o in sorted;
    assert forall i :: 0 <= i < |sorted| ==> ScrapedAt(sorted[i]) <= ScrapedAt(sorted[|sorted| - 1]);
    sorted[|history| - 1]
  }

  /**
   * Among observations sharing the latest timestamp, `Latest` is the one
   * that comes last in the history, since the sort keeps equal timestamps
   * in their original order.
   */
  lemma LatestIsLastOfItsTime(history: seq<Observation>)
    requires |history| > 0
    ensures var run := KeyRun(history, ScrapedAt, Latest(history).scrapedAt);
      |run| > 0 && run[|run| - 1] == Latest(history)
  {
    var sorted := Chronological(history);
    SortByStable(history, ScrapedAt, Latest(history).scrapedAt);
    assert sorted[|sorted| - 1] == Latest(history);
  }

  /**
   * No forecast exactly when there are fewer than three points, when every
   * point falls on the same day, or when the latest price is 0 (the division
   * that raises).
   */
  lemma NoForecastIff(history: seq<Observation>)
    ensures Forecast(history).None? <==>
      |history| < MinimumPoints || WithinOneDay(history) || Latest(history).priceInr == 0.0
  {
    if |history| >= MinimumPoints {
      var sorted := Chronological(history);
      var days := Offsets(sorted);
      SameDayIffEqualOffsets(history);
      NoVarianceIffAllEqual(days);
    }
  }

  /** Constant prices fit a horizontal line through that price. */
  lemma FlatFit(days: seq<int>, prices: seq<real>, c: real)
    requires |days| == |prices| > 0 && !AllEqual(days)
    requires forall i :: 0 <= i < |prices| ==> prices[i] == c
    ensures FitLine(days, prices) == Some(Line(0.0, c))
  {
    NoVarianceIffAllEqual(days);
    MeanConstant(prices, c);
    var x := AsReals(days);
    CrossDeviationsFlat(x, prices, Mean(x), c);
  }

  /**
   * Prices that never change, observed over more than one day, forecast a
   * flat line: change 0, trend "Stable", predicted price the constant itself.
   */
  lemma FlatPricesForecastStable(history: seq<Observation>, c: real)
    requires |history| >= MinimumPoints && !WithinOneDay(history) && c != 0.0
    requires forall i :: 0 <= i < |history| ==> history[i].priceInr == c
    ensures Forecast(history) == Some(Prediction(Stable, 0.0, Round2(c), Confidence(|history|)))
  {
    var sorted := Chronological(history);
    var days, prices := Offsets(sorted), Prices(sorted);
    SameDayIffEqualOffsets(history);
    SortByMembers(history, ScrapedAt);
    forall i | 0 <= i < |prices| ensures prices[i] == c {
      assert sorted[i] in history;
    }
    FlatFit(days, prices, c);
    var predicted := 0.0 * (days[|days| - 1] + HorizonDays) as real + c;
    assert predicted == c;
    assert (predicted - c) / c * 100.0 == 0.0;
    Round2Exact(0);
  }
}
