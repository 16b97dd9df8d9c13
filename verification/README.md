# PriceAtlas core, modelled in Dafny

PriceAtlas is a price-comparison backend. It scrapes a retail price from
Amazon India. It scrapes wholesale leads from TradeIndia, IndiaMART and a
site-restricted search engine. It stores prices, converts currencies through
a cached rate table, and analyses price histories with a 0-100 deal score, a
volatility index and a seven-day linear-trend forecast.

The project models these pieces, one Dafny module per source file:

| module | file | source |
|---|---|---|
| `Scorer` | `scorer.dfy` | `backend/modules/analytics/scorer.py` |
| `Forecaster` | `forecaster.dfy` | `backend/modules/ml/forecaster.py` |
| `Forex` | `forex.dfy` | `backend/modules/analytics/forex_engine.py` |
| `AmazonScraper` | `amazon.dfy` | `backend/modules/scraper/engine.py` |
| `B2B` | `b2b.dfy` | `backend/modules/scraper/b2b_engine.py` |
| `Database` | `db.dfy` | `backend/modules/services/db_manager.py` |
| `Pipeline` | `pipeline.dfy` | handing a scraped Amazon record to the save |

Shared pieces sit in `wrappers.dfy` (`Option`), `text.dfy` (the Python string
operations used), `numeric.dfy` (sum, mean, min, max, `int()`, `round(x, 2)`,
squared deviations) and `sorting.dfy` (a stable sort by key).

Each file keeps the form of its source:

- **Pure code is written as functions and lemmas.** This covers the deal score, the volatility index and the regression arithmetic.
- **Stepwise code is written as methods.** Each method is proved equal to a specification function, and the properties are proved about that function:
  - the forecaster's day-offset loop;
  - the Amazon retry loop and card scan;
  - the B2B card loops and the aggregation.
- **State updated in place is written as classes:**
  - the forex singleton, with its rate table and last-update time;
  - the database, with its product and price tables.

Effects outside the program are inputs:

- the network, as a function from the request to the parsed answer, or to `Raised`;
- the clock, as `now` in integer seconds;
- the database faults, as a `Fault` value;
- the square root under `statistics.stdev`, as a function parameter that satisfies `IsSquareRoot`.

## Model

| member | source | states |
|---|---|---|
| Numeric.Trunc | backend/modules/analytics/scorer.py:32 | `int(x)` truncates toward zero: the result lies between 0 and x, less than 1 away from x, and equals the floor for x >= 0 |
| Numeric.Round2 | backend/modules/analytics/scorer.py:63 | `round(x, 2)` is a whole number of cents, within 0.005 of x |
| Numeric.Round2Monotone | backend/modules/ml/forecaster.py:62 | rounding to cents never reverses the order of two values |
| Numeric.MinOf | backend/modules/analytics/scorer.py:19 | `min` is an element of the list and no element is smaller |
| Numeric.MaxOf | backend/modules/analytics/scorer.py:20 | `max` is an element of the list and no element is larger |
| Numeric.SumAffine | backend/modules/ml/forecaster.py:45-46 | `sum` commutes with an affine map: the sum of a*x + b is a * sum(x) + n * b |
| Numeric.MeanAffine | backend/modules/ml/forecaster.py:45-46 | `statistics.mean` of a*x + b is a * mean(x) + b |
| Numeric.Deviations | backend/modules/ml/forecaster.py:48-49 | the deviation list holds x[i] - m at every index, one per element |
| Numeric.DotScaled | backend/modules/ml/forecaster.py:48-49 | when every v[i] is a * u[i], the sum of u[i] * v[i] is a times the sum of u[i] squared |
| Numeric.DotSelfZero | backend/modules/ml/forecaster.py:49 | a list whose squares sum to zero is all zeros |
| Numeric.SquaredDeviations | backend/modules/ml/forecaster.py:49 | the sum of `(x[i] - m) ** 2` is never negative |
| Numeric.SquaredDeviationsZero | backend/modules/ml/forecaster.py:49 | squared deviations from m sum to zero only when every element equals m |
| Numeric.SquaredDeviationsConstant | backend/modules/ml/forecaster.py:49 | a list that equals m throughout has squared deviations 0 from m |
| Sorting.SortBy | backend/modules/ml/forecaster.py:24 | `sorted(key=...)` returns a permutation of its input, ordered by the key |
| Sorting.SortByMembers | backend/modules/ml/forecaster.py:24 | the sorted list has exactly the elements of its input |
| Sorting.KeyRun | backend/modules/ml/forecaster.py:24 | the elements that share one key, in their order: each is an element of the input with that key |
| Sorting.SortByStable | backend/modules/ml/forecaster.py:24 | the sort is stable: for every key, the elements with that key appear in the sorted list in their input order |
| Text.Strip | backend/modules/scraper/engine.py:71 | `strip()`: the result is the slice of the text that starts after its leading whitespace. Only whitespace follows it, and neither of its ends is whitespace. Text with no whitespace at either end comes back unchanged |
| Text.Replace | backend/modules/scraper/engine.py:21 | `replace(a, b)` on characters: same length, every `a` becomes `b`, every other character is kept in place |
| Text.Before | backend/modules/services/db_manager.py:28 | `split(' ')[0]` is the longest prefix without the separator: it is followed by the separator or by the end of the text |
| Text.ContainsIff | backend/modules/scraper/engine.py:39 | Python's `w in s` holds exactly when `w` occurs in `s` at some position |
| Text.Delete | backend/modules/scraper/engine.py:75 | `replace(c, '')` leaves no `c`, keeps the count of every other character, and maps a one-character text to itself or to nothing |
| Text.DeleteAppend | backend/modules/scraper/engine.py:75 | deleting from a concatenation deletes from each part, in place; with the one-character case this fixes the order of what is kept |
| Text.ParseNumber | backend/modules/scraper/engine.py:75 | `float` of a plain numeral: accepted exactly when the stripped text is a run of digits, with or without one leading '+' or '-'; any other text raises (None). It states the value for each of the three forms |
| Text.PaddingIgnored | backend/modules/scraper/engine.py:75 | whitespace around a numeral does not change its value |
| Text.SignRead | backend/modules/scraper/engine.py:75 | a sign followed by digits is accepted; '+' reads as no sign, and '-' negates the digits' value |
| Text.LowerChar | backend/modules/scraper/b2b_engine.py:129 | one character lower-cased: a capital becomes the matching small letter and every other character is kept |
| Text.Lower | backend/modules/scraper/b2b_engine.py:129 | `lower()` maps every character through `LowerChar` in place: no upper-case letter is left and nothing else changes |
| Text.LowerIdempotent | backend/modules/scraper/b2b_engine.py:129 | lower-casing twice equals lower-casing once |
| Scorer.ValidPrices | backend/modules/analytics/scorer.py:14 | the kept prices are exactly the present, non-zero prices of the history |
| Scorer.Tier | backend/modules/analytics/scorer.py:35-42 | each verdict holds exactly on its score band: >= 85 Great Deal, [60, 85) Good Price, [40, 60) Fair Price, < 40 Overpriced (`Label` gives each verdict's text) |
| Scorer.Clamp | backend/modules/analytics/scorer.py:32 | the clamped score lies in [0, 100]: 100 from a raw score of 100 up, 0 below 1, and the floor in between |
| Scorer.ClampMonotone | backend/modules/analytics/scorer.py:32 | clamping preserves order |
| Scorer.PriceScore | backend/modules/analytics/scorer.py:10-44 | the score lies in [0, 100]. Fewer than two records give (50, Not enough data), no valid price (50, No valid prices), max == min (50, Stable Price). Otherwise the score is the clamp of (max - current) / (max - min) * 100 and the verdict its tier |
| Scorer.StableWhateverCurrent | backend/modules/analytics/scorer.py:24-25 | when max == min the result is (50, Stable Price) for every current price |
| Scorer.RawScoreFacts | backend/modules/analytics/scorer.py:28-29 | the raw ratio is at least 100 at or below the minimum and at most 0 at or above the maximum |
| Scorer.RawScoreMonotone | backend/modules/analytics/scorer.py:29 | the raw ratio falls as the current price rises |
| Scorer.AtOrBelowMinimumScoresHundred | backend/modules/analytics/scorer.py:28-36 | a current price at or below the historical minimum scores (100, Great Deal) |
| Scorer.AtOrAboveMaximumScoresZero | backend/modules/analytics/scorer.py:29-42 | a current price at or above the historical maximum scores (0, Overpriced) |
| Scorer.ScoreNonIncreasing | backend/modules/analytics/scorer.py:29-32 | for a fixed history, a higher current price never scores higher |
| Scorer.SquareRootMonotone | backend/modules/analytics/scorer.py:59 | the square root preserves order |
| Scorer.SampleVariance | backend/modules/analytics/scorer.py:59 | the variance under `stdev` is never negative |
| Scorer.PricesOrZero | backend/modules/analytics/scorer.py:57 | a missing price key reads as 0 and a number as itself, one per record. There is no list exactly when some price is an explicit null |
| Scorer.VolatilityIndex | backend/modules/analytics/scorer.py:61-63 | the index lies in [0, 100]; it is 0 when the average is not positive and 100 when the deviation reaches the average; otherwise it is `round(stdev / avg * 100, 2)`, within 0.005 of the ratio |
| Scorer.Volatility | backend/modules/analytics/scorer.py:53-65 | volatility lies in [0, 100]. It is 0 for fewer than two records, and 0 when a null price makes `stdev` raise. Otherwise it is the index of the sample deviation and the mean of the prices read |
| Scorer.IndexOfZero | backend/modules/analytics/scorer.py:62-63 | zero deviation gives index 0 |
| Scorer.IndexMonotone | backend/modules/analytics/scorer.py:62-63 | for a fixed average, the index grows with the deviation |
| Scorer.ConstantPrices | backend/modules/analytics/scorer.py:57 | a history at one price c reads as a list of c's |
| Scorer.ConstantHistoryNotVolatile | backend/modules/analytics/scorer.py:57-63 | a constant-price history has volatility 0 |
| Scorer.VolatilityGrowsWithDispersion | backend/modules/analytics/scorer.py:59-63 | with equal positive means, the history with the larger variance is at least as volatile |
| Forecaster.Chronological | backend/modules/ml/forecaster.py:24 | the sorted history is a permutation of the input, in ascending `scraped_at` order |
| Forecaster.DayOffset | backend/modules/ml/forecaster.py:39 | `.days` of the difference: the whole days elapsed, rounded down, never negative for a later time |
| Forecaster.Offsets | backend/modules/ml/forecaster.py:27-40 | one day offset per observation, measured from the first observation |
| Forecaster.Prices | backend/modules/ml/forecaster.py:41 | one price per observation, in the same order |
| Forecaster.OffsetsFromStart | backend/modules/ml/forecaster.py:27-40 | in chronological order the day offsets start at 0, are never negative and never decrease |
| Forecaster.DivMonotone | backend/modules/ml/forecaster.py:39 | whole-day division preserves order and sign |
| Forecaster.AsReals | backend/modules/ml/forecaster.py:45 | the offsets become reals element by element |
| Forecaster.CrossDeviationsFlat | backend/modules/ml/forecaster.py:48 | against constant prices, the slope numerator `num` is 0 |
| Forecaster.CrossDeviationsScaled | backend/modules/ml/forecaster.py:48-49 | when every price deviates from its mean a times as much as its day, `num` is a times `den` |
| Forecaster.FitLine | backend/modules/ml/forecaster.py:44-54 | there is no line exactly when `den` is 0. A fitted line has slope `num / den` (the cross deviations over the squared deviations) and passes through (mean x, mean y) |
| Forecaster.LineThrough | backend/modules/ml/forecaster.py:53-54 | the line of slope num / den whose intercept puts it through (mx, my) |
| Forecaster.ExactLineRecovered | backend/modules/ml/forecaster.py:44-54 | points lying exactly on the line a*x + b, over more than one day, fit exactly that line |
| Forecaster.NoVarianceIffAllEqual | backend/modules/ml/forecaster.py:49-51 | `den` is 0 exactly when all day offsets are equal |
| Forecaster.Classify | backend/modules/ml/forecaster.py:64-67 | Upward iff change > 1.5, Downward iff change < -1.5, Stable otherwise |
| Forecaster.ConfidenceBounds | backend/modules/ml/forecaster.py:71 | for n >= 3 the confidence `Confidence(n)` = `min(40 + 5n, 95)` lies in [55, 95], grows with n, and is 95 exactly from n = 11 |
| Forecaster.Extrapolate | backend/modules/ml/forecaster.py:53-82 | no prediction exactly when no line fits or the latest price is 0 (the division that raises). Otherwise the predicted price is the fitted line at the last day + 7, rounded to cents; the change is the rounded percentage from the latest price; the trend is its class; the confidence is `min(40 + 5n, 95)` |
| Forecaster.Forecast | backend/modules/ml/forecaster.py:18-82 | fewer than 3 points give None. A prediction is the fitted line of the chronological offsets and prices, evaluated 7 days after the latest observation and compared with its price; its confidence is exactly `Confidence(n)` = min(40 + 5n, 95) for n observations, which lies in [55, 95] |
| Forecaster.LatestIsLastPoint | backend/modules/ml/forecaster.py:57-59 | the series' last day offset and last price are those of the latest observation |
| Forecaster.PredictNextWeek | backend/modules/ml/forecaster.py:12-82 | the day-offset and price loop followed by the fit returns exactly `Forecast(history)` |
| Forecaster.SameDayIffEqualOffsets | backend/modules/ml/forecaster.py:39-51 | every day offset is equal exactly when all timestamps lie within one day of each other |
| Forecaster.Latest | backend/modules/ml/forecaster.py:24-59 | the last point of the sorted history is an observation of the history with the greatest timestamp |
| Forecaster.LatestIsLastOfItsTime | backend/modules/ml/forecaster.py:24-59 | among observations sharing the greatest timestamp, the last point is the one that comes last in the input |
| Forecaster.NoForecastIff | backend/modules/ml/forecaster.py:18-19 | None exactly when there are fewer than 3 points, all points fall within one day, or the latest price is 0 |
| Forecaster.FlatFit | backend/modules/ml/forecaster.py:48-54 | constant prices over differing days fit slope 0 through the constant |
| Forecaster.FlatPricesForecastStable | backend/modules/ml/forecaster.py:48-76 | constant non-zero prices over differing days predict change 0, trend Stable, the constant as the price, and `min(40 + 5n, 95)` as the confidence |
| Forex.Get | backend/modules/analytics/forex_engine.py:61-62 | `dict.get` gives the entry, or the default when the key is absent |
| Forex.Refresh | backend/modules/analytics/forex_engine.py:29-49 | status 200 installs the reply's table (or an empty one) and stamps now. Non-200 installs {INR 83.5, USD 1.0, EUR 0.92}. An exception installs {INR 83.5, USD 1.0}. Both failures keep the old stamp |
| Forex.SuccessfulRefreshLastsADay | backend/modules/analytics/forex_engine.py:18-27 | after a successful refresh at `now`, a construction (`Construct`) at t refreshes again iff the table received is empty or t - now > 86400 (`Stale`) |
| Forex.FailedRefreshKeepsStaleness | backend/modules/analytics/forex_engine.py:44-49 | a failed refresh leaves staleness as it was and leaves a non-empty table |
| Forex.FreshTableKept | backend/modules/analytics/forex_engine.py:18-21 | a non-empty table refreshed at most 86400 s ago is left unchanged by construction |
| Forex.ConstructedTableNonEmpty | backend/modules/analytics/forex_engine.py:18-21 | after construction the table is empty only if the service itself sent an empty table |
| Forex.ViaDollar | backend/modules/analytics/forex_engine.py:61-65 | a conversion through the dollar is whole cents, within 0.005 of amount / rate(from) * rate(INR) |
| Forex.ScaleMonotone | backend/modules/analytics/forex_engine.py:64-65 | dividing by a positive rate and multiplying by a non-negative rate preserve order |
| Forex.ViaDollarMonotone | backend/modules/analytics/forex_engine.py:64-65 | with positive rates, a larger amount never gives fewer rupees |
| Forex.Convert | backend/modules/analytics/forex_engine.py:51-68 | INR amounts come back unchanged and unrounded. Other currencies go through the dollar, with rate defaults 1.0 and 83.5. A zero rate takes the fallback: `round(amount * 83.5, 2)` for USD, the amount itself otherwise |
| Forex.ConvertMonotone | backend/modules/analytics/forex_engine.py:61-65 | with a positive source rate and a non-negative INR rate, conversion preserves order |
| Forex.FallbackConversions | backend/modules/analytics/forex_engine.py:46-65 | both fallback tables price USD at 83.5. EUR converts at 83.5 / 0.92 after a non-200 reply, and at 83.5 after an exception |
| Forex.ForexEngine.Allocate | backend/modules/analytics/forex_engine.py:5-7 | a new engine starts with an empty table and no stamp |
| Forex.ForexEngine.UpdateRates | backend/modules/analytics/forex_engine.py:29-49 | the new state is `Refresh` of the old state |
| Forex.ForexEngine.Init | backend/modules/analytics/forex_engine.py:18-21 | the state is refreshed when the table is empty or stale (`IsCacheStale`, lines 23-27) and is unchanged otherwise |
| Forex.ForexEngine.ConvertToInr | backend/modules/analytics/forex_engine.py:51-68 | the conversion uses the engine's current table: INR comes back as given, and a currency with a non-zero entry goes through the dollar at the table's INR rate (83.5 when absent) |
| Forex.ForexEngine.GetCurrentRate | backend/modules/analytics/forex_engine.py:70-72 | the table's entry for the currency, or 1.0 when absent; the currency defaults to USD; reads only |
| Forex.ForexRegistry.constructor | backend/modules/analytics/forex_engine.py:5 | no instance exists at first |
| Forex.ForexRegistry.Obtain | backend/modules/analytics/forex_engine.py:9-21 | the first construction allocates the one instance and later ones return it, each running the refresh-if-needed step on it |
| AmazonScraper.HeaderList | backend/modules/scraper/engine.py:10-19 | attempt 0 uses the fixed desktop agent and attempt 1 the random agent, both with the same Accept-Language |
| AmazonScraper.SearchUrl | backend/modules/scraper/engine.py:21 | the URL is "https://www.amazon.in/s?k=" followed by the query, character for character, with every space replaced by '+' |
| AmazonScraper.Candidates | backend/modules/scraper/engine.py:44-50 | organic results when there are any, sponsored results otherwise |
| AmazonScraper.FirstPriced | backend/modules/scraper/engine.py:56-62 | the index of the first card with a price span; None when no card has one |
| AmazonScraper.FirstPricedUnique | backend/modules/scraper/engine.py:56-62 | any index that is priced and has no priced card before it is `FirstPriced` |
| AmazonScraper.FindPricedCard | backend/modules/scraper/engine.py:57-62 | the scan that breaks at the first priced card returns `FirstPriced` |
| AmazonScraper.Title | backend/modules/scraper/engine.py:70-71 | "Unknown Product" without a heading, else the heading stripped |
| AmazonScraper.NormalizePrice | backend/modules/scraper/engine.py:75 | removes every ',' and '.', keeps all other characters, and leaves text without them unchanged |
| AmazonScraper.NormalizeAppend | backend/modules/scraper/engine.py:75 | normalising a concatenation normalises each part in place |
| AmazonScraper.Price | backend/modules/scraper/engine.py:75 | every price read is a whole number, and a span of digits alone reads as its decimal value |
| AmazonScraper.SeparatorIgnored | backend/modules/scraper/engine.py:75 | inserting one ',' or '.' anywhere in the span never changes the price read |
| AmazonScraper.ImageUrl | backend/modules/scraper/engine.py:78-86 | "" without an image tag. No `src` raises. A non-empty `src` without "grey-pixel" is kept. An empty or grey-pixel `src` is replaced by the first space-separated entry of a non-empty `srcset`, and kept when there is none |
| AmazonScraper.LinkUrl | backend/modules/scraper/engine.py:89-90 | "" without an anchor. A missing `href` raises. Otherwise the result is "https://amazon.in" followed by the href |
| AmazonScraper.ProductFrom | backend/modules/scraper/engine.py:68-103 | a product is built iff the price parses to a non-zero number and neither the image nor the link step raises; it then has that price, currency INR, source Amazon, the card's title, link and image |
| AmazonScraper.AttemptResult | backend/modules/scraper/engine.py:26-107 | an exception, a non-200 status or a blocked page (`Readable`: captcha in the text, robot check or no title) give nothing. A product comes from a priced card among the candidates |
| AmazonScraper.Search | backend/modules/scraper/engine.py:25-110 | the answer is the first attempt's product when it has one, else the second attempt's (`AttemptFetch`: the URL and that attempt's headers); None iff both attempts fail |
| AmazonScraper.TryAttempt | backend/modules/scraper/engine.py:26-107 | the body of one attempt, with each `continue` as an early None, returns exactly `AttemptResult` of the answer |
| AmazonScraper.GetPriceAmazon | backend/modules/scraper/engine.py:7-110 | the retry loop, with its `continue`s, returns exactly `Search` |
| AmazonScraper.GroupedPriceExample | backend/modules/scraper/engine.py:75 | the span text "1,29,900." reads as 129900 |
| AmazonScraper.CaptchaPageYieldsNothing | backend/modules/scraper/engine.py:39-41 | a page mentioning a captcha yields nothing, whatever its cards |
| AmazonScraper.FirstPricedCardDecides | backend/modules/scraper/engine.py:56-66 | the attempt's outcome is that of the first priced card; later cards are never tried |
| B2B.Take | backend/modules/scraper/b2b_engine.py:138 | `xs[:n]` is a prefix of length at most n, and the whole list when it is short |
| B2B.Kept | backend/modules/scraper/b2b_engine.py:137-161 | the card loop yields at most one lead per card: one per card when every card is usable, none when no card is, and a single card's own lead or nothing |
| B2B.KeptAppend | backend/modules/scraper/b2b_engine.py:137-161 | a rejected card is skipped without ending the loop: the leads of a concatenation are those of each part, in order |
| B2B.KeptSplitsAt | backend/modules/scraper/b2b_engine.py:137-161 | the card at i contributes its own lead, if any, between the leads of the cards before and after it |
| B2B.KeptIncludes | backend/modules/scraper/b2b_engine.py:137-161 | every card that yields a lead has that lead in the result, whatever the cards before it |
| B2B.KeptFrom | backend/modules/scraper/b2b_engine.py:137-161 | every lead collected was built from one of the cards |
| B2B.CollectLeads | backend/modules/scraper/b2b_engine.py:98-122 | the append-or-continue loop returns exactly `Kept` |
| B2B.Absolute | backend/modules/scraper/b2b_engine.py:104-105 | a link starting with "http" is kept, any other gets the origin prefixed; an http origin makes every result start with "http" |
| B2B.AbsoluteIdempotent | backend/modules/scraper/b2b_engine.py:143-144 | making a link absolute twice equals making it absolute once |
| B2B.TextOr | backend/modules/scraper/b2b_engine.py:152-154 | a present tag gives its stripped text, a missing one the default |
| B2B.CityAt | backend/modules/scraper/b2b_engine.py:109 | the city the alternation tries first among those that match at a position: it occurs there, and no city listed before it does. None iff no listed city occurs there |
| B2B.CitiesExclusive | backend/modules/scraper/b2b_engine.py:109 | no two of the ten cities occur at the same position (their first letters differ), so the order of the alternation never decides the match |
| B2B.FindCityFrom | backend/modules/scraper/b2b_engine.py:109 | the leftmost position where any of the ten cities occurs, and which city; none before it |
| B2B.Address | backend/modules/scraper/b2b_engine.py:108-115 | the address is one of the ten cities, found in the text, or "India" when none occurs |
| B2B.OnlyCityIsAddress | backend/modules/scraper/b2b_engine.py:109-115 | the earliest city in the text is the address |
| B2B.TradeIndiaUrl | backend/modules/scraper/b2b_engine.py:91 | "https://www.tradeindia.com/search.html?keyword=" followed by the query with every space replaced by '+' |
| B2B.TradeIndiaLead | backend/modules/scraper/b2b_engine.py:100-121 | a lead exists iff the card has an anchor with an href whose raw text has at least 5 characters. Its title is that text stripped, its link absolute, its address the card's city, its seller the tag's text or Verified Supplier; price Check Quote, type B2B |
| B2B.TradeIndiaLeads | backend/modules/scraper/b2b_engine.py:92-124 | none when the request raises; otherwise the leads of the first 6 cards in order, each usable card's lead included |
| B2B.ScrapeTradeIndia | backend/modules/scraper/b2b_engine.py:89-124 | the scraper returns `TradeIndiaLeads` of the answer to the TradeIndia URL |
| B2B.IndiaMartUrl | backend/modules/scraper/b2b_engine.py:129 | "https://m.indiamart.com/impcat/", the query with each space turned into '-' and each letter lower-cased, then ".html" |
| B2B.IndiaMartLead | backend/modules/scraper/b2b_engine.py:139-161 | a lead exists iff the card has a title anchor with an href. Its title is the anchor's text stripped, its link absolute, its type B2B; price, seller and address are the tags' stripped text or Ask Price, Star Supplier and India; its image is the IndiaMART logo, its contact "Call Supplier" and its source IndiaMART |
| B2B.IndiaMartLeads | backend/modules/scraper/b2b_engine.py:130-163 | none on an exception or a non-200 status; otherwise the leads of the first 6 cards in order, each usable card's lead included |
| B2B.ScrapeIndiaMart | backend/modules/scraper/b2b_engine.py:127-163 | the scraper returns `IndiaMartLeads` of the answer to the IndiaMART URL |
| B2B.FallbackUrl | backend/modules/scraper/b2b_engine.py:63 | "https://html.duckduckgo.com/html/?q=site:", the site, '+', then the query with every space replaced by '+' |
| B2B.Placeholder | backend/modules/scraper/b2b_engine.py:72 | "https://loremflickr.com/320/240/" followed by the query with every space replaced by ',' |
| B2B.StripInside | backend/modules/scraper/b2b_engine.py:77 | stripping never adds a character |
| B2B.FallbackLead | backend/modules/scraper/b2b_engine.py:68-84 | a lead exists iff the result has a title anchor with an href. The title is the text stripped; the seller is the text before its first '-', stripped. The type is Wholesale, the image is the placeholder, and there is no contact |
| B2B.FallbackLeads | backend/modules/scraper/b2b_engine.py:60-86 | every result is examined and the first 5 leads are kept; nothing when the request raises |
| B2B.SearchEngineFallback | backend/modules/scraper/b2b_engine.py:58-86 | the fallback returns `FallbackLeads` of the answer to its search URL |
| B2B.ExportersUrl | backend/modules/scraper/b2b_engine.py:168 | "https://www.exportersindia.com/search.php?term=" followed by the query with every space replaced by '+' |
| B2B.ExportersLead | backend/modules/scraper/b2b_engine.py:175-190 | a lead exists iff the card has a title anchor with an href. The URL is that href and the title its text stripped. Price and seller are the tags' stripped text or Quote Only and Verified Exporter |
| B2B.ExportersLeads | backend/modules/scraper/b2b_engine.py:169-192 | none when the request raises; otherwise the leads of the first 4 cards in order, each usable card's lead included |
| B2B.ScrapeExportersIndia | backend/modules/scraper/b2b_engine.py:166-192 | the scraper returns `ExportersLeads` of the answer to the ExportersIndia URL |
| B2B.SearchB2B | backend/modules/scraper/b2b_engine.py:15-26 | TradeIndia leads followed by IndiaMART leads. Only when both are empty, the fallback's leads for indiamart.com. Never more than 12 leads |
| B2B.DirectLeadsAbsolute | backend/modules/scraper/b2b_engine.py:17-20 | every lead from the two direct scrapers has an absolute http link and type B2B |
| Database.FirstNamed | backend/modules/services/db_manager.py:17-22 | the first product row with exactly this name; None when there is none |
| Database.DeriveBrand | backend/modules/services/db_manager.py:26-28 | the given brand, unless it is missing or "Unknown". Then it is the title's first space-separated word: a prefix of the title without a space |
| Database.AddPrice | backend/modules/services/db_manager.py:40-48 | it succeeds iff price, source and url are present and the insert does not fail. Success appends exactly one price row for the product and returns its id. Failure leaves the tables unchanged |
| Database.Save | backend/modules/services/db_manager.py:7-52 | it adds at most one product row and at most one price row, and a failed save adds no price row. A raising lookup returns None and writes nothing, and so does a new title without an image or with a raising product insert. A product insert that returns no rows keeps the new product row and returns None |
| Database.NothingToSave | backend/modules/services/db_manager.py:12-17 | a falsy record, or one without a title, returns None and writes nothing |
| Database.ExistingProductReused | backend/modules/services/db_manager.py:17-52 | an existing name reuses the first matching id, and no product row is inserted. The save succeeds iff price, source and url are present and the price insert does not raise; success appends one price row. Any other outcome returns None with the tables unchanged |
| Database.NewProductInserted | backend/modules/services/db_manager.py:24-48 | a new name inserts exactly one product (`NewProduct`) with the derived brand, the category or General, and the image. Success returns its id |
| Database.NoRollback | backend/modules/services/db_manager.py:36-52 | a failure after the product insert returns None but keeps the new product row. The failure may be an insert that returns no rows, a missing price, source or url, or a raising price insert |
| Database.SavePreservesValid | backend/modules/services/db_manager.py:17-48 | ids stay distinct and below the counter, and every price row still references a product |
| Database.SavedTitleFound | backend/modules/services/db_manager.py:17-37 | after a successful save, looking the title up finds the returned id |
| Database.RowsOf | backend/modules/services/db_manager.py:58-60 | a product's history holds the (price, time) of each of its price rows and nothing else; a one-row table gives that row's reading or nothing |
| Database.RowsOfAppend | backend/modules/services/db_manager.py:58-60 | the history of a concatenated table is that of each part, in table order |
| Database.SaveExtendsHistory | backend/modules/services/db_manager.py:40-47 | a successful save adds one (price, now) observation to its product's history and none to any other |
| Database.DbManager.constructor | backend/modules/services/db_manager.py:3-5 | both tables start empty and consistent |
| Database.DbManager.SaveProduct | backend/modules/services/db_manager.py:7-52 | the new tables and the returned id are those of `Save`, and table consistency is kept |
| Database.DbManager.GetPriceHistory | backend/modules/services/db_manager.py:54-70 | exactly the product's (price, time) rows, newest first; empty when the query fails |
| Pipeline.AsWritten | backend/modules/scraper/engine.py:96-103 | the scraped record has no "title" key |
| Pipeline.WithTitle | backend/modules/scraper/engine.py:96-103 | the record with its name under "title" |
| Pipeline.AsWrittenNeverSaved | backend/modules/services/db_manager.py:17 | saving the scraped record as written never stores anything |
| Pipeline.WithTitleSaved | backend/modules/services/db_manager.py:17-48 | with the title key, a fault-free save stores the price under a product with the scraped name and returns its id |

## Left out

- Floating point: all arithmetic is on exact reals. `round(x, 2)` rounds the exact value half-to-even. Python rounds the nearest double, so results at exact halves can differ.
- Text.Strip and Text.Lower: only space, tab, line feed, carriage return, vertical tab and form feed count as whitespace, and only ASCII letters are lower-cased. Python's `strip()` also removes the separators 0x1C-0x1F and Unicode whitespace such as 0x85 and 0xA0, and `lower()` applies Unicode case mapping; neither is modelled.
- Text.ParseNumber: reads only an optional sign and digits. Python's `float` also accepts decimal points, exponents, underscores, `inf` and `nan`; for those forms the model reports a parse failure.
- BeautifulSoup's `get_text(strip=True)` strips each text fragment before joining them. Here it is `Strip` of the whole text.
- HTML parsing, CSS and regular-expression class matching are not modelled. Cards arrive already reduced to the fields each scraper reads.
- Network requests, timeouts, request headers for the B2B sources, `fake_useragent`, `time.sleep` and `print` are not modelled. The random user agent is a parameter of the Amazon scraper.
- AmazonScraper.GetPriceAmazon: the `UserAgent()` constructor runs outside the `try`, and its failure would propagate. That is not modelled.
- Scorer and Forecaster take the history as a list. A Python `None` history is not modelled, nor are prices of non-numeric types.
- Forecaster: ISO-8601 string timestamps, time zones and sub-second precision are not modelled. Timestamps are integer seconds, and `.days` is floor division by 86400.
- Forecaster: a record missing `price_inr` or `scraped_at` is not modelled. With exact arithmetic the only failure left inside the `try` is a latest price of 0.
- Forex: the clock is in whole seconds. `total_seconds()` (lines 26-27 of `backend/modules/analytics/forex_engine.py`) has sub-second precision, so a table exactly 86400 s old plus a fraction of a second is stale there but fresh in the model.
- Forex: the rate reply is a table of reals. Non-numeric entries in the JSON are not modelled.
- Forex.Refresh: a 200 reply whose `rates` member is an explicit null is not modelled (`RateFetch` only tells a missing member from a table). In the source, line 41 of `backend/modules/analytics/forex_engine.py` stores None, line 42 stamps the time, the `.get` at line 43 raises, and line 49 installs {INR 83.5, USD 1.0}. That fallback table then counts as fresh for a day, an outcome `Refresh` never produces.
- Forex.Refresh: a failed refresh does not keep the previous table. Lines 44-49 of `backend/modules/analytics/forex_engine.py` replace it with a fallback table, and the model does the same, although keeping the cached rates would be the more natural reading of a cache.
- AmazonScraper.ProductFrom: only a price of exactly 0 is rejected (line 93 of `backend/modules/scraper/engine.py`). A negative numeral such as "-5" would be accepted as a price, and the model accepts it too rather than requiring a positive price.
- B2B: the first `_scrape_indiamart_mobile` (lines 28-56) is replaced by the later definition (line 127), so only the later one is modelled. The `B2BEngine` constructor only builds headers and a user-agent source.
- Database: the hosted query builder, and row order for equal names or equal timestamps, are not modelled. The model takes the first in insertion order and keeps equal timestamps in insertion order.
- Database: record values of unexpected types, such as an explicit null brand, are not modelled.
- `backend/app.py`, `backend/modules/api/routes.py`, `backend/modules/services/supabase_client.py`, `backend/config.py` and the front end are not part of this model.

## Findings

| source | as written | input that shows it | evidently intended | confidence | as-written member | corrected member |
|---|---|---|---|---|---|---|
| backend/modules/scraper/engine.py:96-103 | The scraper's record puts the product's name under the key "name". The save looks it up as `data['title']` (backend/modules/services/db_manager.py:17), which raises KeyError, so the save returns None and stores nothing. | any record the scraper returns, e.g. {"name": "iPhone 15", "price": 129900.0, "currency": "INR", "url": "https://amazon.in/dp/x", "image": "", "source": "Amazon"} | The product record carries its name under "title", as the save and the product-record shape expect. | medium; not executed | Pipeline.AsWrittenNeverSaved | Pipeline.WithTitleSaved |
