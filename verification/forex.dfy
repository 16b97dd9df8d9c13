/**
 * The currency engine: a process-wide object holding a table of exchange
 * rates (units of each currency per US dollar) and the time of the last
 * successful refresh. Constructing it refreshes the table when it is empty
 * or more than a day old; conversions to rupees go through the dollar.
 *
 * The HTTP call to the rate service is a parameter (`RateFetch`): the status
 * code and decoded `rates` member it returned, or the exception it raised.
 * Clock readings are integer seconds passed in as `now`.
 */
module Forex {
  import opened Wrappers
  import opened Numeric

  /** A table older than this many seconds is refreshed on construction. */
  const StaleAfterSeconds := 86400
  /** Rupees per dollar assumed when the table has no INR entry. */
  const DefaultInrRate := 83.5

  /** What the request to the rate service produced. */
  datatype RateFetch =
    | Reply(status: int, rates: Option<map<string, real>>) // `rates` is None when the body has no such member
    | Raised                                               // the request or the body decoding raised

  /** The engine's whole state, as a value. */
  datatype Cache = Cache(rates: map<string, real>, lastUpdated: Option<int>)

  /** The table installed when the service answers with a non-200 status. */
  function StatusFallback(): map<string, real> {
    map["INR" := 83.5, "USD" := 1.0, "EUR" := 0.92]
  }

  /** The table installed when the request raises. */
  function ErrorFallback(): map<string, real> {
    map["INR" := 83.5, "USD" := 1.0]
  }

  /** Python's `d.get(key, default)`. */
  function Get(d: map<string, real>, key: string, default: real): (r: real)
    ensures key in d ==> r == d[key]
    ensures key !in d ==> r == default
  {
    if key in d then d[key] else default
  }

  /** Never refreshed, or refreshed more than a day before `now`. */
  predicate Stale(c: Cache, now: int) {
    c.lastUpdated.None? || now - c.lastUpdated.value > StaleAfterSeconds
  }

  /** Construction refreshes an empty table and a stale one. */
  predicate NeedsRefresh(c: Cache, now: int) {
    c.rates == map[] || Stale(c, now)
  }

  /** The state after one call to the rate service at time `now`. */
  function Refresh(c: Cache, now: int, fetch: RateFetch): (r: Cache)
    ensures fetch.Reply? && fetch.status == 200 ==>
      r.rates == fetch.rates.GetOr(map[]) && r.lastUpdated == Some(now)
    ensures fetch.Reply? && fetch.status != 200 ==>
      r.rates == StatusFallback() && r.lastUpdated == c.lastUpdated
    ensures fetch.Raised? ==> r.rates == ErrorFallback() && r.lastUpdated == c.lastUpdated
  {
    match fetch
    case Reply(status, rates) =>
      if status == 200 then Cache(rates.GetOr(map[]), Some(now))
      else Cache(StatusFallback(), c.lastUpdated)
    case Raised => Cache(ErrorFallback(), c.lastUpdated)
  }

  /** The state construction leaves behind at time `now`. */
  function Construct(c: Cache, now: int, fetch: RateFetch): Cache {
    if NeedsRefresh(c, now) then Refresh(c, now, fetch) else c
  }

  /**
   * A successful refresh makes the table fresh for exactly one day: a later
   * construction at `t` refreshes again only if the service sent no rates or
   * more than a day has passed.
   */
  lemma SuccessfulRefreshLastsADay(c: Cache, now: int, rates: Option<map<string, real>>, t: int)
    ensures var d := Refresh(c, now, Reply(200, rates));
      NeedsRefresh(d, t) <==> rates.GetOr(map[]) == map[] || t - now > StaleAfterSeconds
  {
  }

  /**
   * A failed refresh installs a fallback table but leaves the refresh time
   * alone, so a table that was stale stays stale and the next construction
   * calls the service again.
   */
  lemma FailedRefreshKeepsStaleness(c: Cache, now: int, fetch: RateFetch, t: int)
    requires !(fetch.Reply? && fetch.status == 200)
    ensures Stale(Refresh(c, now, fetch), t) == Stale(c, t)
    ensures Refresh(c, now, fetch).rates != map[]
  {
    assert "INR" in Refresh(c, now, fetch).rates;
  }

  /** A fresh, non-empty table is left exactly as it is by construction. */
  lemma FreshTableKept(c: Cache, now: int, fetch: RateFetch)
    requires c.rates != map[] && c.lastUpdated.Some?
    requires now - c.lastUpdated.value <= StaleAfterSeconds
    ensures Construct(c, now, fetch) == c
  {
  }

  /** After construction the table is never empty, unless the service itself sent an empty one. */
  lemma ConstructedTableNonEmpty(c: Cache, now: int, fetch: RateFetch)
    requires !(fetch.Reply? && fetch.status == 200 && fetch.rates.GetOr(map[]) == map[])
    ensures Construct(c, now, fetch).rates != map[]
  {
    if NeedsRefresh(c, now) && !(fetch.Reply? && fetch.status == 200) {
      FailedRefreshKeepsStaleness(c, now, fetch, now);
    }
  }

  /** Through the dollar at `rateToUsd` units per dollar and `inrRate` rupees per dollar, to the cent. */
  function ViaDollar(amount: real, rateToUsd: real, inrRate: real): (r: real)
    requires rateToUsd != 0.0
    ensures var exact := amount / rateToUsd * inrRate; exact - 0.005 <= r <= exact + 0.005
    ensures r == Round2(r)
  {
    Round2Exact(RoundCents(amount / rateToUsd * inrRate));
    Round2(amount / rateToUsd * inrRate)
  }

  /** With positive rates, a larger amount never converts to fewer rupees. */
  lemma ViaDollarMonotone(a: real, b: real, k: real, m: real)
    requires a <= b && k > 0.0 && m >= 0.0
    ensures ViaDollar(a, k, m) <= ViaDollar(b, k, m)
  {
    assert ViaDollar(a, k, m) == Round2(a / k * m);
    assert ViaDollar(b, k, m) == Round2(b / k * m);
    ScaleMonotone(a, b, k, m);
    Round2Monotone(a / k * m, b / k * m);
  }

  lemma ScaleMonotone(a: real, b: real, k: real, m: real)
    requires a <= b && k > 0.0 && m >= 0.0
    ensures a / k * m <= b / k * m
  {
    var x, y := a / k, b / k;
    assert y - x == (b - a) / k;
    assert y * m - x * m == (y - x) * m;
  }

  /** Converts `amount` of `from` into rupees with the table `rates`. */
  function Convert(rates: map<string, real>, amount: real, from: string): (r: real)
    ensures from == "INR" ==> r == amount
    ensures from != "INR" && Get(rates, from, 1.0) != 0.0 ==>
      r == ViaDollar(amount, Get(rates, from, 1.0), Get(rates, "INR", DefaultInrRate))
    ensures from != "INR" && Get(rates, from, 1.0) == 0.0 ==>
      r == if from == "USD" then Round2(amount * DefaultInrRate) else amount
  {
    if from == "INR" then amount
    else
      var rateToUsd := Get(rates, from, 1.0);
      var inrRate := Get(rates, "INR", DefaultInrRate);
      if rateToUsd == 0.0 then
        // the division raises; the emergency fallback answers instead
        if from == "USD" then Round2(amount * DefaultInrRate) else amount
      else
        ViaDollar(amount, rateToUsd, inrRate)
  }

  /** With positive rates, a larger amount never converts to fewer rupees. */
  lemma ConvertMonotone(rates: map<string, real>, a: real, b: real, from: string)
    requires a <= b
    requires Get(rates, from, 1.0) > 0.0 && Get(rates, "INR", DefaultInrRate) >= 0.0
    ensures Convert(rates, a, from) <= Convert(rates, b, from)
  {
    if from != "INR" {
      ViaDollarMonotone(a, b, Get(rates, from, 1.0), Get(rates, "INR", DefaultInrRate));
    }
  }

  /**
   * Both fallback tables price a dollar at 83.5 rupees; only the non-200
   * table knows the euro, so after a raised request a euro amount is
   * treated as dollars.
   */
  lemma FallbackConversions(amount: real)
    ensures Convert(StatusFallback(), amount, "USD") == Round2(amount * 83.5)
    ensures Convert(ErrorFallback(), amount, "USD") == Round2(amount * 83.5)
    ensures Convert(StatusFallback(), amount, "EUR") == Round2(amount / 0.92 * 83.5)
    ensures Convert(ErrorFallback(), amount, "EUR") == Round2(amount * 83.5)
  {
    assert amount / 1.0 * 83.5 == amount * 83.5;
  }

  /** The currency engine object. */
  class ForexEngine {
    var rates: map<string, real>
    var lastUpdated: Option<int>

    /** The object as first allocated, before its constructor body runs. */
    constructor Allocate()
      ensures rates == map[] && lastUpdated == None
    {
      rates := map[];
      lastUpdated := None;
    }

    function State(): Cache
      reads this
    {
      Cache(rates, lastUpdated)
    }

    /** `_is_cache_stale` at time `now`. */
    predicate IsCacheStale(now: int)
      reads this
    {
      Stale(State(), now)
    }

    /** `update_rates`: one call to the rate service, at time `now`. */
    method UpdateRates(now: int, fetch: RateFetch)
      modifies this
      ensures State() == Refresh(old(State()), now, fetch)
    {
      match fetch {
        case Reply(status, body) =>
          if status == 200 {
            rates := body.GetOr(map[]);
            lastUpdated := Some(now);
          } else {
            rates := StatusFallback();
          }
        case Raised =>
          rates := ErrorFallback();
      }
    }

    /** `__init__`: refreshes the table when it is empty or stale. */
    method Init(now: int, fetch: RateFetch)
      modifies this
      ensures State() == Construct(old(State()), now, fetch)
    {
      if rates == map[] || IsCacheStale(now) {
        UpdateRates(now, fetch);
      }
    }

    /** `convert_to_inr` with the current table. */
    function ConvertToInr(amount: real, from: string): (r: real)
      reads this
      ensures r == Convert(rates, amount, from)
      ensures from == "INR" ==> r == amount
      ensures from != "INR" && from in rates && rates[from] != 0.0 ==>
        r == ViaDollar(amount, rates[from], Get(rates, "INR", DefaultInrRate))
    {
      Convert(rates, amount, from)
    }

    /** `get_current_rate`: the table's entry, 1.0 when absent; the dollar's when no currency is named. */
    function GetCurrentRate(currency: string := "USD"): (r: real)
      reads this
      ensures currency in rates ==> r == rates[currency]
      ensures currency !in rates ==> r == 1.0
    {
      Get(rates, currency, 1.0)
    }
  }

  /**
   * The class-level slot that makes the engine a singleton: every
   * construction returns the one instance, running `__init__` on it again.
   */
  class ForexRegistry {
    var instance: ForexEngine?

    constructor ()
      ensures instance == null
    {
      instance := null;
    }

    /** `ForexEngine()` at time `now`. */
    method Obtain(now: int, fetch: RateFetch) returns (e: ForexEngine)
      modifies this, instance
      ensures instance == e
      ensures old(instance) != null ==> e == old(instance)
      ensures old(instance) == null ==> fresh(e)
      ensures old(instance) == null ==> e.State() == Construct(Cache(map[], None), now, fetch)
      ensures old(instance) != null ==> e.State() == Construct(old(instance.State()), now, fetch)
    {
      if instance == null {
        e := new ForexEngine.Allocate();
        instance := e;
      } else {
        e := instance;
      }
      e.Init(now, fetch);
    }
  }
}
