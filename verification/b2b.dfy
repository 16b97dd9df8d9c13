/**
 * The wholesale lead engine: scrapers for TradeIndia, IndiaMART (mobile
 * site) and ExportersIndia that turn the first few result cards into leads,
 * a search-engine fallback restricted to one site, and the aggregation that
 * consults the fallback only when both direct sources come back empty.
 *
 * Each site's answer is an input: a function from the requested URL to the
 * response, already parsed into the card fields the scraper reads. A raised
 * request is `Raised`; a scraper that catches it returns no leads.
 */
module B2B {
  import opened Wrappers
  import opened Text

  datatype Response<C> = Raised | Response(status: int, cards: seq<C>)

  /** One lead; `contact` is absent from the search-engine fallback's records. */
  datatype Lead = Lead(
    title: string,
    price: string,
    seller: string,
    address: string,
    contact: Option<string>,
    url: string,
    image: string,
    source: string,
    kind: string)

  /** An anchor: its text and its `href`, which may be missing. */
  datatype Anchor = Anchor(text: string, href: Option<string>)

  /** A TradeIndia card: its first anchor that has an `href`, its whole text, and its seller tag's text. */
  datatype TradeIndiaCard = TradeIndiaCard(titleLink: Option<(string, string)>, text: string, seller: Option<string>)

  /** An IndiaMART card: its `p-name` anchor and its price, seller and location tags' text. */
  datatype IndiaMartCard = IndiaMartCard(title: Option<Anchor>, price: Option<string>, seller: Option<string>, location: Option<string>)

  /** A search-engine result: its `result__a` anchor. */
  datatype SearchResult = SearchResult(title: Option<Anchor>)

  /** An ExportersIndia card: its title anchor and its price and company tags' text. */
  datatype ExportersCard = ExportersCard(title: Option<Anchor>, price: Option<string>, seller: Option<string>)

  const DirectCardLimit := 6
  const FallbackLimit := 5
  const ExportersCardLimit := 4

  const LogoImage := "https://tiimg.tistatic.com/fp/1/007/557/indiamart-logo-584.jpg"
  const ExportersImage := "https://img.etimg.com/thumb/msid-64687661,width-300,imgsize-12497,,resizemode-4,quality-100/exporters-india.jpg"
  const TradeIndiaOrigin := "https://www.tradeindia.com"
  const IndiaMartOrigin := "https://m.indiamart.com"

  /** The cities the TradeIndia scraper recognises in a card's text, in the order it tries them. */
  const Cities := ["Delhi", "Mumbai", "Pune", "Ahmedabad", "Chennai", "Bangalore", "Kolkata", "Surat", "Jaipur", "Lucknow"]

  // ---------------------------------------------------------------- generic pieces

  /** `xs[:n]`. */
  function Take<T>(xs: seq<T>, n: nat): (r: seq<T>)
    ensures |r| <= n && |r| <= |xs|
    ensures r == xs[..|r|]
    ensures |xs| <= n ==> r == xs
    ensures n <= |xs| ==> |r| == n
  {
    if |xs| <= n then xs else xs[..n]
  }

  /** The lead one card contributes: the one `lead` builds, or nothing. */
  function LeadOf<C>(card: C, lead: C -> Option<Lead>): seq<Lead> {
    if lead(card).Some? then [lead(card).value] else []
  }

  /** The leads built from `cards` in order, skipping the cards `lead` rejects. */
  function Kept<C>(cards: seq<C>, lead: C -> Option<Lead>): (r: seq<Lead>)
    ensures |r| <= |cards|
    ensures (forall i :: 0 <= i < |cards| ==> lead(cards[i]).Some?) ==> |r| == |cards|
    ensures (forall i :: 0 <= i < |cards| ==> lead(cards[i]).None?) ==> r == []
    ensures |cards| == 1 ==> r == LeadOf(cards[0], lead)
  {
    if cards == [] then []
    else
      var init := cards[..|cards| - 1];
      assert forall i :: 0 <= i < |init| ==> init[i] == cards[i];
      Kept(init, lead) + LeadOf(cards[|cards| - 1], lead)
  }

  /**
   * A rejected card is skipped without ending the scan: the leads of a
   * concatenation are those of each part, in order. With the one-card case
   * of `Kept` this fixes the result for every mix of good and bad cards.
   */
  lemma {:induction false} KeptAppend<C>(a: seq<C>, b: seq<C>, lead: C -> Option<Lead>)
    ensures Kept(a + b, lead) == Kept(a, lead) + Kept(b, lead)
  {
    if b == [] {
      assert a + b == a;
    } else {
      var init := b[..|b| - 1];
      assert (a + b)[..|a + b| - 1] == a + init;
      assert (a + b)[|a + b| - 1] == b[|b| - 1];
      KeptAppend(a, init, lead);
    }
  }

  /** The card at `i` contributes its own lead, if any, between those of the cards before and after it. */
  lemma KeptSplitsAt<C>(cards: seq<C>, lead: C -> Option<Lead>, i: nat)
    requires i < |cards|
    ensures Kept(cards, lead) == Kept(cards[..i], lead) + LeadOf(cards[i], lead) + Kept(cards[i + 1..], lead)
  {
    var before, at, after := cards[..i], [cards[i]], cards[i + 1..];
    calc {
      Kept(cards, lead);
      { SplitAround(cards, i); }
      Kept((before + at) + after, lead);
      { KeptAppend(before + at, after, lead); }
      Kept(before + at, lead) + Kept(after, lead);
      { KeptAppend(before, at, lead); }
      Kept(before, lead) + Kept(at, lead) + Kept(after, lead);
      { assert |at| == 1 && at[0] == cards[i]; }
      Kept(before, lead) + LeadOf(cards[i], lead) + Kept(after, lead);
    }
  }

  lemma SplitAround<T>(s: seq<T>, i: nat)
    requires i < |s|
    ensures s == (s[..i] + [s[i]]) + s[i + 1..]
  {
  }

  /** Every card that yields a lead has that lead in the result, a bad card before it notwithstanding. */
  lemma KeptIncludes<C>(cards: seq<C>, lead: C -> Option<Lead>)
    ensures forall j :: 0 <= j < |cards| && lead(cards[j]).Some? ==> lead(cards[j]).value in Kept(cards, lead)
  {
    forall j | 0 <= j < |cards| && lead(cards[j]).Some?
      ensures lead(cards[j]).value in Kept(cards, lead)
    {
      KeptSplitsAt(cards, lead, j);
    }
  }

  /** Every lead `Kept` returns is one that `lead` built from one of the cards. */
  lemma {:induction false} KeptFrom<C>(cards: seq<C>, lead: C -> Option<Lead>, i: nat)
    requires i < |Kept(cards, lead)|
    ensures exists j :: 0 <= j < |cards| && lead(cards[j]) == Some(Kept(cards, lead)[i])
  {
    var init := cards[..|cards| - 1];
    var k := Kept(init, lead);
    if i < |k| {
      KeptFrom(init, lead, i);
      var j :| 0 <= j < |init| && lead(init[j]) == Some(k[i]);
      assert cards[j] == init[j];
    } else {
      assert lead(cards[|cards| - 1]) == Some(Kept(cards, lead)[i]);
    }
  }

  /** The loop shared by the scrapers: one pass over the cards, appending each lead built. */
  method CollectLeads<C>(cards: seq<C>, lead: C -> Option<Lead>) returns (leads: seq<Lead>)
    ensures leads == Kept(cards, lead)
  {
    leads := [];
    for i := 0 to |cards|
      invariant leads == Kept(cards[..i], lead)
    {
      assert cards[..i + 1][..i] == cards[..i];
      var l := lead(cards[i]);
      if l.None? {
        continue;
      }
      leads := leads + [l.value];
    }
    assert cards[..|cards|] == cards;
  }

  /** A link made absolute: kept when it already starts with "http", else put after `origin`. */
  function Absolute(link: string, origin: string): (r: string)
    ensures StartsWith(link, "http") ==> r == link
    ensures !StartsWith(link, "http") ==> |r| == |origin| + |link| && StartsWith(r, origin) && r[|origin|..] == link
    ensures StartsWith(origin, "http") ==> StartsWith(r, "http")
  {
    if StartsWith(link, "http") then link else origin + link
  }

  /** Both sites' origins are `http` URLs, so every link made absolute against them is one too. */
  lemma OriginsAreHttp()
    ensures StartsWith(TradeIndiaOrigin, "http") && StartsWith(IndiaMartOrigin, "http")
  {
  }

  /** A field's stripped text, or `default` when the card has no such element. */
  function TextOr(field: Option<string>, default: string): (r: string)
    ensures field.None? ==> r == default
    ensures field.Some? ==> r == Strip(field.value)
  {
    if field.Some? then Strip(field.value) else default
  }

  /** Making a link absolute twice changes nothing more. */
  lemma AbsoluteIdempotent(link: string, origin: string)
    requires StartsWith(origin, "http")
    ensures Absolute(Absolute(link, origin), origin) == Absolute(link, origin)
  {
  }

  // ---------------------------------------------------------------- city detection

  /** The first of `cities`, in list order, that occurs in `text` at position `at`. */
  function CityAt(cities: seq<string>, text: string, at: nat): (r: Option<string>)
    ensures r.Some? ==> r.value in cities && OccursAt(text, r.value, at)
    ensures r.Some? ==> exists j :: (0 <= j < |cities| && cities[j] == r.value
      && forall k :: 0 <= k < j ==> !OccursAt(text, cities[k], at))
    ensures r.None? ==> forall c :: c in cities ==> !OccursAt(text, c, at)
  {
    if cities == [] then None
    else if OccursAt(text, cities[0], at) then Some(cities[0])
    else
      var rest := CityAt(cities[1..], text, at);
      if rest.None? then rest
      else
        FirstAfterHead(cities, text, at, rest.value);
        rest
  }

  /** A city listed first among the cities after the head, which does not occur, is listed first overall. */
  lemma FirstAfterHead(cities: seq<string>, text: string, at: nat, v: string)
    requires |cities| > 0 && !OccursAt(text, cities[0], at)
    requires exists j :: (0 <= j < |cities[1..]| && cities[1..][j] == v
      && forall k :: 0 <= k < j ==> !OccursAt(text, cities[1..][k], at))
    ensures exists j :: (0 <= j < |cities| && cities[j] == v
      && forall k :: 0 <= k < j ==> !OccursAt(text, cities[k], at))
  {
    var j :| 0 <= j < |cities[1..]| && cities[1..][j] == v
      && forall k :: 0 <= k < j ==> !OccursAt(text, cities[1..][k], at);
    assert cities[j + 1] == v;
    forall k | 0 <= k < j + 1 ensures !OccursAt(text, cities[k], at) {
      if k > 0 { assert cities[k] == cities[1..][k - 1]; }
    }
  }

  /**
   * No two of the listed cities start with the same letter, so at most one of
   * them occurs at any position: the order of the alternation never matters.
   */
  lemma CitiesExclusive(text: string, c: string, d: string, at: nat)
    requires c in Cities && d in Cities
    requires OccursAt(text, c, at) && OccursAt(text, d, at)
    ensures c == d
  {
    assert text[at] == text[at..at + |c|][0] == c[0];
    assert text[at] == text[at..at + |d|][0] == d[0];
  }

  datatype CityMatch = CityMatch(at: nat, city: string)

  /** The leftmost position at or after `from` where one of the cities occurs, and that city. */
  function FindCityFrom(text: string, from: nat): (r: Option<CityMatch>)
    decreases |text| - from
    ensures r.Some? ==> r.value.city in Cities && from <= r.value.at && OccursAt(text, r.value.city, r.value.at)
    ensures r.Some? ==> forall q, c :: from <= q < r.value.at && c in Cities ==> !OccursAt(text, c, q)
    ensures r.None? ==> forall q, c :: from <= q && c in Cities ==> !OccursAt(text, c, q)
  {
    if from >= |text| then None
    else
      var here := CityAt(Cities, text, from);
      if here.Some? then Some(CityMatch(from, here.value))
      else FindCityFrom(text, from + 1)
  }

  /** The TradeIndia address: the city found earliest in the card's text, or "India". */
  function Address(text: string): (r: string)
    ensures r == "India" || r in Cities
    ensures r in Cities ==> Contains(text, r)
    ensures (forall c :: c in Cities ==> !Contains(text, c)) ==> r == "India"
  {
    var m := FindCityFrom(text, 0);
    if m.None? then "India"
    else
      ContainsIff(text, m.value.city);
      m.value.city
  }

  /**
   * The city that occurs earliest in a card's text is its address, whatever
   * cities occur later.
   */
  lemma OnlyCityIsAddress(text: string, city: string, p: nat)
    requires city in Cities && OccursAt(text, city, p)
    requires forall q, c :: 0 <= q < p && c in Cities ==> !OccursAt(text, c, q)
    ensures Address(text) == city
  {
    var m := FindCityFrom(text, 0);
    assert m.Some?;
    assert m.value.at == p;
    CitiesExclusive(text, m.value.city, city, p);
  }

  // ---------------------------------------------------------------- TradeIndia

  const TradeIndiaSearch := "https://www.tradeindia.com/search.html?keyword="

  /** The TradeIndia search URL: the query's spaces become `+`. */
  function TradeIndiaUrl(query: string): (r: string)
    ensures |r| == |TradeIndiaSearch| + |query| && StartsWith(r, TradeIndiaSearch)
    ensures SpacesAs(r[|TradeIndiaSearch|..], query, '+')
    ensures ' ' !in r[|TradeIndiaSearch|..]
  {
    var r := TradeIndiaSearch + Replace(query, ' ', '+');
    assert r[|TradeIndiaSearch|..] == Replace(query, ' ', '+');
    r
  }

  /** The lead a TradeIndia card gives: none without a title link whose raw text has at least 5 characters. */
  function TradeIndiaLead(card: TradeIndiaCard): (r: Option<Lead>)
    ensures r.Some? <==> card.titleLink.Some? && |card.titleLink.value.0| >= 5
    ensures r.Some? ==> r.value.price == "Check Quote" && r.value.contact == Some("Contact Supplier")
    ensures r.Some? ==> r.value.source == "TradeIndia" && r.value.kind == "B2B" && r.value.image == LogoImage
    ensures r.Some? ==> r.value.url == Absolute(card.titleLink.value.1, TradeIndiaOrigin) && StartsWith(r.value.url, "http")
    ensures r.Some? ==> r.value.address == Address(card.text)
    ensures r.Some? ==> r.value.title == Strip(card.titleLink.value.0)
    ensures r.Some? ==> r.value.seller == TextOr(card.seller, "Verified Supplier")
    ensures r.Some? && card.seller.None? ==> r.value.seller == "Verified Supplier"
  {
    match card.titleLink
    case None => None
    case Some((text, href)) =>
      if |text| < 5 then None
      else
        OriginsAreHttp();
        Some(Lead(Strip(text), "Check Quote", TextOr(card.seller, "Verified Supplier"), Address(card.text), Some("Contact Supplier"),
                  Absolute(href, TradeIndiaOrigin), LogoImage, "TradeIndia", "B2B"))
  }

  /** The leads `_scrape_tradeindia` returns for a response; the status code is not consulted. */
  function TradeIndiaLeads(resp: Response<TradeIndiaCard>): (r: seq<Lead>)
    ensures |r| <= DirectCardLimit
    ensures resp.Raised? ==> r == []
    ensures resp.Response? ==> r == Kept(Take(resp.cards, DirectCardLimit), TradeIndiaLead)
    ensures resp.Response? ==>
      forall i :: 0 <= i < |resp.cards| && i < DirectCardLimit && TradeIndiaLead(resp.cards[i]).Some? ==>
        TradeIndiaLead(resp.cards[i]).value in r
  {
    if resp.Raised? then []
    else
      var cards := Take(resp.cards, DirectCardLimit);
      KeptIncludes(cards, TradeIndiaLead);
      assert forall i :: 0 <= i < |resp.cards| && i < DirectCardLimit ==> i < |cards| && cards[i] == resp.cards[i];
      Kept(cards, TradeIndiaLead)
  }

  method ScrapeTradeIndia(query: string, fetch: string -> Response<TradeIndiaCard>) returns (leads: seq<Lead>)
    ensures leads == TradeIndiaLeads(fetch(TradeIndiaUrl(query)))
  {
    var response := fetch(TradeIndiaUrl(query));
    if response.Raised? {
      return [];
    }
    leads := CollectLeads(Take(response.cards, DirectCardLimit), TradeIndiaLead);
  }

  // ---------------------------------------------------------------- IndiaMART

  /** The IndiaMART category URL: the query's spaces become `-`, then it is lower-cased. */
  const IndiaMartCategory := "https://m.indiamart.com/impcat/"

  function IndiaMartUrl(query: string): (r: string)
    ensures |r| == |IndiaMartCategory| + |query| + 5 && StartsWith(r, IndiaMartCategory)
    ensures forall i :: 0 <= i < |query| ==>
      r[|IndiaMartCategory| + i] == if query[i] == ' ' then '-' else LowerChar(query[i])
    ensures r[|IndiaMartCategory| + |query|..] == ".html"
    ensures forall i :: |IndiaMartCategory| <= i < |IndiaMartCategory| + |query| ==> r[i] != ' ' && !IsUpper(r[i])
  {
    IndiaMartCategory + Lower(Replace(query, ' ', '-')) + ".html"
  }

  /** The lead an IndiaMART card gives: none without a title anchor carrying an `href`. */
  function IndiaMartLead(card: IndiaMartCard): (r: Option<Lead>)
    ensures r.Some? <==> card.title.Some? && card.title.value.href.Some?
    ensures r.Some? ==> r.value.source == "IndiaMART" && r.value.kind == "B2B" && r.value.contact == Some("Call Supplier")
    ensures r.Some? ==> r.value.image == LogoImage
    ensures r.Some? ==> r.value.url == Absolute(card.title.value.href.value, IndiaMartOrigin) && StartsWith(r.value.url, "http")
    ensures r.Some? && card.price.None? ==> r.value.price == "Ask Price"
    ensures r.Some? && card.seller.None? ==> r.value.seller == "Star Supplier"
    ensures r.Some? && card.location.None? ==> r.value.address == "India"
    ensures r.Some? ==> r.value.title == Strip(card.title.value.text)
    ensures r.Some? ==> r.value.price == TextOr(card.price, "Ask Price") && r.value.seller == TextOr(card.seller, "Star Supplier")
    ensures r.Some? ==> r.value.address == TextOr(card.location, "India")
  {
    match card.title
    case None => None
    case Some(anchor) =>
      match anchor.href
      case None => None
      case Some(href) =>
        OriginsAreHttp();
        Some(Lead(Strip(anchor.text), TextOr(card.price, "Ask Price"), TextOr(card.seller, "Star Supplier"),
                  TextOr(card.location, "India"), Some("Call Supplier"),
                  Absolute(href, IndiaMartOrigin), LogoImage, "IndiaMART", "B2B"))
  }

  /** The leads `_scrape_indiamart_mobile` returns: none unless the status is 200. */
  function IndiaMartLeads(resp: Response<IndiaMartCard>): (r: seq<Lead>)
    ensures |r| <= DirectCardLimit
    ensures resp.Raised? || resp.status != 200 ==> r == []
    ensures resp.Response? && resp.status == 200 ==> r == Kept(Take(resp.cards, DirectCardLimit), IndiaMartLead)
    ensures resp.Response? && resp.status == 200 ==>
      forall i :: 0 <= i < |resp.cards| && i < DirectCardLimit && IndiaMartLead(resp.cards[i]).Some? ==>
        IndiaMartLead(resp.cards[i]).value in r
  {
    if resp.Raised? || resp.status != 200 then []
    else
      var cards := Take(resp.cards, DirectCardLimit);
      KeptIncludes(cards, IndiaMartLead);
      assert forall i :: 0 <= i < |resp.cards| && i < DirectCardLimit ==> i < |cards| && cards[i] == resp.cards[i];
      Kept(cards, IndiaMartLead)
  }

  method ScrapeIndiaMart(query: string, fetch: string -> Response<IndiaMartCard>) returns (leads: seq<Lead>)
    ensures leads == IndiaMartLeads(fetch(IndiaMartUrl(query)))
  {
    var response := fetch(IndiaMartUrl(query));
    if response.Raised? || response.status != 200 {
      return [];
    }
    leads := CollectLeads(Take(response.cards, DirectCardLimit), IndiaMartLead);
  }

  // ---------------------------------------------------------------- search-engine fallback

  /** The search-engine query URL for `site`, the query's spaces becoming `+`. */
  const FallbackSearch := "https://html.duckduckgo.com/html/?q=site:"

  function FallbackUrl(query: string, site: string): (r: string)
    ensures var head := FallbackSearch + site + "+";
      |r| == |head| + |query| && StartsWith(r, head) && SpacesAs(r[|head|..], query, '+')
  {
    var head := FallbackSearch + site + "+";
    var r := head + Replace(query, ' ', '+');
    assert r[|head|..] == Replace(query, ' ', '+');
    r
  }

  const PlaceholderBase := "https://loremflickr.com/320/240/"

  /** The placeholder image: the query's spaces become commas. */
  function Placeholder(query: string): (r: string)
    ensures |r| == |PlaceholderBase| + |query| && StartsWith(r, PlaceholderBase)
    ensures SpacesAs(r[|PlaceholderBase|..], query, ',')
    ensures ' ' !in r[|PlaceholderBase|..]
  {
    var r := PlaceholderBase + Replace(query, ' ', ',');
    assert r[|PlaceholderBase|..] == Replace(query, ' ', ',');
    r
  }

  /** The lead a search result gives: none without a title anchor carrying an `href`. */
  function FallbackLead(query: string, site: string, result: SearchResult): (r: Option<Lead>)
    ensures r.Some? <==> result.title.Some? && result.title.value.href.Some?
    ensures r.Some? ==> r.value.url == result.title.value.href.value && r.value.contact.None?
    ensures r.Some? ==> r.value.seller == Strip(Before(result.title.value.text, '-')) && '-' !in r.value.seller
    ensures r.Some? ==> r.value.price == "Wholesale Price" && r.value.address == "Verified Location"
    ensures r.Some? ==> r.value.source == site + " (Verified)" && r.value.kind == "Wholesale" && r.value.image == Placeholder(query)
    ensures r.Some? ==> r.value.title == Strip(result.title.value.text)
  {
    match result.title
    case None => None
    case Some(anchor) =>
      match anchor.href
      case None => None
      case Some(href) =>
        var before := Before(anchor.text, '-');
        var seller := Strip(before);
        StripInside(before, '-');
        Some(Lead(Strip(anchor.text), "Wholesale Price", seller, "Verified Location", None,
                  href, Placeholder(query), site + " (Verified)", "Wholesale"))
  }

  /** Stripping only removes characters. */
  lemma StripInside(s: string, c: char)
    requires c !in s
    ensures c !in Strip(s)
  {
    var l := StripLeft(s);
    var r := StripRight(l);
    assert r == Strip(s);
    forall i | 0 <= i < |r|
      ensures r[i] != c
    {
      assert r[i] == l[i] == s[|s| - |l| + i];
    }
  }

  function FallbackLeadFor(query: string, site: string): SearchResult -> Option<Lead> {
    result => FallbackLead(query, site, result)
  }

  /** The leads `_search_engine_fallback` returns: every result is examined, the first five leads kept. */
  function FallbackLeads(query: string, site: string, resp: Response<SearchResult>): (r: seq<Lead>)
    ensures |r| <= FallbackLimit
    ensures resp.Raised? ==> r == []
    ensures resp.Response? ==> r == Take(Kept(resp.cards, FallbackLeadFor(query, site)), FallbackLimit)
  {
    if resp.Raised? then [] else Take(Kept(resp.cards, FallbackLeadFor(query, site)), FallbackLimit)
  }

  method SearchEngineFallback(query: string, site: string, fetch: string -> Response<SearchResult>) returns (leads: seq<Lead>)
    ensures leads == FallbackLeads(query, site, fetch(FallbackUrl(query, site)))
  {
    var response := fetch(FallbackUrl(query, site));
    if response.Raised? {
      return [];
    }
    var results := CollectLeads(response.cards, FallbackLeadFor(query, site));
    leads := Take(results, FallbackLimit);
  }

  // ---------------------------------------------------------------- ExportersIndia

  const ExportersSearch := "https://www.exportersindia.com/search.php?term="

  /** The ExportersIndia search URL: the query's spaces become `+`. */
  function ExportersUrl(query: string): (r: string)
    ensures |r| == |ExportersSearch| + |query| && StartsWith(r, ExportersSearch)
    ensures SpacesAs(r[|ExportersSearch|..], query, '+')
  {
    var r := ExportersSearch + Replace(query, ' ', '+');
    assert r[|ExportersSearch|..] == Replace(query, ' ', '+');
    r
  }

  /** The lead an ExportersIndia card gives: none without a title anchor carrying an `href`. */
  function ExportersLead(card: ExportersCard): (r: Option<Lead>)
    ensures r.Some? <==> card.title.Some? && card.title.value.href.Some?
    ensures r.Some? ==> r.value.url == card.title.value.href.value
    ensures r.Some? ==> r.value.source == "ExportersIndia" && r.value.kind == "B2B" && r.value.address == "View Profile"
    ensures r.Some? && card.price.None? ==> r.value.price == "Quote Only"
    ensures r.Some? && card.seller.None? ==> r.value.seller == "Verified Exporter"
    ensures r.Some? ==> r.value.title == Strip(card.title.value.text)
    ensures r.Some? ==> r.value.price == TextOr(card.price, "Quote Only") && r.value.seller == TextOr(card.seller, "Verified Exporter")
    ensures r.Some? ==> r.value.contact == Some("Contact Exporter") && r.value.image == ExportersImage
  {
    match card.title
    case None => None
    case Some(anchor) =>
      match anchor.href
      case None => None
      case Some(href) =>
        Some(Lead(Strip(anchor.text), TextOr(card.price, "Quote Only"), TextOr(card.seller, "Verified Exporter"), "View Profile", Some("Contact Exporter"),
                  href, ExportersImage, "ExportersIndia", "B2B"))
  }

  /** The leads `_scrape_exportersindia` returns: at most four, the status code not consulted. */
  function ExportersLeads(resp: Response<ExportersCard>): (r: seq<Lead>)
    ensures |r| <= ExportersCardLimit
    ensures resp.Raised? ==> r == []
    ensures resp.Response? ==> r == Kept(Take(resp.cards, ExportersCardLimit), ExportersLead)
    ensures resp.Response? ==>
      forall i :: 0 <= i < |resp.cards| && i < ExportersCardLimit && ExportersLead(resp.cards[i]).Some? ==>
        ExportersLead(resp.cards[i]).value in r
  {
    if resp.Raised? then []
    else
      var cards := Take(resp.cards, ExportersCardLimit);
      KeptIncludes(cards, ExportersLead);
      assert forall i :: 0 <= i < |resp.cards| && i < ExportersCardLimit ==> i < |cards| && cards[i] == resp.cards[i];
      Kept(cards, ExportersLead)
  }

  method ScrapeExportersIndia(query: string, fetch: string -> Response<ExportersCard>) returns (leads: seq<Lead>)
    ensures leads == ExportersLeads(fetch(ExportersUrl(query)))
  {
    var response := fetch(ExportersUrl(query));
    if response.Raised? {
      return [];
    }
    leads := CollectLeads(Take(response.cards, ExportersCardLimit), ExportersLead);
  }

  // ---------------------------------------------------------------- aggregation

  const FallbackSite := "indiamart.com"

  /**
   * `search_b2b`: TradeIndia's leads, then IndiaMART's; only when both are
   * empty, the search-engine fallback's leads for IndiaMART's site.
   */
  method SearchB2B(
    query: string,
    tradeIndia: string -> Response<TradeIndiaCard>,
    indiaMart: string -> Response<IndiaMartCard>,
    engine: string -> Response<SearchResult>)
    returns (results: seq<Lead>)
    ensures var direct := TradeIndiaLeads(tradeIndia(TradeIndiaUrl(query))) + IndiaMartLeads(indiaMart(IndiaMartUrl(query)));
      (direct != [] ==> results == direct)
      && (direct == [] ==> results == FallbackLeads(query, FallbackSite, engine(FallbackUrl(query, FallbackSite))))
    ensures |results| <= 2 * DirectCardLimit
  {
    var fromTradeIndia := ScrapeTradeIndia(query, tradeIndia);
    var fromIndiaMart := ScrapeIndiaMart(query, indiaMart);
    results := fromTradeIndia + fromIndiaMart;
    if results == [] {
      results := SearchEngineFallback(query, FallbackSite, engine);
    }
  }

  /** Every lead a direct scraper returns carries an absolute `http` link. */
  lemma DirectLeadsAbsolute(ti: Response<TradeIndiaCard>, im: Response<IndiaMartCard>, i: nat)
    requires i < |TradeIndiaLeads(ti) + IndiaMartLeads(im)|
    ensures var l := (TradeIndiaLeads(ti) + IndiaMartLeads(im))[i]; StartsWith(l.url, "http") && l.kind == "B2B"
  {
    var t := TradeIndiaLeads(ti);
    if i < |t| {
      KeptFrom(Take(ti.cards, DirectCardLimit), TradeIndiaLead, i);
    } else {
      KeptFrom(Take(im.cards, DirectCardLimit), IndiaMartLead, i - |t|);
    }
  }
}
