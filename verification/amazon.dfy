/**
 * The Amazon India scraper: two attempts at the search page for a query,
 * each with its own request headers, returning the first result card that
 * carries a non-zero price.
 *
 * The network and the HTML parser are abstracted: `fetch(i, request)` is the
 * parsed answer to the request sent on attempt `i` (the answer may differ
 * between attempts), and a page is already reduced to the pieces the scraper
 * looks at. The random pause before each request is not modelled.
 */
module AmazonScraper {
  import opened Wrappers
  import opened Text

  const DesktopAgent := "Mozilla/5.0 (Windows NT 10.0; Win64; x64) AppleWebKit/537.36 (KHTML, like Gecko) Chrome/120.0.0.0 Safari/537.36"
  const AcceptLanguage := "en-US,en;q=0.9"
  const Attempts := 2

  datatype Headers = Headers(userAgent: string, acceptLanguage: string)
  datatype Request = Request(url: string, headers: Headers)

  /** An `<img class="s-image">` tag: its `src` and `srcset` attributes, when present. */
  datatype ImageTag = ImageTag(src: Option<string>, srcset: Option<string>)

  /**
   * A result card: the text of its `<h2>`, of its `a-price-whole` span, its
   * image tag, and its `a-link-normal` anchor (`Some(None)`: an anchor with
   * no `href`).
   */
  datatype Card = Card(
    heading: Option<string>,
    priceWhole: Option<string>,
    image: Option<ImageTag>,
    link: Option<Option<string>>)

  /**
   * A parsed search page: its whole text, the text of its `<title>` when it
   * has one, the organic `s-search-result` cards and the `s-result-item` cards.
   */
  datatype Page = Page(text: string, title: Option<string>, organic: seq<Card>, sponsored: seq<Card>)

  datatype Fetch = Raised | Response(status: int, page: Page)

  datatype Product = Product(name: string, price: real, currency: string, url: string, image: string, source: string)

  /** The headers of the two attempts: a fixed desktop browser, then a random agent. */
  function HeaderList(randomAgent: string): (r: seq<Headers>)
    ensures |r| == Attempts
    ensures r[0].userAgent == DesktopAgent && r[1].userAgent == randomAgent
    ensures forall i :: 0 <= i < |r| ==> r[i].acceptLanguage == AcceptLanguage
  {
    [Headers(DesktopAgent, AcceptLanguage), Headers(randomAgent, AcceptLanguage)]
  }

  const SearchPrefix := "https://www.amazon.in/s?k="

  /** The search URL: the query with its spaces turned into `+`. */
  function SearchUrl(query: string): (r: string)
    ensures |r| == |SearchPrefix| + |query| && StartsWith(r, SearchPrefix)
    ensures SpacesAs(r[|SearchPrefix|..], query, '+')
    ensures forall i :: |SearchPrefix| <= i < |r| ==> r[i] != ' '
  {
    SearchPrefix + Replace(query, ' ', '+')
  }

  /**
   * Whether the page may be read: no "captcha" anywhere in its text and no
   * "robot check" in its title. A page without a title fails too: reading
   * the missing title's text raises, which ends the attempt just as a
   * block does.
   */
  predicate Readable(page: Page) {
    !Contains(Lower(page.text), "captcha")
    && page.title.Some?
    && !Contains(Lower(page.title.value), "robot check")
  }

  /** The cards searched: the organic results, or the sponsored ones when there are none. */
  function Candidates(page: Page): (r: seq<Card>)
    ensures page.organic != [] ==> r == page.organic
    ensures page.organic == [] ==> r == page.sponsored
  {
    if page.organic != [] then page.organic else page.sponsored
  }

  predicate Priced(c: Card) {
    c.priceWhole.Some?
  }

  /** The index of the first card with a price span. */
  function FirstPriced(cards: seq<Card>): (r: Option<nat>)
    ensures r.Some? ==> r.value < |cards| && Priced(cards[r.value])
    ensures r.Some? ==> forall j :: 0 <= j < r.value ==> !Priced(cards[j])
    ensures r.None? ==> forall j :: 0 <= j < |cards| ==> !Priced(cards[j])
  {
    if cards == [] then None
    else if Priced(cards[0]) then Some(0)
    else
      var rest := FirstPriced(cards[1..]);
      if rest.None? then None else Some(rest.value + 1)
  }

  /** The scan over the cards that stops at the first one with a price span. */
  method FindPricedCard(cards: seq<Card>) returns (k: Option<nat>)
    ensures k == FirstPriced(cards)
  {
    k := None;
    var i := 0;
    while i < |cards|
      invariant 0 <= i <= |cards|
      invariant forall j :: 0 <= j < i ==> !Priced(cards[j])
    {
      if cards[i].priceWhole.Some? {
        k := Some(i);
        break;
      }
      i := i + 1;
    }
    FirstPricedUnique(cards, k);
  }

  /** `FirstPriced` is the only index with its two defining properties. */
  lemma FirstPricedUnique(cards: seq<Card>, k: Option<nat>)
    requires k.Some? ==> k.value < |cards| && Priced(cards[k.value])
    requires forall j :: 0 <= j < (if k.Some? then k.value else |cards|) ==> !Priced(cards[j])
    ensures k == FirstPriced(cards)
  {
  }

  /** The product name: the stripped heading, or "Unknown Product". */
  function Title(heading: Option<string>): (r: string)
    ensures heading.None? ==> r == "Unknown Product"
    ensures heading.Some? ==> r == Strip(heading.value)
    ensures heading.Some? ==> |r| <= |heading.value| && (r == [] || !IsSpace(r[0]))
  {
    if heading.None? then "Unknown Product" else Strip(heading.value)
  }

  /** The price text with its digit-group commas and its dots removed. */
  function NormalizePrice(t: string): (r: string)
    ensures ',' !in r && '.' !in r
    ensures forall c :: c != ',' && c != '.' ==> multiset(r)[c] == multiset(t)[c]
    ensures ',' !in t && '.' !in t ==> r == t
  {
    assert ',' !in t && '.' !in t ==> Delete(Delete(t, ','), '.') == t by {
      if ',' !in t && '.' !in t {
        DeleteAbsent(t, ',');
        DeleteAbsent(t, '.');
      }
    }
    var r := Delete(Delete(t, ','), '.');
    assert multiset(r)[','] == multiset(Delete(t, ','))[','] == 0;
    r
  }

  /** The price read from the price span; `None` when `float` raises. */
  function Price(t: string): (r: Option<real>)
    ensures r.Some? ==> r.value == r.value.Floor as real
    ensures AllDigits(t) ==> r == Some(DigitsValue(t) as real)
  {
    assert AllDigits(t) ==> ',' !in t && '.' !in t;
    ParseNumber(NormalizePrice(t))
  }

  /** Dropping one comma or dot anywhere in the price span leaves the price unchanged. */
  lemma {:induction false} SeparatorIgnored(a: string, b: string, sep: char)
    requires sep == ',' || sep == '.'
    ensures Price(a + [sep] + b) == Price(a + b)
  {
    NormalizeAppend(a + [sep], b);
    NormalizeAppend(a, [sep]);
    NormalizeAppend(a, b);
    assert NormalizePrice([sep]) == [] by {
      assert Delete([sep], ',') == (if sep == ',' then [] else ['.']);
    }
    assert NormalizePrice(a) + [] == NormalizePrice(a);
  }

  /** Normalising works piece by piece. */
  lemma NormalizeAppend(a: string, b: string)
    ensures NormalizePrice(a + b) == NormalizePrice(a) + NormalizePrice(b)
  {
    DeleteAppend(a, b, ',');
    DeleteAppend(Delete(a, ','), Delete(b, ','), '.');
  }

  /**
   * The image URL: `src`, unless it is empty or a grey placeholder pixel and
   * a non-empty `srcset` exists, whose first entry is used instead. `None`
   * when the tag has no `src`: testing the missing value raises.
   */
  function ImageUrl(img: Option<ImageTag>): (r: Option<string>)
    ensures img.None? ==> r == Some("")
    ensures img.Some? && img.value.src.None? ==> r.None?
    ensures img.Some? && img.value.src.Some? ==> r.Some?
    ensures img.Some? && img.value.src.Some? && img.value.src.value != [] && !Contains(img.value.src.value, "grey-pixel")
      ==> r == img.value.src
    ensures r.Some? && img.Some? && r.value != img.value.src.value ==>
      img.value.srcset.Some? && r.value == Before(img.value.srcset.value, ' ') && ' ' !in r.value
    ensures img.Some? && img.value.src.Some? && (Contains(img.value.src.value, "grey-pixel") || img.value.src.value == [])
            && img.value.srcset.Some? && img.value.srcset.value != []
      ==> r == Some(Before(img.value.srcset.value, ' '))
    ensures img.Some? && img.value.src.Some?
            && !((Contains(img.value.src.value, "grey-pixel") || img.value.src.value == [])
                 && img.value.srcset.Some? && img.value.srcset.value != [])
      ==> r == img.value.src
  {
    match img
    case None => Some("")
    case Some(tag) =>
      match tag.src
      case None => None
      case Some(src) =>
        if Contains(src, "grey-pixel") || src == [] then
          if tag.srcset.Some? && tag.srcset.value != [] then Some(Before(tag.srcset.value, ' '))
          else Some(src)
        else Some(src)
  }

  const LinkPrefix := "https://amazon.in"

  /** The product link; `None` when the anchor has no `href` (the lookup raises). */
  function LinkUrl(link: Option<Option<string>>): (r: Option<string>)
    ensures link.None? ==> r == Some("")
    ensures link == Some(None) <==> r.None?
    ensures link.Some? && link.value.Some? ==> r.Some? && StartsWith(r.value, LinkPrefix) && r.value[|LinkPrefix|..] == link.value.value
  {
    match link
    case None => Some("")
    case Some(None) => None
    case Some(Some(href)) => Some(LinkPrefix + href)
  }

  /** The product built from the chosen card; `None` when a step raises or the price is zero. */
  function ProductFrom(card: Card): (r: Option<Product>)
    requires Priced(card)
    ensures r.Some? ==> r.value.price != 0.0 && r.value.price == r.value.price.Floor as real
    ensures r.Some? ==> r.value.currency == "INR" && r.value.source == "Amazon"
    ensures r.Some? ==> r.value.name == Title(card.heading)
    ensures r.Some? ==> Some(r.value.price) == Price(card.priceWhole.value)
    ensures Price(card.priceWhole.value) == Some(0.0) ==> r.None?
    ensures card.link == Some(None) ==> r.None?
    ensures card.image.Some? && card.image.value.src.None? ==> r.None?
    ensures r.Some? <==> Price(card.priceWhole.value).Some? && Price(card.priceWhole.value).value != 0.0
                         && ImageUrl(card.image).Some? && LinkUrl(card.link).Some?
    ensures r.Some? ==> r.value.url == LinkUrl(card.link).value && r.value.image == ImageUrl(card.image).value
  {
    var price := Price(card.priceWhole.value);
    var image := ImageUrl(card.image);
    var link := LinkUrl(card.link);
    if price.None? || image.None? || link.None? || price.value == 0.0 then None
    else Some(Product(Title(card.heading), price.value, "INR", link.value, image.value, "Amazon"))
  }

  /** What one attempt yields from the network's answer. */
  function AttemptResult(f: Fetch): (r: Option<Product>)
    ensures f.Raised? ==> r.None?
    ensures f.Response? && (f.status != 200 || !Readable(f.page)) ==> r.None?
    ensures r.Some? ==> exists i :: 0 <= i < |Candidates(f.page)| && Priced(Candidates(f.page)[i]) && r == ProductFrom(Candidates(f.page)[i])
  {
    match f
    case Raised => None
    case Response(status, page) =>
      if status != 200 || !Readable(page) then None
      else
        var cards := Candidates(page);
        var k := FirstPriced(cards);
        if k.None? then None else ProductFrom(cards[k.value])
  }

  /** The answer attempt `i` receives. */
  function AttemptFetch(query: string, randomAgent: string, fetch: (nat, Request) -> Fetch, i: nat): Fetch
    requires i < Attempts
  {
    fetch(i, Request(SearchUrl(query), HeaderList(randomAgent)[i]))
  }

  /** The scraper's answer: the first attempt's product, or else the second's. */
  function Search(query: string, randomAgent: string, fetch: (nat, Request) -> Fetch): (r: Option<Product>)
    ensures r.Some? ==> (r == AttemptResult(AttemptFetch(query, randomAgent, fetch, 0))
                      || r == AttemptResult(AttemptFetch(query, randomAgent, fetch, 1)))
    ensures r.None? <==> forall i :: 0 <= i < Attempts ==> AttemptResult(AttemptFetch(query, randomAgent, fetch, i)).None?
    ensures AttemptResult(AttemptFetch(query, randomAgent, fetch, 0)).Some? ==> r == AttemptResult(AttemptFetch(query, randomAgent, fetch, 0))
    ensures AttemptResult(AttemptFetch(query, randomAgent, fetch, 0)).None? ==> r == AttemptResult(AttemptFetch(query, randomAgent, fetch, 1))
  {
    var first := AttemptResult(AttemptFetch(query, randomAgent, fetch, 0));
    if first.Some? then first else AttemptResult(AttemptFetch(query, randomAgent, fetch, 1))
  }

  /**
   * The body of one attempt of `get_price_amazon`, given the network's answer:
   * every early exit is a `continue` there and returns None here.
   */
  method TryAttempt(response: Fetch) returns (product: Option<Product>)
    ensures product == AttemptResult(response)
  {
    if response.Raised? || response.status != 200 {
      return None;
    }
    var page := response.page;
    if Contains(Lower(page.text), "captcha") || page.title.None? || Contains(Lower(page.title.value), "robot check") {
      return None;
    }
    var results := page.organic;
    if results == [] {
      results := page.sponsored;
    }
    if results == [] {
      return None;
    }
    var k := FindPricedCard(results);
    if k.None? {
      return None;
    }
    product := ProductFrom(results[k.value]);
  }

  /** `get_price_amazon`: up to two attempts, each abandoned at the first problem. */
  method GetPriceAmazon(query: string, randomAgent: string, fetch: (nat, Request) -> Fetch) returns (r: Option<Product>)
    ensures r == Search(query, randomAgent, fetch)
  {
    var headerList := HeaderList(randomAgent);
    var url := SearchUrl(query);
    for attempt := 0 to Attempts
      invariant forall j :: 0 <= j < attempt ==> AttemptResult(AttemptFetch(query, randomAgent, fetch, j)).None?
    {
      var response := fetch(attempt, Request(url, headerList[attempt]));
      assert response == AttemptFetch(query, randomAgent, fetch, attempt);
      var product := TryAttempt(response);
      if product.None? {
        continue;
      }
      return product;
    }
    return None;
  }

  /** A typical Indian-grouped price span reads as the whole rupee amount. */
  lemma GroupedPriceExample()
    ensures Price("1,29,900.") == Some(129900.0)
  {
    assert NormalizePrice("1,29,900.") == "129900" by {
      CommasDeleted();
      DotDeleted();
    }
    SixDigits();
    assert ParseNumber("129900") == Some(129900.0);
  }

  lemma CommasDeleted()
    ensures Delete("1,29,900.", ',') == "129900."
  {
    var s := "1,29,900.";
    assert Delete(s[8..], ',') == ".";
    assert Delete(s[7..], ',') == "0.";
    assert Delete(s[6..], ',') == "00.";
    assert Delete(s[5..], ',') == "900.";
    assert Delete(s[4..], ',') == "900.";
    assert Delete(s[3..], ',') == "9900.";
    assert Delete(s[2..], ',') == "29900.";
    assert Delete(s[1..], ',') == "29900.";
  }

  lemma DotDeleted()
    ensures Delete("129900.", '.') == "129900"
  {
    var u := "129900.";
    assert Delete(u[6..], '.') == "";
    assert Delete(u[5..], '.') == "0";
    assert Delete(u[4..], '.') == "00";
    assert Delete(u[3..], '.') == "900";
    assert Delete(u[2..], '.') == "9900";
    assert Delete(u[1..], '.') == "29900";
  }

  lemma SixDigits()
    ensures AllDigits("129900") && DigitsValue("129900") == 129900
  {
    var d := "129900";
    assert DigitsValue(d[..1]) == 1;
    assert d[..2][..1] == d[..1];
    assert DigitsValue(d[..2]) == 12;
    assert d[..3][..2] == d[..2];
    assert DigitsValue(d[..3]) == 129;
    assert d[..4][..3] == d[..3];
    assert DigitsValue(d[..4]) == 1299;
    assert d[..5][..4] == d[..4];
    assert DigitsValue(d[..5]) == 12990;
    assert d[..5] == d[..|d| - 1];
  }

  /** A page that mentions a captcha yields nothing, whatever its cards. */
  lemma CaptchaPageYieldsNothing(page: Page)
    requires Contains(Lower(page.text), "captcha")
    ensures AttemptResult(Response(200, page)).None?
  {
  }

  /** The first priced card decides the attempt: an unpriceable first priced card is not skipped. */
  lemma FirstPricedCardDecides(page: Page, i: nat)
    requires Readable(page)
    requires i < |Candidates(page)| && Priced(Candidates(page)[i])
    requires forall j :: 0 <= j < i ==> !Priced(Candidates(page)[j])
    ensures AttemptResult(Response(200, page)) == ProductFrom(Candidates(page)[i])
  {
    FirstPricedUnique(Candidates(page), Some(i));
  }
}
