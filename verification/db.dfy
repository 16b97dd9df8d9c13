/**
 * The persistence layer: a `products` table and a `prices` table, a
 * get-or-create save that files one scraped record under its product, and
 * the price-history read that the analytics consume.
 *
 * The hosted database is modelled by its two tables in memory. Its calls
 * can fail; which one fails (if any) is the `Fault` input. The database
 * assigns product ids from a counter and stamps each price row with the
 * time of the insert, passed in as `now`.
 */
module Database {
  import opened Wrappers
  import opened Text
  import opened Sorting
  import opened Forecaster

  datatype ProductRow = ProductRow(id: int, name: string, brand: string, category: string, imageUrl: string)
  datatype PriceRow = PriceRow(productId: int, priceInr: real, siteName: string, productLink: string, scrapedAt: int)

  /** A scraped record: each field is `None` when its key is missing from the dictionary. */
  datatype Item = Item(
    title: Option<string>,
    brand: Option<string>,
    category: Option<string>,
    image: Option<string>,
    price: Option<real>,
    source: Option<string>,
    url: Option<string>)

  const EmptyItem := Item(None, None, None, None, None, None, None)

  /**
   * Which database call raises during a save, if any. `ProductRowUnread`:
   * the product insert succeeds but returns no rows, so reading the new id
   * raises after the row is already stored.
   */
  datatype Fault = NoFault | LookupFails | ProductInsertFails | ProductRowUnread | PriceInsertFails

  /** Both tables and the id the next product row receives. */
  datatype Tables = Tables(products: seq<ProductRow>, prices: seq<PriceRow>, nextId: int)

  /** The tables after a save and the id the save returned. */
  datatype Saved = Saved(tables: Tables, id: Option<int>)

  /** No record, or an empty dictionary. */
  predicate Falsy(data: Option<Item>) {
    data.None? || data.value == EmptyItem
  }

  function Ids(products: seq<ProductRow>): set<int> {
    set p | p in products :: p.id
  }

  /** Product ids are distinct and below the counter, and every price row belongs to a product. */
  ghost predicate Valid(t: Tables) {
    (forall i, j :: 0 <= i < j < |t.products| ==> t.products[i].id != t.products[j].id)
    && (forall i :: 0 <= i < |t.products| ==> t.products[i].id < t.nextId)
    && (forall k :: 0 <= k < |t.prices| ==> t.prices[k].productId in Ids(t.products))
  }

  /** The first product row named `name` (the lookup by exact name). */
  function FirstNamed(products: seq<ProductRow>, name: string): (r: Option<nat>)
    ensures r.Some? ==> r.value < |products| && products[r.value].name == name
    ensures r.Some? ==> forall j :: 0 <= j < r.value ==> products[j].name != name
    ensures r.None? ==> forall j :: 0 <= j < |products| ==> products[j].name != name
  {
    if products == [] then None
    else if products[0].name == name then Some(0)
    else
      var rest := FirstNamed(products[1..], name);
      if rest.None? then None else Some(rest.value + 1)
  }

  /** The brand stored for a new product: the given one, unless missing or "Unknown", then the title's first word. */
  function DeriveBrand(title: string, brand: Option<string>): (r: string)
    ensures brand.Some? && brand.value != "Unknown" ==> r == brand.value
    ensures brand.None? || brand.value == "Unknown" ==>
      StartsWith(title, r) && ' ' !in r && (|r| == |title| || title[|r|] == ' ')
  {
    if brand.Some? && brand.value != "Unknown" then brand.value else Before(title, ' ')
  }

  /** The price-row step of a save, for product `pid`. */
  function AddPrice(t: Tables, pid: int, d: Item, fault: Fault, now: int): (r: Saved)
    ensures r.tables.products == t.products && r.tables.nextId == t.nextId
    ensures r.id.Some? <==> d.price.Some? && d.source.Some? && d.url.Some? && fault != PriceInsertFails
    ensures r.id.None? ==> r.tables == t
    ensures r.id.Some? ==> (r.id.value == pid
      && r.tables.prices == t.prices + [PriceRow(pid, d.price.value, d.source.value, d.url.value, now)])
  {
    if d.price.None? || d.source.None? || d.url.None? || fault == PriceInsertFails then Saved(t, None)
    else Saved(Tables(t.products, t.prices + [PriceRow(pid, d.price.value, d.source.value, d.url.value, now)], t.nextId), Some(pid))
  }

  /** The row a save inserts for a title not yet in the table. */
  function NewProduct(t: Tables, title: string, d: Item): ProductRow
    requires d.image.Some?
  {
    ProductRow(t.nextId, title, DeriveBrand(title, d.brand), d.category.GetOr("General"), d.image.value)
  }

  /** `save_product` on the tables `t`. */
  function Save(t: Tables, data: Option<Item>, fault: Fault, now: int): (r: Saved)
    ensures r.tables.prices == t.prices || |r.tables.prices| == |t.prices| + 1
    ensures |t.products| <= |r.tables.products| <= |t.products| + 1
    ensures r.id.None? ==> r.tables.prices == t.prices
    ensures fault == LookupFails ==> r == Saved(t, None)
    ensures (data.Some? && data.value.title.Some? && FirstNamed(t.products, data.value.title.value).None?
      && (data.value.image.None? || fault == ProductInsertFails)) ==> r == Saved(t, None)
    ensures (data.Some? && data.value.title.Some? && FirstNamed(t.products, data.value.title.value).None?
      && data.value.image.Some? && fault == ProductRowUnread) ==>
        r.id.None? && r.tables == Tables(t.products + [NewProduct(t, data.value.title.value, data.value)], t.prices, t.nextId + 1)
  {
    if Falsy(data) || data.value.title.None? || fault == LookupFails then Saved(t, None)
    else
      var d := data.value;
      var title := d.title.value;
      match FirstNamed(t.products, title)
      case Some(i) => AddPrice(t, t.products[i].id, d, fault, now)
      case None =>
        if d.image.None? || fault == ProductInsertFails then Saved(t, None)
        else
          var t1 := Tables(t.products + [NewProduct(t, title, d)], t.prices, t.nextId + 1);
          if fault == ProductRowUnread then Saved(t1, None)
          else AddPrice(t1, t.nextId, d, fault, now)
  }

  /** A falsy record, or one without a title, writes nothing and returns no id. */
  lemma NothingToSave(t: Tables, data: Option<Item>, fault: Fault, now: int)
    requires Falsy(data) || data.value.title.None?
    ensures Save(t, data, fault, now) == Saved(t, None)
  {
  }

  /**
   * Saving a title already in the table reuses the first matching id: no
   * product row is added; the save succeeds exactly when price, source and
   * url are present and the price insert does not raise, and then appends
   * exactly one price row; otherwise it returns None and changes nothing.
   */
  lemma ExistingProductReused(t: Tables, d: Item, fault: Fault, now: int)
    requires d.title.Some? && fault != LookupFails
    requires FirstNamed(t.products, d.title.value).Some?
    ensures var r := Save(t, Some(d), fault, now);
      var pid := t.products[FirstNamed(t.products, d.title.value).value].id;
      r.tables.products == t.products
      && (r.id.Some? <==> d.price.Some? && d.source.Some? && d.url.Some? && fault != PriceInsertFails)
      && (r.id.None? ==> r.tables == t)
      && (r.id.Some? ==>
            r.id == Some(pid) && r.tables.prices == t.prices + [PriceRow(pid, d.price.value, d.source.value, d.url.value, now)])
  {
    assert d != EmptyItem;
  }

  /**
   * Saving a new title inserts exactly one product row, with the derived
   * brand, the category or "General", and the record's image; a save that
   * then succeeds returns the new row's id and appends one price row for it.
   */
  lemma NewProductInserted(t: Tables, d: Item, now: int)
    requires d.title.Some? && d.image.Some?
    requires FirstNamed(t.products, d.title.value).None?
    ensures var r := Save(t, Some(d), NoFault, now);
      var row := r.tables.products[|t.products|];
      |r.tables.products| == |t.products| + 1 && r.tables.products[..|t.products|] == t.products
      && row.id == t.nextId && row.name == d.title.value
      && row.brand == DeriveBrand(d.title.value, d.brand)
      && row.category == (if d.category.Some? then d.category.value else "General")
      && row.imageUrl == d.image.value
      && (r.id.Some? <==> d.price.Some? && d.source.Some? && d.url.Some?)
      && (r.id.Some? ==> r.id == Some(t.nextId))
  {
    assert d != EmptyItem;
  }

  /**
   * A failure after the product insert is not rolled back: the new product
   * row stays although the save returns no id. This covers an insert that
   * returns no rows as well as a missing price field or a failing price insert.
   */
  lemma NoRollback(t: Tables, d: Item, fault: Fault, now: int)
    requires d.title.Some? && d.image.Some?
    requires FirstNamed(t.products, d.title.value).None?
    requires fault == PriceInsertFails || fault == ProductRowUnread || d.price.None? || d.source.None? || d.url.None?
    requires fault != LookupFails && fault != ProductInsertFails
    ensures var r := Save(t, Some(d), fault, now);
      r.id.None? && |r.tables.products| == |t.products| + 1 && r.tables.prices == t.prices
  {
    assert d != EmptyItem;
  }

  /** Every save keeps the tables consistent. */
  lemma SavePreservesValid(t: Tables, data: Option<Item>, fault: Fault, now: int)
    requires Valid(t)
    ensures Valid(Save(t, data, fault, now).tables)
  {
    if !(Falsy(data) || data.value.title.None? || fault == LookupFails) {
      var d := data.value;
      var title := d.title.value;
      var found := FirstNamed(t.products, title);
      if found.Some? {
        assert t.products[found.value] in t.products;
      } else if d.image.Some? && fault != ProductInsertFails {
        var row := NewProduct(t, title, d);
        var ps := t.products + [row];
        assert Ids(ps) == Ids(t.products) + {t.nextId};
        var t1 := Tables(ps, t.prices, t.nextId + 1);
        assert Valid(t1);
      }
    }
  }

  /** After a successful save, the lookup by the saved title finds the returned id. */
  lemma SavedTitleFound(t: Tables, data: Option<Item>, fault: Fault, now: int)
    requires Save(t, data, fault, now).id.Some?
    ensures var r := Save(t, data, fault, now);
      var i := FirstNamed(r.tables.products, data.value.title.value);
      i.Some? && r.tables.products[i.value].id == r.id.value
  {
    var d := data.value;
    var title := d.title.value;
    var r := Save(t, data, fault, now);
    if FirstNamed(t.products, title).None? {
      var ps := r.tables.products;
      assert ps == t.products + [NewProduct(t, title, d)];
      assert ps[|t.products|].name == title;
      assert FirstNamed(ps, title).Some?;
      assert FirstNamed(ps, title).value == |t.products|;
    }
  }

  // ---------------------------------------------------------------- price history

  /** The (price, time) pair a price row records. */
  function Reading(row: PriceRow): Observation {
    Observation(row.priceInr, row.scrapedAt)
  }

  /** What one price row contributes to the history of `pid`. */
  function ReadingIf(row: PriceRow, pid: int): seq<Observation> {
    if row.productId == pid then [Reading(row)] else []
  }

  /** The (price, time) projection of the price rows of `pid`, in table order. */
  function RowsOf(prices: seq<PriceRow>, pid: int): (r: seq<Observation>)
    ensures |r| <= |prices|
    ensures |prices| == 1 ==> r == ReadingIf(prices[0], pid)
    ensures forall k :: 0 <= k < |prices| && prices[k].productId == pid ==> Reading(prices[k]) in r
    ensures forall o :: o in r ==> exists k :: 0 <= k < |prices| && prices[k].productId == pid && o == Reading(prices[k])
  {
    if prices == [] then []
    else
      var init := prices[..|prices| - 1];
      assert forall k :: 0 <= k < |init| ==> init[k] == prices[k];
      RowsOf(init, pid) + ReadingIf(prices[|prices| - 1], pid)
  }

  /** The rows of a concatenated table are those of each part, in order. */
  lemma {:induction false} RowsOfAppend(a: seq<PriceRow>, b: seq<PriceRow>, pid: int)
    ensures RowsOf(a + b, pid) == RowsOf(a, pid) + RowsOf(b, pid)
  {
    if b == [] {
      assert a + b == a;
    } else {
      var init := b[..|b| - 1];
      assert (a + b)[..|a + b| - 1] == a + init;
      assert (a + b)[|a + b| - 1] == b[|b| - 1];
      RowsOfAppend(a, init, pid);
    }
  }

  /** The sort key that puts the newest row first. */
  function NewestFirst(o: Observation): int {
    -o.scrapedAt
  }

  /** A successful save adds one observation to its product's history and none to any other. */
  lemma SaveExtendsHistory(t: Tables, data: Option<Item>, fault: Fault, now: int, pid: int)
    requires Save(t, data, fault, now).id.Some?
    ensures var r := Save(t, data, fault, now);
      RowsOf(r.tables.prices, pid) ==
        RowsOf(t.prices, pid) + (if pid == r.id.value then [Observation(data.value.price.value, now)] else [])
  {
    var r := Save(t, data, fault, now);
    var ps := r.tables.prices;
    assert ps == t.prices + [ps[|ps| - 1]];
    assert ps[..|ps| - 1] == t.prices;
  }

  /** The database object: the two tables and the product id counter. */
  class DbManager {
    var products: seq<ProductRow>
    var prices: seq<PriceRow>
    var nextId: int

    /** Empty tables; the first product id is 1. */
    constructor ()
      ensures products == [] && prices == [] && nextId == 1
      ensures Valid(State())
    {
      products := [];
      prices := [];
      nextId := 1;
    }

    function State(): Tables
      reads this
    {
      Tables(products, prices, nextId)
    }

    /** `save_product`: the lookup, perhaps a product insert, then the price insert. */
    method SaveProduct(data: Option<Item>, fault: Fault, now: int) returns (id: Option<int>)
      modifies this
      ensures State() == Save(old(State()), data, fault, now).tables
      ensures id == Save(old(State()), data, fault, now).id
      ensures old(Valid(State())) ==> Valid(State())
    {
      if Valid(State()) {
        SavePreservesValid(State(), data, fault, now);
      }
      if data.None? || data.value == EmptyItem {
        return None;
      }
      var d := data.value;
      if d.title.None? {
        return None; // the title lookup raises
      }
      var title := d.title.value;
      if fault == LookupFails {
        return None;
      }
      var productId: int;
      var existing := FirstNamed(products, title);
      if existing.Some? {
        productId := products[existing.value].id;
      } else {
        var brandName := if d.brand.Some? then d.brand.value else "Unknown";
        if brandName == "Unknown" {
          brandName := Before(title, ' ');
        }
        if d.image.None? {
          return None; // the image lookup raises
        }
        if fault == ProductInsertFails {
          return None;
        }
        products := products + [ProductRow(nextId, title, brandName, d.category.GetOr("General"), d.image.value)];
        productId := nextId;
        nextId := nextId + 1;
        if fault == ProductRowUnread {
          return None; // the insert returned no rows; the stored row stays
        }
      }
      if d.price.None? || d.source.None? || d.url.None? {
        return None; // building the price row raises; a product inserted above stays
      }
      if fault == PriceInsertFails {
        return None;
      }
      prices := prices + [PriceRow(productId, d.price.value, d.source.value, d.url.value, now)];
      return Some(productId);
    }

    /**
     * `get_price_history`: the product's (price, time) rows, newest first;
     * empty when there are none or when the query fails.
     */
    function GetPriceHistory(productId: int, fails: bool): (r: seq<Observation>)
      reads this
      ensures fails ==> r == []
      ensures !fails ==> multiset(r) == multiset(RowsOf(prices, productId))
      ensures forall i, j :: 0 <= i < j < |r| ==> r[i].scrapedAt >= r[j].scrapedAt
    {
      if fails then []
      else
        var r := SortBy(RowsOf(prices, productId), NewestFirst);
        assert forall i, j :: 0 <= i < j < |r| ==> NewestFirst(r[i]) <= NewestFirst(r[j]);
        r
    }
  }
}
