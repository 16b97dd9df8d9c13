/**
 * Handing a scraped Amazon product to the save: the scraper's dictionary
 * names the product under the key "name", while the save looks the product
 * up under "title".
 */
module Pipeline {
  import opened Wrappers
  import AmazonScraper
  import opened Database

  /** The scraper's dictionary as the save reads it: it has no "title", "brand" or "category" key. */
  function AsWritten(p: AmazonScraper.Product): (d: Item)
    ensures d.title.None? && d.price == Some(p.price) && d.url == Some(p.url)
  {
    Item(None, None, None, Some(p.image), Some(p.price), Some(p.source), Some(p.url))
  }

  /** The same dictionary with the product's name under "title", as the save expects. */
  function WithTitle(p: AmazonScraper.Product): (d: Item)
    ensures d.title == Some(p.name) && d.price == Some(p.price) && d.source == Some(p.source)
  {
    Item(Some(p.name), None, None, Some(p.image), Some(p.price), Some(p.source), Some(p.url))
  }

  /** Saving a scraped product as written never stores anything: the title lookup raises. */
  lemma AsWrittenNeverSaved(t: Tables, p: AmazonScraper.Product, fault: Fault, now: int)
    ensures Save(t, Some(AsWritten(p)), fault, now) == Saved(t, None)
  {
    NothingToSave(t, Some(AsWritten(p)), fault, now);
  }

  /**
   * With the title key, a save without database faults stores the scraped
   * price under a product carrying the scraped name, and returns its id.
   */
  lemma WithTitleSaved(t: Tables, p: AmazonScraper.Product, now: int)
    requires Valid(t)
    ensures var r := Save(t, Some(WithTitle(p)), NoFault, now);
      r.id.Some? && Valid(r.tables)
      && r.tables.prices == t.prices + [PriceRow(r.id.value, p.price, p.source, p.url, now)]
      && (var i := FirstNamed(r.tables.products, p.name); i.Some? && r.tables.products[i.value].id == r.id.value)
  {
    var d := WithTitle(p);
    if FirstNamed(t.products, p.name).Some? {
      ExistingProductReused(t, d, NoFault, now);
    } else {
      NewProductInserted(t, d, now);
    }
    SavePreservesValid(t, Some(d), NoFault, now);
    SavedTitleFound(t, Some(d), NoFault, now);
  }
}
