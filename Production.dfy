/**
 * The production suggestion: for every product, how many whole units the
 * current raw-material stock allows, keeping the products that can be made at
 * least once, ranked by total value, highest first.
 */
module Production {

  import opened Wrappers
  import opened Model
  import opened SuggestionDto
  import opened Ranking

  /**
   * The stock map after the filling loop: every raw-material id is a key, and a
   * later material with the same id overwrites an earlier one.
   */
  function StockMap(rawMaterials: seq<RawMaterial>): map<int, int>
  {
    if rawMaterials == [] then map[]
    else
      var last := rawMaterials[|rawMaterials| - 1];
      StockMap(rawMaterials[..|rawMaterials| - 1])[last.id := last.quantityInStock]
  }

  /** Stock lookup with default: a material missing from the map has stock 0. */
  function StockOf(stock: map<int, int>, rawMaterialId: int): int
  {
    if rawMaterialId in stock then stock[rawMaterialId] else 0
  }

  /** Java's `/` on int for a positive divisor: the quotient truncated toward zero. */
  function TruncDiv(a: int, b: int): (q: int)
    requires b > 0
    ensures a >= 0 ==> q * b <= a < (q + 1) * b
    ensures a < 0 ==> (q - 1) * b < a <= q * b
  {
    if a >= 0 then a / b else -((-a) / b)
  }

  /** How many units of its product one entry with positive need allows on its own. */
  function Quotient(e: ProductRawMaterial, stock: map<int, int>): int
    requires e.quantityNeeded > 0
  {
    TruncDiv(StockOf(stock, e.rawMaterialId), e.quantityNeeded)
  }

  function Min(a: int, b: int): int
  {
    if a <= b then a else b
  }

  /** The entries of one product, in their original order (the per-product stream filter). */
  function EntriesOf(productRawMaterials: seq<ProductRawMaterial>, productId: int): (r: seq<ProductRawMaterial>)
  {
    if productRawMaterials == [] then []
    else
      var init, last := productRawMaterials[..|productRawMaterials| - 1], productRawMaterials[|productRawMaterials| - 1];
      assert productRawMaterials == init + [last];
      EntriesOf(init, productId) + (if last.productId == productId then [last] else [])
  }

  /**
   * The most units the entries allow: the least quotient over the entries with
   * positive need, scanning them in order; None when no entry has positive
   * need. Entries with need 0 or less do not limit production.
   */
  function MaxUnits(entries: seq<ProductRawMaterial>, stock: map<int, int>): Option<int>
  {
    if entries == [] then None
    else
      var rest := MaxUnits(entries[..|entries| - 1], stock);
      var e := entries[|entries| - 1];
      if e.quantityNeeded > 0 then
        var q := Quotient(e, stock);
        Some(match rest case None => q case Some(m) => Min(m, q))
      else rest
  }

  /**
   * The suggestion made for one product, if any: it needs entries, one of
   * them with positive need, and a maximum of at least one unit.
   */
  function Candidate(product: Product, stock: map<int, int>, productRawMaterials: seq<ProductRawMaterial>): (c: Option<ProductionSuggestion>)
    ensures var m := MaxUnits(EntriesOf(productRawMaterials, product.id), stock);
      c.Some? <==> m.Some? && m.value > 0
    ensures c.Some? ==> c.value == NewSuggestion(product, MaxUnits(EntriesOf(productRawMaterials, product.id), stock).value)
  {
    var entries := EntriesOf(productRawMaterials, product.id);
    if entries == [] then None
    else
      match MaxUnits(entries, stock)
      case Some(m) => if m > 0 then Some(NewSuggestion(product, m)) else None
      case None => None
  }

  function ToSeq(c: Option<ProductionSuggestion>): seq<ProductionSuggestion>
  {
    if c.Some? then [c.value] else []
  }

  /** Keeps, in product order, the suggestion `pick` makes for each product, if any. */
  function Collect(products: seq<Product>, pick: Product -> Option<ProductionSuggestion>): seq<ProductionSuggestion>
  {
    if products == [] then []
    else Collect(products[..|products| - 1], pick) + ToSeq(pick(products[|products| - 1]))
  }

  /** The suggestions in product order, before ranking. */
  function Candidates(products: seq<Product>, stock: map<int, int>, productRawMaterials: seq<ProductRawMaterial>): seq<ProductionSuggestion>
  {
    Collect(products, p => Candidate(p, stock, productRawMaterials))
  }

  /** The endpoint's answer: the candidates ranked by total value, highest first, stably. */
  function SuggestedProduction(products: seq<Product>, rawMaterials: seq<RawMaterial>, productRawMaterials: seq<ProductRawMaterial>): seq<ProductionSuggestion>
  {
    SortByValue(Candidates(products, StockMap(rawMaterials), productRawMaterials))
  }

  /** Fills the stock map, one raw material at a time. */
  method BuildStockMap(rawMaterials: seq<RawMaterial>) returns (stock: map<int, int>)
    ensures stock == StockMap(rawMaterials)
  {
    stock := map[];
    for i := 0 to |rawMaterials|
      invariant stock == StockMap(rawMaterials[..i])
    {
      assert rawMaterials[..i + 1][..i] == rawMaterials[..i];
      stock := stock[rawMaterials[i].id := rawMaterials[i].quantityInStock];
    }
    assert rawMaterials[..|rawMaterials|] == rawMaterials;
  }

  /** Lowers the running minimum over one product's entries, skipping entries whose need is not positive. */
  method ProducibleUnits(entries: seq<ProductRawMaterial>, stock: map<int, int>) returns (units: Option<int>)
    ensures units == MaxUnits(entries, stock)
  {
    units := None;
    for i := 0 to |entries|
      invariant units == MaxUnits(entries[..i], stock)
    {
      assert entries[..i + 1][..i] == entries[..i];
      var e := entries[i];
      var available := StockOf(stock, e.rawMaterialId);
      if e.quantityNeeded > 0 {
        var producible := TruncDiv(available, e.quantityNeeded);
        units := match units case None => Some(producible) case Some(m) => Some(Min(m, producible));
      }
    }
    assert entries[..|entries|] == entries;
  }

  /**
   * The endpoint: builds the stock map, appends a suggestion for every product
   * that can be made at least once, and sorts the list in place.
   */
  method GetSuggestedProduction(products: seq<Product>, rawMaterials: seq<RawMaterial>, productRawMaterials: seq<ProductRawMaterial>)
    returns (suggestions: seq<ProductionSuggestion>)
    ensures suggestions == SuggestedProduction(products, rawMaterials, productRawMaterials)
  {
    var stock := BuildStockMap(rawMaterials);
    var found: seq<ProductionSuggestion> := [];
    for i := 0 to |products|
      invariant found == Candidates(products[..i], stock, productRawMaterials)
    {
      assert products[..i + 1][..i] == products[..i];
      var product := products[i];
      var specific := EntriesOf(productRawMaterials, product.id);
      if specific == [] {
        continue;
      }
      var units := ProducibleUnits(specific, stock);
      if units.Some? && units.value > 0 {
        found := found + [NewSuggestion(product, units.value)];
      }
    }
    assert products[..|products|] == products;
    var buffer := new ProductionSuggestion[|found|](k requires 0 <= k < |found| => found[k]);
    assert buffer[..] == found;
    SortByTotalValueDesc(buffer);
    suggestions := buffer[..];
  }
}
