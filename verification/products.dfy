/**
 * The Products page: the 50-product mock catalogue built from the row index,
 * the name/SKU/category search, the stock and status colour classifiers, and
 * the page's state (search term, current page) under typing and the
 * Previous/Next buttons.
 */
module Products {
  import opened Text
  import opened Query
  import opened Locations
  import Pager

  /** One catalogue row. The random `price` is not part of the model. */
  datatype Product = Product(
    id: string,
    name: string,
    sku: string,
    category: string,
    stock: nat,
    location: string,
    status: string)

  /** `Math.floor(Math.random() * 1000)`: the only values the random stock takes. */
  type StockLevel = n: nat | n < 1000

  const CatalogueSize: nat := 50

  const Names: seq<string> := [
    "Industrial Widget A", "Safety Helmet Pro", "Cable Assembly Kit",
    "Mounting Hardware Set", "Precision Tool", "Electronic Component",
    "Mechanical Part", "Assembly Unit"]

  const Categories: seq<string> := ["Electronics", "Safety", "Hardware", "Tools"]

  const Statuses: seq<string> := ["In Stock", "Low Stock", "Out of Stock"]

  // ------------------------------------------------------------ catalogue

  /** `PROD-` and the 1-based row number, zero-padded to four digits. */
  function ProductId(i: nat): (r: string)
    ensures |r| >= 9 && r[..5] == "PROD-"
    ensures AllDigits(r[5..]) && DecimalValue(r[5..]) == i + 1
    ensures i + 1 < 10000 ==> |r| == 9
  {
    var digits := ZeroPadded(i + 1, 4);
    var r := "PROD-" + digits;
    assert r[5..] == digits;
    PowersOfTen();
    r
  }

  /** `SKU-` and the 1-based row number, zero-padded to six digits. */
  function Sku(i: nat): (r: string)
    ensures |r| >= 10 && r[..4] == "SKU-"
    ensures AllDigits(r[4..]) && DecimalValue(r[4..]) == i + 1
    ensures i + 1 < 1000000 ==> |r| == 10
  {
    var digits := ZeroPadded(i + 1, 6);
    var r := "SKU-" + digits;
    assert r[4..] == digits;
    PowersOfTen();
    r
  }

  lemma PowersOfTen()
    ensures Pow10(4) == 10000 && Pow10(6) == 1000000
  {
    assert Pow10(1) == 10;
    assert Pow10(2) == 100;
    assert Pow10(3) == 1000;
    assert Pow10(4) == 10000;
    assert Pow10(5) == 100000;
  }

  /** The first row is `PROD-0001` / `SKU-000001`. */
  lemma FirstCodes()
    ensures ProductId(0) == "PROD-0001" && Sku(0) == "SKU-000001"
  {
    assert NatToString(1) == "1";
    assert Repeat('0', 3) == "000";
    assert Repeat('0', 5) == "00000";
  }

  /** The last row is `PROD-0050` / `SKU-000050`. */
  lemma LastCodes()
    ensures ProductId(49) == "PROD-0050" && Sku(49) == "SKU-000050"
  {
    assert NatToString(5) == "5";
    assert NatToString(50) == "50";
    assert Repeat('0', 2) == "00";
    assert Repeat('0', 4) == "0000";
  }

  /** Different rows get different product ids. */
  lemma ProductIdInjective(i: nat, j: nat)
    ensures ProductId(i) == ProductId(j) ==> i == j
  {
    if ProductId(i) == ProductId(j) {
      assert ProductId(i)[5..] == ProductId(j)[5..];
    }
  }

  /** Different rows get different SKUs. */
  lemma SkuInjective(i: nat, j: nat)
    ensures Sku(i) == Sku(j) ==> i == j
  {
    if Sku(i) == Sku(j) {
      assert Sku(i)[4..] == Sku(j)[4..];
    }
  }

  /**
   * Row `i`'s shelf: zone `A`–`D` from `i % 4`, aisle 1–5 from
   * `floor(i / 4) % 5 + 1`, slot 1–3 from `i % 3 + 1`.
   */
  function ShelfLocation(i: nat): (r: string)
    ensures IsShelfLabel(r)
    ensures 'A' <= r[0] <= 'D' && 1 <= AisleOf(r) <= 5 && 1 <= SlotOf(r) <= 3
    ensures ZoneOf(r) == i % 4 && AisleOf(r) == (i / 4) % 5 + 1 && SlotOf(r) == i % 3 + 1
  {
    Label(i % 4, (i / 4) % 5 + 1, i % 3 + 1)
  }

  /** The location pattern repeats every 60 rows. */
  lemma ShelfLocationPeriodic(i: nat)
    ensures ShelfLocation(i + 60) == ShelfLocation(i)
  {
    var j := i + 60;
    assert j % 4 == i % 4;
    assert j / 4 == i / 4 + 15;
    assert (j / 4) % 5 == (i / 4) % 5;
    assert j % 3 == i % 3;
  }

  /** Within any 60 consecutive rows no two products share a shelf. */
  lemma ShelfLocationInjective(i: nat, j: nat)
    requires i <= j < i + 60
    ensures ShelfLocation(i) == ShelfLocation(j) ==> i == j
  {
    if ShelfLocation(i) == ShelfLocation(j) {
      ResiduesDetermineRow(i, j);
    }
  }

  /** Rows less than 60 apart that agree modulo 4, 3 and in `floor(i/4) % 5` are the same row. */
  lemma ResiduesDetermineRow(i: nat, j: nat)
    requires i <= j < i + 60
    requires i % 4 == j % 4 && (i / 4) % 5 == (j / 4) % 5 && i % 3 == j % 3
    ensures i == j
  {
    var d := j - i;
    assert d % 4 == 0;
    var q := d / 4;
    assert j == i + 4 * q;
    assert j / 4 == i / 4 + q;
    assert q % 5 == 0;
    assert d % 20 == 0;
    assert d % 3 == 0;
  }

  /** Row `i` of `mockProducts`, given the random stock drawn for it. */
  function MockProduct(i: nat, stock: StockLevel): (p: Product)
    ensures p.id == ProductId(i) && p.sku == Sku(i) && p.location == ShelfLocation(i)
    ensures p.name == Names[i % 8] && p.category == Categories[i % 4] && p.status == Statuses[i % 3]
    ensures p.stock == stock
    ensures p.name in Names && p.category in Categories && p.status in Statuses
  {
    Product(
      ProductId(i),
      Names[i % 8],
      Sku(i),
      Categories[i % 4],
      stock,
      ShelfLocation(i),
      Statuses[i % 3])
  }

  /** Category and status come from the row index alone, whatever stock was drawn. */
  lemma CategoryAndStatusIgnoreStock(i: nat, s1: StockLevel, s2: StockLevel)
    ensures MockProduct(i, s1).category == MockProduct(i, s2).category == Categories[i % 4]
    ensures MockProduct(i, s1).status == MockProduct(i, s2).status == Statuses[i % 3]
  {
  }

  /**
   * `mockProducts`: 50 rows, one per random stock value, with pairwise
   * distinct ids, SKUs and shelf locations.
   */
  function MockProducts(stocks: seq<StockLevel>): (r: seq<Product>)
    requires |stocks| == CatalogueSize
    ensures |r| == CatalogueSize
    ensures forall i :: 0 <= i < |r| ==> r[i] == MockProduct(i, stocks[i])
    ensures forall i :: 0 <= i < |r| ==> r[i].stock == stocks[i]
    ensures forall i, j :: 0 <= i < j < |r| ==>
              r[i].id != r[j].id && r[i].sku != r[j].sku && r[i].location != r[j].location
  {
    var r := seq(CatalogueSize, i requires 0 <= i < CatalogueSize => MockProduct(i, stocks[i]));
    forall i, j | 0 <= i < j < |r|
      ensures r[i].id != r[j].id && r[i].sku != r[j].sku && r[i].location != r[j].location
    {
      ProductIdInjective(i, j);
      SkuInjective(i, j);
      ShelfLocationInjective(i, j);
    }
    r
  }

  // --------------------------------------------------------- classifiers

  /** The stock cell's colour: destructive below 50, warning for 50–99, success from 100. */
  function StockColor(stock: nat): (c: string)
    ensures c == "text-destructive" <==> stock < 50
    ensures c == "text-warning" <==> 50 <= stock < 100
    ensures c == "text-success" <==> 100 <= stock
  {
    if stock < 50 then "text-destructive"
    else if stock < 100 then "text-warning"
    else "text-success"
  }

  /** `getStatusColor`: one badge class per known status, `''` for any other string. */
  function StatusColor(status: string): (c: string)
    ensures c == "" <==> status !in Statuses
    ensures c == "status-success" <==> status == Statuses[0]
    ensures c == "status-warning" <==> status == Statuses[1]
    ensures c == "status-error" <==> status == Statuses[2]
  {
    match status
    case "In Stock" => "status-success"
    case "Low Stock" => "status-warning"
    case "Out of Stock" => "status-error"
    case _ => ""
  }

  /** Every generated product's status badge gets a colour. */
  lemma MockStatusesColoured(i: nat, stock: StockLevel)
    ensures StatusColor(MockProduct(i, stock).status) != ""
  {
  }

  // -------------------------------------------------------------- search

  /** The search test: the term, case ignored, occurs in the name, the SKU or the category. */
  predicate Matches(p: Product, term: string) {
    || IncludesIgnoringCase(p.name, term)
    || IncludesIgnoringCase(p.sku, term)
    || IncludesIgnoringCase(p.category, term)
  }

  /** `filteredProducts`. */
  function FilterProducts(products: seq<Product>, term: string): (r: seq<Product>)
    ensures forall p :: p in r <==> p in products && Matches(p, term)
    ensures IsSubsequence(r, products)
  {
    FilterIsSubsequence(products, p => Matches(p, term));
    Filter(products, p => Matches(p, term))
  }

  /** An empty search term keeps every product in its place. */
  lemma EmptyTermKeepsAll(products: seq<Product>)
    ensures FilterProducts(products, "") == products
  {
    forall p | p in products
      ensures Matches(p, "")
    {
      IncludesEmpty(Lower(p.name));
    }
    FilterKeepsAll(products, p => Matches(p, ""));
  }

  /** Searching the search result again with the same term changes nothing. */
  lemma FilterProductsIdempotent(products: seq<Product>, term: string)
    ensures FilterProducts(FilterProducts(products, term), term) == FilterProducts(products, term)
  {
    FilterIdempotent(products, p => Matches(p, term));
  }

  /** Terms that lower-case alike select the same products. */
  lemma FilterProductsIgnoresCase(products: seq<Product>, t1: string, t2: string)
    requires Lower(t1) == Lower(t2)
    ensures FilterProducts(products, t1) == FilterProducts(products, t2)
  {
    FilterCongruent(products, p => Matches(p, t1), p => Matches(p, t2));
  }

  /** Typing the term in capitals finds the same products. */
  lemma FilterProductsUpperCase(products: seq<Product>, term: string)
    ensures FilterProducts(products, Upper(term)) == FilterProducts(products, term)
  {
    LowerOfUpper(term);
    FilterProductsIgnoresCase(products, Upper(term), term);
  }

  /** The mock catalogue never needs more than one page. */
  lemma MockCatalogueFitsOnePage(products: seq<Product>, term: string)
    requires |products| == CatalogueSize
    ensures Pager.TotalPages(|FilterProducts(products, term)|) <= 1
  {
  }

  // ---------------------------------------------------------- page state

  /** The page's React state. */
  datatype ProductsView = ProductsView(searchTerm: string, currentPage: int)

  const InitialView := ProductsView("", 1)

  datatype ProductsEvent = TypeSearch(term: string) | Press(button: Pager.Button)

  /** Pages of the current search result. */
  function TotalPagesOf(products: seq<Product>, v: ProductsView): nat {
    Pager.TotalPages(|FilterProducts(products, v.searchTerm)|)
  }

  /**
   * One interaction. Typing replaces the term and leaves the page number as
   * it was; a button moves the page only when it is shown and enabled.
   */
  function Step(products: seq<Product>, v: ProductsView, e: ProductsEvent): (r: ProductsView)
    ensures e.TypeSearch? ==> r.searchTerm == e.term && r.currentPage == v.currentPage
    ensures e.Press? ==> r.searchTerm == v.searchTerm
    ensures e.Press? ==> r.currentPage == Pager.Press(v.currentPage, TotalPagesOf(products, v), e.button)
    ensures e.Press? && 1 <= v.currentPage <= TotalPagesOf(products, v) ==>
              1 <= r.currentPage <= TotalPagesOf(products, r)
  {
    match e
    case TypeSearch(t) => v.(searchTerm := t)
    case Press(b) => v.(currentPage := Pager.Press(v.currentPage, TotalPagesOf(products, v), b))
  }

  function Run(products: seq<Product>, v: ProductsView, events: seq<ProductsEvent>): ProductsView
    decreases |events|
  {
    if events == [] then v else Run(products, Step(products, v, events[0]), events[1..])
  }

  /** The rows on screen. */
  function Displayed(products: seq<Product>, v: ProductsView): seq<Product> {
    Pager.PageOf(FilterProducts(products, v.searchTerm), v.currentPage)
  }

  /**
   * With the 50-product catalogue the pagination bar never appears, so
   * whatever the user does the page stays 1 and every match is on screen.
   */
  lemma {:induction false} MockCatalogueStaysOnPageOne(products: seq<Product>, v: ProductsView, events: seq<ProductsEvent>)
    requires |products| == CatalogueSize
    requires v.currentPage == 1
    ensures Run(products, v, events).currentPage == 1
    ensures Displayed(products, Run(products, v, events)) == FilterProducts(products, Run(products, v, events).searchTerm)
    decreases |events|
  {
    if events != [] {
      MockCatalogueFitsOnePage(products, v.searchTerm);
      MockCatalogueStaysOnPageOne(products, Step(products, v, events[0]), events[1..]);
    } else {
      var m := FilterProducts(products, v.searchTerm);
      if |m| > 0 {
        assert Pager.PageOf(m, 1) == m[0..Pager.Min(Pager.PerPage, |m|)];
      }
    }
  }
}
