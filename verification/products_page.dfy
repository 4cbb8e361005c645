/**
  The product listing page (src/pages/Products.tsx): the filter state, its
  reset, and the effect that turns the fetched products into the shown list by
  an optional category filter, a price-range filter, an optional in-stock
  filter and a stable sort chosen by the sort order.
*/
module ProductsPage {
  import opened Options
  import opened Types
  import Lists

  /** The page's four pieces of filter state; prices are in cents. */
  datatype Filters = Filters(
    selectedCategory: Option<string>,
    sortOrder: string,
    priceRange: (int, int),
    inStockOnly: bool)

  /** The state the page starts in: every category, featured first, $0 to $2000, out-of-stock shown. */
  const InitialFilters := Filters(None, "featured", (0, 200000), false)

  /** `resetFilters` puts every filter back to the state the page starts in. */
  function ResetFilters(f: Filters): (r: Filters)
    ensures r.selectedCategory.None? && !r.inStockOnly
    ensures r.sortOrder == "featured" && r.priceRange == (0, 200000)
  {
    InitialFilters
  }

  /** The category radio group's `setSelectedCategory(value || null)`. */
  function SelectCategory(f: Filters, value: string): (r: Filters)
    ensures r.selectedCategory.None? <==> value == ""
    ensures r.selectedCategory.Some? ==> r.selectedCategory.value == value
    ensures r.sortOrder == f.sortOrder && r.priceRange == f.priceRange && r.inStockOnly == f.inStockOnly
  {
    f.(selectedCategory := if value == "" then None else Some(value))
  }

  /** `if (selectedCategory)`: null and the empty string leave the category filter off. */
  predicate CategoryActive(f: Filters) {
    f.selectedCategory.Some? && f.selectedCategory.value != ""
  }

  function InCategory(id: string): Product -> bool {
    (p: Product) => p.categoryId == Some(id)
  }

  function InPriceRange(range: (int, int)): Product -> bool {
    (p: Product) => range.0 <= p.price <= range.1
  }

  function InStock(p: Product): bool { p.inStock }

  /**
    The comparator of each sort order as a key whose differences have the
    comparator's sign. `rank` orders names as `localeCompare` does. Any order
    the page does not name sorts featured products first.
  */
  function SortKey(order: string, rank: string -> int): Product -> int {
    if order == "price-asc" then (p: Product) => p.price
    else if order == "price-desc" then (p: Product) => -p.price
    else if order == "name-asc" then (p: Product) => rank(p.name)
    else if order == "name-desc" then (p: Product) => -rank(p.name)
    else (p: Product) => if p.featured then 0 else 1
  }

  /** The filters and the sort, applied in the page's order to a copy of the fetched list. */
  function FilterAndSort(all: seq<Product>, f: Filters, rank: string -> int): seq<Product> {
    var byCategory := if CategoryActive(f) then Lists.Filter(all, InCategory(f.selectedCategory.value)) else all;
    var byPrice := Lists.Filter(byCategory, InPriceRange(f.priceRange));
    var byStock := if f.inStockOnly then Lists.Filter(byPrice, InStock) else byPrice;
    Lists.SortBy(byStock, SortKey(f.sortOrder, rank))
  }

  /** The list the page shows: unchanged while nothing has been fetched. */
  function Shown(all: seq<Product>, f: Filters, rank: string -> int, previous: seq<Product>): seq<Product> {
    if |all| == 0 then previous else FilterAndSort(all, f, rank)
  }

  /** A product passes the filters when it meets every one that is switched on. */
  predicate Passes(f: Filters, p: Product) {
    && (CategoryActive(f) ==> p.categoryId == f.selectedCategory)
    && f.priceRange.0 <= p.price <= f.priceRange.1
    && (f.inStockOnly ==> p.inStock)
  }

  function PassesTest(f: Filters): Product -> bool {
    (p: Product) => Passes(f, p)
  }

  /** The three filters in a row keep exactly the products that pass all of them, in fetched order. */
  lemma FiltersCompose(all: seq<Product>, f: Filters)
    ensures var byCategory := if CategoryActive(f) then Lists.Filter(all, InCategory(f.selectedCategory.value)) else all;
      var byPrice := Lists.Filter(byCategory, InPriceRange(f.priceRange));
      (if f.inStockOnly then Lists.Filter(byPrice, InStock) else byPrice) == Lists.Filter(all, PassesTest(f))
  {
    var price := InPriceRange(f.priceRange);
    if CategoryActive(f) {
      var cat := InCategory(f.selectedCategory.value);
      var catPrice := (p: Product) => cat(p) && price(p);
      if f.inStockOnly {
        Lists.FilterFilter(all, cat, price, catPrice);
        Lists.FilterFilter(all, catPrice, InStock, PassesTest(f));
      } else {
        Lists.FilterFilter(all, cat, price, PassesTest(f));
      }
    } else if f.inStockOnly {
      Lists.FilterFilter(all, price, InStock, PassesTest(f));
    } else {
      Lists.FilterAgree(all, price, PassesTest(f));
    }
  }

  /** The page shows each product that passes the filters as often as it was fetched, and nothing else. */
  lemma FilterAndSortSpec(all: seq<Product>, f: Filters, rank: string -> int)
    ensures multiset(FilterAndSort(all, f, rank)) == multiset(Lists.Filter(all, PassesTest(f)))
    ensures forall p :: p in FilterAndSort(all, f, rank) <==> p in all && Passes(f, p)
  {
    FiltersCompose(all, f);
    var r := FilterAndSort(all, f, rank);
    forall p
      ensures p in r <==> p in all && Passes(f, p)
    {
      assert p in r <==> p in multiset(r);
      Lists.FilterIn(all, PassesTest(f), p);
    }
  }

  /** Each sort order puts the shown list in its order; any other order puts featured products first. */
  lemma SortOrders(all: seq<Product>, f: Filters, rank: string -> int)
    ensures var r := FilterAndSort(all, f, rank);
      && (f.sortOrder == "price-asc" ==> forall i, j :: 0 <= i < j < |r| ==> r[i].price <= r[j].price)
      && (f.sortOrder == "price-desc" ==> forall i, j :: 0 <= i < j < |r| ==> r[i].price >= r[j].price)
      && (f.sortOrder == "name-asc" ==> forall i, j :: 0 <= i < j < |r| ==> rank(r[i].name) <= rank(r[j].name))
      && (f.sortOrder == "name-desc" ==> forall i, j :: 0 <= i < j < |r| ==> rank(r[i].name) >= rank(r[j].name))
      && (f.sortOrder !in {"price-asc", "price-desc", "name-asc", "name-desc"} ==>
            forall i, j :: 0 <= i < j < |r| && r[j].featured ==> r[i].featured)
  {
    var r := FilterAndSort(all, f, rank);
    var key := SortKey(f.sortOrder, rank);
    assert forall i, j :: 0 <= i < j < |r| ==> key(r[i]) <= key(r[j]);
  }

  /** Before the products arrive the shown list stays as it was. */
  lemma NothingFetched(f: Filters, rank: string -> int, previous: seq<Product>)
    ensures Shown([], f, rank, previous) == previous
  {
  }

  /** After a reset the page shows every fetched product priced from $0 to $2000, featured first. */
  lemma ResetShows(all: seq<Product>, f: Filters, rank: string -> int)
    ensures var r := FilterAndSort(all, ResetFilters(f), rank);
      && (forall p :: p in r <==> p in all && 0 <= p.price <= 200000)
      && (forall i, j :: 0 <= i < j < |r| && r[j].featured ==> r[i].featured)
  {
    FilterAndSortSpec(all, ResetFilters(f), rank);
    SortOrders(all, ResetFilters(f), rank);
  }
}
