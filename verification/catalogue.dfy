/**
  The static catalogue (src/data/products.ts): four categories, twelve
  products, and the lookups over them. Prices are in cents. The static records
  carry no creation time; it is 0 here.
*/
module Catalogue {
  import opened Options
  import opened Types
  import Lists

  const Smartphones: Category := Category(
    "smartphones", "Smartphones",
    Some("Latest smartphones with cutting-edge technology"),
    Some("https://images.unsplash.com/photo-1598327105666-5b89351aff97?q=80&w=2042&auto=format&fit=crop"))

  const Laptops: Category := Category(
    "laptops", "Laptops",
    Some("Powerful laptops for work and play"),
    Some("https://images.unsplash.com/photo-1496181133206-80ce9b88a853?q=80&w=2071&auto=format&fit=crop"))

  const Tablets: Category := Category(
    "tablets", "Tablets",
    Some("Versatile tablets for creativity and entertainment"),
    Some("https://images.unsplash.com/photo-1544244015-0df4b3ffc6b0?q=80&w=1915&auto=format&fit=crop"))

  const Wearables: Category := Category(
    "wearables", "Wearables",
    Some("Smart wearable devices to enhance your lifestyle"),
    Some("https://images.unsplash.com/photo-1579586337278-3befd40fd17a?q=80&w=1972&auto=format&fit=crop"))

  const Categories: seq<Category> := [Smartphones, Laptops, Tablets, Wearables]

  const Product1: Product := Product(
    "product-1", "ProPhone 14 Pro",
    "The most advanced smartphone with a stunning display, powerful cameras, and all-day battery life.",
    99900,
    ["https://images.unsplash.com/photo-1606041011872-596597976b25?q=80&w=1974&auto=format&fit=crop",
      "https://images.unsplash.com/photo-1691272048033-2a4751c63427?q=80&w=1972&auto=format&fit=crop",
      "https://images.unsplash.com/photo-1592950630581-03cb41342cc5?q=80&w=1942&auto=format&fit=crop"],
    Some("smartphones"), Some(Smartphones), true, true, 0)

  const Product2: Product := Product(
    "product-2", "UltraBook Pro",
    "Thin and light laptop with exceptional performance and battery life.",
    129900,
    ["https://images.unsplash.com/photo-1611186871348-b1ce696e52c9?q=80&w=2070&auto=format&fit=crop",
      "https://images.unsplash.com/photo-1498050108023-c5249f4df085?q=80&w=2072&auto=format&fit=crop"],
    Some("laptops"), Some(Laptops), true, true, 0)

  const Product3: Product := Product(
    "product-3", "TabletPro 12",
    "The perfect tablet for work and play with an immersive display and powerful processor.",
    79900,
    ["https://images.unsplash.com/photo-1544244015-0df4b3ffc6b0?q=80&w=1915&auto=format&fit=crop",
      "https://images.unsplash.com/photo-1527698266440-12104e498b76?q=80&w=2070&auto=format&fit=crop"],
    Some("tablets"), Some(Tablets), true, true, 0)

  const Product4: Product := Product(
    "product-4", "SmartWatch Series 8",
    "Advanced health features, fitness tracking, and connectivity in a sleek design.",
    39900,
    ["https://images.unsplash.com/photo-1579586337278-3befd40fd17a?q=80&w=1972&auto=format&fit=crop",
      "https://images.unsplash.com/photo-1546868871-7041f2a55e12?q=80&w=1964&auto=format&fit=crop"],
    Some("wearables"), Some(Wearables), true, true, 0)

  const Product5: Product := Product(
    "product-5", "ProPhone 14",
    "Incredible performance, cameras, and battery life in a beautiful design.",
    79900,
    ["https://images.unsplash.com/photo-1605236453806-6ff36851218e?q=80&w=1974&auto=format&fit=crop",
      "https://images.unsplash.com/photo-1565849904461-04a58ad377e0?q=80&w=1972&auto=format&fit=crop"],
    Some("smartphones"), Some(Smartphones), false, true, 0)

  const Product6: Product := Product(
    "product-6", "UltraBook Air",
    "Incredibly thin and light laptop with all-day battery life.",
    99900,
    ["https://images.unsplash.com/photo-1531297484001-80022131f5a1?q=80&w=2020&auto=format&fit=crop",
      "https://images.unsplash.com/photo-1603302576837-37561b2e2302?q=80&w=2068&auto=format&fit=crop"],
    Some("laptops"), Some(Laptops), false, true, 0)

  const Product7: Product := Product(
    "product-7", "TabletPro Mini",
    "The perfect tablet for on-the-go productivity and entertainment.",
    49900,
    ["https://images.unsplash.com/photo-1623126908029-58cb08a2b272?q=80&w=1974&auto=format&fit=crop",
      "https://images.unsplash.com/photo-1592434134753-a70baf7979d5?q=80&w=1974&auto=format&fit=crop"],
    Some("tablets"), Some(Tablets), false, true, 0)

  const Product8: Product := Product(
    "product-8", "SmartWatch SE",
    "Essential features for a more active, healthy life.",
    24900,
    ["https://images.unsplash.com/photo-1508685096489-7aacd43bd3b1?q=80&w=2070&auto=format&fit=crop",
      "https://images.unsplash.com/photo-1673742418427-01044d1ee423?q=80&w=1941&auto=format&fit=crop"],
    Some("wearables"), Some(Wearables), false, true, 0)

  const Product9: Product := Product(
    "product-9", "ProPhone 14 Plus",
    "Super Retina XDR display, all-day battery life, and advanced camera system.",
    89900,
    ["https://images.unsplash.com/photo-1602992708529-c9fdb12905c9?q=80&w=2070&auto=format&fit=crop",
      "https://images.unsplash.com/photo-1508811160681-cbf841afdfea?q=80&w=2073&auto=format&fit=crop"],
    Some("smartphones"), Some(Smartphones), false, true, 0)

  const Product10: Product := Product(
    "product-10", "UltraBook Pro 16",
    "The ultimate professional laptop with incredible performance.",
    199900,
    ["https://images.unsplash.com/photo-1603302576837-37561b2e2302?q=80&w=2068&auto=format&fit=crop",
      "https://images.unsplash.com/photo-1611186871348-b1ce696e52c9?q=80&w=2070&auto=format&fit=crop"],
    Some("laptops"), Some(Laptops), false, true, 0)

  const Product11: Product := Product(
    "product-11", "Smart Earbuds Pro",
    "Immersive sound with active noise cancellation.",
    24900,
    ["https://images.unsplash.com/photo-1606220588913-b3aacb4d2f46?q=80&w=1970&auto=format&fit=crop",
      "https://images.unsplash.com/photo-1597355283276-a77dbbbbd8d7?q=80&w=1964&auto=format&fit=crop"],
    Some("wearables"), Some(Wearables), false, true, 0)

  const Product12: Product := Product(
    "product-12", "Smart Speaker",
    "Room-filling sound with intelligent voice assistant.",
    9900,
    ["https://images.unsplash.com/photo-1589003511963-9b781ef11f81?q=80&w=1964&auto=format&fit=crop",
      "https://images.unsplash.com/photo-1557825835-8d022694ef5c?q=80&w=1974&auto=format&fit=crop"],
    Some("wearables"), Some(Wearables), false, true, 0)

  const Products: seq<Product> := [
    Product1, Product2, Product3, Product4, Product5, Product6, Product7, Product8, Product9, Product10, Product11, Product12]

  function IsFeatured(p: Product): bool { p.featured }

  function HasProductId(id: string): Product -> bool {
    (p: Product) => p.id == id
  }

  function InCategory(categoryId: Option<string>): Product -> bool {
    (p: Product) => p.categoryId == categoryId
  }

  function HasCategoryId(id: string): Category -> bool {
    (c: Category) => c.id == id
  }

  /** `products.filter(product => product.featured)`. */
  function FeaturedIn(ps: seq<Product>): seq<Product> {
    Lists.Filter(ps, IsFeatured)
  }

  /** `products.filter(product => product.category_id === categoryId)`. */
  function ProductsInCategory(ps: seq<Product>, categoryId: Option<string>): seq<Product> {
    Lists.Filter(ps, InCategory(categoryId))
  }

  function GetFeaturedProducts(): seq<Product> {
    FeaturedIn(Products)
  }

  function GetProductById(id: string): Option<Product> {
    Lists.Find(Products, HasProductId(id))
  }

  function GetProductsByCategory(categoryId: string): seq<Product> {
    ProductsInCategory(Products, Some(categoryId))
  }

  function GetAllProducts(): seq<Product> {
    Products
  }

  function GetCategoryById(id: string): Option<Category> {
    Lists.Find(Categories, HasCategoryId(id))
  }

  /** No two products share an id. */
  predicate DistinctProductIds(ps: seq<Product>) {
    forall i, j :: 0 <= i < j < |ps| ==> ps[i].id != ps[j].id
  }

  /** No two categories share an id. */
  predicate DistinctCategoryIds(cs: seq<Category>) {
    forall i, j :: 0 <= i < j < |cs| ==> cs[i].id != cs[j].id
  }

  /** Every product names a defined category and carries that category's record. */
  predicate CategoriesResolve(ps: seq<Product>) {
    forall i :: 0 <= i < |ps| ==>
      ps[i].categoryId.Some? && GetCategoryById(ps[i].categoryId.value) == ps[i].category
      && ps[i].category.Some?
  }

  /** Every product carries one of the defined categories, and its `category_id` is that category's id. */
  predicate EmbedsDefinedCategory(ps: seq<Product>) {
    forall i :: 0 <= i < |ps| ==>
      ps[i].category.Some? && ps[i].category.value in Categories && ps[i].categoryId == Some(ps[i].category.value.id)
  }

  lemma ProductsEmbedDefinedCategories()
    ensures EmbedsDefinedCategory(Products)
  {
  }

  /** The catalogue's product ids, in order. */
  const ProductIds: seq<string> := [
    "product-1", "product-2", "product-3", "product-4", "product-5", "product-6",
    "product-7", "product-8", "product-9", "product-10", "product-11", "product-12"]

  lemma ProductIdsListed()
    ensures |Products| == |ProductIds|
    ensures forall i :: 0 <= i < |Products| ==> Products[i].id == ProductIds[i]
  {
  }

  lemma ProductIdsListDistinct()
    ensures forall i, j :: 0 <= i < j < |ProductIds| ==> ProductIds[i] != ProductIds[j]
  {
  }

  lemma ProductIdsDistinct()
    ensures DistinctProductIds(Products)
  {
    ProductIdsListed();
    ProductIdsListDistinct();
  }

  lemma CategoryIdsDistinct()
    ensures DistinctCategoryIds(Categories)
  {
  }

  /** Each category of the list is what `getCategoryById` returns for its id. */
  lemma CategoryLookups()
    ensures forall k :: 0 <= k < |Categories| ==> GetCategoryById(Categories[k].id) == Some(Categories[k])
  {
    CategoryIdsDistinct();
    forall k | 0 <= k < |Categories|
      ensures GetCategoryById(Categories[k].id) == Some(Categories[k])
    {
      Lists.FindOnly(Categories, HasCategoryId(Categories[k].id), k);
    }
  }

  /** The catalogue's own data invariant. */
  lemma CatalogueWellFormed()
    ensures |Products| == 12 && |Categories| == 4
    ensures DistinctProductIds(Products)
    ensures DistinctCategoryIds(Categories)
    ensures CategoriesResolve(Products)
  {
    ProductIdsDistinct();
    CategoryIdsDistinct();
    CategoryLookups();
    ProductsEmbedDefinedCategories();
    forall i | 0 <= i < |Products|
      ensures GetCategoryById(Products[i].categoryId.value) == Products[i].category
    {
      var c := Products[i].category.value;
      var k :| 0 <= k < |Categories| && Categories[k] == c;
    }
  }

  /** `getFeaturedProducts` keeps exactly the featured products, in catalogue order. */
  lemma FeaturedSpec(ps: seq<Product>)
    ensures var r := FeaturedIn(ps);
      && Lists.IsSubsequence(r, ps)
      && (forall i :: 0 <= i < |r| ==> r[i].featured && r[i] in ps)
      && (forall i :: 0 <= i < |ps| && ps[i].featured ==> ps[i] in r)
  {
    Lists.FilterIsSubsequence(ps, IsFeatured);
    Lists.FilterMembers(ps, IsFeatured);
  }

  /** `getProductsByCategory` keeps exactly the products of that category, in catalogue order. */
  lemma ByCategorySpec(ps: seq<Product>, categoryId: Option<string>)
    ensures var r := ProductsInCategory(ps, categoryId);
      && Lists.IsSubsequence(r, ps)
      && (forall i :: 0 <= i < |r| ==> r[i].categoryId == categoryId && r[i] in ps)
      && (forall i :: 0 <= i < |ps| && ps[i].categoryId == categoryId ==> ps[i] in r)
  {
    Lists.FilterIsSubsequence(ps, InCategory(categoryId));
    Lists.FilterMembers(ps, InCategory(categoryId));
  }

  /** With distinct ids, looking a product up by id finds nothing exactly when no product has it, and otherwise that product. */
  lemma LookupProductById(ps: seq<Product>, id: string, p: Product)
    requires DistinctProductIds(ps)
    ensures Lists.Find(ps, HasProductId(id)).None? <==> forall i :: 0 <= i < |ps| ==> ps[i].id != id
    ensures Lists.Find(ps, HasProductId(id)) == Some(p) <==> p in ps && p.id == id
  {
    if p in ps && p.id == id {
      var k :| 0 <= k < |ps| && ps[k] == p;
      Lists.FindOnly(ps, HasProductId(id), k);
    }
  }

  /** With distinct ids, looking a category up by id finds nothing exactly when no category has it, and otherwise that category. */
  lemma LookupCategoryById(cs: seq<Category>, id: string, c: Category)
    requires DistinctCategoryIds(cs)
    ensures Lists.Find(cs, HasCategoryId(id)).None? <==> forall i :: 0 <= i < |cs| ==> cs[i].id != id
    ensures Lists.Find(cs, HasCategoryId(id)) == Some(c) <==> c in cs && c.id == id
  {
    if c in cs && c.id == id {
      var k :| 0 <= k < |cs| && cs[k] == c;
      Lists.FindOnly(cs, HasCategoryId(id), k);
    }
  }

  /**
    `getProductById` finds nothing exactly when no product has the id; since
    the ids are distinct, what it finds is the one product with that id.
  */
  lemma ProductByIdSpec(id: string, p: Product)
    ensures GetProductById(id).None? <==> forall i :: 0 <= i < |Products| ==> Products[i].id != id
    ensures GetProductById(id) == Some(p) <==> p in Products && p.id == id
  {
    ProductIdsDistinct();
    LookupProductById(Products, id, p);
  }

  /** `getCategoryById` finds nothing exactly when no category has the id, and otherwise the one that has it. */
  lemma CategoryByIdSpec(id: string, c: Category)
    ensures GetCategoryById(id).None? <==> forall i :: 0 <= i < |Categories| ==> Categories[i].id != id
    ensures GetCategoryById(id) == Some(c) <==> c in Categories && c.id == id
  {
    CategoryIdsDistinct();
    LookupCategoryById(Categories, id, c);
  }

  /** When exactly the first `n` products are featured, the featured products are those `n`. */
  lemma FeaturedPrefix(ps: seq<Product>, n: nat)
    requires n <= |ps|
    requires forall i :: 0 <= i < n ==> ps[i].featured
    requires forall i :: n <= i < |ps| ==> !ps[i].featured
    ensures FeaturedIn(ps) == ps[..n]
  {
    var first, rest := ps[..n], ps[n..];
    assert ps == first + rest;
    Lists.FilterAppend(first, rest, IsFeatured);
    Lists.FilterKeepsAll(first, IsFeatured);
    Lists.FilterKeepsNone(rest, IsFeatured);
  }

  lemma FirstFourFeatured()
    ensures |Products| >= 4
    ensures forall i :: 0 <= i < 4 ==> Products[i].featured
    ensures forall i :: 4 <= i < |Products| ==> !Products[i].featured
  {
  }

  /** The featured products of the catalogue are its first four. */
  lemma FeaturedAreFirstFour()
    ensures GetFeaturedProducts() == Products[..4]
  {
    FirstFourFeatured();
    FeaturedPrefix(Products, 4);
  }
}
