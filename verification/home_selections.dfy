/**
  The home page's two product rows (src/components/home/NewArrivalsFeatured.tsx):
  the first four featured products, and the four newest products.
*/
module HomeSelections {
  import opened Types
  import Lists
  import Catalogue

  /** `products.filter(p => p.featured).slice(0, 4)`. */
  function Featured(products: seq<Product>): seq<Product> {
    Lists.Take(Catalogue.FeaturedIn(products), 4)
  }

  /** The sort key that puts later creation times first. */
  function Newest(p: Product): int { -p.createdAt }

  /** A copy of the products sorted newest first, then `slice(0, 4)`. */
  function NewArrivals(products: seq<Product>): seq<Product> {
    Lists.Take(Lists.SortBy(products, Newest), 4)
  }

  /**
    The featured row holds the first four featured products in fetched order,
    or every featured product when there are fewer than four.
  */
  lemma FeaturedSpec(products: seq<Product>)
    ensures var r := Featured(products);
      && |r| == (if |Catalogue.FeaturedIn(products)| < 4 then |Catalogue.FeaturedIn(products)| else 4)
      && r == Catalogue.FeaturedIn(products)[..|r|]
      && Lists.IsSubsequence(r, products)
      && (forall i :: 0 <= i < |r| ==> r[i].featured)
      && (|r| < 4 ==> forall p :: p in products && p.featured ==> p in r)
  {
    var all := Catalogue.FeaturedIn(products);
    Lists.TakeIsSubsequence(all, 4);
    Catalogue.FeaturedSpec(products);
    Lists.SubsequenceTransitive(Featured(products), all, products);
  }

  /**
    The new-arrivals row holds four products, or all when there are fewer,
    newest first, each one fetched, and no product left out is newer than the
    last one shown.
  */
  lemma NewArrivalsSpec(products: seq<Product>)
    ensures var r := NewArrivals(products);
      && |r| == (if |products| < 4 then |products| else 4)
      && (forall i, j :: 0 <= i < j < |r| ==> r[i].createdAt >= r[j].createdAt)
      && (forall i :: 0 <= i < |r| ==> r[i] in products)
      && multiset(r) <= multiset(products)
      && (forall p :: p in products && p !in r ==> p.createdAt <= r[|r| - 1].createdAt)
  {
    var r := NewArrivals(products);
    Lists.TakeSubMultiset(Lists.SortBy(products, Newest), 4);
    forall i | 0 <= i < |r|
      ensures r[i] in products
    {
      assert r[i] in multiset(r);
    }
    NoneLeftOutNewer(products);
  }

  /** A product the new-arrivals row leaves out is no newer than the last one it shows. */
  lemma NoneLeftOutNewer(products: seq<Product>)
    ensures var r := NewArrivals(products);
      forall p :: p in products && p !in r ==> p.createdAt <= r[|r| - 1].createdAt
  {
    var sorted := Lists.SortBy(products, Newest);
    var r := NewArrivals(products);
    forall p | p in products && p !in r
      ensures p.createdAt <= r[|r| - 1].createdAt
    {
      assert p in multiset(sorted);
      var j :| 0 <= j < |sorted| && sorted[j] == p;
      assert Newest(sorted[|r| - 1]) <= Newest(sorted[j]);
    }
  }
}
