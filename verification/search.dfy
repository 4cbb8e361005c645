/**
  The search page (src/pages/Search.tsx): the `q` URL parameter, the search box
  kept in step with it, and the case-insensitive filter over the fetched
  products by name, description and category name.
*/
module Search {
  import opened Options
  import opened Types
  import Lists
  import Text

  /** `searchParams.get('q')?.toLowerCase() || ''`: the lower-cased parameter, or empty when it is absent. */
  function Query(q: Option<string>): (r: string)
    ensures q.None? ==> r == ""
    ensures q.Some? ==> |r| == |q.value| && r == Text.Lower(q.value)
    ensures Text.Lower(r) == r
  {
    match q
    case None => ""
    case Some(s) => Text.LowerIdempotent(s); Text.Lower(s)
  }

  /** The filter callback: an empty query keeps everything, otherwise one of the three texts must contain it. */
  predicate Matches(query: string, p: Product) {
    query == ""
    || Text.Contains(Text.Lower(p.name), query)
    || Text.Contains(Text.Lower(p.description), query)
    || (p.category.Some? && p.category.value.name != "" && Text.Contains(Text.Lower(p.category.value.name), query))
  }

  function MatchTest(query: string): Product -> bool {
    (p: Product) => Matches(query, p)
  }

  /** `filteredProducts`. */
  function Results(products: seq<Product>, q: Option<string>): seq<Product> {
    Lists.Filter(products, MatchTest(Query(q)))
  }

  /** The search box's text for a URL parameter: `searchParams.get('q') || ''`. */
  function SearchTerm(q: Option<string>): (r: string)
    ensures q.None? ==> r == ""
    ensures q.Some? ==> r == q.value
  {
    q.GetOr("")
  }

  /** `handleSearch`: the box's text becomes the `q` parameter. */
  function Submit(term: string): (q: Option<string>)
    ensures q.Some?
  {
    Some(term)
  }

  /** Submitting a term and then syncing the box from the URL shows the same term again. */
  lemma SubmitThenSync(term: string)
    ensures SearchTerm(Submit(term)) == term
    ensures Query(Submit(term)) == Text.Lower(term)
  {
  }

  /** With no parameter, or an empty one, every product is a result. */
  lemma EmptyQueryKeepsAll(products: seq<Product>, q: Option<string>)
    requires q.None? || q.value == ""
    ensures Results(products, q) == products
  {
    Lists.FilterKeepsAll(products, MatchTest(Query(q)));
  }

  /** The results are the matching products, in the order they were fetched. */
  lemma ResultsSpec(products: seq<Product>, q: Option<string>)
    ensures Lists.IsSubsequence(Results(products, q), products)
    ensures forall p :: p in Results(products, q) <==> p in products && Matches(Query(q), p)
  {
    Lists.FilterIsSubsequence(products, MatchTest(Query(q)));
    forall p
      ensures p in Results(products, q) <==> p in products && Matches(Query(q), p)
    {
      Lists.FilterIn(products, MatchTest(Query(q)), p);
    }
  }

  /** The search ignores the case of the ASCII letters in the parameter. */
  lemma CaseInsensitive(products: seq<Product>, s: string)
    ensures Results(products, Some(s)) == Results(products, Some(Text.Lower(s)))
  {
    Text.LowerIdempotent(s);
  }

  /** A product whose name contains the term, in any case, is found. */
  lemma NameMatchFound(products: seq<Product>, p: Product, term: string)
    requires p in products
    requires Text.Contains(Text.Lower(p.name), Text.Lower(term))
    ensures p in Results(products, Some(term))
  {
    ResultsSpec(products, Some(term));
  }

  /** A product without a category name matches only through its name or its description. */
  lemma NoCategoryName(query: string, p: Product)
    requires p.category.None? || p.category.value.name == ""
    ensures Matches(query, p) <==>
      query == "" || Text.Contains(Text.Lower(p.name), query) || Text.Contains(Text.Lower(p.description), query)
  {
  }
}
