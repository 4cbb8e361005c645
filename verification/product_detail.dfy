/**
  The product page (src/pages/ProductDetail.tsx): looking the product up in
  the static catalogue, the quantity selector, adding to the cart, and the
  "related products" row.
*/
module ProductDetail {
  import opened Options
  import opened Types
  import Lists
  import Catalogue
  import Cart

  /**
    `getProductById(productId || '')` over the catalogue `ps`: a missing route
    parameter looks up the empty id.
  */
  function ProductFor(ps: seq<Product>, productId: Option<string>): (r: Option<Product>)
    ensures r.Some? ==> r.value in ps && r.value.id == productId.GetOr("")
    ensures r.None? <==> forall i :: 0 <= i < |ps| ==> ps[i].id != productId.GetOr("")
  {
    Lists.Find(ps, Catalogue.HasProductId(productId.GetOr("")))
  }

  /** No catalogue product has the empty id, so a missing parameter shows "Product Not Found". */
  lemma MissingParamNotFound()
    ensures ProductFor(Catalogue.Products, None).None?
  {
    assert forall i :: 0 <= i < |Catalogue.Products| ==> Catalogue.Products[i].id != "";
  }

  /** The selector starts at one. */
  const InitialQuantity := 1

  /** `decreaseQuantity`: one less, but never below one. */
  function Decrease(q: int): (r: int)
    ensures q > 1 ==> r == q - 1
    ensures q <= 1 ==> r == q
  {
    if q > 1 then q - 1 else q
  }

  /** `increaseQuantity`. */
  function Increase(q: int): (r: int)
    ensures r > q
  {
    q + 1
  }

  datatype Click = Minus | Plus

  /** The quantity after a sequence of clicks on the selector's buttons. */
  function AfterClicks(q: int, clicks: seq<Click>): int
    decreases |clicks|
  {
    if |clicks| == 0 then q
    else AfterClicks(if clicks[0] == Minus then Decrease(q) else Increase(q), clicks[1..])
  }

  /** However the buttons are pressed, the selected quantity stays at least one. */
  lemma {:induction false} ClicksKeepPositive(q: int, clicks: seq<Click>)
    requires q >= 1
    ensures AfterClicks(q, clicks) >= 1
    decreases |clicks|
  {
    if |clicks| > 0 {
      ClicksKeepPositive(if clicks[0] == Minus then Decrease(q) else Increase(q), clicks[1..]);
    }
  }

  /** A press on minus undoes a press on plus. */
  lemma MinusUndoesPlus(q: int, clicks: seq<Click>)
    requires q >= 1
    ensures AfterClicks(q, [Plus, Minus] + clicks) == AfterClicks(q, clicks)
  {
    assert ([Plus, Minus] + clicks)[1..][1..] == clicks;
  }

  /** `handleAddToCart`: `addItem(product, quantity)`. */
  function AddToCart(cart: Cart.CartState, product: Product, quantity: int): Cart.CartState {
    Cart.Reduce(cart, Cart.AddItem(product, Some(quantity)))
  }

  /** Adding after any clicks puts exactly the selected quantity of the product into the cart. */
  lemma AddToCartAddsSelection(cart: Cart.CartState, product: Product, clicks: seq<Click>)
    ensures var q := AfterClicks(InitialQuantity, clicks);
      Cart.ItemCount(AddToCart(cart, product, q).items) == Cart.ItemCount(cart.items) + q
  {
    var q := AfterClicks(InitialQuantity, clicks);
    ClicksKeepPositive(InitialQuantity, clicks);
    assert Cart.AddQuantity(Some(q)) == q;
    match Lists.IndexWhere(cart.items, Cart.HasId(product.id))
    case Some(k) =>
      Cart.AddExisting(cart, product, Some(q), k);
    case None =>
      Cart.AddNew(cart, product, Some(q));
  }

  function NotId(id: string): Product -> bool {
    (p: Product) => p.id != id
  }

  /** Up to four other products of the product's own category, in catalogue order. */
  function Related(ps: seq<Product>, product: Product): seq<Product> {
    Lists.Take(Lists.Filter(Catalogue.ProductsInCategory(ps, product.categoryId), NotId(product.id)), 4)
  }

  /**
    The related row holds the first four other products of the product's
    category in catalogue order, or all of them when there are fewer: none of
    them the product itself, all of its category.
  */
  lemma RelatedSpec(ps: seq<Product>, product: Product)
    ensures var others := Lists.Filter(Catalogue.ProductsInCategory(ps, product.categoryId), NotId(product.id));
      var r := Related(ps, product);
      && |r| == (if |others| < 4 then |others| else 4)
      && r == others[..|r|]
      && Lists.IsSubsequence(r, ps)
      && (forall i :: 0 <= i < |r| ==> r[i].id != product.id && r[i].categoryId == product.categoryId)
      && (|r| < 4 ==> forall p :: p in ps && p.id != product.id && p.categoryId == product.categoryId ==> p in r)
  {
    var same := Catalogue.ProductsInCategory(ps, product.categoryId);
    var others := Lists.Filter(same, NotId(product.id));
    var r := Related(ps, product);
    Lists.FilterIsSubsequence(same, NotId(product.id));
    Lists.FilterIsSubsequence(ps, Catalogue.InCategory(product.categoryId));
    Lists.TakeIsSubsequence(others, 4);
    Lists.SubsequenceTransitive(others, same, ps);
    Lists.SubsequenceTransitive(r, others, ps);
    forall i | 0 <= i < |r|
      ensures r[i].id != product.id && r[i].categoryId == product.categoryId
    {
      Lists.FilterIn(same, NotId(product.id), r[i]);
      Lists.FilterIn(ps, Catalogue.InCategory(product.categoryId), r[i]);
    }
    forall p | |r| < 4 && p in ps && p.id != product.id && p.categoryId == product.categoryId
      ensures p in r
    {
      Lists.FilterIn(ps, Catalogue.InCategory(product.categoryId), p);
      Lists.FilterIn(same, NotId(product.id), p);
    }
  }

  /**
    JavaScript's `===` between a product's `category_id` (a string, or
    undefined) and the page's argument `product.category` (a category record,
    or undefined): a string is never strictly equal to an object, so only two
    undefined values compare equal.
  */
  predicate StrictEquals(categoryId: Option<string>, category: Option<Category>) {
    categoryId.None? && category.None?
  }

  function SameAsArgument(category: Option<Category>): Product -> bool {
    (p: Product) => StrictEquals(p.categoryId, category)
  }

  /** The related row as the page computes it, passing the category record where an id is expected. */
  function RelatedAsWritten(ps: seq<Product>, product: Product): seq<Product> {
    Lists.Take(Lists.Filter(Lists.Filter(ps, SameAsArgument(product.category)), NotId(product.id)), 4)
  }

  /** For any product that has a category the row as written is empty. */
  lemma RelatedAsWrittenEmpty(ps: seq<Product>, product: Product)
    requires product.category.Some?
    ensures RelatedAsWritten(ps, product) == []
  {
    Lists.FilterKeepsNone(ps, SameAsArgument(product.category));
  }

  /** Another product of the same category always makes the corrected row non-empty. */
  lemma RelatedNonEmpty(ps: seq<Product>, product: Product, other: Product)
    requires other in ps && other.id != product.id && other.categoryId == product.categoryId
    ensures |Related(ps, product)| > 0
  {
    Lists.FilterIn(ps, Catalogue.InCategory(product.categoryId), other);
    Lists.FilterIn(Catalogue.ProductsInCategory(ps, product.categoryId), NotId(product.id), other);
  }

  /** The first catalogue product has other smartphones to show, yet the page shows none. */
  lemma RelatedCounterexample()
    ensures RelatedAsWritten(Catalogue.Products, Catalogue.Product1) == []
    ensures |Related(Catalogue.Products, Catalogue.Product1)| > 0
  {
    RelatedAsWrittenEmpty(Catalogue.Products, Catalogue.Product1);
    assert Catalogue.Products[4] == Catalogue.Product5;
    RelatedNonEmpty(Catalogue.Products, Catalogue.Product1, Catalogue.Product5);
  }
}
