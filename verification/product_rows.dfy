/**
  The record mappings of the product API (src/api/products.ts): a `products`
  row read with its joined category becomes a `Product`; a new product becomes
  an insert row; a partial product becomes an update row. The queries
  themselves are not modelled: inserting and updating are stated as what the
  table then holds.
*/
module ProductRows {
  import opened Options
  import opened Types

  /** The `categories:category_id(id, name)` join. */
  datatype CategoryRef = CategoryRef(id: string, name: string)

  /** A row of the `products` table. */
  datatype ProductRow = ProductRow(
    id: string,
    name: string,
    description: string,
    price: int,
    images: seq<string>,
    categoryId: Option<string>,
    featured: bool,
    inStock: bool,
    createdAt: int)

  /** The joined record as a category: only its id and name are selected. */
  function JoinedCategory(joined: Option<CategoryRef>): Option<Category> {
    match joined
    case None => None
    case Some(c) => Some(Category(c.id, c.name, None, None))
  }

  /** Every read: the row's fields, `category` from the join and `inStock` from `in_stock`. */
  function Read(row: ProductRow, joined: Option<CategoryRef>): (p: Product)
    ensures p.inStock == row.inStock && p.featured == row.featured
    ensures p.category.Some? <==> joined.Some?
    ensures p.category.Some? ==> p.category.value.id == joined.value.id && p.category.value.name == joined.value.name
  {
    Product(row.id, row.name, row.description, row.price, row.images, row.categoryId,
      JoinedCategory(joined), row.featured, row.inStock, row.createdAt)
  }

  /** What create and update return: the written row without a join, so without a category. */
  function Returned(row: ProductRow): (p: Product)
    ensures p.category.None?
  {
    Read(row, None)
  }

  /** The fields `createProduct` reads; `featured` and `inStock` may be absent. */
  datatype NewProduct = NewProduct(
    name: string,
    description: string,
    price: int,
    images: seq<string>,
    categoryId: Option<string>,
    featured: Option<bool>,
    inStock: Option<bool>)

  /** The insert row; an absent `in_stock` is left to the column's default. */
  datatype InsertRow = InsertRow(
    name: string,
    description: string,
    price: int,
    images: seq<string>,
    categoryId: Option<string>,
    featured: bool,
    inStock: Option<bool>)

  /** `createProduct`'s row: `featured || false`, and `in_stock` from `inStock`. */
  function InsertPayload(p: NewProduct): (r: InsertRow)
    ensures r.featured <==> p.featured == Some(true)
    ensures r.inStock == p.inStock
  {
    InsertRow(p.name, p.description, p.price, p.images, p.categoryId,
      p.featured.GetOr(false), p.inStock)
  }

  /** The row the table holds after an insert, given the id and time it assigns and the default of `in_stock`. */
  function Inserted(id: string, createdAt: int, inStockDefault: bool, r: InsertRow): ProductRow {
    ProductRow(id, r.name, r.description, r.price, r.images, r.categoryId, r.featured,
      r.inStock.GetOr(inStockDefault), createdAt)
  }

  /**
    A `Partial<Product>`: every field may be absent (undefined). `category_id`
    may also be null, written `Some(None)`: the request body is JSON, which
    drops an undefined field but sends a null one.
  */
  datatype ProductChanges = ProductChanges(
    name: Option<string>,
    description: Option<string>,
    price: Option<int>,
    images: Option<seq<string>>,
    categoryId: Option<Option<string>>,
    category: Option<Category>,
    featured: Option<bool>,
    inStock: Option<bool>)

  /** The update row: there is no `category` and no `inStock` key, only `in_stock`. */
  datatype UpdateRow = UpdateRow(
    name: Option<string>,
    description: Option<string>,
    price: Option<int>,
    images: Option<seq<string>>,
    categoryId: Option<Option<string>>,
    featured: Option<bool>,
    inStock: Option<bool>)

  /** `updateProduct`'s row: `inStock` renamed to `in_stock`, the joined `category` dropped. */
  function UpdatePayload(c: ProductChanges): (u: UpdateRow)
    ensures u.inStock == c.inStock
    ensures u.name == c.name && u.description == c.description && u.price == c.price
    ensures u.images == c.images && u.categoryId == c.categoryId && u.featured == c.featured
  {
    UpdateRow(c.name, c.description, c.price, c.images, c.categoryId, c.featured, c.inStock)
  }

  /** The row after an update: each field that is present replaces the column; an absent one leaves it. */
  function Apply(row: ProductRow, u: UpdateRow): ProductRow {
    ProductRow(row.id,
      u.name.GetOr(row.name),
      u.description.GetOr(row.description),
      u.price.GetOr(row.price),
      u.images.GetOr(row.images),
      u.categoryId.GetOr(row.categoryId),
      u.featured.GetOr(row.featured),
      u.inStock.GetOr(row.inStock),
      row.createdAt)
  }

  /**
    Creating a product and reading the returned row gives back every field
    sent, `featured` as false when it was absent, `inStock` as the column
    default when it was absent, and no category.
  */
  lemma CreateRoundTrip(id: string, createdAt: int, inStockDefault: bool, p: NewProduct)
    ensures var q := Returned(Inserted(id, createdAt, inStockDefault, InsertPayload(p)));
      && q.id == id && q.createdAt == createdAt
      && q.name == p.name && q.description == p.description && q.price == p.price
      && q.images == p.images && q.categoryId == p.categoryId
      && q.featured == p.featured.GetOr(false)
      && q.inStock == p.inStock.GetOr(inStockDefault)
      && q.category.None?
  {
  }

  /**
    Updating a product and reading it back shows each change that was sent,
    with `inStock` carried through `in_stock`, leaves every absent field as it
    was, and takes the category from the join, never from the change.
  */
  lemma UpdateRoundTrip(row: ProductRow, c: ProductChanges, joined: Option<CategoryRef>)
    ensures var q := Read(Apply(row, UpdatePayload(c)), joined);
      && q.id == row.id && q.createdAt == row.createdAt
      && q.name == c.name.GetOr(row.name)
      && q.description == c.description.GetOr(row.description)
      && q.price == c.price.GetOr(row.price)
      && q.images == c.images.GetOr(row.images)
      && q.categoryId == c.categoryId.GetOr(row.categoryId)
      && q.featured == c.featured.GetOr(row.featured)
      && q.inStock == c.inStock.GetOr(row.inStock)
      && q.category == JoinedCategory(joined)
  {
  }

  /** An update with nothing present leaves the row as it was. */
  lemma EmptyUpdateKeepsRow(row: ProductRow)
    ensures Apply(row, UpdatePayload(ProductChanges(None, None, None, None, None, None, None, None))) == row
  {
  }
}
