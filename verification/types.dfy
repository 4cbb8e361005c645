/**
  The storefront's records (src/types/index.ts, and the fields the pages and the
  catalogue use beyond it). Money is an integer number of cents; a field that
  may be `undefined` is an `Option`.
*/
module Types {
  import opened Options

  datatype Category = Category(
    id: string,
    name: string,
    description: Option<string>,
    image: Option<string>)

  /**
    A product as the pages see it. `categoryId` is the `category_id` column and
    `category` the joined category record; `featured` absent reads as false;
    `createdAt` is the `created_at` timestamp as an integer.
  */
  datatype Product = Product(
    id: string,
    name: string,
    description: string,
    price: int,
    images: seq<string>,
    categoryId: Option<string>,
    category: Option<Category>,
    featured: bool,
    inStock: bool,
    createdAt: int)

  datatype ShippingMethod = ShippingMethod(id: string, name: string, price: int)

  datatype User = User(id: string, email: string)
}
