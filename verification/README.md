# Storefront client logic in Dafny

A model of the client-side logic of a small e-commerce storefront written in
TypeScript and React over a hosted database. The model covers:

- the shopping cart reducer and its derived total and item count;
- the static product catalogue and its lookups;
- the product listing pipeline (category, price and stock filters, then a stable sort);
- the search page's case-insensitive substring filter;
- checkout: the address form, shipping selection, validation order, order total with 10% tax, and clearing the cart once the order exists;
- the product page: quantity selector, add to cart, related products;
- the admin product and category forms, and their create-or-update dialogs;
- the home page's featured and new-arrival rows;
- the row mappings of the product API.

Money is an integer number of cents, and tax is an exact `real`. A product has
both `categoryId` (the `category_id` column) and `category` (the joined
record). JavaScript behaviour is written out where it matters:

- `x || 1` and `x || ''`: 0 and the empty string are falsy;
- `findIndex` and `find` return the first match;
- `Array.prototype.sort` is stable, modelled as an insertion sort by an integer key whose differences have the comparator's sign;
- `toLowerCase` lower-cases the ASCII letters;
- `trim` removes JavaScript's white-space code points;
- `split('\n')` and `join('\n')` are modelled exactly;
- strict equality between a string and an object is always false.

Modules follow the source files. `Options`, `Lists` and `Text` are generic
helpers. `Types`, `Cart`, `Catalogue`, `ProductsPage`, `Search`, `Checkout`,
`ProductDetail`, `ProductForm`, `AdminDialog`, `ProductsManager`,
`CategoriesManager`, `HomeSelections` and `ProductRows` model the storefront.

Calls to the backend appear as parameters: `createOrder` in checkout, and the
id, creation time and column default assigned by an insert. Number formatting
and parsing in the product form are parameters too (`show`, `parsePrice`), and
so is `localeCompare`, as an integer rank of names (`rank`).

## Model

| member | source | states |
|---|---|---|
| Cart.Reduce | src/context/CartContext.tsx:22-97 | After any action, from any state, the total is the sum of price × quantity over the items. |
| Cart.AddExisting | src/context/CartContext.tsx:29-46 | ADD_ITEM for an id already in the cart grows the first line with that id by `quantity \|\| 1` (an omitted or zero quantity adds one). The length stays the same, every other line is unchanged, the item count grows by the added amount, and the total grows by the line's own price times it. |
| Cart.AddNew | src/context/CartContext.tsx:48-58 | ADD_ITEM for a new id appends the product with quantity `quantity \|\| 1` after the unchanged earlier lines; count and total grow accordingly. |
| Cart.AddKeepsUniqueIds | src/context/CartContext.tsx:29-58 | ADD_ITEM never creates a second line for an id. |
| Cart.RemoveSpec | src/context/CartContext.tsx:62-70 | REMOVE_ITEM keeps, in order, exactly the lines with another id; an absent id changes nothing; the total drops by the removed lines. |
| Cart.RemovePresent | src/context/CartContext.tsx:62-70 | With unique ids, removing a present id drops exactly its line and its line total. |
| Cart.UpdateSpec | src/context/CartContext.tsx:72-89 | UPDATE_QUANTITY with a quantity ≤ 0 equals REMOVE_ITEM. Otherwise only the quantity of the matching lines changes, length and order are kept, and an absent id is a no-op. |
| Cart.UpdatePresent | src/context/CartContext.tsx:80-88 | With unique ids, a positive update replaces one line's quantity and moves the total by that line's change. |
| Cart.ClearSpec | src/context/CartContext.tsx:91-92 | CLEAR_CART gives the empty cart with total 0 from any state, so it is idempotent; the initial state is valid. |
| Cart.ReduceKeepsValid | src/context/CartContext.tsx:26-97 | Every action keeps the total equal to the sum of the lines and the ids unique. |
| Cart.ReduceKeepsPositive | src/context/CartContext.tsx:35-38 | If no negative quantity is added, every quantity stays at least one. |
| Cart.ItemCountAtLeastLines | src/context/CartContext.tsx:148 | With positive quantities, `itemCount` (the sum of quantities) is at least the number of lines. |
| Cart.RunFromValid | src/context/CartContext.tsx:26-97 | Any sequence of dispatches keeps a valid cart valid, and positive when no negative quantity is added. |
| Cart.RunFromInitial | src/context/CartContext.tsx:17-20 | The provider's empty starting cart stays valid under every sequence of actions. |
| Catalogue.CatalogueWellFormed | src/data/products.ts:4-193 | Twelve products and four categories. Product and category ids are distinct. Every product's `category_id` names a defined category, and its embedded `category` is that category's record. |
| Catalogue.CategoryLookups | src/data/products.ts:211-213 | Each defined category is what `getCategoryById` returns for its id. |
| Catalogue.FeaturedSpec | src/data/products.ts:195-197 | `getFeaturedProducts` keeps exactly the featured products, in catalogue order. |
| Catalogue.FeaturedAreFirstFour | src/data/products.ts:195-197 | Over the static data, the featured products are the first four. |
| Catalogue.ProductByIdSpec | src/data/products.ts:199-201 | `getProductById` returns nothing exactly when no product has the id; because ids are distinct, it returns a product exactly when that product has the id. |
| Catalogue.ByCategorySpec | src/data/products.ts:203-205 | `getProductsByCategory` keeps exactly the products whose `category_id` equals the argument, in catalogue order. |
| Catalogue.LookupProductById | src/data/products.ts:199-201 | Over any list with distinct product ids, `find` by id returns nothing exactly when no product has the id, and otherwise that product. |
| Catalogue.LookupCategoryById | src/data/products.ts:211-213 | Over any list with distinct category ids, `find` by id returns nothing exactly when no category has the id, and otherwise that category. |
| Catalogue.FeaturedPrefix | src/data/products.ts:195-197 | When exactly the first n products are featured, `getFeaturedProducts` returns those n. |
| Catalogue.CategoryByIdSpec | src/data/products.ts:211-213 | `getCategoryById` returns nothing exactly when no category has the id, and otherwise the category with that id. |
| ProductsPage.ResetFilters | src/pages/Products.tsx:106-111 | Reset restores no category, `'featured'`, [$0, $2000] and in-stock-only off. |
| ProductsPage.SelectCategory | src/pages/Products.tsx:225 | Choosing the empty value clears the category; any other value selects it; the other filters stay. |
| ProductsPage.FiltersCompose | src/pages/Products.tsx:66-81 | The three filters in a row keep exactly the products that pass every active filter, in fetched order. |
| ProductsPage.FilterAndSortSpec | src/pages/Products.tsx:63-103 | The shown list is a permutation of the fetched products that pass the filters. A product is shown exactly when it was fetched and passes: price within the range (inclusive at both ends), category when one is selected, in stock when required. |
| ProductsPage.SortOrders | src/pages/Products.tsx:84-100 | `price-asc` gives non-decreasing prices and `price-desc` non-increasing ones. The name orders follow the name rank. Any other order puts every featured product before every non-featured one. |
| ProductsPage.NothingFetched | src/pages/Products.tsx:64 | With no fetched products, the shown list stays as it was. |
| ProductsPage.ResetShows | src/pages/Products.tsx:106-111 | After a reset, every fetched product priced $0–$2000 is shown, featured first. |
| Search.Query | src/pages/Search.tsx:30 | The query is empty when `q` is absent; otherwise it is `q` lower-cased, of the same length and already lower-case. |
| Search.SearchTerm | src/pages/Search.tsx:42 | The search box shows `q`, or the empty text when it is absent. |
| Search.SubmitThenSync | src/pages/Search.tsx:24-43 | A submitted term comes back unchanged into the box, and is searched for in lower case. |
| Search.EmptyQueryKeepsAll | src/pages/Search.tsx:30-31 | A missing or empty query returns every product. |
| Search.ResultsSpec | src/pages/Search.tsx:29-38 | A product is a result exactly when its name, description or category name, lower-cased, contains the lower-cased query. The results keep fetched order. |
| Search.CaseInsensitive | src/pages/Search.tsx:30-36 | Queries that differ only in letter case give the same results. |
| Search.NameMatchFound | src/pages/Search.tsx:34 | A product whose name contains the term, ignoring case, is found. |
| Search.NoCategoryName | src/pages/Search.tsx:36 | A product without a category name matches only through its name or description. |
| Checkout.HandleAddressChange | src/pages/Checkout.tsx:74-79 | The named field takes the value; every other field keeps its value. |
| Checkout.FirstMissing | src/pages/Checkout.tsx:105-115 | Nothing is missing exactly when every field but `line2` is non-empty. Otherwise it reports an empty required field with every earlier required field (line1, city, state, postal code, country) filled. |
| Checkout.OnMethodsLoaded | src/pages/Checkout.tsx:54-58 | Loaded methods are listed, and the first one, if any, is selected; nothing else changes. |
| Checkout.ShippingCost | src/pages/Checkout.tsx:120-121 | Shipping costs the price of the first method with the selected id, or 0 when no method has it. |
| Checkout.Check | src/pages/Checkout.tsx:86-115 | Submission passes every check exactly when a user is signed in, a non-empty method id is selected and no required field is empty. |
| Checkout.CheckOrder | src/pages/Checkout.tsx:86-115 | No user is reported before anything else, then a missing method, then the first missing field. |
| Checkout.SubmitSpec | src/pages/Checkout.tsx:85-150 | An order is placed exactly when every check passes and the backend creates it, and only then is the cart emptied. Otherwise the state is untouched, and a failure always shows a message. |
| Checkout.RejectedIgnoresBackend | src/pages/Checkout.tsx:86-115 | A rejected submission gives the same outcome whatever the backend would do, so no order is created. |
| Checkout.RequestSpec | src/pages/Checkout.tsx:120-133 | The order carries the cart's items, the address and the selected method, is paid by card, and totals 110% of the subtotal plus shipping. |
| Checkout.SummaryMatchesOrder | src/pages/Checkout.tsx:198-202 | The total the summary shows (subtotal + tax + `find(...)?.price \|\| 0`) equals the order's total. |
| Checkout.LoadedMethodSelected | src/pages/Checkout.tsx:56-58 | After non-empty methods load, shipping costs the first method's price. |
| ProductDetail.ProductFor | src/pages/ProductDetail.tsx:28 | The looked-up product is in the catalogue with the parameter's id (the empty id when absent), and nothing is found exactly when no product has that id. |
| ProductDetail.MissingParamNotFound | src/pages/ProductDetail.tsx:28-46 | Without a route parameter the page shows "Product Not Found". |
| ProductDetail.Decrease | src/pages/ProductDetail.tsx:57-61 | Decrease subtracts one only from a quantity above one. |
| ProductDetail.Increase | src/pages/ProductDetail.tsx:63-65 | Increase always raises the quantity. |
| ProductDetail.ClicksKeepPositive | src/pages/ProductDetail.tsx:25 | From the initial 1, no sequence of clicks brings the quantity below 1. |
| ProductDetail.MinusUndoesPlus | src/pages/ProductDetail.tsx:57-65 | A decrease right after an increase returns to the previous quantity. |
| ProductDetail.AddToCartAddsSelection | src/pages/ProductDetail.tsx:53-55 | Add to Cart adds exactly the selected quantity to the cart's item count. |
| ProductDetail.RelatedSpec | src/pages/ProductDetail.tsx:49-51 | With the category id passed, the related row is the first four other products of the same category in catalogue order, or all of them when there are fewer; none is the product itself. |
| ProductDetail.RelatedNonEmpty | src/pages/ProductDetail.tsx:49-51 | Another product of the same category makes the related row non-empty. |
| ProductDetail.RelatedAsWrittenEmpty | src/pages/ProductDetail.tsx:49 | As written, for every product with a category record, the related row is empty. |
| ProductDetail.RelatedCounterexample | src/pages/ProductDetail.tsx:49-51 | For the first catalogue product, the row as written is empty, while the corrected row is not. |
| ProductForm.InitialForm | src/components/admin/ProductForm.tsx:20-26 | A new product starts with empty texts, in stock and not featured. An existing one starts with its name, description, flags, price written out, image URLs joined one per line, and category id (empty when it has none). |
| ProductForm.Submit | src/components/admin/ProductForm.tsx:28-47 | Nothing is submitted exactly when the name, description, price or images text is empty. Otherwise name, description and flags pass unchanged, the price is the parsed text, the images are the non-blank lines, and a chosen category is sent as it is while none becomes absent. |
| ProductForm.ImageListSpec | src/components/admin/ProductForm.tsx:40 | The submitted images are exactly the lines that are not blank, in order: each non-blank line is kept as often as it occurs, no blank line is kept, and none kept holds a line break. |
| ProductForm.BlankFormRejected | src/components/admin/ProductForm.tsx:20-34 | A new product's untouched form cannot be submitted. |
| ProductForm.SubmitThenReload | src/components/admin/ProductForm.tsx:20-44 | Any submitted form, saved and loaded back, is the same form apart from the price text (the parsed price written out again), when no line of its images text is blank. |
| ProductForm.UnchangedEditRoundTrip | src/components/admin/ProductForm.tsx:20-44 | Submitting an existing product's form untouched gives back its fields, and its image list unchanged when no URL is blank or holds a line break. |
| AdminDialog.OpenCreate | src/components/admin/ProductsManager.tsx:99-102 | Opening to create opens the dialog with no record selected. |
| AdminDialog.OpenEdit | src/components/admin/ProductsManager.tsx:104-107 | Opening to edit opens the dialog with that record selected. |
| AdminDialog.Dispatch | src/components/admin/ProductsManager.tsx:86-90 | With a selected record the submit is an update of that record's id, otherwise a create, carrying the same data. |
| AdminDialog.DeleteRequest | src/components/admin/ProductsManager.tsx:93-97 | A delete is requested exactly when the admin confirms, and for that id. |
| AdminDialog.ErrorText | src/components/admin/ProductsManager.tsx:41 | The error's message is shown, or the fallback when it is empty. |
| AdminDialog.AfterSave | src/components/admin/ProductsManager.tsx:31-62 | A successful create or update closes the dialog with a success toast. An error leaves the dialog as it was, with a destructive toast that is never empty. |
| AdminDialog.AfterDelete | src/components/admin/ProductsManager.tsx:64-77 | A settled delete only shows a toast, destructive exactly on error. |
| AdminDialog.OpenThenDispatch | src/components/admin/CategoriesManager.tsx:74-96 | A submit after opening to edit updates the opened record, and one after opening to create creates. |
| ProductsManager.CleanCategory | src/components/admin/ProductsManager.tsx:81-84 | A category of `'none'` becomes absent; any other value, and every other field, is unchanged. |
| ProductsManager.Save | src/components/admin/ProductsManager.tsx:80-91 | Update for the selected product's id, otherwise create; either way the data is the submitted patch with category `'none'` made absent. |
| ProductsManager.CleanIdempotent | src/components/admin/ProductsManager.tsx:82-84 | Cleaning the category twice is cleaning it once. |
| ProductsManager.EditSavesOpened | src/components/admin/ProductsManager.tsx:80-107 | Submitting for a product opened to edit updates that product with the cleaned data. |
| ProductsManager.EditChanges | src/components/admin/ProductForm.tsx:36-44 | An edit sends name, description, price, images and both flags as submitted. A chosen category is sent as it is, and `category_id` is undefined exactly when none was chosen. |
| ProductsManager.EditChangesCorrected | src/components/admin/ProductForm.tsx:41 | The corrected edit always sends `category_id`, as null when no category was chosen. |
| ProductsManager.EditKeepsOldCategory | src/api/products.ts:107-126 | As written, an edit that chooses no category leaves the row's old `category_id` in place. |
| ProductsManager.EditKeepsOldCategoryExample | src/components/admin/ProductForm.tsx:41 | A laptop edited to have no category is still in `laptops`. |
| ProductsManager.EditRoundTrip | src/api/products.ts:107-136 | With the corrected changes, reading an edited product back shows exactly what the form submitted, category included. |
| ProductsManager.CreateInput | src/components/admin/ProductsManager.tsx:80-90 | A create carries both flags and never the category `'none'`. |
| ProductsManager.CreateRoundTrip | src/api/products.ts:81-104 | A product created from the form comes back with the form's values and flags, whatever the column defaults. |
| CategoriesManager.InitialForm | src/components/admin/CategoriesManager.tsx:193-195 | The form starts with the category's name; its description and image are empty exactly when they are absent or empty. |
| CategoriesManager.Submit | src/components/admin/CategoriesManager.tsx:197-212 | An empty name submits nothing. Otherwise the name is unchanged, and an empty description or image becomes absent while a non-empty one passes unchanged. |
| CategoriesManager.Save | src/components/admin/CategoriesManager.tsx:74-80 | Update for the selected category's id, otherwise create, with the submitted data. |
| CategoriesManager.UnchangedEditRoundTrip | src/components/admin/CategoriesManager.tsx:193-209 | Submitting a named category's form untouched sends back its name, description and image. |
| CategoriesManager.SubmitThenReload | src/components/admin/CategoriesManager.tsx:205-209 | The submitted category, loaded back into the form, gives the form that was submitted. |
| HomeSelections.FeaturedSpec | src/components/home/NewArrivalsFeatured.tsx:17 | The featured row is the first four featured products in fetched order, or all of them when there are fewer. |
| HomeSelections.NewArrivalsSpec | src/components/home/NewArrivalsFeatured.tsx:19-23 | New arrivals hold four products, or all when fewer, each at most as often as it was fetched. They are ordered newest first, and no product left out is newer than the last one shown. |
| ProductRows.Read | src/api/products.ts:16-20 | A read takes `inStock` from `in_stock`, keeps `featured`, and takes the category's id and name from the join. |
| ProductRows.Returned | src/api/products.ts:101-104 | Create and update return a product without a category. |
| ProductRows.InsertPayload | src/api/products.ts:84-92 | The insert row's `featured` is true only when it was given as true, and `in_stock` is `inStock`. |
| ProductRows.UpdatePayload | src/api/products.ts:107-119 | The update row has no `category` and no `inStock` key. `in_stock` carries `inStock`, absent exactly when it is; every other field passes unchanged. |
| ProductRows.CreateRoundTrip | src/api/products.ts:81-104 | A created product reads back with every field sent. `featured` is false when absent, `inStock` takes the column default when absent, and there is no category. |
| ProductRows.UpdateRoundTrip | src/api/products.ts:107-136 | An updated product reads back with each change sent and every absent field as it was. The category always comes from the join. |
| ProductRows.EmptyUpdateKeepsRow | src/api/products.ts:107-126 | An update with no fields leaves the row unchanged. |
| Lists.SortBy | src/pages/Products.tsx:84-100 | The sort returns a permutation of its input, ordered by the key. |
| Lists.FilterFilter | src/pages/Products.tsx:69-81 | Two filters in a row equal one filter that asks for both tests. |
| Text.SplitJoin | src/components/admin/ProductForm.tsx:23 | Splitting what was joined with `'\n'` gives the parts back when none contains a line break. |
| Text.JoinSplit | src/components/admin/ProductForm.tsx:40 | Joining the parts of a split restores the text. |
| Text.TrimEmptyIffBlank | src/components/admin/ProductForm.tsx:40 | `trim()` gives the empty text exactly when every character is white space. |
| Text.ContainsIffOccurs | src/pages/Search.tsx:34-36 | `includes` holds exactly when the query occurs at some position. |

## Left out

- Persisting the cart in `localStorage` and the JSON round trip (src/context/CartContext.tsx:110-122): browser storage is I/O.
- The backend queries of src/api/products.ts and src/api/categories.ts, and src/api/orders.ts as a whole: these are remote database calls. `createOrder` is a parameter of `Checkout.Submit`. src/api/orders.ts is not part of this model.
- Toasts beyond their text, React hooks, query-cache invalidation, router navigation, the authentication redirects and the loading flags: framework plumbing with no logic of its own.
- Floating-point arithmetic: money is exact cents and tax an exact `real`. Float rounding of `* 0.1` and display formatting are not modelled.
- `parseFloat` and `Number.prototype.toString` in the product form are the parameters `parsePrice` and `show`. A `NaN` price is not modelled.
- `localeCompare` is an abstract integer rank of names. The name sorts are only as faithful as the rank is to the locale's collation.
- `toLowerCase` is modelled for the ASCII letters only. Other scripts' case mappings are not modelled.
- `new Date(created_at).getTime()` is modelled as an integer `createdAt`. Unparseable dates (`NaN`) are not modelled. The static catalogue has no creation time, and it is 0 there.
- JavaScript objects carry extra keys that the records here drop, such as `categories` and `in_stock` after a read. No model property depends on those keys.
- The dialog's `open` flag and the form field setters are simple assignments. Only their effect on a submit is modelled.
- ProductDetail.Increase: its contract states that the quantity rises, not that it rises by exactly one; `MinusUndoesPlus` ties it to `Decrease`.
- Catalogue.GetAllProducts returns the catalogue itself and carries no contract.
- The edit finding assumes that the database client encodes the update body as JSON, which drops keys whose value is `undefined`. The client library is not part of this model.
- src/types/index.ts:8 types `category` as a string, while the data stores a category record. The model gives `Product` both `categoryId` and `category`.

## Findings

| source | as written | input that shows it | evidently intended | confidence | as-written member | corrected member |
|---|---|---|---|---|---|---|
| src/pages/ProductDetail.tsx:49 | `getProductsByCategory(product.category)` passes the category record, which is compared with `===` against each product's `category_id` string. A string never equals an object, so the row is empty for every product that has a category. | `product-1` (ProPhone 14 Pro, a smartphone): `product-5` and `product-9` are also smartphones, yet the row is empty. | Pass `product.category_id`: up to four other products of the same category. | high, not executed | ProductDetail.RelatedCounterexample | ProductDetail.RelatedSpec |
| src/components/admin/ProductForm.tsx:41 | Choosing no category sends `category_id: undefined`. The update body is JSON, which drops undefined fields, so editing a product to have no category leaves its old category in place. | A product in `laptops` edited with the category set to none stays in `laptops`. | Send `null` so the column is cleared; the edited product then reads back exactly as submitted. | medium, not executed | ProductsManager.EditKeepsOldCategoryExample | ProductsManager.EditRoundTrip |
