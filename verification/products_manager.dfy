/**
  The admin products manager (src/components/admin/ProductsManager.tsx): the
  submitted form becomes a create or an update, with the category value
  "none" meaning no category.
*/
module ProductsManager {
  import opened Options
  import opened Types
  import AdminDialog
  import ProductForm
  import ProductRows

  function ProductId(p: Product): string { p.id }

  /** A category of "none" is sent as no category; any other value is kept. */
  function CleanCategory(patch: ProductForm.ProductPatch): (r: ProductForm.ProductPatch)
    ensures r.categoryId != Some("none")
    ensures patch.categoryId != Some("none") ==> r == patch
    ensures r == patch.(categoryId := r.categoryId)
  {
    if patch.categoryId == Some("none") then patch.(categoryId := None) else patch
  }

  /** `handleCreateOrUpdateProduct`. */
  function Save(selected: Option<Product>, patch: ProductForm.ProductPatch): (r: AdminDialog.Mutation<ProductForm.ProductPatch>)
    ensures r.Create? <==> selected.None?
    ensures r.Update? ==> r.id == selected.value.id
    ensures r.data == CleanCategory(patch) && r.data.categoryId != Some("none")
  {
    AdminDialog.Dispatch(selected, ProductId, CleanCategory(patch))
  }

  /** Cleaning the category twice is cleaning it once. */
  lemma CleanIdempotent(patch: ProductForm.ProductPatch)
    ensures CleanCategory(CleanCategory(patch)) == CleanCategory(patch)
  {
  }

  /** Submitting the form for a product opened for editing updates that product with the cleaned data. */
  lemma EditSavesOpened(d: AdminDialog.DialogState<Product>, p: Product, patch: ProductForm.ProductPatch)
    ensures Save(AdminDialog.OpenEdit(d, p).selected, patch) == AdminDialog.Update(p.id, CleanCategory(patch))
  {
    AdminDialog.OpenThenDispatch(d, p, ProductId, CleanCategory(patch));
  }

  /**
    The `Partial<Product>` an edit hands to `updateProduct`, as the form and
    this manager build it: every field set, and `category_id` undefined when
    no category is chosen.
  */
  function EditChanges(patch: ProductForm.ProductPatch): (c: ProductRows.ProductChanges)
    ensures c.categoryId.None? <==> patch.categoryId.None?
    ensures patch.categoryId.Some? ==> c.categoryId == Some(patch.categoryId)
    ensures c.name == Some(patch.name) && c.description == Some(patch.description)
    ensures c.price == Some(patch.price) && c.images == Some(patch.images)
    ensures c.category.None? && c.inStock == Some(patch.inStock) && c.featured == Some(patch.featured)
  {
    ProductRows.ProductChanges(
      Some(patch.name), Some(patch.description), Some(patch.price), Some(patch.images),
      if patch.categoryId.Some? then Some(patch.categoryId) else None,
      None, Some(patch.featured), Some(patch.inStock))
  }

  /** The same changes with no category sent as null, so that choosing none clears it. */
  function EditChangesCorrected(patch: ProductForm.ProductPatch): (c: ProductRows.ProductChanges)
    ensures c.categoryId == Some(patch.categoryId)
    ensures c.category.None? && c.inStock == Some(patch.inStock) && c.featured == Some(patch.featured)
  {
    EditChanges(patch).(categoryId := Some(patch.categoryId))
  }

  /** As written, an edit that chooses no category leaves the product's old category in place. */
  lemma EditKeepsOldCategory(row: ProductRows.ProductRow, patch: ProductForm.ProductPatch)
    requires CleanCategory(patch).categoryId.None?
    ensures ProductRows.Apply(row, ProductRows.UpdatePayload(EditChanges(CleanCategory(patch)))).categoryId == row.categoryId
  {
  }

  /** A laptop edited to have no category is still a laptop. */
  lemma EditKeepsOldCategoryExample()
    ensures var row := ProductRows.ProductRow("p", "n", "d", 100, ["u"], Some("laptops"), false, true, 0);
      var patch := ProductForm.ProductPatch("n", "d", 100, ["u"], None, true, false);
      ProductRows.Apply(row, ProductRows.UpdatePayload(EditChanges(CleanCategory(patch)))).categoryId == Some("laptops")
  {
  }

  /**
    With no category sent as null, reading an edited product back shows
    exactly what the form submitted, whatever the row held before.
  */
  lemma EditRoundTrip(row: ProductRows.ProductRow, patch: ProductForm.ProductPatch, joined: Option<ProductRows.CategoryRef>)
    ensures var q := ProductRows.Read(ProductRows.Apply(row, ProductRows.UpdatePayload(EditChangesCorrected(CleanCategory(patch)))), joined);
      && q.id == row.id
      && q.name == patch.name && q.description == patch.description && q.price == patch.price
      && q.images == patch.images && q.categoryId == CleanCategory(patch).categoryId
      && q.inStock == patch.inStock && q.featured == patch.featured
  {
    ProductRows.UpdateRoundTrip(row, EditChangesCorrected(CleanCategory(patch)), joined);
  }

  /** The product a create hands to `createProduct`: the cleaned form, with both flags present. */
  function CreateInput(patch: ProductForm.ProductPatch): (n: ProductRows.NewProduct)
    ensures n.featured == Some(patch.featured) && n.inStock == Some(patch.inStock)
    ensures n.categoryId != Some("none")
  {
    var p := CleanCategory(patch);
    ProductRows.NewProduct(p.name, p.description, p.price, p.images, p.categoryId, Some(p.featured), Some(p.inStock))
  }

  /** A product created from the form comes back with the form's values and flags, whatever the column defaults. */
  lemma CreateRoundTrip(id: string, createdAt: int, inStockDefault: bool, patch: ProductForm.ProductPatch)
    ensures var q := ProductRows.Returned(ProductRows.Inserted(id, createdAt, inStockDefault,
        ProductRows.InsertPayload(CreateInput(patch))));
      && q.name == patch.name && q.description == patch.description && q.price == patch.price
      && q.images == patch.images && q.categoryId == CleanCategory(patch).categoryId
      && q.featured == patch.featured && q.inStock == patch.inStock
  {
    ProductRows.CreateRoundTrip(id, createdAt, inStockDefault, CreateInput(patch));
  }
}
