/**
  The admin categories manager and its form
  (src/components/admin/CategoriesManager.tsx): the fields the form starts
  with, the partial category it submits, and the create or update it leads to.
*/
module CategoriesManager {
  import opened Options
  import opened Types
  import AdminDialog

  datatype CategoryFormState = CategoryFormState(name: string, description: string, image: string)

  /** What `onSubmit` receives: a `Partial<Category>` with exactly these keys. */
  datatype CategoryPatch = CategoryPatch(name: string, description: Option<string>, image: Option<string>)

  /** The form's fields: the edited category's values, with an absent one as the empty text. */
  function InitialForm(category: Option<Category>): (r: CategoryFormState)
    ensures category.None? ==> r == CategoryFormState("", "", "")
    ensures category.Some? ==> r.name == category.value.name
    ensures category.Some? ==> (r.description == "" <==> category.value.description in {None, Some("")})
    ensures category.Some? ==> (r.image == "" <==> category.value.image in {None, Some("")})
  {
    match category
    case None => CategoryFormState("", "", "")
    case Some(c) => CategoryFormState(c.name, c.description.GetOr(""), c.image.GetOr(""))
  }

  /** `handleSubmit`: nothing without a name; empty description or image are sent as absent. */
  function Submit(form: CategoryFormState): (r: Option<CategoryPatch>)
    ensures r.None? <==> form.name == ""
    ensures r.Some? ==> r.value.name == form.name
    ensures r.Some? ==> (r.value.description.None? <==> form.description == "")
    ensures r.Some? ==> (r.value.image.None? <==> form.image == "")
    ensures r.Some? ==> r.value.description.GetOr("") == form.description && r.value.image.GetOr("") == form.image
  {
    if form.name == "" then None
    else Some(CategoryPatch(
      form.name,
      if form.description == "" then None else Some(form.description),
      if form.image == "" then None else Some(form.image)))
  }

  function CategoryId(c: Category): string { c.id }

  /** `handleCreateOrUpdateCategory`. */
  function Save(selected: Option<Category>, patch: CategoryPatch): (r: AdminDialog.Mutation<CategoryPatch>)
    ensures r.Create? <==> selected.None?
    ensures r.Update? ==> r.id == selected.value.id
    ensures r.data == patch
  {
    AdminDialog.Dispatch(selected, CategoryId, patch)
  }

  /**
    Submitting a named category's form untouched sends back its name,
    description and image, an empty description or image becoming absent.
  */
  lemma UnchangedEditRoundTrip(c: Category)
    requires c.name != ""
    ensures var r := Submit(InitialForm(Some(c)));
      && r.Some?
      && r.value.name == c.name
      && (c.description != Some("") ==> r.value.description == c.description)
      && (c.image != Some("") ==> r.value.image == c.image)
  {
  }

  /** What a submitted patch puts back into the form is what was in the form. */
  lemma SubmitThenReload(id: string, form: CategoryFormState)
    requires form.name != ""
    ensures var p := Submit(form).value;
      InitialForm(Some(Category(id, p.name, p.description, p.image))) == form
  {
  }
}
