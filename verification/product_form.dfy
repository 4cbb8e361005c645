/**
  The admin product form (src/components/admin/ProductForm.tsx): the fields it
  starts with for a new or an existing product, and the partial product it
  submits. How a price is written out (`toString`) and read back
  (`parseFloat`) are parameters.
*/
module ProductForm {
  import opened Options
  import opened Types
  import Lists
  import Text

  /** The form's fields, each as the text or switch the admin sees. */
  datatype FormState = FormState(
    name: string,
    description: string,
    price: string,
    images: string,
    categoryId: string,
    inStock: bool,
    featured: bool)

  /** What `onSubmit` receives: a `Partial<Product>` with exactly these keys. */
  datatype ProductPatch = ProductPatch(
    name: string,
    description: string,
    price: int,
    images: seq<string>,
    categoryId: Option<string>,
    inStock: bool,
    featured: bool)

  /**
    The fields the form starts with: empty for a new product, and for an
    existing one its values, with one image URL per line. A new product
    starts in stock and not featured.
  */
  function InitialForm(product: Option<Product>, show: int -> string): (r: FormState)
    ensures product.None? ==> r == FormState("", "", "", "", "", true, false)
    ensures product.Some? ==> r.name == product.value.name && r.description == product.value.description
    ensures product.Some? ==> (r.categoryId == "" <==> product.value.categoryId.None? || product.value.categoryId == Some(""))
    ensures product.Some? && product.value.categoryId.Some? ==> r.categoryId == product.value.categoryId.value
    ensures product.Some? ==> r.inStock == product.value.inStock && r.featured == product.value.featured
    ensures product.Some? ==> r.price == show(product.value.price) && r.images == Text.Join(product.value.images, '\n')
  {
    match product
    case None => FormState("", "", "", "", "", true, false)
    case Some(p) =>
      FormState(p.name, p.description, show(p.price), Text.Join(p.images, '\n'),
        p.categoryId.GetOr(""), p.inStock, p.featured)
  }

  function NotBlankLine(url: string): bool {
    Text.Trim(url) != ""
  }

  /** `images.split('\n').filter(url => url.trim() !== '')`. */
  function ImageList(text: string): seq<string> {
    Lists.Filter(Text.Split(text, '\n'), NotBlankLine)
  }

  /** `handleSubmit`: nothing when a required field is empty, else the partial product. */
  function Submit(form: FormState, parsePrice: string -> int): (r: Option<ProductPatch>)
    ensures r.None? <==> form.name == "" || form.description == "" || form.price == "" || form.images == ""
    ensures r.Some? ==> (r.value.categoryId.None? <==> form.categoryId == "")
    ensures r.Some? && form.categoryId != "" ==> r.value.categoryId == Some(form.categoryId)
    ensures r.Some? ==> r.value.name == form.name && r.value.description == form.description
    ensures r.Some? ==> r.value.price == parsePrice(form.price) && r.value.images == ImageList(form.images)
    ensures r.Some? ==> r.value.inStock == form.inStock && r.value.featured == form.featured
  {
    if form.name == "" || form.description == "" || form.price == "" || form.images == "" then None
    else Some(ProductPatch(
      form.name, form.description, parsePrice(form.price), ImageList(form.images),
      if form.categoryId == "" then None else Some(form.categoryId),
      form.inStock, form.featured))
  }

  /**
    The submitted images are exactly the lines of the text that are not blank,
    in order, none holding a line break.
  */
  lemma ImageListSpec(text: string)
    ensures var lines, r := Text.Split(text, '\n'), ImageList(text);
      && Lists.IsSubsequence(r, lines)
      && (forall i :: 0 <= i < |r| ==> !Text.Blank(r[i]) && '\n' !in r[i])
      && (forall i :: 0 <= i < |lines| && !Text.Blank(lines[i]) ==> lines[i] in r)
      && (forall x :: multiset(r)[x] == if Text.Blank(x) then 0 else multiset(lines)[x])
  {
    var lines := Text.Split(text, '\n');
    var r := ImageList(text);
    Lists.FilterIsSubsequence(lines, NotBlankLine);
    forall i | 0 <= i < |r|
      ensures !Text.Blank(r[i]) && '\n' !in r[i]
    {
      Text.TrimEmptyIffBlank(r[i]);
      Lists.FilterIn(lines, NotBlankLine, r[i]);
    }
    forall i | 0 <= i < |lines| && !Text.Blank(lines[i])
      ensures lines[i] in r
    {
      Text.TrimEmptyIffBlank(lines[i]);
      Lists.FilterIn(lines, NotBlankLine, lines[i]);
    }
    forall x
      ensures multiset(r)[x] == if Text.Blank(x) then 0 else multiset(lines)[x]
    {
      Text.TrimEmptyIffBlank(x);
      Lists.FilterCount(lines, NotBlankLine, x);
    }
  }

  /** A new product's empty form cannot be submitted. */
  lemma BlankFormRejected(show: int -> string, parsePrice: string -> int)
    ensures Submit(InitialForm(None, show), parsePrice).None?
  {
  }

  /**
    Submitting an existing product's form untouched gives back its name,
    description, images, category, stock and featured flags, provided it has
    images, none blank or holding a line break, and a non-empty price text.
  */
  lemma UnchangedEditRoundTrip(p: Product, show: int -> string, parsePrice: string -> int)
    requires p.name != "" && p.description != "" && show(p.price) != ""
    requires |p.images| > 0
    requires forall i :: 0 <= i < |p.images| ==> '\n' !in p.images[i] && !Text.Blank(p.images[i])
    requires p.categoryId != Some("")
    ensures var r := Submit(InitialForm(Some(p), show), parsePrice);
      && r.Some?
      && r.value == ProductPatch(p.name, p.description, parsePrice(show(p.price)), p.images, p.categoryId, p.inStock, p.featured)
  {
    var form := InitialForm(Some(p), show);
    Text.SplitJoin(p.images, '\n');
    assert form.images != "" by {
      if form.images == "" {
        assert Text.Split("", '\n') == [""];
        assert Text.Blank(p.images[0]);
      }
    }
    forall i | 0 <= i < |p.images|
      ensures NotBlankLine(p.images[i])
    {
      Text.TrimEmptyIffBlank(p.images[i]);
    }
    Lists.FilterKeepsAll(p.images, NotBlankLine);
  }

  /**
    Any submitted form, applied to a product and loaded back, is the form that
    was submitted, apart from the price text, which is the price written out
    again; this needs every line of the images text to be non-blank.
  */
  lemma SubmitThenReload(form: FormState, parsePrice: string -> int, show: int -> string, p: Product)
    requires Submit(form, parsePrice).Some?
    requires forall i :: 0 <= i < |Text.Split(form.images, '\n')| ==> !Text.Blank(Text.Split(form.images, '\n')[i])
    ensures var patch := Submit(form, parsePrice).value;
      var saved := p.(name := patch.name, description := patch.description, price := patch.price,
        images := patch.images, categoryId := patch.categoryId, inStock := patch.inStock, featured := patch.featured);
      InitialForm(Some(saved), show) == form.(price := show(patch.price))
  {
    var lines := Text.Split(form.images, '\n');
    forall i | 0 <= i < |lines|
      ensures NotBlankLine(lines[i])
    {
      Text.TrimEmptyIffBlank(lines[i]);
    }
    Lists.FilterKeepsAll(lines, NotBlankLine);
    Text.JoinSplit(form.images, '\n');
  }
}
