/**
  The checkout page (src/pages/Checkout.tsx) and the total its order summary
  shows (src/components/checkout/OrderSummary.tsx): the shipping address form,
  the pre-selection of a shipping method, the checks before an order is placed,
  the order total with 10% tax, and clearing the cart once the order exists.
  Placing the order itself is a parameter: what the backend answers is not
  part of this model.
*/
module Checkout {
  import opened Options
  import opened Types
  import Lists
  import Cart

  datatype Address = Address(
    line1: string,
    line2: string,
    city: string,
    state: string,
    postalCode: string,
    country: string)

  datatype AddressField = Line1 | Line2 | City | State | PostalCode | Country

  /** The empty form the page starts with, with the country preset to "US". */
  const InitialAddress := Address("", "", "", "", "", "US")

  function FieldValue(a: Address, field: AddressField): string {
    match field
    case Line1 => a.line1
    case Line2 => a.line2
    case City => a.city
    case State => a.state
    case PostalCode => a.postalCode
    case Country => a.country
  }

  /** `handleAddressChange`: one field takes the new value and the others keep theirs. */
  function HandleAddressChange(a: Address, field: AddressField, value: string): (r: Address)
    ensures FieldValue(r, field) == value
    ensures forall g :: g != field ==> FieldValue(r, g) == FieldValue(a, g)
  {
    match field
    case Line1 => a.(line1 := value)
    case Line2 => a.(line2 := value)
    case City => a.(city := value)
    case State => a.(state := value)
    case PostalCode => a.(postalCode := value)
    case Country => a.(country := value)
  }

  /** The fields checked before an order is placed, in the order they are checked. */
  const RequiredFields: seq<AddressField> := [Line1, City, State, PostalCode, Country]

  function IsEmptyIn(a: Address): AddressField -> bool {
    (f: AddressField) => FieldValue(a, f) == ""
  }

  /** The first required field left empty, which is the one the page asks for. */
  function FirstMissing(a: Address): (r: Option<AddressField>)
    ensures r.None? <==> forall f :: f != Line2 ==> FieldValue(a, f) != ""
    ensures r.Some? ==> r.value != Line2 && FieldValue(a, r.value) == ""
    ensures r.Some? ==> forall k :: 0 <= k < |RequiredFields| && RequiredFields[k] == r.value ==>
      forall i :: 0 <= i < k ==> FieldValue(a, RequiredFields[i]) != ""
  {
    var r := Lists.Find(RequiredFields, IsEmptyIn(a));
    assert forall f :: f != Line2 ==> f in RequiredFields;
    assert r.None? ==> forall f :: f in RequiredFields ==> !IsEmptyIn(a)(f);
    r
  }

  /** The page's state at the moment the order button is pressed. */
  datatype CheckoutState = CheckoutState(
    user: Option<User>,
    methods: seq<ShippingMethod>,
    selected: Option<string>,
    address: Address,
    cart: Cart.CartState)

  /** The methods have arrived: they are listed and the first one, if any, is selected. */
  function OnMethodsLoaded(s: CheckoutState, methods: seq<ShippingMethod>): (r: CheckoutState)
    ensures r.methods == methods
    ensures |methods| > 0 ==> r.selected == Some(methods[0].id)
    ensures |methods| == 0 ==> r.selected == s.selected
    ensures r.user == s.user && r.address == s.address && r.cart == s.cart
  {
    s.(methods := methods, selected := if |methods| > 0 then Some(methods[0].id) else s.selected)
  }

  function HasMethodId(id: Option<string>): ShippingMethod -> bool {
    (m: ShippingMethod) => Some(m.id) == id
  }

  /** The price of the selected method, or 0 when no listed method has the selected id. */
  function ShippingCost(methods: seq<ShippingMethod>, selected: Option<string>): (r: int)
    ensures (forall i :: 0 <= i < |methods| ==> Some(methods[i].id) != selected) ==> r == 0
    ensures forall k ::
      (0 <= k < |methods| && Some(methods[k].id) == selected && forall i :: 0 <= i < k ==> Some(methods[i].id) != selected)
      ==> r == methods[k].price
  {
    match Lists.IndexWhere(methods, HasMethodId(selected))
    case None => 0
    case Some(k) => methods[k].price
  }

  /** 10% of the subtotal, in cents. */
  function Tax(subtotal: int): real {
    subtotal as real / 10.0
  }

  /** The total `handleSubmit` sends with the order. */
  function OrderTotal(s: CheckoutState): real {
    s.cart.total as real + Tax(s.cart.total) + ShippingCost(s.methods, s.selected) as real
  }

  /**
    The total the order summary shows: it receives the subtotal, the tax and
    `shippingMethods.find(...)?.price || 0` and adds them up.
  */
  function SummaryTotal(s: CheckoutState): real {
    var shipping :=
      match Lists.Find(s.methods, HasMethodId(s.selected))
      case None => 0
      case Some(m) => if m.price == 0 then 0 else m.price;
    s.cart.total as real + Tax(s.cart.total) + shipping as real
  }

  datatype OrderRequest = OrderRequest(
    items: seq<Cart.CartItem>,
    total: real,
    shippingAddress: Address,
    shippingMethodId: string,
    paymentMethod: string)

  /** What `createOrder` answers: the new order's id, or the message of the error it threw. */
  datatype CreateResult = Created(orderId: string) | Threw(message: string)

  datatype Rejection = NotSignedIn | NoShippingMethod | MissingField(field: AddressField)

  datatype Outcome =
    | Rejected(reason: Rejection)
    | Placed(orderId: string)
    | Failed(message: string)

  /** The order sent for a state whose checks have passed. */
  function Request(s: CheckoutState): OrderRequest
    requires s.selected.Some?
  {
    OrderRequest(s.cart.items, OrderTotal(s), s.address, s.selected.value, "card")
  }

  /** The check `handleSubmit` stops at first, if any. */
  function Check(s: CheckoutState): (r: Option<Rejection>)
    ensures r.None? <==> s.user.Some? && s.selected.Some? && s.selected.value != "" && FirstMissing(s.address).None?
  {
    if s.user.None? then Some(NotSignedIn)
    else if s.selected.None? || s.selected.value == "" then Some(NoShippingMethod)
    else match FirstMissing(s.address)
      case Some(f) => Some(MissingField(f))
      case None => None
  }

  /**
    `handleSubmit`: the checks in order, then the order; the cart is cleared
    only once the order has been created, and a failure shows the error's
    message or a default one.
  */
  function Submit(s: CheckoutState, createOrder: OrderRequest -> CreateResult): (Outcome, CheckoutState) {
    match Check(s)
    case Some(reason) => (Rejected(reason), s)
    case None =>
      match createOrder(Request(s))
      case Created(id) => (Placed(id), s.(cart := Cart.Reduce(s.cart, Cart.ClearCart)))
      case Threw(message) =>
        (Failed(if message == "" then "Failed to complete checkout. Please try again." else message), s)
  }

  /** The checks come in the page's order: sign-in, then shipping method, then the address fields. */
  lemma CheckOrder(s: CheckoutState)
    ensures s.user.None? ==> Check(s) == Some(NotSignedIn)
    ensures s.user.Some? && (s.selected.None? || s.selected.value == "") ==> Check(s) == Some(NoShippingMethod)
    ensures s.user.Some? && s.selected.Some? && s.selected.value != "" && FirstMissing(s.address).Some? ==>
      Check(s) == Some(MissingField(FirstMissing(s.address).value))
  {
  }

  /**
    An order is placed exactly when every check passes and the backend creates
    it; then the cart is empty. Otherwise the page's state is left as it was.
  */
  lemma SubmitSpec(s: CheckoutState, createOrder: OrderRequest -> CreateResult)
    ensures var (out, t) := Submit(s, createOrder);
      && (out.Placed? <==> Check(s).None? && createOrder(Request(s)).Created?)
      && (out.Placed? ==> t.cart == Cart.InitialState && out.orderId == createOrder(Request(s)).orderId)
      && (!out.Placed? ==> t == s)
      && (out.Failed? ==> out.message != "")
      && t.user == s.user && t.address == s.address && t.methods == s.methods && t.selected == s.selected
  {
  }

  /** A rejected submission never reaches the backend: its outcome is the same whatever `createOrder` would do. */
  lemma RejectedIgnoresBackend(s: CheckoutState, c1: OrderRequest -> CreateResult, c2: OrderRequest -> CreateResult)
    requires Check(s).Some?
    ensures Submit(s, c1) == Submit(s, c2)
    ensures Submit(s, c1).0 == Rejected(Check(s).value)
  {
  }

  /** The order carries the cart's items, the address and the selected method, and is paid by card. */
  lemma RequestSpec(s: CheckoutState)
    requires s.selected.Some?
    ensures Request(s).items == s.cart.items && Request(s).shippingAddress == s.address
    ensures Request(s).shippingMethodId == s.selected.value && Request(s).paymentMethod == "card"
    ensures Request(s).total == s.cart.total as real * 11.0 / 10.0 + ShippingCost(s.methods, s.selected) as real
  {
  }

  /** The summary shows the same total as the order that is sent. */
  lemma SummaryMatchesOrder(s: CheckoutState)
    ensures SummaryTotal(s) == OrderTotal(s)
  {
    match Lists.IndexWhere(s.methods, HasMethodId(s.selected))
    case None =>
    case Some(k) =>
      assert Lists.Find(s.methods, HasMethodId(s.selected)) == Some(s.methods[k]);
  }

  /** Methods that arrive non-empty leave a method selected, so that check passes. */
  lemma LoadedMethodSelected(s: CheckoutState, methods: seq<ShippingMethod>)
    requires |methods| > 0
    ensures var t := OnMethodsLoaded(s, methods); ShippingCost(t.methods, t.selected) == methods[0].price
  {
  }
}
