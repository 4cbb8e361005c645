/**
  The shopping cart (src/context/CartContext.tsx): a reducer over a list of
  (product, quantity) records with a derived total. The reducer is a total
  function from a state and an action to the next state.
*/
module Cart {
  import opened Options
  import opened Types
  import Lists

  /** A product in the cart with how many of it; its id is the product's. */
  datatype CartItem = CartItem(product: Product, quantity: int) {
    function Id(): string { product.id }
    function LineTotal(): int { product.price * quantity }
  }

  datatype CartState = CartState(items: seq<CartItem>, total: int)

  datatype CartAction =
    | AddItem(payload: Product, quantity: Option<int>)
    | RemoveItem(id: string)
    | UpdateQuantity(id: string, newQuantity: int)
    | ClearCart

  const InitialState: CartState := CartState([], 0)

  /** Sum of `f` over the items; exact integers, so the fold direction is immaterial. */
  function Sum(items: seq<CartItem>, f: CartItem -> int): int {
    if |items| == 0 then 0 else f(items[0]) + Sum(items[1..], f)
  }

  function LineOf(item: CartItem): int { item.LineTotal() }

  function QuantityOf(item: CartItem): int { item.quantity }

  /** `calculateTotal`: the sum of price × quantity. */
  function Total(items: seq<CartItem>): int {
    Sum(items, LineOf)
  }

  /** `itemCount`: the sum of the quantities. */
  function ItemCount(items: seq<CartItem>): int {
    Sum(items, QuantityOf)
  }

  /** `action.quantity || 1`: an omitted or zero quantity adds one. */
  function AddQuantity(q: Option<int>): int {
    match q
    case None => 1
    case Some(n) => if n == 0 then 1 else n
  }

  function HasId(id: string): CartItem -> bool {
    (item: CartItem) => item.Id() == id
  }

  function LacksId(id: string): CartItem -> bool {
    (item: CartItem) => item.Id() != id
  }

  predicate Consistent(s: CartState) {
    s.total == Total(s.items)
  }

  predicate UniqueIds(items: seq<CartItem>) {
    forall i, j :: 0 <= i < j < |items| ==> items[i].Id() != items[j].Id()
  }

  predicate Valid(s: CartState) {
    Consistent(s) && UniqueIds(s.items)
  }

  predicate AllPositive(items: seq<CartItem>) {
    forall i :: 0 <= i < |items| ==> items[i].quantity >= 1
  }

  /** `k` is the first position holding `id`, the one `findIndex` reports. */
  predicate FirstWithId(items: seq<CartItem>, id: string, k: int) {
    0 <= k < |items| && items[k].Id() == id
    && forall j :: 0 <= j < k ==> items[j].Id() != id
  }

  /** ADD_ITEM: grow the first line with the product's id, or append a new line. */
  function AddItemStep(state: CartState, p: Product, q: Option<int>): CartState {
    match Lists.IndexWhere(state.items, HasId(p.id))
    case Some(k) =>
      var item := state.items[k];
      var newItems := state.items[k := item.(quantity := item.quantity + AddQuantity(q))];
      CartState(newItems, Total(newItems))
    case None =>
      var newItems := state.items + [CartItem(p, AddQuantity(q))];
      CartState(newItems, Total(newItems))
  }

  /** REMOVE_ITEM: keep the lines with another id. */
  function RemoveItemStep(state: CartState, id: string): CartState {
    var newItems := Lists.Filter(state.items, LacksId(id));
    CartState(newItems, Total(newItems))
  }

  /** UPDATE_QUANTITY: a quantity of zero or less dispatches REMOVE_ITEM; otherwise set it on every matching line. */
  function UpdateQuantityStep(state: CartState, id: string, q: int): CartState {
    if q <= 0 then RemoveItemStep(state, id)
    else
      var newItems := seq(|state.items|, i requires 0 <= i < |state.items| =>
        if state.items[i].Id() == id then state.items[i].(quantity := q) else state.items[i]);
      CartState(newItems, Total(newItems))
  }

  /** `cartReducer`. Whatever the incoming state, the outgoing total is the sum of its lines. */
  function Reduce(state: CartState, action: CartAction): (r: CartState)
    ensures Consistent(r)
  {
    match action
    case AddItem(p, q) => AddItemStep(state, p, q)
    case RemoveItem(id) => RemoveItemStep(state, id)
    case UpdateQuantity(id, q) => UpdateQuantityStep(state, id, q)
    case ClearCart => InitialState
  }

  /** The state after dispatching `actions` in order. */
  function Run(state: CartState, actions: seq<CartAction>): CartState
    decreases |actions|
  {
    if |actions| == 0 then state else Run(Reduce(state, actions[0]), actions[1..])
  }

  lemma {:induction false} SumAppend(a: seq<CartItem>, b: seq<CartItem>, f: CartItem -> int)
    ensures Sum(a + b, f) == Sum(a, f) + Sum(b, f)
    decreases |a|
  {
    if |a| == 0 {
      assert a + b == b;
    } else {
      SumAppend(a[1..], b, f);
      assert (a + b)[1..] == a[1..] + b;
    }
  }

  /** Replacing one item changes a sum by exactly that item's difference. */
  lemma {:induction false} SumReplace(items: seq<CartItem>, k: nat, x: CartItem, f: CartItem -> int)
    requires k < |items|
    ensures Sum(items[k := x], f) == Sum(items, f) - f(items[k]) + f(x)
    decreases k
  {
    if k > 0 {
      SumReplace(items[1..], k - 1, x, f);
      assert items[k := x][1..] == items[1..][k - 1 := x];
    }
  }

  /** The first `findIndex` hit is the only one when ids are unique. */
  lemma UniqueFirst(items: seq<CartItem>, id: string, k: int)
    requires UniqueIds(items) && 0 <= k < |items| && items[k].Id() == id
    ensures FirstWithId(items, id, k)
  {
  }

  lemma FindsFirst(items: seq<CartItem>, id: string, k: int)
    requires FirstWithId(items, id, k)
    ensures Lists.IndexWhere(items, HasId(id)) == Some(k)
  {
    var r := Lists.IndexWhere(items, HasId(id));
    assert HasId(id)(items[k]);
    assert r.Some?;
    assert !(r.value < k);
    assert !(r.value > k);
  }

  /**
    ADD_ITEM for an id already in the cart keeps the length, grows that line
    by `quantity || 1` and leaves every other line as it was. The line keeps
    the price it was added with, not the payload's.
  */
  lemma AddExisting(s: CartState, p: Product, q: Option<int>, k: int)
    requires FirstWithId(s.items, p.id, k)
    ensures var r := Reduce(s, AddItem(p, q));
      && |r.items| == |s.items|
      && r.items[k] == CartItem(s.items[k].product, s.items[k].quantity + AddQuantity(q))
      && (forall j :: 0 <= j < |s.items| && j != k ==> r.items[j] == s.items[j])
      && ItemCount(r.items) == ItemCount(s.items) + AddQuantity(q)
      && (Consistent(s) ==> r.total == s.total + s.items[k].product.price * AddQuantity(q))
  {
    var item := s.items[k];
    var grown := item.(quantity := item.quantity + AddQuantity(q));
    AddExistingItems(s, p, q, k);
    var r := Reduce(s, AddItem(p, q));
    assert r.items == s.items[k := grown];
    assert r.total == Total(s.items[k := grown]);
    SumReplace(s.items, k, grown, LineOf);
    SumReplace(s.items, k, grown, QuantityOf);
    GrownLine(item, AddQuantity(q));
    assert r.items[k] == grown;
  }

  lemma AddExistingItems(s: CartState, p: Product, q: Option<int>, k: int)
    requires FirstWithId(s.items, p.id, k)
    ensures Reduce(s, AddItem(p, q)).items
      == s.items[k := s.items[k].(quantity := s.items[k].quantity + AddQuantity(q))]
  {
    FindsFirst(s.items, p.id, k);
  }

  lemma GrownLine(item: CartItem, n: int)
    ensures LineOf(item.(quantity := item.quantity + n)) == LineOf(item) + item.product.price * n
  {
    var p := item.product.price;
    assert p * (item.quantity + n) == p * item.quantity + p * n;
  }

  /**
    ADD_ITEM for an id not in the cart appends the product with quantity
    `quantity || 1`, after the unchanged earlier items.
  */
  lemma AddNew(s: CartState, p: Product, q: Option<int>)
    requires forall i :: 0 <= i < |s.items| ==> s.items[i].Id() != p.id
    ensures var r := Reduce(s, AddItem(p, q));
      && r.items == s.items + [CartItem(p, AddQuantity(q))]
      && ItemCount(r.items) == ItemCount(s.items) + AddQuantity(q)
      && (Consistent(s) ==> r.total == s.total + p.price * AddQuantity(q))
  {
    var line := CartItem(p, AddQuantity(q));
    SumAppend(s.items, [line], LineOf);
    SumAppend(s.items, [line], QuantityOf);
  }

  /** The cart never holds two lines for one product id. */
  lemma AddKeepsUniqueIds(s: CartState, p: Product, q: Option<int>)
    requires UniqueIds(s.items)
    ensures UniqueIds(Reduce(s, AddItem(p, q)).items)
  {
    if k :| 0 <= k < |s.items| && s.items[k].Id() == p.id {
      UniqueFirst(s.items, p.id, k);
      AddExisting(s, p, q, k);
    } else {
      AddNew(s, p, q);
    }
  }

  lemma {:induction false} FilterKeepsUniqueIds(items: seq<CartItem>, keep: CartItem -> bool)
    requires UniqueIds(items)
    ensures UniqueIds(Lists.Filter(items, keep))
    decreases |items|
  {
    if |items| > 0 {
      FilterKeepsUniqueIds(items[1..], keep);
      Lists.FilterMembers(items[1..], keep);
      var rest := Lists.Filter(items[1..], keep);
      assert forall j :: 0 <= j < |rest| ==> rest[j].Id() != items[0].Id() by {
        forall j | 0 <= j < |rest| ensures rest[j].Id() != items[0].Id() {
          var m :| 0 <= m < |items[1..]| && items[1..][m] == rest[j];
          assert items[m + 1] == rest[j];
        }
      }
    }
  }

  /** A sum splits into the part a filter keeps and the part it drops. */
  lemma {:induction false} SumSplit(items: seq<CartItem>, id: string, f: CartItem -> int)
    ensures Sum(items, f) == Sum(Lists.Filter(items, HasId(id)), f) + Sum(Lists.Filter(items, LacksId(id)), f)
    decreases |items|
  {
    if |items| > 0 {
      SumSplit(items[1..], id, f);
      var kept := Lists.Filter(items[1..], HasId(id));
      var dropped := Lists.Filter(items[1..], LacksId(id));
      if items[0].Id() == id {
        assert Lists.Filter(items, HasId(id)) == [items[0]] + kept;
        assert ([items[0]] + kept)[1..] == kept;
        assert Lists.Filter(items, LacksId(id)) == dropped;
      } else {
        assert Lists.Filter(items, LacksId(id)) == [items[0]] + dropped;
        assert ([items[0]] + dropped)[1..] == dropped;
        assert Lists.Filter(items, HasId(id)) == kept;
      }
    }
  }

  /**
    REMOVE_ITEM keeps, in order, exactly the lines with another id; the total
    drops by the lines removed; an absent id leaves the items as they were.
  */
  lemma RemoveSpec(s: CartState, id: string)
    ensures var r := Reduce(s, RemoveItem(id));
      && Lists.IsSubsequence(r.items, s.items)
      && (forall i :: 0 <= i < |r.items| ==> r.items[i].Id() != id && r.items[i] in s.items)
      && (forall i :: 0 <= i < |s.items| && s.items[i].Id() != id ==> s.items[i] in r.items)
      && ((forall i :: 0 <= i < |s.items| ==> s.items[i].Id() != id) ==> r.items == s.items)
      && (Consistent(s) ==> r.total == s.total - Total(Lists.Filter(s.items, HasId(id))))
  {
    Lists.FilterIsSubsequence(s.items, LacksId(id));
    Lists.FilterMembers(s.items, LacksId(id));
    SumSplit(s.items, id, LineOf);
    if forall i :: 0 <= i < |s.items| ==> s.items[i].Id() != id {
      Lists.FilterKeepsAll(s.items, LacksId(id));
    }
  }

  /** With unique ids, removing a present id drops exactly its one line. */
  lemma RemovePresent(s: CartState, id: string, k: int)
    requires UniqueIds(s.items) && 0 <= k < |s.items| && s.items[k].Id() == id
    ensures var r := Reduce(s, RemoveItem(id));
      && r.items == s.items[..k] + s.items[k + 1..]
      && (Consistent(s) ==> r.total == s.total - s.items[k].LineTotal())
  {
    var items := s.items;
    var before, after := items[..k], items[k + 1..];
    RemoveOnlyLine(items, id, k);
    assert Reduce(s, RemoveItem(id)).total == Total(before + after);
    SumAppend(before, after, LineOf);
    SumAppend(before, [items[k]] + after, LineOf);
    assert Sum([items[k]] + after, LineOf) == LineOf(items[k]) + Sum(after, LineOf) by {
      assert ([items[k]] + after)[1..] == after;
    }
    assert items == before + ([items[k]] + after);
  }

  /** Filtering out an id held by line `k` alone removes just that line. */
  lemma {:induction false} RemoveOnlyLine(items: seq<CartItem>, id: string, k: int)
    requires 0 <= k < |items| && items[k].Id() == id
    requires forall i :: 0 <= i < |items| && i != k ==> items[i].Id() != id
    ensures Lists.Filter(items, LacksId(id)) == items[..k] + items[k + 1..]
    decreases k
  {
    var tail := items[1..];
    if k == 0 {
      assert forall i :: 0 <= i < |tail| ==> LacksId(id)(tail[i]) by {
        forall i | 0 <= i < |tail| ensures LacksId(id)(tail[i]) {
          assert tail[i] == items[i + 1];
        }
      }
      Lists.FilterKeepsAll(tail, LacksId(id));
    } else {
      assert forall i :: 0 <= i < |tail| && i != k - 1 ==> tail[i].Id() != id by {
        forall i | 0 <= i < |tail| && i != k - 1 ensures tail[i].Id() != id {
          assert tail[i] == items[i + 1];
        }
      }
      RemoveOnlyLine(tail, id, k - 1);
      assert [items[0]] + (tail[..k - 1] + tail[k..]) == items[..k] + items[k + 1..];
    }
  }

  /**
    UPDATE_QUANTITY with a quantity of zero or less is REMOVE_ITEM. With a
    positive quantity only the lines with that id change, and only in their
    quantity; length and order are kept and an absent id changes nothing.
  */
  lemma UpdateSpec(s: CartState, id: string, q: int)
    ensures var r := Reduce(s, UpdateQuantity(id, q));
      && (q <= 0 ==> r == Reduce(s, RemoveItem(id)))
      && (q > 0 ==>
            && |r.items| == |s.items|
            && forall i :: 0 <= i < |s.items| ==>
                 && r.items[i].product == s.items[i].product
                 && r.items[i].quantity == (if s.items[i].Id() == id then q else s.items[i].quantity))
      && (q > 0 && (forall i :: 0 <= i < |s.items| ==> s.items[i].Id() != id) ==> r.items == s.items)
  {
  }

  /** With unique ids, a positive update of a present line moves the total by that line's change. */
  lemma UpdatePresent(s: CartState, id: string, q: int, k: int)
    requires q > 0 && UniqueIds(s.items) && 0 <= k < |s.items| && s.items[k].Id() == id
    ensures var r := Reduce(s, UpdateQuantity(id, q));
      && r.items == s.items[k := s.items[k].(quantity := q)]
      && (Consistent(s) ==> r.total == s.total - s.items[k].LineTotal() + s.items[k].product.price * q)
  {
    var updated := s.items[k := s.items[k].(quantity := q)];
    assert Reduce(s, UpdateQuantity(id, q)).items == updated;
    SumReplace(s.items, k, s.items[k].(quantity := q), LineOf);
  }

  /** CLEAR_CART empties the cart from any state, so clearing twice is clearing once. */
  lemma ClearSpec(s: CartState)
    ensures Reduce(s, ClearCart).items == [] && Reduce(s, ClearCart).total == 0
    ensures Reduce(Reduce(s, ClearCart), ClearCart) == Reduce(s, ClearCart)
    ensures Valid(InitialState)
  {
  }

  /** Every action keeps the cart valid: the total is the sum of its lines and ids are unique. */
  lemma ReduceKeepsValid(s: CartState, a: CartAction)
    requires UniqueIds(s.items)
    ensures Valid(Reduce(s, a))
  {
    match a
    case AddItem(p, q) => AddKeepsUniqueIds(s, p, q);
    case RemoveItem(id) => FilterKeepsUniqueIds(s.items, LacksId(id));
    case UpdateQuantity(id, q) =>
      if q <= 0 {
        FilterKeepsUniqueIds(s.items, LacksId(id));
      }
    case ClearCart =>
  }

  /** An action that adds no negative quantity. */
  predicate AddsNoNegative(a: CartAction) {
    a.AddItem? ==> a.quantity.None? || a.quantity.value >= 0
  }

  /** If no action adds a negative quantity, every quantity stays at least one. */
  lemma ReduceKeepsPositive(s: CartState, a: CartAction)
    requires AllPositive(s.items) && AddsNoNegative(a)
    ensures AllPositive(Reduce(s, a).items)
  {
    match a
    case AddItem(p, q) =>
      if k :| FirstWithId(s.items, p.id, k) {
        AddExisting(s, p, q, k);
      } else {
        if exists k :: 0 <= k < |s.items| && s.items[k].Id() == p.id {
          var r := Lists.IndexWhere(s.items, HasId(p.id));
          assert r.Some? && FirstWithId(s.items, p.id, r.value);
        }
        AddNew(s, p, q);
      }
    case RemoveItem(id) => FilterKeepsPositive(s.items, LacksId(id));
    case UpdateQuantity(id, q) => FilterKeepsPositive(s.items, LacksId(id));
    case ClearCart =>
  }

  lemma FilterKeepsPositive(items: seq<CartItem>, keep: CartItem -> bool)
    requires AllPositive(items)
    ensures AllPositive(Lists.Filter(items, keep))
  {
    Lists.FilterMembers(items, keep);
  }

  /** With every quantity at least one, the item count is at least the number of lines. */
  lemma {:induction false} ItemCountAtLeastLines(items: seq<CartItem>)
    requires AllPositive(items)
    ensures ItemCount(items) >= |items|
    decreases |items|
  {
    if |items| > 0 {
      ItemCountAtLeastLines(items[1..]);
    }
  }

  /** Any sequence of dispatches keeps a valid cart valid and, without negative adds, positive. */
  lemma {:induction false} RunFromValid(s: CartState, actions: seq<CartAction>)
    requires Valid(s)
    ensures Valid(Run(s, actions))
    ensures AllPositive(s.items) && (forall i :: 0 <= i < |actions| ==> AddsNoNegative(actions[i]))
      ==> AllPositive(Run(s, actions).items)
    decreases |actions|
  {
    if |actions| > 0 {
      ReduceKeepsValid(s, actions[0]);
      if AllPositive(s.items) && AddsNoNegative(actions[0]) {
        ReduceKeepsPositive(s, actions[0]);
      }
      RunFromValid(Reduce(s, actions[0]), actions[1..]);
    }
  }

  /** The cart the provider starts with stays valid under every sequence of actions. */
  lemma RunFromInitial(actions: seq<CartAction>)
    ensures Valid(Run(InitialState, actions))
    ensures (forall i :: 0 <= i < |actions| ==> AddsNoNegative(actions[i]))
      ==> AllPositive(Run(InitialState, actions).items)
  {
    RunFromValid(InitialState, actions);
  }
}
