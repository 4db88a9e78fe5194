/**
 * The cart reducer: a transition function from a cart state and a
 * dispatched action to the next cart state. The two exceptions the reducer
 * throws become the `InvalidAction` and `ItemNotFound` results; on either of
 * them there is no new state.
 */
module CartReducer {
  import opened CartItems

  /** The action-type vocabulary. */
  const ADD: string := "ADD"
  const REMOVE: string := "REMOVE"
  const QUANTITY: string := "QUANTITY"
  const SUBMIT: string := "SUBMIT"

  /** A dispatched action: a type string and an optional line-item payload. */
  datatype ReducerAction = ReducerAction(kind: string, payload: Option<CartItem>)

  datatype Result = Ok(state: CartState) | InvalidAction | ItemNotFound

  function Reducer(state: CartState, action: ReducerAction): (r: Result)
    ensures r.Ok? && UniqueSkus(state.cart) ==> UniqueSkus(r.state.cart)
  {
    if action.kind == ADD then
      match action.payload
      case None => InvalidAction
      case Some(p) => Ok(state.(cart := AddItem(state.cart, p)))
    else if action.kind == REMOVE then
      match action.payload
      case None => InvalidAction
      case Some(p) =>
        WithoutKeepsUnique(state.cart, p.sku);
        Ok(state.(cart := Without(state.cart, p.sku)))
    else if action.kind == QUANTITY then
      match action.payload
      case None => InvalidAction
      case Some(p) =>
        match UpdateQuantity(state.cart, p)
        case None => ItemNotFound
        case Some(cart) => Ok(state.(cart := cart))
    else if action.kind == SUBMIT then
      Ok(state.(cart := []))
    else
      InvalidAction
  }

  /**
   * The ADD branch: the cart without the payload's sku, followed by one item
   * with the payload's sku, name and price and qty one more than the qty of
   * the item `find` returns (1 when there is none). Afterwards exactly one
   * item carries the sku, the last one, and unique skus stay unique.
   */
  function AddItem(cart: seq<CartItem>, p: CartItem): (r: seq<CartItem>)
    ensures SoleCarrierLast(r, p.sku)
    ensures UniqueSkus(cart) ==> UniqueSkus(r)
  {
    AppendKeepsUnique(cart, p.sku, CartItem(p.sku, p.name, p.price, AddedQty(cart, p.sku)));
    Without(cart, p.sku) + [CartItem(p.sku, p.name, p.price, AddedQty(cart, p.sku))]
  }

  /**
   * ADD's new qty: 1 when no item carries `sku`, otherwise one more than the
   * qty of the first item that does.
   */
  function AddedQty(cart: seq<CartItem>, sku: string): (r: int)
    ensures !HasSku(cart, sku) ==> r == 1
    ensures forall i :: FirstCarrier(cart, sku, i) ==> r == cart[i].qty + 1
  {
    assert forall i :: FirstCarrier(cart, sku, i) ==> Find(cart, sku) == Some(cart[i]) by {
      forall i | FirstCarrier(cart, sku, i) ensures Find(cart, sku) == Some(cart[i]) {
        FindFirst(cart, sku, i);
      }
    }
    match Find(cart, sku)
    case Some(existing) => existing.qty + 1
    case None => 1
  }

  /**
   * The QUANTITY branch: None exactly when no item carries the payload's
   * sku; otherwise the cart without that sku, followed by the item `find`
   * returns with only its qty replaced. Afterwards exactly one item carries
   * the sku, the last one, and unique skus stay unique.
   */
  function UpdateQuantity(cart: seq<CartItem>, p: CartItem): (r: Option<seq<CartItem>>)
    ensures r.None? <==> !HasSku(cart, p.sku)
    ensures r.Some? ==> SoleCarrierLast(r.value, p.sku)
    ensures r.Some? && UniqueSkus(cart) ==> UniqueSkus(r.value)
  {
    var filtered := Without(cart, p.sku);
    match Find(cart, p.sku)
    case None => None
    case Some(existing) =>
      AppendKeepsUnique(cart, p.sku, existing.(qty := p.qty));
      Some(filtered + [existing.(qty := p.qty)])
  }

  /**
   * Filtering `sku` out and appending one item that carries it keeps the
   * skus unique, and that item is then the only one carrying `sku`.
   */
  lemma AppendKeepsUnique(cart: seq<CartItem>, sku: string, item: CartItem)
    requires item.sku == sku
    ensures UniqueSkus(cart) ==> UniqueSkus(Without(cart, sku) + [item])
    ensures SoleCarrierLast(Without(cart, sku) + [item], sku)
  {
    WithoutKeepsUnique(cart, sku);
  }

  /** The last item carries `sku` and no other item does. */
  predicate SoleCarrierLast(cart: seq<CartItem>, sku: string)
  {
    |cart| > 0 && cart[|cart| - 1].sku == sku &&
    forall i :: 0 <= i < |cart| - 1 ==> cart[i].sku != sku
  }

  /** ADD of a sku the cart does not hold appends one new item with qty 1. */
  lemma AddNewSku(state: CartState, p: CartItem)
    requires !HasSku(state.cart, p.sku)
    ensures Reducer(state, ReducerAction(ADD, Some(p)))
         == Ok(CartState(state.cart + [CartItem(p.sku, p.name, p.price, 1)]))
  {
    WithoutAbsent(state.cart, p.sku);
  }

  /**
   * ADD of a sku the cart holds (first at index i) moves it to the end with
   * qty one more than before, name and price from the payload; with unique
   * skus the length is unchanged.
   */
  lemma AddExistingSku(state: CartState, p: CartItem, i: int)
    requires 0 <= i < |state.cart| && state.cart[i].sku == p.sku
    requires forall j :: 0 <= j < i ==> state.cart[j].sku != p.sku
    ensures Reducer(state, ReducerAction(ADD, Some(p)))
         == Ok(CartState(Without(state.cart, p.sku) + [CartItem(p.sku, p.name, p.price, state.cart[i].qty + 1)]))
    ensures UniqueSkus(state.cart) ==> |Reducer(state, ReducerAction(ADD, Some(p))).state.cart| == |state.cart|
  {
    FindFirst(state.cart, p.sku, i);
    assert AddedQty(state.cart, p.sku) == state.cart[i].qty + 1;
    if UniqueSkus(state.cart) {
      WithoutUniqueLength(state.cart, p.sku);
    }
  }

  /** ADD ignores the payload's own qty. */
  lemma AddIgnoresPayloadQty(state: CartState, p: CartItem, q: int)
    ensures Reducer(state, ReducerAction(ADD, Some(p))) == Reducer(state, ReducerAction(ADD, Some(p.(qty := q))))
  {
  }

  /**
   * REMOVE drops every item carrying the sku, keeps the others (the order is
   * that of `Without`, see WithoutConcat), and leaves a cart without the sku
   * unchanged; with unique skus and the sku present, one item goes.
   */
  lemma RemoveSku(state: CartState, p: CartItem)
    ensures Reducer(state, ReducerAction(REMOVE, Some(p))) == Ok(CartState(Without(state.cart, p.sku)))
    ensures !HasSku(Reducer(state, ReducerAction(REMOVE, Some(p))).state.cart, p.sku)
    ensures !HasSku(state.cart, p.sku) ==> Reducer(state, ReducerAction(REMOVE, Some(p))) == Ok(state)
    ensures UniqueSkus(state.cart) && HasSku(state.cart, p.sku) ==>
              |Reducer(state, ReducerAction(REMOVE, Some(p))).state.cart| == |state.cart| - 1
  {
    if !HasSku(state.cart, p.sku) {
      WithoutAbsent(state.cart, p.sku);
    }
    if UniqueSkus(state.cart) && HasSku(state.cart, p.sku) {
      WithoutUniqueLength(state.cart, p.sku);
    }
  }

  /** QUANTITY on a sku the cart does not hold fails with ItemNotFound. */
  lemma QuantityMissingSku(state: CartState, p: CartItem)
    requires !HasSku(state.cart, p.sku)
    ensures Reducer(state, ReducerAction(QUANTITY, Some(p))) == ItemNotFound
  {
  }

  /**
   * QUANTITY on a sku the cart holds (first at index i) moves that item to
   * the end with only qty replaced, unchecked; name and price stay the
   * item's own. With unique skus the length is unchanged.
   */
  lemma QuantityExistingSku(state: CartState, p: CartItem, i: int)
    requires 0 <= i < |state.cart| && state.cart[i].sku == p.sku
    requires forall j :: 0 <= j < i ==> state.cart[j].sku != p.sku
    ensures Reducer(state, ReducerAction(QUANTITY, Some(p)))
         == Ok(CartState(Without(state.cart, p.sku) + [CartItem(p.sku, state.cart[i].name, state.cart[i].price, p.qty)]))
    ensures UniqueSkus(state.cart) ==> |Reducer(state, ReducerAction(QUANTITY, Some(p))).state.cart| == |state.cart|
  {
    FindFirst(state.cart, p.sku, i);
    if UniqueSkus(state.cart) {
      WithoutUniqueLength(state.cart, p.sku);
    }
  }

  /** SUBMIT empties the cart from any state, with or without a payload. */
  lemma SubmitClears(state: CartState, payload: Option<CartItem>)
    ensures Reducer(state, ReducerAction(SUBMIT, payload)) == Ok(CartState([]))
  {
  }

  /**
   * Exactly when the reducer fails, and with which error: a missing payload
   * on ADD, REMOVE or QUANTITY or an unknown type is InvalidAction, and
   * QUANTITY of an absent sku is ItemNotFound.
   */
  lemma ReducerErrors(state: CartState, action: ReducerAction)
    ensures Reducer(state, action) == InvalidAction <==>
              action.kind !in {ADD, REMOVE, QUANTITY, SUBMIT} ||
              (action.kind in {ADD, REMOVE, QUANTITY} && action.payload.None?)
    ensures Reducer(state, action) == ItemNotFound <==>
              action.kind == QUANTITY && action.payload.Some? && !HasSku(state.cart, action.payload.value.sku)
  {
  }

  /** A concrete QUANTITY: one item ITEM0001 with qty 1, set to 7. */
  lemma QuantityExample()
    ensures (var item := CartItem("ITEM0001", "Widget", 999, 1);
             Reducer(CartState([item]), ReducerAction(QUANTITY, Some(CartItem("ITEM0001", "", 0, 7))))
             == Ok(CartState([item.(qty := 7)])))
  {
    var item := CartItem("ITEM0001", "Widget", 999, 1);
    QuantityExistingSku(CartState([item]), CartItem("ITEM0001", "", 0, 7), 0);
    assert Without([item], "ITEM0001") == [];
  }

  /** ADD twice from an empty cart: one item, qty 2, name and price from the second payload. */
  lemma AddTwiceExample(p: CartItem, p2: CartItem)
    requires p.sku == p2.sku
    ensures (var s1 := Reducer(CartState([]), ReducerAction(ADD, Some(p)));
             s1.Ok? && Reducer(s1.state, ReducerAction(ADD, Some(p2)))
             == Ok(CartState([CartItem(p.sku, p2.name, p2.price, 2)])))
  {
    AddNewSku(CartState([]), p);
    var c1 := [CartItem(p.sku, p.name, p.price, 1)];
    AddExistingSku(CartState(c1), p2, 0);
    assert Without(c1, p.sku) == [];
  }
}
