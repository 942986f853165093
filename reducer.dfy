/**
 * The cart reducer: a pure transition from the cart state and a dispatched
 * action to the next cart state, or to the error the source throws.
 */
module CartReducer {
  import opened Wrappers
  import opened CartItems

  /** The state object `{ cart: CartItemType[] }`. */
  datatype CartState = CartState(cart: seq<CartItem>)

  /** An action as dispatched: a string tag and an optional payload. */
  datatype ReducerAction = ReducerAction(tag: string, payload: Option<CartItem>)

  /**
   * The three errors the reducer throws. A missing payload names the action
   * as the message does: "ADD", "REMOVE" (for the tag "REMOTE") or "QUANTITY".
   */
  datatype CartError =
    | PayloadMissing(action: string)   // 'action.payload missing in <action> action'
    | ItemMustExist                    // 'Item must exist in order to update quantity'
    | UnidentifiedActionType           // 'Unidentified reducer action type'

  /** The tag values of `REDUCER_ACTION_TYPE`; the REMOVE entry's value is "REMOTE". */
  const ADD: string := "ADD"
  const REMOVE: string := "REMOTE"
  const QUANTITY: string := "QUANTITY"
  const SUBMIT: string := "SUBMIT"

  /** The initial state: an empty cart. */
  const InitCartState: CartState := CartState([])

  /** True when the reducer recognises the tag. */
  predicate KnownTag(tag: string) {
    tag == ADD || tag == REMOVE || tag == QUANTITY || tag == SUBMIT
  }

  /**
   * The reducer. It succeeds exactly when the tag is known, a payload is
   * present for every action but SUBMIT, and a QUANTITY target is in the cart.
   */
  function Reducer(state: CartState, action: ReducerAction): (r: Result<CartState, CartError>)
    ensures r.Ok? <==> KnownTag(action.tag)
                       && (action.tag != SUBMIT ==> action.payload.Some?)
                       && (action.tag == QUANTITY ==> HasSku(state.cart, action.payload.value.sku))
    ensures !KnownTag(action.tag) ==> r == Err(UnidentifiedActionType)
    ensures action.tag == ADD && action.payload.None? ==> r == Err(PayloadMissing("ADD"))
    ensures action.tag == REMOVE && action.payload.None? ==> r == Err(PayloadMissing("REMOVE"))
    ensures action.tag == QUANTITY && action.payload.None? ==> r == Err(PayloadMissing("QUANTITY"))
    ensures action.tag == QUANTITY && action.payload.Some? && !HasSku(state.cart, action.payload.value.sku)
            ==> r == Err(ItemMustExist)
  {
    if action.tag == ADD then
      match action.payload
      case None => Err(PayloadMissing("ADD"))
      case Some(p) =>
        var filtered := FilterOut(state.cart, p.sku);
        var qty := match Find(state.cart, p.sku)
                   case Some(existing) => existing.qty + 1
                   case None => 1;
        Ok(state.(cart := filtered + [CartItem(p.sku, p.name, p.price, qty)]))
    else if action.tag == REMOVE then
      match action.payload
      case None => Err(PayloadMissing("REMOVE"))
      case Some(p) => Ok(state.(cart := FilterOut(state.cart, p.sku)))
    else if action.tag == QUANTITY then
      match action.payload
      case None => Err(PayloadMissing("QUANTITY"))
      case Some(p) =>
        match Find(state.cart, p.sku)
        case None => Err(ItemMustExist)
        case Some(existing) =>
          var updated := existing.(qty := p.qty);
          Ok(state.(cart := FilterOut(state.cart, p.sku) + [updated]))
    else if action.tag == SUBMIT then
      Ok(state.(cart := []))
    else
      Err(UnidentifiedActionType)
  }

  /** ADD of a sku not in the cart appends one new item with qty 1 and keeps everything else. */
  lemma AddAbsent(cart: seq<CartItem>, p: CartItem)
    requires !HasSku(cart, p.sku)
    ensures Reducer(CartState(cart), ReducerAction(ADD, Some(p)))
            == Ok(CartState(cart + [CartItem(p.sku, p.name, p.price, 1)]))
  {
    FilterOutAbsent(cart, p.sku);
  }

  /**
   * ADD of a sku held at index `i` of a cart with unique skus: the other items
   * keep their order and the item moves to the end with qty + 1 and the
   * payload's name and price.
   */
  lemma AddPresent(cart: seq<CartItem>, i: nat, p: CartItem)
    requires UniqueSkus(cart) && i < |cart| && cart[i].sku == p.sku
    ensures Reducer(CartState(cart), ReducerAction(ADD, Some(p)))
            == Ok(CartState(cart[..i] + cart[i + 1..] + [CartItem(p.sku, p.name, p.price, cart[i].qty + 1)]))
  {
    FilterOutAt(cart, i);
    FindAt(cart, i);
  }

  /** After any ADD, whatever the cart held, the added sku occurs exactly once. */
  lemma AddOccursOnce(cart: seq<CartItem>, p: CartItem)
    ensures var r := Reducer(CartState(cart), ReducerAction(ADD, Some(p)));
            r.Ok? && SkuCount(r.value.cart, p.sku) == 1
  {
    var r := Reducer(CartState(cart), ReducerAction(ADD, Some(p)));
    var filtered := FilterOut(cart, p.sku);
    var item := r.value.cart[|r.value.cart| - 1];
    assert r.value.cart == filtered + [item];
    SkuCountConcat(filtered, [item], p.sku);
    assert [item][1..] == [];
  }

  /** REMOVE drops every item of the sku, keeps the rest in order, and leaves the cart unchanged if the sku is absent. */
  lemma RemoveFilters(cart: seq<CartItem>, p: CartItem)
    ensures var r := Reducer(CartState(cart), ReducerAction(REMOVE, Some(p)));
            r.Ok? && !HasSku(r.value.cart, p.sku)
            && (forall x :: x in r.value.cart <==> x in cart && x.sku != p.sku)
            && (!HasSku(cart, p.sku) ==> r.value.cart == cart)
  {
    if !HasSku(cart, p.sku) { FilterOutAbsent(cart, p.sku); }
  }

  /** REMOVE of the sku at index `i` of a cart with unique skus removes exactly that item. */
  lemma RemovePresent(cart: seq<CartItem>, i: nat, p: CartItem)
    requires UniqueSkus(cart) && i < |cart| && cart[i].sku == p.sku
    ensures Reducer(CartState(cart), ReducerAction(REMOVE, Some(p)))
            == Ok(CartState(cart[..i] + cart[i + 1..]))
  {
    FilterOutAt(cart, i);
  }

  /**
   * QUANTITY on the sku at index `i` of a cart with unique skus sets the qty to
   * the payload's (any integer, zero and negatives included), keeps the item's
   * sku, name and price, and moves it to the end.
   */
  lemma QuantityPresent(cart: seq<CartItem>, i: nat, p: CartItem)
    requires UniqueSkus(cart) && i < |cart| && cart[i].sku == p.sku
    ensures Reducer(CartState(cart), ReducerAction(QUANTITY, Some(p)))
            == Ok(CartState(cart[..i] + cart[i + 1..]
                            + [CartItem(cart[i].sku, cart[i].name, cart[i].price, p.qty)]))
  {
    FilterOutAt(cart, i);
    FindAt(cart, i);
  }

  /** QUANTITY on a sku the cart does not hold fails and produces no state. */
  lemma QuantityAbsent(cart: seq<CartItem>, p: CartItem)
    requires !HasSku(cart, p.sku)
    ensures Reducer(CartState(cart), ReducerAction(QUANTITY, Some(p))) == Err(ItemMustExist)
  {
  }

  /** The tag "REMOVE" written out by a caller is not the REMOVE constant's value, so it is rejected. */
  lemma LiteralRemoveRejected(state: CartState, payload: Option<CartItem>)
    ensures Reducer(state, ReducerAction("REMOVE", payload)) == Err(UnidentifiedActionType)
  {
  }

  /** SUBMIT empties the cart whatever it held and whatever payload comes with it. */
  lemma SubmitEmpties(state: CartState, payload: Option<CartItem>)
    ensures Reducer(state, ReducerAction(SUBMIT, payload)) == Ok(InitCartState)
  {
  }

  /** Every successful transition keeps at most one item per sku. */
  lemma ReducerKeepsUniqueSkus(state: CartState, action: ReducerAction)
    requires UniqueSkus(state.cart)
    ensures var r := Reducer(state, action);
            r.Ok? ==> UniqueSkus(r.value.cart)
  {
    var r := Reducer(state, action);
    if r.Ok? && action.tag != SUBMIT {
      var p := action.payload.value;
      FilterOutUnique(state.cart, p.sku);
      var filtered := FilterOut(state.cart, p.sku);
      if action.tag == ADD || action.tag == QUANTITY {
        var item := r.value.cart[|r.value.cart| - 1];
        assert r.value.cart == filtered + [item];
        AppendUnique(filtered, item);
      }
    }
  }
}
