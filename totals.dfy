/**
 * The aggregates recomputed on every read of the cart: the item count and the
 * price sum, both written in the source as a left fold with `reduce`.
 */
module CartTotals {
  import opened Wrappers
  import opened CartItems
  import opened CartReducer

  /**
   * `cart.reduce((previousValue, cartItem) => previousValue + weigh(cartItem), acc)`:
   * the left fold started at `acc` ends at `acc` plus the sum.
   */
  function Reduce(cart: seq<CartItem>, acc: int, weigh: CartItem -> int): (r: int)
    ensures r == acc + Sum(cart, weigh)
  {
    if cart == [] then acc else Reduce(cart[1..], acc + weigh(cart[0]), weigh)
  }

  /** Reference definition: the sum of `weigh` over the items. */
  function Sum(cart: seq<CartItem>, weigh: CartItem -> int): (total: int) {
    if cart == [] then 0 else weigh(cart[0]) + Sum(cart[1..], weigh)
  }

  /** What an item adds to `totalItems`. */
  function Qty(item: CartItem): (q: int) { item.qty }

  /** What an item adds to the price total, in cents. */
  function LinePrice(item: CartItem): (cents: int) { item.qty * item.price }

  /** `totalItems`: the sum of the quantities, 0 for an empty cart. */
  function TotalItems(cart: seq<CartItem>): (n: int)
    ensures n == Sum(cart, Qty)
    ensures cart == [] ==> n == 0
  {
    Reduce(cart, 0, Qty)
  }

  /** The number `totalPrice` formats: the sum of qty times price, in cents. */
  function TotalPriceCents(cart: seq<CartItem>): (c: int)
    ensures c == Sum(cart, LinePrice)
    ensures cart == [] ==> c == 0
  {
    Reduce(cart, 0, LinePrice)
  }

  /** Sums are additive over concatenation. */
  lemma {:induction false} SumConcat(a: seq<CartItem>, b: seq<CartItem>, weigh: CartItem -> int)
    ensures Sum(a + b, weigh) == Sum(a, weigh) + Sum(b, weigh)
  {
    if a == [] {
      assert a + b == b;
    } else {
      assert (a + b)[1..] == a[1..] + b;
      SumConcat(a[1..], b, weigh);
    }
  }

  /** Taking the first item off `s` and a matching item off `t` keeps the multisets equal. */
  lemma MultisetWithout(s: seq<CartItem>, t: seq<CartItem>, k: nat)
    requires s != [] && k < |t| && t[k] == s[0] && multiset(s) == multiset(t)
    ensures multiset(s[1..]) == multiset(t[..k] + t[k + 1..])
  {
    assert t == t[..k] + [t[k]] + t[k + 1..];
    assert s == [s[0]] + s[1..];
    calc {
      multiset(s[1..]);
      multiset(s) - multiset{s[0]};
      multiset(t) - multiset{t[k]};
      multiset(t[..k] + t[k + 1..]);
    }
  }

  /** Sums do not depend on the order of the items. */
  lemma {:induction false} SumPermutation(s: seq<CartItem>, t: seq<CartItem>, weigh: CartItem -> int)
    requires multiset(s) == multiset(t)
    ensures Sum(s, weigh) == Sum(t, weigh)
  {
    if s == [] {
      assert |t| == |multiset(t)| == 0;
    } else {
      assert s[0] in multiset(t);
      var k :| 0 <= k < |t| && t[k] == s[0];
      MultisetWithout(s, t, k);
      SumPermutation(s[1..], t[..k] + t[k + 1..], weigh);
      SumWithout(t, k, weigh);
    }
  }

  /** Sum over a cart with the item at `i` taken out. */
  lemma SumWithout(cart: seq<CartItem>, i: nat, weigh: CartItem -> int)
    requires i < |cart|
    ensures Sum(cart, weigh) == Sum(cart[..i] + cart[i + 1..], weigh) + weigh(cart[i])
  {
    var before, after := cart[..i], cart[i + 1..];
    calc {
      Sum(cart, weigh);
      { assert cart == before + ([cart[i]] + after); }
      Sum(before + ([cart[i]] + after), weigh);
      { SumConcat(before, [cart[i]] + after, weigh); }
      Sum(before, weigh) + Sum([cart[i]] + after, weigh);
      { assert ([cart[i]] + after)[1..] == after; }
      Sum(before, weigh) + weigh(cart[i]) + Sum(after, weigh);
      { SumConcat(before, after, weigh); }
      Sum(before + after, weigh) + weigh(cart[i]);
    }
  }

  /** A successful ADD on a cart with unique skus raises `totalItems` by exactly one. */
  lemma AddRaisesTotalItems(cart: seq<CartItem>, p: CartItem)
    requires UniqueSkus(cart)
    ensures var r := Reducer(CartState(cart), ReducerAction(ADD, Some(p)));
            r.Ok? && TotalItems(r.value.cart) == TotalItems(cart) + 1
  {
    var added := CartItem(p.sku, p.name, p.price, 1);
    if HasSku(cart, p.sku) {
      var i :| 0 <= i < |cart| && cart[i].sku == p.sku;
      AddPresent(cart, i, p);
      added := added.(qty := cart[i].qty + 1);
      SumWithout(cart, i, Qty);
      SumConcat(cart[..i] + cart[i + 1..], [added], Qty);
    } else {
      AddAbsent(cart, p);
      SumConcat(cart, [added], Qty);
    }
    assert Sum([added], Qty) == added.qty by { assert [added][1..] == []; }
  }

  /** REMOVE of a present sku lowers `totalItems` by that item's qty. */
  lemma RemoveLowersTotalItems(cart: seq<CartItem>, i: nat, p: CartItem)
    requires UniqueSkus(cart) && i < |cart| && cart[i].sku == p.sku
    ensures var r := Reducer(CartState(cart), ReducerAction(REMOVE, Some(p)));
            r.Ok? && TotalItems(r.value.cart) == TotalItems(cart) - cart[i].qty
  {
    RemovePresent(cart, i, p);
    SumWithout(cart, i, Qty);
  }

  /** QUANTITY on a present sku changes `totalItems` by the difference between the new and the old qty. */
  lemma QuantityShiftsTotalItems(cart: seq<CartItem>, i: nat, p: CartItem)
    requires UniqueSkus(cart) && i < |cart| && cart[i].sku == p.sku
    ensures var r := Reducer(CartState(cart), ReducerAction(QUANTITY, Some(p)));
            r.Ok? && TotalItems(r.value.cart) == TotalItems(cart) - cart[i].qty + p.qty
  {
    QuantityPresent(cart, i, p);
    var updated := cart[i].(qty := p.qty);
    SumWithout(cart, i, Qty);
    SumConcat(cart[..i] + cart[i + 1..], [updated], Qty);
    assert Sum([updated], Qty) == p.qty by { assert [updated][1..] == []; }
  }
}
