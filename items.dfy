/**
 * Cart line items and the list operations the cart reducer is built from:
 * `Array.prototype.filter` on the sku and `Array.prototype.find` on the sku.
 */
module CartItems {
  import opened Wrappers

  /**
   * One line of the cart (the record `CartItemType`). The price is kept as an
   * integer number of cents; `qty` is any integer, since the quantity update
   * accepts zero and negative values.
   */
  datatype CartItem = CartItem(sku: string, name: string, price: int, qty: int)

  /** The cart invariant the reducer is meant to keep: no sku occurs twice. */
  predicate UniqueSkus(cart: seq<CartItem>) {
    forall i, j :: 0 <= i < j < |cart| ==> cart[i].sku != cart[j].sku
  }

  /** True when some item of the cart carries `sku`. */
  predicate HasSku(cart: seq<CartItem>, sku: string) {
    exists i :: 0 <= i < |cart| && cart[i].sku == sku
  }

  /** `i` is the first index of the cart whose item carries `sku`. */
  predicate FirstWithSku(cart: seq<CartItem>, sku: string, i: int) {
    0 <= i < |cart| && cart[i].sku == sku && forall j :: 0 <= j < i ==> cart[j].sku != sku
  }

  /** `cart.filter(item => item.sku !== sku)`: every item of another sku, in order. */
  function FilterOut(cart: seq<CartItem>, sku: string): (r: seq<CartItem>)
    ensures |r| <= |cart|
    ensures forall x :: x in r <==> x in cart && x.sku != sku
    ensures !HasSku(r, sku)
  {
    if cart == [] then []
    else if cart[0].sku != sku then [cart[0]] + FilterOut(cart[1..], sku)
    else FilterOut(cart[1..], sku)
  }

  /** `cart.find(item => item.sku === sku)`: the first item carrying `sku`, if any. */
  function Find(cart: seq<CartItem>, sku: string): (r: Option<CartItem>)
    ensures r.None? <==> !HasSku(cart, sku)
    ensures r.Some? ==> exists i :: FirstWithSku(cart, sku, i) && cart[i] == r.value
  {
    if cart == [] then None
    else if cart[0].sku == sku then Some(cart[0])
    else
      var r := Find(cart[1..], sku);
      assert r.Some? ==> exists i :: FirstWithSku(cart, sku, i) && cart[i] == r.value by {
        if r.Some? {
          var i :| FirstWithSku(cart[1..], sku, i) && cart[1..][i] == r.value;
          assert cart[i + 1] == r.value;
          forall j | 0 <= j < i + 1 ensures cart[j].sku != sku {
            if j > 0 { assert cart[j] == cart[1..][j - 1]; }
          }
          assert FirstWithSku(cart, sku, i + 1);
        }
      }
      assert r.None? ==> !HasSku(cart, sku) by {
        if r.None? {
          forall i | 0 <= i < |cart| ensures cart[i].sku != sku {
            if i > 0 { assert cart[i] == cart[1..][i - 1]; }
          }
        }
      }
      r
  }

  /** How many items of the cart carry `sku`. */
  function SkuCount(cart: seq<CartItem>, sku: string): (n: nat)
    ensures n <= |cart|
    ensures n == 0 <==> !HasSku(cart, sku)
  {
    if cart == [] then 0
    else
      var n := (if cart[0].sku == sku then 1 else 0) + SkuCount(cart[1..], sku);
      assert HasSku(cart[1..], sku) ==> HasSku(cart, sku) by {
        if HasSku(cart[1..], sku) {
          var i :| 0 <= i < |cart| - 1 && cart[1..][i].sku == sku;
          assert cart[i + 1].sku == sku;
        }
      }
      assert HasSku(cart, sku) && cart[0].sku != sku ==> HasSku(cart[1..], sku) by {
        if HasSku(cart, sku) && cart[0].sku != sku {
          var i :| 0 <= i < |cart| && cart[i].sku == sku;
          assert cart[1..][i - 1].sku == sku;
        }
      }
      n
  }

  /** Filtering distributes over concatenation: the order of the kept items is the original one. */
  lemma {:induction false} FilterOutConcat(a: seq<CartItem>, b: seq<CartItem>, sku: string)
    ensures FilterOut(a + b, sku) == FilterOut(a, sku) + FilterOut(b, sku)
  {
    if a == [] {
      assert a + b == b;
    } else {
      assert (a + b)[1..] == a[1..] + b;
      FilterOutConcat(a[1..], b, sku);
    }
  }

  /** Filtering out a sku the cart does not hold leaves the cart as it is. */
  lemma {:induction false} FilterOutAbsent(cart: seq<CartItem>, sku: string)
    requires !HasSku(cart, sku)
    ensures FilterOut(cart, sku) == cart
  {
    if cart != [] {
      assert cart[0].sku != sku;
      assert !HasSku(cart[1..], sku);
      FilterOutAbsent(cart[1..], sku);
      assert cart == [cart[0]] + cart[1..];
    }
  }

  /** In a cart with unique skus, no item before or after index `i` carries the sku at `i`. */
  lemma UniqueAround(cart: seq<CartItem>, i: nat)
    requires UniqueSkus(cart) && i < |cart|
    ensures !HasSku(cart[..i], cart[i].sku) && !HasSku(cart[i + 1..], cart[i].sku)
  {
    assert forall j :: 0 <= j < i ==> cart[..i][j] == cart[j];
    assert forall k :: i + 1 <= k < |cart| ==> cart[i + 1..][k - i - 1] == cart[k];
  }

  /** A list is its part before `i`, its item at `i` and its part after `i`. */
  lemma SplitAt(cart: seq<CartItem>, i: nat)
    requires i < |cart|
    ensures cart == cart[..i] + ([cart[i]] + cart[i + 1..])
  {
  }

  /** In a cart with unique skus, filtering out the sku at index `i` removes exactly that item. */
  lemma FilterOutAt(cart: seq<CartItem>, i: nat)
    requires UniqueSkus(cart) && i < |cart|
    ensures FilterOut(cart, cart[i].sku) == cart[..i] + cart[i + 1..]
  {
    var sku := cart[i].sku;
    var before, after := cart[..i], cart[i + 1..];
    calc {
      FilterOut(cart, sku);
      { SplitAt(cart, i); }
      FilterOut(before + ([cart[i]] + after), sku);
      { FilterOutConcat(before, [cart[i]] + after, sku); }
      FilterOut(before, sku) + FilterOut([cart[i]] + after, sku);
      { assert ([cart[i]] + after)[1..] == after; }
      FilterOut(before, sku) + FilterOut(after, sku);
      { UniqueAround(cart, i);
        FilterOutAbsent(before, sku);
        FilterOutAbsent(after, sku); }
      before + after;
    }
  }

  /** In a cart with unique skus, `find` on the sku at index `i` returns that very item. */
  lemma FindAt(cart: seq<CartItem>, i: nat)
    requires UniqueSkus(cart) && i < |cart|
    ensures Find(cart, cart[i].sku) == Some(cart[i])
  {
    var r := Find(cart, cart[i].sku);
    assert r.Some?;
    var k :| FirstWithSku(cart, cart[i].sku, k) && cart[k] == r.value;
    assert k == i;
  }

  /** The tail of a unique cart is unique and holds no item of the head's sku. */
  lemma UniqueTail(cart: seq<CartItem>)
    requires UniqueSkus(cart) && cart != []
    ensures UniqueSkus(cart[1..])
    ensures forall x :: x in cart[1..] ==> x.sku != cart[0].sku
  {
    var rest := cart[1..];
    forall i, j | 0 <= i < j < |rest| ensures rest[i].sku != rest[j].sku {
      assert rest[i] == cart[i + 1] && rest[j] == cart[j + 1];
    }
    forall x | x in rest ensures x.sku != cart[0].sku {
      var k :| 0 <= k < |rest| && rest[k] == x;
      assert cart[k + 1] == x;
    }
  }

  /** Putting an item in front of a unique list with no item of its sku keeps it unique. */
  lemma ConsUnique(x: CartItem, tail: seq<CartItem>)
    requires UniqueSkus(tail) && forall y :: y in tail ==> y.sku != x.sku
    ensures UniqueSkus([x] + tail)
  {
    var r := [x] + tail;
    forall i, j | 0 <= i < j < |r| ensures r[i].sku != r[j].sku {
      assert r[j] == tail[j - 1] && r[j] in tail;
      if i > 0 { assert r[i] == tail[i - 1]; }
    }
  }

  /** Filtering keeps skus unique. */
  lemma {:induction false} FilterOutUnique(cart: seq<CartItem>, sku: string)
    requires UniqueSkus(cart)
    ensures UniqueSkus(FilterOut(cart, sku))
  {
    if cart != [] {
      UniqueTail(cart);
      FilterOutUnique(cart[1..], sku);
      if cart[0].sku != sku {
        ConsUnique(cart[0], FilterOut(cart[1..], sku));
      }
    }
  }

  /** In a cart with unique skus, no item occurs more than once. */
  lemma {:induction false} UniqueCountsOnce(cart: seq<CartItem>, x: CartItem)
    requires UniqueSkus(cart)
    ensures multiset(cart)[x] <= 1
  {
    if cart != [] {
      UniqueTail(cart);
      UniqueCountsOnce(cart[1..], x);
      assert cart == [cart[0]] + cart[1..];
      if cart[0] == x {
        assert x !in cart[1..];
      }
    }
  }

  /** Reordering a cart with unique skus, as the display sort does, keeps the skus unique. */
  lemma PermutationUnique(s: seq<CartItem>, t: seq<CartItem>)
    requires UniqueSkus(s) && multiset(s) == multiset(t)
    ensures UniqueSkus(t)
  {
    forall i, j | 0 <= i < j < |t| ensures t[i].sku != t[j].sku {
      if t[i] == t[j] {
        // The item would occur twice in t, hence twice in s.
        assert t == t[..j] + t[j..];
        assert t[..j][i] == t[i] && t[j..][0] == t[j];
        assert multiset(t)[t[i]] == multiset(t[..j])[t[i]] + multiset(t[j..])[t[i]];
        UniqueCountsOnce(s, t[i]);
        assert false;
      } else {
        assert t[i] in multiset(s) && t[j] in multiset(s);
        DistinctItemsDistinctSkus(s, t[i], t[j]);
      }
    }
  }

  /** Two different items of a cart with unique skus have different skus. */
  lemma DistinctItemsDistinctSkus(cart: seq<CartItem>, x: CartItem, y: CartItem)
    requires UniqueSkus(cart) && x in cart && y in cart && x != y
    ensures x.sku != y.sku
  {
    var p :| 0 <= p < |cart| && cart[p] == x;
    var q :| 0 <= q < |cart| && cart[q] == y;
    assert p != q;
  }

  /** Appending an item of a sku absent from a unique cart keeps it unique. */
  lemma AppendUnique(cart: seq<CartItem>, item: CartItem)
    requires UniqueSkus(cart) && !HasSku(cart, item.sku)
    ensures UniqueSkus(cart + [item])
  {
    var r := cart + [item];
    forall i, j | 0 <= i < j < |r| ensures r[i].sku != r[j].sku {
      assert r[i] == cart[i];
      if j < |cart| { assert r[j] == cart[j]; }
    }
  }

  /** Counting is additive over concatenation. */
  lemma {:induction false} SkuCountConcat(a: seq<CartItem>, b: seq<CartItem>, sku: string)
    ensures SkuCount(a + b, sku) == SkuCount(a, sku) + SkuCount(b, sku)
  {
    if a == [] {
      assert a + b == b;
    } else {
      assert (a + b)[1..] == a[1..] + b;
      SkuCountConcat(a[1..], b, sku);
    }
  }
}
