/**
 * The display order of the cart: items sorted in place, ascending by the
 * number written in the last four characters of their sku.
 */
module DisplayOrder {
  import opened CartItems
  import opened CartTotals

  predicate IsDigit(c: char) {
    '0' <= c <= '9'
  }

  predicate AllDigits(s: string) {
    forall i :: 0 <= i < |s| ==> IsDigit(s[i])
  }

  /** A sku whose last four characters are decimal digits, so that its sort key is a number. */
  predicate WellFormedSku(sku: string) {
    |sku| >= 4 && AllDigits(sku[|sku| - 4..])
  }

  function Pow10(n: nat): (p: nat) {
    if n == 0 then 1 else 10 * Pow10(n - 1)
  }

  /** `Number(s)` for a string of decimal digits: the base-10 value, below 10 to the length. */
  function DecimalValue(s: string): (v: nat)
    requires AllDigits(s)
    ensures v < Pow10(|s|)
  {
    if s == [] then 0
    else
      assert AllDigits(s[..|s| - 1]);
      10 * DecimalValue(s[..|s| - 1]) + (s[|s| - 1] as int - '0' as int)
  }

  /** `Number(sku.slice(-4))`: a number from 0 to 9999. */
  function SuffixKey(sku: string): (k: nat)
    requires WellFormedSku(sku)
    ensures k < 10000
  {
    DecimalValue(sku[|sku| - 4..])
  }

  /** The comparator `(a, b) => Number(a.sku.slice(-4)) - Number(b.sku.slice(-4))`. */
  function CompareBySuffix(a: CartItem, b: CartItem): (r: int)
    requires WellFormedSku(a.sku) && WellFormedSku(b.sku)
    ensures r < 0 <==> SuffixKey(a.sku) < SuffixKey(b.sku)
    ensures r == 0 <==> SuffixKey(a.sku) == SuffixKey(b.sku)
    ensures -10000 < r < 10000
  {
    SuffixKey(a.sku) - SuffixKey(b.sku)
  }

  lemma DigitStep(x: int, d: int, y: int, e: int)
    requires 0 <= d < 10 && 0 <= e < 10 && 10 * x + d == 10 * y + e
    ensures x == y && d == e
  {
  }

  /** Two digit strings of one length have the same value only when they are the same string. */
  lemma {:induction false} DecimalValueInjective(s: string, t: string)
    requires AllDigits(s) && AllDigits(t) && |s| == |t|
    requires DecimalValue(s) == DecimalValue(t)
    ensures s == t
  {
    if s != [] {
      var n := |s| - 1;
      assert AllDigits(s[..n]) && AllDigits(t[..n]);
      assert IsDigit(s[n]) && IsDigit(t[n]);
      DigitStep(DecimalValue(s[..n]), s[n] as int - '0' as int, DecimalValue(t[..n]), t[n] as int - '0' as int);
      DecimalValueInjective(s[..n], t[..n]);
      assert s == s[..n] + [s[n]] && t == t[..n] + [t[n]];
    }
  }

  /** Two well-formed skus get the same sort key exactly when their last four characters agree. */
  lemma SuffixKeyExact(a: string, b: string)
    requires WellFormedSku(a) && WellFormedSku(b)
    ensures SuffixKey(a) == SuffixKey(b) <==> a[|a| - 4..] == b[|b| - 4..]
  {
    if SuffixKey(a) == SuffixKey(b) {
      DecimalValueInjective(a[|a| - 4..], b[|b| - 4..]);
    }
  }

  /** On well-formed skus the comparator is antisymmetric and transitive: a consistent ordering. */
  lemma CompareConsistent(a: CartItem, b: CartItem, c: CartItem)
    requires WellFormedSku(a.sku) && WellFormedSku(b.sku) && WellFormedSku(c.sku)
    ensures CompareBySuffix(a, b) == -CompareBySuffix(b, a)
    ensures CompareBySuffix(a, b) <= 0 && CompareBySuffix(b, c) <= 0 ==> CompareBySuffix(a, c) <= 0
  {
  }

  predicate AllWellFormed(s: seq<CartItem>) {
    forall i :: 0 <= i < |s| ==> WellFormedSku(s[i].sku)
  }

  /** The items are in ascending order of their sku suffix. */
  predicate SortedBySuffix(s: seq<CartItem>)
    requires AllWellFormed(s)
  {
    forall i, j :: 0 <= i < j < |s| ==> SuffixKey(s[i].sku) <= SuffixKey(s[j].sku)
  }

  /**
   * The state of inserting the item at `i`: it now sits at `j`, every other
   * pair in `s[..i + 1]` is in order, and it is not above what follows it.
   */
  predicate Inserting(s: seq<CartItem>, i: nat, j: nat)
    requires AllWellFormed(s) && j <= i < |s|
  {
    (forall p, q :: 0 <= p < q <= i && p != j && q != j ==> SuffixKey(s[p].sku) <= SuffixKey(s[q].sku))
    && (forall q :: j < q <= i ==> SuffixKey(s[j].sku) <= SuffixKey(s[q].sku))
  }

  /**
   * Everything the insertion of the item at `i` keeps while it runs on `s`,
   * which started as `orig`: a permutation of `orig` with the same tail after
   * `i`, well-formed skus, and the item at `j` in the `Inserting` shape.
   */
  predicate InsertState(orig: seq<CartItem>, s: seq<CartItem>, i: nat, j: nat) {
    j <= i < |s| == |orig| && AllWellFormed(s) && Inserting(s, i, j)
    && multiset(s) == multiset(orig) && s[i + 1..] == orig[i + 1..]
  }

  /** Before any swap, a sorted prefix `s[..i]` puts the item at `i` in the `Inserting` shape. */
  lemma InsertStart(s: seq<CartItem>, i: nat)
    requires i < |s| && AllWellFormed(s) && AllWellFormed(s[..i]) && SortedBySuffix(s[..i])
    ensures InsertState(s, s, i, i)
  {
    assert forall k :: 0 <= k < i ==> s[..i][k] == s[k];
  }

  /** Swapping the inserted item with a greater left neighbour keeps the state, one place further left. */
  lemma SwapLeft(orig: seq<CartItem>, s: seq<CartItem>, i: nat, j: nat)
    requires InsertState(orig, s, i, j) && 0 < j
    requires SuffixKey(s[j - 1].sku) > SuffixKey(s[j].sku)
    ensures InsertState(orig, s[j - 1 := s[j]][j := s[j - 1]], i, j - 1)
  {
    var t := s[j - 1 := s[j]][j := s[j - 1]];
    assert forall k :: 0 <= k < |t| ==> t[k] == s[if k == j - 1 then j else if k == j then j - 1 else k];
    assert t[i + 1..] == s[i + 1..];
  }

  /** When the inserted item is not below its left neighbour (or is first), `s[..i + 1]` is sorted. */
  lemma InsertDone(orig: seq<CartItem>, s: seq<CartItem>, i: nat, j: nat)
    requires InsertState(orig, s, i, j)
    requires j == 0 || SuffixKey(s[j - 1].sku) <= SuffixKey(s[j].sku)
    ensures AllWellFormed(s[..i + 1]) && SortedBySuffix(s[..i + 1])
  {
    assert forall k :: 0 <= k <= i ==> s[..i + 1][k] == s[k];
  }

  /** Moves the item at `i` leftwards past every item with a greater key, so that `a[..i + 1]` is sorted. */
  method InsertAt(a: array<CartItem>, i: nat)
    requires i < a.Length && AllWellFormed(a[..]) && AllWellFormed(a[..i]) && SortedBySuffix(a[..i])
    modifies a
    ensures AllWellFormed(a[..]) && AllWellFormed(a[..i + 1]) && SortedBySuffix(a[..i + 1])
    ensures multiset(a[..]) == multiset(old(a[..]))
    ensures a[i + 1..] == old(a[i + 1..])
  {
    ghost var orig := a[..];
    InsertStart(orig, i);
    var j: nat := i;
    while 0 < j && CompareBySuffix(a[j - 1], a[j]) > 0
      invariant InsertState(orig, a[..], i, j)
    {
      ghost var before := a[..];
      SwapLeft(orig, before, i, j);
      a[j - 1], a[j] := a[j], a[j - 1];
      assert a[..] == before[j - 1 := before[j]][j := before[j - 1]];
      j := j - 1;
    }
    InsertDone(orig, a[..], i, j);
  }

  /**
   * `state.cart.sort(comparator)`: sorts the stored items in place, ascending
   * by sku suffix; the result is a permutation of the items before the sort.
   */
  method SortForDisplay(a: array<CartItem>)
    requires AllWellFormed(a[..])
    modifies a
    ensures AllWellFormed(a[..]) && SortedBySuffix(a[..])
    ensures multiset(a[..]) == multiset(old(a[..]))
    ensures UniqueSkus(old(a[..])) ==> UniqueSkus(a[..])
  {
    var i := 0;
    while i < a.Length
      invariant 0 <= i <= a.Length
      invariant AllWellFormed(a[..]) && AllWellFormed(a[..i]) && SortedBySuffix(a[..i])
      invariant multiset(a[..]) == multiset(old(a[..]))
    {
      InsertAt(a, i);
      i := i + 1;
    }
    assert a[..a.Length] == a[..];
    if UniqueSkus(old(a[..])) { PermutationUnique(old(a[..]), a[..]); }
  }

  /**
   * One read of the cart: the item count and the price total are computed
   * from the stored items, then the stored items are sorted for display.
   * Both totals also hold of the sorted items.
   */
  method ReadCart(cart: array<CartItem>) returns (totalItems: int, totalPriceCents: int)
    requires AllWellFormed(cart[..])
    modifies cart
    ensures totalItems == Sum(old(cart[..]), Qty) == Sum(cart[..], Qty)
    ensures totalPriceCents == Sum(old(cart[..]), LinePrice) == Sum(cart[..], LinePrice)
    ensures AllWellFormed(cart[..]) && SortedBySuffix(cart[..])
    ensures multiset(cart[..]) == multiset(old(cart[..]))
    ensures UniqueSkus(old(cart[..])) ==> UniqueSkus(cart[..])
  {
    totalItems := TotalItems(cart[..]);
    totalPriceCents := TotalPriceCents(cart[..]);
    SortForDisplay(cart);
    SumPermutation(old(cart[..]), cart[..], Qty);
    SumPermutation(old(cart[..]), cart[..], LinePrice);
  }
}
