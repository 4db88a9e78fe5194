/**
 * The display view of the cart: the context hook sorts the cart array in
 * place, ascending by the number that the last four characters of each sku
 * spell, and hands out the totals beside it.
 */
module CartView {
  import opened CartItems
  import opened CartReducer
  import opened CartTotals

  predicate IsDigit(c: char) { '0' <= c <= '9' }

  /** `sku.slice(-4)`: the last four characters, or the whole sku when it is shorter. */
  function LastFour(sku: string): (r: string)
    ensures |r| == if |sku| < 4 then |sku| else 4
    ensures sku == sku[..|sku| - |r|] + r
  {
    if |sku| <= 4 then sku else sku[|sku| - 4..]
  }

  predicate AllDigits(d: string)
  {
    forall i :: 0 <= i < |d| ==> IsDigit(d[i])
  }

  /** The sort key is defined only when the characters `slice(-4)` keeps are all digits. */
  predicate HasDigitSuffix(sku: string)
  {
    AllDigits(LastFour(sku))
  }

  function Pow10(n: nat): (r: nat)
    ensures r >= 1
  {
    if n == 0 then 1 else 10 * Pow10(n - 1)
  }

  /** `Number(d)` for a string of decimal digits; the empty string reads as 0. */
  function DecimalValue(d: string): (n: nat)
    requires AllDigits(d)
    ensures n < Pow10(|d|)
  {
    if d == [] then 0
    else
      var init := d[..|d| - 1];
      assert AllDigits(init) by {
        forall i | 0 <= i < |init| ensures IsDigit(init[i]) {
          assert init[i] == d[i];
        }
      }
      DecimalValue(init) * 10 + (d[|d| - 1] as int - '0' as int)
  }

  /** `n` written with exactly `w` decimal digits, zero-padded on the left. */
  function PaddedDigits(n: nat, w: nat): (d: string)
    ensures |d| == w && AllDigits(d)
  {
    if w == 0 then [] else PaddedDigits(n / 10, w - 1) + [('0' as int + n % 10) as char]
  }

  /** Reading back a zero-padded suffix such as "0003" gives the number it was written from. */
  lemma {:induction false} DecimalValuePadded(n: nat, w: nat)
    requires n < Pow10(w)
    ensures DecimalValue(PaddedDigits(n, w)) == n
  {
    if w > 0 {
      DecimalValuePadded(n / 10, w - 1);
      var d := PaddedDigits(n, w);
      assert d[..|d| - 1] == PaddedDigits(n / 10, w - 1);
    }
  }

  /** The comparator's key: `Number(sku.slice(-4))`, a number below 10000. */
  function SkuKey(sku: string): (k: nat)
    requires HasDigitSuffix(sku)
    ensures k < 10000
  {
    var suffix := LastFour(sku);
    assert Pow10(|suffix|) <= 10000 by {
      assert Pow10(4) == 10000;
      assert |suffix| <= 4;
      if |suffix| < 4 {
        assert Pow10(3) == 1000;
        assert Pow10(2) == 100;
        assert Pow10(1) == 10;
      }
    }
    DecimalValue(suffix)
  }

  /** The comparator's key on a line item: `Number(item.sku.slice(-4))`. */
  function ItemKey(item: CartItem): (k: nat)
    requires HasDigitSuffix(item.sku)
    ensures k < 10000
  {
    SkuKey(item.sku)
  }

  /** Every item of `s` is in the domain of `key`. */
  ghost predicate Keyed(s: seq<CartItem>, key: CartItem --> nat)
  {
    forall k :: 0 <= k < |s| ==> key.requires(s[k])
  }

  /** Ascending by `key`. */
  ghost predicate SortedBy(s: seq<CartItem>, key: CartItem --> nat)
    requires Keyed(s, key)
  {
    forall p, q :: 0 <= p < q < |s| ==> key(s[p]) <= key(s[q])
  }

  /** No two items share a key. */
  ghost predicate DistinctKeys(s: seq<CartItem>, key: CartItem --> nat)
    requires Keyed(s, key)
  {
    forall p, q :: 0 <= p < q < |s| ==> key(s[p]) != key(s[q])
  }

  /**
   * `cart.sort((a, b) => key(a) - key(b))`: reorders the array in place so
   * that the keys ascend, keeping the same items.
   */
  method SortByKey(a: array<CartItem>, key: CartItem --> nat)
    requires Keyed(a[..], key)
    modifies a
    ensures multiset(a[..]) == multiset(old(a[..]))
    ensures Keyed(a[..], key) && SortedBy(a[..], key)
  {
    var i := 0;
    while i < a.Length
      invariant 0 <= i <= a.Length
      invariant multiset(a[..]) == multiset(old(a[..]))
      invariant Keyed(a[..], key)
      invariant forall p, q :: 0 <= p < q < i ==> key(a[p]) <= key(a[q])
    {
      InsertAt(a, i, key);
      i := i + 1;
    }
  }

  /** Moves `a[i]` down into the ascending prefix `a[..i]`, so that `a[..i + 1]` ascends. */
  method InsertAt(a: array<CartItem>, i: int, key: CartItem --> nat)
    requires 0 <= i < a.Length && Keyed(a[..], key)
    requires forall p, q :: 0 <= p < q < i ==> key(a[p]) <= key(a[q])
    modifies a
    ensures multiset(a[..]) == multiset(old(a[..])) && Keyed(a[..], key)
    ensures forall p, q :: 0 <= p < q <= i ==> key(a[p]) <= key(a[q])
    ensures a[i + 1..] == old(a[i + 1..])
  {
    var j := i;
    while j > 0 && key(a[j - 1]) > key(a[j])
      invariant 0 <= j <= i
      invariant multiset(a[..]) == multiset(old(a[..])) && Keyed(a[..], key)
      invariant forall p, q :: 0 <= p < q <= i && p != j && q != j ==> key(a[p]) <= key(a[q])
      invariant forall q :: j < q <= i ==> key(a[j]) < key(a[q])
      invariant a[i + 1..] == old(a[i + 1..])
    {
      SwapDown(a, j);
      j := j - 1;
    }
    forall p, q | 0 <= p < q <= i ensures key(a[p]) <= key(a[q]) {
      if q == j && p < j - 1 {
        assert key(a[p]) <= key(a[j - 1]);
      }
    }
  }

  /** Exchanges `a[j - 1]` and `a[j]`. */
  method SwapDown(a: array<CartItem>, j: int)
    requires 0 < j < a.Length
    modifies a
    ensures a[j - 1] == old(a[j]) && a[j] == old(a[j - 1])
    ensures forall m :: 0 <= m < a.Length && m != j - 1 && m != j ==> a[m] == old(a[m])
    ensures multiset(a[..]) == multiset(old(a[..]))
  {
    a[j - 1], a[j] := a[j], a[j - 1];
  }

  /**
   * The hook's derived values: totalItems and the cents value of totalPrice
   * are read off the cart, then the cart array itself is sorted for display
   * by the sku key. The totals do not depend on the reordering.
   */
  method UseCartContext(cart: array<CartItem>) returns (totalItems: int, totalPriceCents: int)
    requires Keyed(cart[..], ItemKey)
    modifies cart
    ensures totalItems == TotalItems(old(cart[..])) && totalPriceCents == TotalPriceCents(old(cart[..]))
    ensures totalItems == TotalItems(cart[..]) && totalPriceCents == TotalPriceCents(cart[..])
    ensures multiset(cart[..]) == multiset(old(cart[..]))
    ensures Keyed(cart[..], ItemKey) && SortedBy(cart[..], ItemKey)
    ensures UniqueSkus(old(cart[..])) ==> UniqueSkus(cart[..])
  {
    totalItems := TotalItems(cart[..]);
    totalPriceCents := TotalPriceCents(cart[..]);
    SortByKey(cart, ItemKey);
    TotalsPermutation(old(cart[..]), cart[..]);
    if UniqueSkus(old(cart[..])) {
      UniqueSkusPermutation(old(cart[..]), cart[..]);
    }
  }

  /** Two carts holding the same items, both sorted, with distinct keys, are equal. */
  lemma {:induction false} SortedPermutationUnique(s: seq<CartItem>, t: seq<CartItem>, key: CartItem --> nat)
    requires Keyed(s, key) && Keyed(t, key)
    requires SortedBy(s, key) && SortedBy(t, key) && DistinctKeys(s, key)
    requires multiset(s) == multiset(t)
    ensures s == t
  {
    assert |s| == |multiset(s)| == |multiset(t)| == |t|;
    if s != [] {
      SortedHeads(s, t, key);
      DropHead(s, t);
      SortedTail(s, key);
      SortedTail(t, key);
      SortedPermutationUnique(s[1..], t[1..], key);
      assert s == [s[0]] + s[1..] && t == [t[0]] + t[1..];
    }
  }

  /** Of two sorted arrangements of the same items with distinct keys, the first items agree. */
  lemma SortedHeads(s: seq<CartItem>, t: seq<CartItem>, key: CartItem --> nat)
    requires |s| > 0 && Keyed(s, key) && Keyed(t, key)
    requires SortedBy(s, key) && SortedBy(t, key) && DistinctKeys(s, key)
    requires multiset(s) == multiset(t)
    ensures |t| > 0 && s[0] == t[0]
  {
    assert s[0] in multiset(t);
    var k :| 0 <= k < |t| && t[k] == s[0];
    assert t[0] in multiset(s);
    var m :| 0 <= m < |s| && s[m] == t[0];
    assert key(s[m]) <= key(s[0]);
  }

  /** Two arrangements of the same items that start alike agree on the rest. */
  lemma DropHead(s: seq<CartItem>, t: seq<CartItem>)
    requires |s| > 0 && |t| > 0 && s[0] == t[0] && multiset(s) == multiset(t)
    ensures multiset(s[1..]) == multiset(t[1..])
  {
    assert s == [s[0]] + s[1..] && t == [t[0]] + t[1..];
    assert multiset(s) == multiset{s[0]} + multiset(s[1..]);
    assert multiset(t) == multiset{t[0]} + multiset(t[1..]);
    calc {
      multiset(s[1..]);
      multiset(s) - multiset{s[0]};
      multiset(t) - multiset{t[0]};
      multiset(t[1..]);
    }
  }

  /** What holds of a sorted cart with distinct keys holds of its tail. */
  lemma SortedTail(s: seq<CartItem>, key: CartItem --> nat)
    requires |s| > 0 && Keyed(s, key) && SortedBy(s, key)
    ensures Keyed(s[1..], key) && SortedBy(s[1..], key)
    ensures DistinctKeys(s, key) ==> DistinctKeys(s[1..], key)
  {
    assert forall k :: 0 <= k < |s[1..]| ==> s[1..][k] == s[k + 1];
  }

  /** A sku ending in the four-digit zero-padded form of `n` has key `n`. */
  lemma SkuKeyPadded(prefix: string, n: nat)
    requires n < 10000
    ensures HasDigitSuffix(prefix + PaddedDigits(n, 4))
    ensures SkuKey(prefix + PaddedDigits(n, 4)) == n
  {
    var d := PaddedDigits(n, 4);
    var sku := prefix + d;
    assert LastFour(sku) == d by {
      assert sku[|sku| - 4..] == d;
    }
    assert Pow10(4) == 10000;
    DecimalValuePadded(n, 4);
  }

  /** The keys of the skus A0003, B0001 and C0002. */
  lemma ExampleKeys()
    ensures HasDigitSuffix("A0003") && SkuKey("A0003") == 3
    ensures HasDigitSuffix("B0001") && SkuKey("B0001") == 1
    ensures HasDigitSuffix("C0002") && SkuKey("C0002") == 2
  {
    assert LastFour("A0003") == "0003" && LastFour("B0001") == "0001" && LastFour("C0002") == "0002";
    assert "0003"[..3] == "0001"[..3] == "0002"[..3] == "000";
    assert "000"[..2] == "00" && "00"[..1] == "0" && "0"[..0] == [];
    assert DecimalValue("000") == 0;
  }

  /** skus A0003, B0001 and C0002, in any order, are displayed as B0001, C0002, A0003. */
  lemma SortExample(t: seq<CartItem>, a: CartItem, b: CartItem, c: CartItem)
    requires a.sku == "A0003" && b.sku == "B0001" && c.sku == "C0002"
    requires multiset(t) == multiset([a, b, c])
    requires Keyed(t, ItemKey) && SortedBy(t, ItemKey)
    ensures t == [b, c, a]
  {
    ExampleKeys();
    assert multiset([b, c, a]) == multiset([a, b, c]);
    SortedThree(t, b, c, a, ItemKey);
  }

  /** A sorted arrangement of three items with ascending distinct keys is that order. */
  lemma SortedThree(t: seq<CartItem>, x: CartItem, y: CartItem, z: CartItem, key: CartItem --> nat)
    requires key.requires(x) && key.requires(y) && key.requires(z)
    requires key(x) < key(y) < key(z)
    requires multiset(t) == multiset([x, y, z])
    requires Keyed(t, key) && SortedBy(t, key)
    ensures t == [x, y, z]
  {
    var s := [x, y, z];
    SortedPermutationUnique(s, t, key);
  }

  /** Removing one element of a cart with unique skus keeps them unique. */
  lemma DeleteKeepsUnique(a: seq<CartItem>, k: int)
    requires UniqueSkus(a) && 0 <= k < |a|
    ensures UniqueSkus(a[..k] + a[k + 1..])
  {
    var r := a[..k] + a[k + 1..];
    forall i, j | 0 <= i < j < |r| ensures r[i].sku != r[j].sku {
      var i' := if i < k then i else i + 1;
      var j' := if j < k then j else j + 1;
      assert r[i] == a[i'] && r[j] == a[j'];
    }
  }

  /** Removing the element at `k` removes one occurrence of it. */
  lemma DeleteMultiset(a: seq<CartItem>, k: int)
    requires 0 <= k < |a|
    ensures multiset(a[..k] + a[k + 1..]) == multiset(a) - multiset{a[k]}
  {
    assert a == a[..k] + [a[k]] + a[k + 1..];
    assert multiset(a) == multiset(a[..k]) + multiset{a[k]} + multiset(a[k + 1..]);
  }

  /**
   * Taking the last item off one arrangement and the same item off another
   * leaves two arrangements of the same items.
   */
  lemma DeleteLast(a: seq<CartItem>, b: seq<CartItem>, k: int)
    requires multiset(a) == multiset(b) && |b| > 0 && 0 <= k < |a| && a[k] == b[|b| - 1]
    ensures multiset(a[..k] + a[k + 1..]) == multiset(b[..|b| - 1])
  {
    var n := |b| - 1;
    assert b == b[..n] + [b[n]];
    DeleteMultiset(a, k);
    calc {
      multiset(a[..k] + a[k + 1..]);
      multiset(a) - multiset{a[k]};
      multiset(b) - multiset{b[n]};
      multiset(b[..n]);
    }
  }

  /**
   * An item that is, apart from position `k`, the same as the items of a
   * cart with unique skus, does not share a sku with the item at `k`.
   */
  lemma DeleteOthersSku(a: seq<CartItem>, k: int, y: CartItem)
    requires UniqueSkus(a) && 0 <= k < |a|
    requires y in multiset(a[..k] + a[k + 1..])
    ensures y.sku != a[k].sku
  {
    var r := a[..k] + a[k + 1..];
    var m :| 0 <= m < |r| && r[m] == y;
    var m' := if m < k then m else m + 1;
    assert a[m'] == y && m' != k;
  }

  /** Unique skus survive any reordering of the cart, such as the display sort. */
  lemma {:induction false} UniqueSkusPermutation(a: seq<CartItem>, b: seq<CartItem>)
    requires UniqueSkus(a) && multiset(a) == multiset(b)
    ensures UniqueSkus(b)
  {
    if b != [] {
      var n := |b| - 1;
      var x := b[n];
      var init := b[..n];
      assert b == init + [x];
      assert x in multiset(a);
      var k :| 0 <= k < |a| && a[k] == x;
      var rest := a[..k] + a[k + 1..];
      DeleteLast(a, b, k);
      DeleteKeepsUnique(a, k);
      UniqueSkusPermutation(rest, init);
      forall i | 0 <= i < n ensures b[i].sku != x.sku {
        assert init[i] == b[i];
        assert b[i] in multiset(rest);
        DeleteOthersSku(a, k, b[i]);
      }
      forall i, j | 0 <= i < j < |b| ensures b[i].sku != b[j].sku {
        if j < n {
          assert init[i] == b[i] && init[j] == b[j];
        }
      }
    }
  }

  /** With unique skus, `find` gives the same answer on any reordering of the cart. */
  lemma FindPermutation(c1: seq<CartItem>, c2: seq<CartItem>, sku: string)
    requires UniqueSkus(c1) && multiset(c1) == multiset(c2)
    ensures Find(c1, sku) == Find(c2, sku)
  {
    UniqueSkusPermutation(c1, c2);
    forall j | 0 <= j < |c2| && c2[j].sku == sku ensures HasSku(c1, sku) {
      assert c2[j] in multiset(c1);
      var i :| 0 <= i < |c1| && c1[i] == c2[j];
    }
    match Find(c1, sku)
    case Some(e) =>
      assert e in multiset(c2);
      var j :| 0 <= j < |c2| && c2[j] == e;
      FindUnique(c2, sku, j);
    case None =>
  }

  /** Filtering two reorderings of one cart gives reorderings of one result. */
  lemma WithoutPermutation(c1: seq<CartItem>, c2: seq<CartItem>, sku: string, item: CartItem)
    requires multiset(c1) == multiset(c2)
    ensures multiset(Without(c1, sku) + [item]) == multiset(Without(c2, sku) + [item])
  {
    var w1, w2 := Without(c1, sku), Without(c2, sku);
    WithoutCounts(c1, sku);
    WithoutCounts(c2, sku);
    assert forall y :: multiset(w1)[y] == multiset(w2)[y];
    assert multiset(w1) == multiset(w2);
  }

  /** With unique skus, ADD on two reorderings of one cart gives reorderings of one result. */
  lemma AddItemPermutation(c1: seq<CartItem>, c2: seq<CartItem>, p: CartItem)
    requires UniqueSkus(c1) && multiset(c1) == multiset(c2)
    ensures multiset(AddItem(c1, p)) == multiset(AddItem(c2, p))
  {
    FindPermutation(c1, c2, p.sku);
    assert AddedQty(c1, p.sku) == AddedQty(c2, p.sku);
    var item := CartItem(p.sku, p.name, p.price, AddedQty(c1, p.sku));
    assert AddItem(c1, p) == Without(c1, p.sku) + [item];
    assert AddItem(c2, p) == Without(c2, p.sku) + [item];
    WithoutPermutation(c1, c2, p.sku, item);
  }

  /** With unique skus, QUANTITY on two reorderings of one cart fails on both or gives reorderings of one result. */
  lemma UpdateQuantityPermutation(c1: seq<CartItem>, c2: seq<CartItem>, p: CartItem)
    requires UniqueSkus(c1) && multiset(c1) == multiset(c2)
    ensures UpdateQuantity(c1, p).None? <==> UpdateQuantity(c2, p).None?
    ensures UpdateQuantity(c1, p).Some? ==> multiset(UpdateQuantity(c1, p).value) == multiset(UpdateQuantity(c2, p).value)
  {
    FindPermutation(c1, c2, p.sku);
    if HasSku(c1, p.sku) {
      WithoutPermutation(c1, c2, p.sku, Find(c1, p.sku).value.(qty := p.qty));
    }
  }

  /**
   * The display sort reorders the reducer's own state array. With unique
   * skus, reordering the cart changes neither whether an action succeeds,
   * nor which error it fails with, nor the items it leaves (only their order).
   */
  lemma ReducerIgnoresOrder(c1: seq<CartItem>, c2: seq<CartItem>, action: ReducerAction)
    requires UniqueSkus(c1) && multiset(c1) == multiset(c2)
    ensures Reducer(CartState(c1), action).Ok? <==> Reducer(CartState(c2), action).Ok?
    ensures !Reducer(CartState(c1), action).Ok? ==> Reducer(CartState(c1), action) == Reducer(CartState(c2), action)
    ensures Reducer(CartState(c1), action).Ok? ==>
              multiset(Reducer(CartState(c1), action).state.cart) == multiset(Reducer(CartState(c2), action).state.cart)
  {
    if action.payload.Some? {
      var p := action.payload.value;
      if action.kind == ADD {
        AddItemPermutation(c1, c2, p);
      } else if action.kind == REMOVE {
        WithoutPermutation(c1, c2, p.sku, p);
        assert multiset(Without(c1, p.sku)) == multiset(Without(c1, p.sku) + [p]) - multiset{p};
        assert multiset(Without(c2, p.sku)) == multiset(Without(c2, p.sku) + [p]) - multiset{p};
      } else if action.kind == QUANTITY {
        UpdateQuantityPermutation(c1, c2, p);
      }
    }
  }
}
