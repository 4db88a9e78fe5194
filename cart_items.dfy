/**
 * Line items of the shopping cart and the two list primitives the reducer
 * is built from: filtering a sku out of the cart and finding the first item
 * that carries a sku.
 */
module CartItems {

  datatype Option<T> = None | Some(value: T)

  /**
   * One line item. `price` is only ever copied by the reducer; it is held
   * here as an integer number of cents.
   */
  datatype CartItem = CartItem(sku: string, name: string, price: int, qty: int)

  /** The reducer's state: the line items in storage (insertion) order. */
  datatype CartState = CartState(cart: seq<CartItem>)

  /** Some item of `cart` carries `sku` (sku matching is exact string equality). */
  predicate HasSku(cart: seq<CartItem>, sku: string)
  {
    exists i :: 0 <= i < |cart| && cart[i].sku == sku
  }

  /** The cart invariant: no sku appears on two line items. */
  predicate UniqueSkus(cart: seq<CartItem>)
  {
    forall i, j :: 0 <= i < j < |cart| ==> cart[i].sku != cart[j].sku
  }

  /**
   * `cart.filter(item => item.sku !== sku)`: every item whose sku differs,
   * in the original order.
   */
  function Without(cart: seq<CartItem>, sku: string): (r: seq<CartItem>)
    ensures |r| <= |cart|
    ensures forall i :: 0 <= i < |r| ==> r[i].sku != sku
  {
    if cart == [] then []
    else if cart[0].sku != sku then [cart[0]] + Without(cart[1..], sku)
    else Without(cart[1..], sku)
  }

  /**
   * Filtering keeps every item whose sku differs as often as the cart holds
   * it, and none of the others.
   */
  lemma {:induction false} WithoutCounts(cart: seq<CartItem>, sku: string)
    ensures forall x :: multiset(Without(cart, sku))[x] == if x.sku == sku then 0 else multiset(cart)[x]
  {
    if cart != [] {
      WithoutCounts(cart[1..], sku);
      assert cart == [cart[0]] + cart[1..];
      assert multiset(cart) == multiset{cart[0]} + multiset(cart[1..]);
    }
  }

  /** Every item filtering keeps is an item of the cart. */
  lemma WithoutSubset(cart: seq<CartItem>, sku: string, k: int)
    requires 0 <= k < |Without(cart, sku)|
    ensures Without(cart, sku)[k] in cart
  {
    WithoutCounts(cart, sku);
    assert Without(cart, sku)[k] in multiset(Without(cart, sku));
  }

  /** `cart.find(item => item.sku === sku)`: the first item carrying `sku`, if any. */
  function Find(cart: seq<CartItem>, sku: string): (r: Option<CartItem>)
    ensures r.None? <==> !HasSku(cart, sku)
    ensures r.Some? ==> r.value.sku == sku && r.value in cart
  {
    if cart == [] then None
    else if cart[0].sku == sku then Some(cart[0])
    else
      assert forall i :: 0 < i < |cart| ==> cart[i] == cart[1..][i - 1];
      Find(cart[1..], sku)
  }

  /** Filtering a sku the cart does not hold leaves the cart as it is. */
  lemma {:induction false} WithoutAbsent(cart: seq<CartItem>, sku: string)
    requires !HasSku(cart, sku)
    ensures Without(cart, sku) == cart
  {
    if cart != [] {
      assert cart[0].sku != sku;
      assert !HasSku(cart[1..], sku) by {
        forall i | 0 <= i < |cart[1..]| ensures cart[1..][i].sku != sku {
          assert cart[1..][i] == cart[i + 1];
        }
      }
      WithoutAbsent(cart[1..], sku);
      assert cart == [cart[0]] + cart[1..];
    }
  }

  /** Filtering keeps relative order: it distributes over concatenation. */
  lemma {:induction false} WithoutConcat(a: seq<CartItem>, b: seq<CartItem>, sku: string)
    ensures Without(a + b, sku) == Without(a, sku) + Without(b, sku)
  {
    if a != [] {
      assert (a + b)[0] == a[0];
      assert (a + b)[1..] == a[1..] + b;
      WithoutConcat(a[1..], b, sku);
    } else {
      assert a + b == b;
    }
  }

  /**
   * Relative order: an item that survives filtering keeps the survivors
   * before it in front of it and the survivors after it behind it.
   */
  lemma WithoutKeepsOrder(cart: seq<CartItem>, sku: string, i: int)
    requires 0 <= i < |cart| && cart[i].sku != sku
    ensures Without(cart, sku) == Without(cart[..i], sku) + [cart[i]] + Without(cart[i + 1..], sku)
  {
    var tail := [cart[i]] + cart[i + 1..];
    assert cart == cart[..i] + tail;
    WithoutConcat(cart[..i], tail, sku);
    assert tail[1..] == cart[i + 1..];
  }

  /** Filtering a cart whose skus are unique keeps them unique. */
  lemma {:induction false} WithoutKeepsUnique(cart: seq<CartItem>, sku: string)
    ensures UniqueSkus(cart) ==> UniqueSkus(Without(cart, sku))
  {
    if cart != [] && UniqueSkus(cart) {
      var rest := cart[1..];
      assert UniqueSkus(rest) by {
        forall i, j | 0 <= i < j < |rest| ensures rest[i].sku != rest[j].sku {
          assert rest[i] == cart[i + 1] && rest[j] == cart[j + 1];
        }
      }
      WithoutKeepsUnique(rest, sku);
      if cart[0].sku != sku {
        var w := Without(rest, sku);
        forall k | 0 <= k < |w| ensures w[k].sku != cart[0].sku {
          WithoutSubset(rest, sku, k);
          var m :| 0 <= m < |rest| && rest[m] == w[k];
          assert rest[m] == cart[m + 1];
        }
        assert Without(cart, sku) == [cart[0]] + w;
      }
    }
  }

  /**
   * When skus are unique and `sku` is present, filtering removes exactly
   * one item.
   */
  lemma {:induction false} WithoutUniqueLength(cart: seq<CartItem>, sku: string)
    requires UniqueSkus(cart) && HasSku(cart, sku)
    ensures |Without(cart, sku)| == |cart| - 1
  {
    var rest := cart[1..];
    if cart[0].sku == sku {
      assert !HasSku(rest, sku) by {
        forall i | 0 <= i < |rest| ensures rest[i].sku != sku {
          assert rest[i] == cart[i + 1];
        }
      }
      WithoutAbsent(rest, sku);
    } else {
      var i :| 0 <= i < |cart| && cart[i].sku == sku;
      assert rest[i - 1] == cart[i];
      assert UniqueSkus(rest) by {
        forall p, q | 0 <= p < q < |rest| ensures rest[p].sku != rest[q].sku {
          assert rest[p] == cart[p + 1] && rest[q] == cart[q + 1];
        }
      }
      WithoutUniqueLength(rest, sku);
    }
  }

  /** `i` is the first index of `cart` whose item carries `sku`. */
  predicate FirstCarrier(cart: seq<CartItem>, sku: string, i: int)
  {
    0 <= i < |cart| && cart[i].sku == sku && forall j :: 0 <= j < i ==> cart[j].sku != sku
  }

  /** `find` returns the item at the first index that carries the sku. */
  lemma {:induction false} FindFirst(cart: seq<CartItem>, sku: string, i: int)
    requires 0 <= i < |cart| && cart[i].sku == sku
    requires forall j :: 0 <= j < i ==> cart[j].sku != sku
    ensures Find(cart, sku) == Some(cart[i])
  {
    if i > 0 {
      FindFirst(cart[1..], sku, i - 1);
    }
  }

  /** With unique skus, `find` returns the one item that carries the sku. */
  lemma FindUnique(cart: seq<CartItem>, sku: string, i: int)
    requires UniqueSkus(cart)
    requires 0 <= i < |cart| && cart[i].sku == sku
    ensures Find(cart, sku) == Some(cart[i])
  {
    FindFirst(cart, sku, i);
  }
}
