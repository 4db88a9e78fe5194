/**
 * The derived totals of the cart context: `totalItems`, the sum of every
 * line item's qty, and the integer-cents value of `totalPrice` before it is
 * formatted. Both are the same left fold over the cart.
 */
module CartTotals {
  import opened CartItems
  import opened CartReducer

  /**
   * `cart.reduce((prev, curr) => prev + f(curr), 0)`, folded from the left:
   * 0 for an empty cart, and never negative when no term is.
   */
  function Sum(cart: seq<CartItem>, f: CartItem -> int): (r: int)
    ensures cart == [] ==> r == 0
    ensures (forall i :: 0 <= i < |cart| ==> f(cart[i]) >= 0) ==> r >= 0
  {
    if cart == [] then 0 else Sum(cart[..|cart| - 1], f) + f(cart[|cart| - 1])
  }

  function Qty(item: CartItem): (r: int) { item.qty }

  function LinePriceCents(item: CartItem): (r: int) { item.qty * item.price }

  /** `totalItems`: the sum of qty over the cart, 0 for an empty cart. */
  function TotalItems(cart: seq<CartItem>): (r: int)
    ensures cart == [] ==> r == 0
    ensures (forall i :: 0 <= i < |cart| ==> cart[i].qty > 0) ==> r >= |cart|
  {
    SumAtLeast(cart, Qty, 1);
    Sum(cart, Qty)
  }

  /** The sum of `qty * price` over the cart, in cents. */
  function TotalPriceCents(cart: seq<CartItem>): (r: int)
    ensures cart == [] ==> r == 0
    ensures (forall i :: 0 <= i < |cart| ==> cart[i].qty >= 0 && cart[i].price >= 0) ==> r >= 0
  {
    assert forall i :: 0 <= i < |cart| && cart[i].qty >= 0 && cart[i].price >= 0 ==> LinePriceCents(cart[i]) >= 0;
    SumAtLeast(cart, LinePriceCents, 0);
    Sum(cart, LinePriceCents)
  }

  /** When every term is at least `m`, the sum is at least `m` times the length. */
  lemma {:induction false} SumAtLeast(cart: seq<CartItem>, f: CartItem -> int, m: int)
    ensures (forall i :: 0 <= i < |cart| ==> f(cart[i]) >= m) ==> Sum(cart, f) >= m * |cart|
  {
    if cart != [] && forall i :: 0 <= i < |cart| ==> f(cart[i]) >= m {
      var init := cart[..|cart| - 1];
      assert forall i :: 0 <= i < |init| ==> init[i] == cart[i];
      SumAtLeast(init, f, m);
      assert Sum(init, f) >= m * |init|;
      assert f(cart[|cart| - 1]) >= m;
      assert m * |cart| == m * |init| + m;
    }
  }

  /** The fold distributes over concatenation. */
  lemma {:induction false} SumConcat(a: seq<CartItem>, b: seq<CartItem>, f: CartItem -> int)
    ensures Sum(a + b, f) == Sum(a, f) + Sum(b, f)
  {
    if b == [] {
      assert a + b == a;
    } else {
      assert (a + b)[..|a + b| - 1] == a + b[..|b| - 1];
      SumConcat(a, b[..|b| - 1], f);
    }
  }

  /** The fold does not depend on the order of the cart, only on its multiset. */
  lemma {:induction false} SumPermutation(a: seq<CartItem>, b: seq<CartItem>, f: CartItem -> int)
    requires multiset(a) == multiset(b)
    ensures Sum(a, f) == Sum(b, f)
  {
    if a == [] {
      assert |b| == |multiset(b)| == 0;
    } else {
      var n := |a| - 1;
      var x := a[n];
      assert a == a[..n] + [x];
      assert x in multiset(b);
      var k :| 0 <= k < |b| && b[k] == x;
      var rest := b[..k] + b[k + 1..];
      assert b == b[..k] + [x] + b[k + 1..];
      assert multiset(a[..n]) == multiset(rest) by {
        calc {
          multiset(a[..n]);
          multiset(a) - multiset{x};
          multiset(b) - multiset{x};
          multiset(b[..k]) + multiset{x} + multiset(b[k + 1..]) - multiset{x};
          multiset(rest);
        }
      }
      SumPermutation(a[..n], rest, f);
      SumConcat(b[..k] + [x], b[k + 1..], f);
      SumConcat(b[..k], [x], f);
      SumConcat(b[..k], b[k + 1..], f);
      assert Sum([x], f) == f(x) by {
        assert [x][..0] == [];
      }
    }
  }

  /**
   * With unique skus, the fold over the cart is the fold over the cart with
   * `sku` filtered out, plus the term of the item `find` returns.
   */
  lemma {:induction false} SumWithout(cart: seq<CartItem>, sku: string, f: CartItem -> int)
    requires UniqueSkus(cart)
    ensures Sum(cart, f) == Sum(Without(cart, sku), f) + (match Find(cart, sku) case Some(e) => f(e) case None => 0)
  {
    if cart != [] {
      var rest := cart[1..];
      assert cart == [cart[0]] + rest;
      assert Sum([cart[0]], f) == f(cart[0]) by {
        assert [cart[0]][..0] == [];
      }
      SumConcat([cart[0]], rest, f);
      assert UniqueSkus(rest) by {
        forall i, j | 0 <= i < j < |rest| ensures rest[i].sku != rest[j].sku {
          assert rest[i] == cart[i + 1] && rest[j] == cart[j + 1];
        }
      }
      if cart[0].sku == sku {
        assert !HasSku(rest, sku) by {
          forall i | 0 <= i < |rest| ensures rest[i].sku != sku {
            assert rest[i] == cart[i + 1];
          }
        }
        WithoutAbsent(rest, sku);
      } else {
        SumWithout(rest, sku, f);
        SumConcat([cart[0]], Without(rest, sku), f);
      }
    }
  }

  /** The fold over a cart with one item appended adds that item's term. */
  lemma SumSnoc(cart: seq<CartItem>, item: CartItem, f: CartItem -> int)
    ensures Sum(cart + [item], f) == Sum(cart, f) + f(item)
  {
    assert (cart + [item])[..|cart|] == cart;
  }

  /** With unique skus, ADD raises totalItems by exactly one. */
  lemma AddTotalItems(state: CartState, p: CartItem)
    requires UniqueSkus(state.cart)
    ensures TotalItems(Reducer(state, ReducerAction(ADD, Some(p))).state.cart) == TotalItems(state.cart) + 1
  {
    SumWithout(state.cart, p.sku, Qty);
    SumSnoc(Without(state.cart, p.sku), CartItem(p.sku, p.name, p.price, AddedQty(state.cart, p.sku)), Qty);
  }

  /** With unique skus, REMOVE lowers totalItems by the removed item's qty (0 if absent). */
  lemma RemoveTotalItems(state: CartState, p: CartItem)
    requires UniqueSkus(state.cart)
    ensures TotalItems(Reducer(state, ReducerAction(REMOVE, Some(p))).state.cart)
         == TotalItems(state.cart) - (match Find(state.cart, p.sku) case Some(e) => e.qty case None => 0)
  {
    SumWithout(state.cart, p.sku, Qty);
  }

  /** With unique skus, a successful QUANTITY replaces the item's qty in totalItems. */
  lemma QuantityTotalItems(state: CartState, p: CartItem)
    requires UniqueSkus(state.cart) && HasSku(state.cart, p.sku)
    ensures TotalItems(Reducer(state, ReducerAction(QUANTITY, Some(p))).state.cart)
         == TotalItems(state.cart) - Find(state.cart, p.sku).value.qty + p.qty
  {
    SumWithout(state.cart, p.sku, Qty);
    var existing := Find(state.cart, p.sku).value;
    SumSnoc(Without(state.cart, p.sku), existing.(qty := p.qty), Qty);
  }

  /** totalItems is 0 after SUBMIT. */
  lemma SubmitTotals(state: CartState, payload: Option<CartItem>)
    ensures TotalItems(Reducer(state, ReducerAction(SUBMIT, payload)).state.cart) == 0
    ensures TotalPriceCents(Reducer(state, ReducerAction(SUBMIT, payload)).state.cart) == 0
  {
  }

  /** Reordering the cart (as the display sort does) changes neither total. */
  lemma TotalsPermutation(a: seq<CartItem>, b: seq<CartItem>)
    requires multiset(a) == multiset(b)
    ensures TotalItems(a) == TotalItems(b) && TotalPriceCents(a) == TotalPriceCents(b)
  {
    SumPermutation(a, b, Qty);
    SumPermutation(a, b, LinePriceCents);
  }

  /** Two lines, qty 2 at 10.00 and qty 1 at 5.50: 3 items and 25.50. */
  lemma TotalsExample()
    ensures (var cart := [CartItem("A0001", "a", 1000, 2), CartItem("B0002", "b", 550, 1)];
             TotalItems(cart) == 3 && TotalPriceCents(cart) == 2550)
  {
    var cart := [CartItem("A0001", "a", 1000, 2), CartItem("B0002", "b", 550, 1)];
    assert cart == [] + [cart[0]] + [cart[1]];
    SumSnoc([], cart[0], Qty);
    SumSnoc([cart[0]], cart[1], Qty);
    SumSnoc([], cart[0], LinePriceCents);
    SumSnoc([cart[0]], cart[1], LinePriceCents);
  }
}
