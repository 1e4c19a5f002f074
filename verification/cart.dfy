/** The shopping cart: an ordered list of catalog products, each with a
    quantity, and the operations the storefront's buttons call on it. */
module Cart {
  import opened Options
  import opened Seqs
  import opened Catalog

  /** A cart line: the product's fields spread into a new object together with
      a quantity. A cart reloaded from storage is not validated, so `qty` is any
      integer here and the invariants below are stated separately. */
  datatype CartItem = CartItem(product: Product, qty: int)

  type Cart = seq<CartItem>

  function HasItemId(id: int): CartItem -> bool {
    (it: CartItem) => it.product.id == id
  }

  function LacksItemId(id: int): CartItem -> bool {
    (it: CartItem) => !HasItemId(id)(it)
  }

  predicate InCart(cart: Cart, id: int) {
    exists i :: 0 <= i < |cart| && HasItemId(id)(cart[i])
  }

  /** No two lines carry the same product id. */
  predicate UniqueIds(cart: Cart) {
    forall i, j :: 0 <= i < j < |cart| ==> cart[i].product.id != cart[j].product.id
  }

  /** Every line has a quantity of at least one. */
  predicate PositiveQty(cart: Cart) {
    forall i :: 0 <= i < |cart| ==> cart[i].qty >= 1
  }

  /** The invariant the cart operations keep. */
  predicate Valid(cart: Cart) {
    UniqueIds(cart) && PositiveQty(cart)
  }

  /** Every line holds exactly the catalog's product for its id. */
  predicate Consistent(catalog: seq<Product>, cart: Cart) {
    forall i :: 0 <= i < |cart| ==> FindProduct(catalog, cart[i].product.id) == Some(cart[i].product)
  }

  /** Position of the first line with the given id. */
  function IndexOf(cart: Cart, id: int): (r: Option<nat>)
    ensures r.Some? ==> r.value < |cart| && cart[r.value].product.id == id
    ensures r.Some? ==> forall j :: 0 <= j < r.value ==> cart[j].product.id != id
    ensures r.None? <==> !InCart(cart, id)
  {
    FindIndex(cart, HasItemId(id))
  }

  /** `getCartItem`: the first line with the given id, if any. */
  function GetCartItem(cart: Cart, id: int): (r: Option<CartItem>)
    ensures r.None? <==> !InCart(cart, id)
    ensures r.Some? ==> r.value.product.id == id
    ensures r.Some? ==> exists k :: 0 <= k < |cart| && cart[k] == r.value
                                 && forall j :: 0 <= j < k ==> cart[j].product.id != id
  {
    match IndexOf(cart, id)
    case None => None
    case Some(k) => Some(cart[k])
  }

  /** `addToCart`: nothing for an id outside the catalog, one more of a product
      already in the cart, otherwise a new line with quantity one at the end. */
  function AddToCart(catalog: seq<Product>, cart: Cart, id: int): (r: Cart)
    ensures FindProduct(catalog, id).None? ==> r == cart
    ensures FindProduct(catalog, id).Some? && InCart(cart, id) ==>
              var k := IndexOf(cart, id).value;
              && |r| == |cart|
              && r[k] == cart[k].(qty := cart[k].qty + 1)
              && forall j :: 0 <= j < |cart| && j != k ==> r[j] == cart[j]
    ensures FindProduct(catalog, id).Some? && !InCart(cart, id) ==>
              r == cart + [CartItem(FindProduct(catalog, id).value, 1)]
  {
    match FindProduct(catalog, id)
    case None => cart
    case Some(p) =>
      match IndexOf(cart, id)
      case Some(k) => cart[k := cart[k].(qty := cart[k].qty + 1)]
      case None => cart + [CartItem(p, 1)]
  }

  /** `removeFromCart`: every line with the id goes, the rest stay in order. */
  function RemoveFromCart(cart: Cart, id: int): (r: Cart)
    ensures !InCart(r, id)
    ensures forall j :: 0 <= j < |r| ==> r[j] in cart
    ensures !InCart(cart, id) ==> r == cart
  {
    var r := Filter(cart, LacksItemId(id));
    assert forall j :: 0 <= j < |r| ==> r[j] in r;
    r
  }

  /** Removal keeps every other line, as often as it occurred, in its original order. */
  lemma RemoveFromCartKeepsOthers(cart: Cart, id: int)
    ensures var r := RemoveFromCart(cart, id);
            && (forall x :: multiset(r)[x] == if x.product.id == id then 0 else multiset(cart)[x])
            && IsSubseq(r, cart)
  {
    FilterCounts(cart, LacksItemId(id));
    FilterIsSubseq(cart, LacksItemId(id));
  }

  /** `changeQty`: adds `delta` to the first line with the id and drops the
      product altogether once the quantity is no longer positive. */
  function ChangeQty(cart: Cart, id: int, delta: int): (r: Cart)
    ensures !InCart(cart, id) ==> r == cart
    ensures InCart(cart, id) ==>
              var k := IndexOf(cart, id).value;
              var q := cart[k].qty + delta;
              && (q <= 0 ==> r == RemoveFromCart(cart, id))
              && (q > 0 ==> |r| == |cart| && r[k] == cart[k].(qty := q)
                            && forall j :: 0 <= j < |cart| && j != k ==> r[j] == cart[j])
  {
    match IndexOf(cart, id)
    case None => cart
    case Some(k) =>
      var q := cart[k].qty + delta;
      if q <= 0 then RemoveFromCart(cart, id) else cart[k := cart[k].(qty := q)]
  }

  // ---------------------------------------------------------------------------
  // Invariant preservation
  // ---------------------------------------------------------------------------

  /** Removing an id takes the first line off and filters the rest. */
  lemma RemoveUnfold(cart: Cart, id: int)
    requires |cart| > 0
    ensures RemoveFromCart(cart, id)
            == (if cart[0].product.id != id then [cart[0]] else []) + RemoveFromCart(cart[1..], id)
  {
  }

  lemma AddToCartValid(catalog: seq<Product>, cart: Cart, id: int)
    requires Valid(cart)
    ensures Valid(AddToCart(catalog, cart, id))
  {
  }

  lemma AddToCartConsistent(catalog: seq<Product>, cart: Cart, id: int)
    requires Consistent(catalog, cart)
    ensures Consistent(catalog, AddToCart(catalog, cart, id))
  {
  }

  /** Putting a line in front of a valid cart that lacks its id keeps it valid. */
  lemma ConsValid(it: CartItem, rest: Cart)
    requires Valid(rest) && it.qty >= 1
    requires forall j :: 0 <= j < |rest| ==> rest[j].product.id != it.product.id
    ensures Valid([it] + rest)
  {
    var c := [it] + rest;
    forall i, j | 0 <= i < j < |c|
      ensures c[i].product.id != c[j].product.id
    {
      assert c[j] == rest[j - 1];
      if i > 0 {
        assert c[i] == rest[i - 1];
      }
    }
  }

  lemma {:induction false} RemoveFromCartValid(cart: Cart, id: int)
    requires Valid(cart)
    ensures Valid(RemoveFromCart(cart, id))
    decreases |cart|
  {
    if |cart| > 0 {
      RemoveUnfold(cart, id);
      var tail := cart[1..];
      assert Valid(tail);
      var rest := RemoveFromCart(tail, id);
      RemoveFromCartValid(tail, id);
      if cart[0].product.id != id {
        forall j | 0 <= j < |rest|
          ensures rest[j].product.id != cart[0].product.id
        {
          assert rest[j] in tail;
        }
        ConsValid(cart[0], rest);
      } else {
        assert RemoveFromCart(cart, id) == [] + rest;
        assert [] + rest == rest;
      }
    }
  }

  lemma RemoveFromCartConsistent(catalog: seq<Product>, cart: Cart, id: int)
    requires Consistent(catalog, cart)
    ensures Consistent(catalog, RemoveFromCart(cart, id))
  {
    var r := RemoveFromCart(cart, id);
    forall i | 0 <= i < |r|
      ensures FindProduct(catalog, r[i].product.id) == Some(r[i].product)
    {
      assert r[i] in cart;
    }
  }

  lemma ChangeQtyValid(cart: Cart, id: int, delta: int)
    requires Valid(cart)
    ensures Valid(ChangeQty(cart, id, delta))
  {
    if InCart(cart, id) && cart[IndexOf(cart, id).value].qty + delta <= 0 {
      RemoveFromCartValid(cart, id);
    }
  }

  lemma ChangeQtyConsistent(catalog: seq<Product>, cart: Cart, id: int, delta: int)
    requires Consistent(catalog, cart)
    ensures Consistent(catalog, ChangeQty(cart, id, delta))
  {
    if InCart(cart, id) && cart[IndexOf(cart, id).value].qty + delta <= 0 {
      RemoveFromCartConsistent(catalog, cart, id);
    }
  }

  /** Removing twice is removing once. */
  lemma RemoveFromCartIdempotent(cart: Cart, id: int)
    ensures RemoveFromCart(RemoveFromCart(cart, id), id) == RemoveFromCart(cart, id)
  {
  }

  /** Adding a product a second time raises its quantity instead of adding a line. */
  lemma AddTwiceIncrements(catalog: seq<Product>, cart: Cart, id: int)
    requires FindProduct(catalog, id).Some?
    ensures var once := AddToCart(catalog, cart, id);
            var twice := AddToCart(catalog, once, id);
            && InCart(once, id)
            && |twice| == |once|
            && GetCartItem(twice, id).value.qty == GetCartItem(once, id).value.qty + 1
  {
    var once := AddToCart(catalog, cart, id);
    if !InCart(cart, id) {
      assert once[|cart|].product.id == id;
    }
  }

  // ---------------------------------------------------------------------------
  // Totals
  // ---------------------------------------------------------------------------

  function ItemQty(it: CartItem): int {
    it.qty
  }

  function ItemCost(it: CartItem): int {
    it.product.price * it.qty
  }

  /** The sum of `w` over the lines of the cart. */
  function Total(cart: Cart, w: CartItem -> int): int
    decreases |cart|
  {
    if |cart| == 0 then 0 else w(cart[0]) + Total(cart[1..], w)
  }

  lemma {:induction false} TotalAppend(a: Cart, b: Cart, w: CartItem -> int)
    ensures Total(a + b, w) == Total(a, w) + Total(b, w)
    decreases |a|
  {
    if |a| == 0 {
      assert a + b == b;
    } else {
      assert (a + b)[1..] == a[1..] + b;
      TotalAppend(a[1..], b, w);
    }
  }

  lemma {:induction false} TotalUpdate(cart: Cart, k: nat, x: CartItem, w: CartItem -> int)
    requires k < |cart|
    ensures Total(cart[k := x], w) == Total(cart, w) - w(cart[k]) + w(x)
    decreases |cart|
  {
    if k > 0 {
      assert cart[k := x][1..] == cart[1..][k - 1 := x];
      TotalUpdate(cart[1..], k - 1, x, w);
    }
  }

  /** With unique ids, removing an id subtracts exactly its one line. */
  lemma {:induction false} TotalRemove(cart: Cart, id: int, k: nat, w: CartItem -> int)
    requires UniqueIds(cart)
    requires k < |cart| && cart[k].product.id == id
    ensures Total(RemoveFromCart(cart, id), w) == Total(cart, w) - w(cart[k])
    decreases |cart|, 1
  {
    if k == 0 {
      TotalRemoveHead(cart, id, w);
    } else {
      TotalRemoveTail(cart, id, k, w);
    }
  }

  lemma TotalRemoveHead(cart: Cart, id: int, w: CartItem -> int)
    requires UniqueIds(cart)
    requires 0 < |cart| && cart[0].product.id == id
    ensures Total(RemoveFromCart(cart, id), w) == Total(cart, w) - w(cart[0])
  {
    RemoveUnfold(cart, id);
    var tail := cart[1..];
    assert !InCart(tail, id) by {
      forall j | 0 <= j < |tail|
        ensures tail[j].product.id != id
      {
        assert tail[j] == cart[j + 1];
      }
    }
  }

  lemma {:induction false} TotalRemoveTail(cart: Cart, id: int, k: nat, w: CartItem -> int)
    requires UniqueIds(cart)
    requires 0 < k < |cart| && cart[k].product.id == id
    ensures Total(RemoveFromCart(cart, id), w) == Total(cart, w) - w(cart[k])
    decreases |cart|, 0
  {
    RemoveUnfold(cart, id);
    var tail := cart[1..];
    assert UniqueIds(tail);
    assert tail[k - 1] == cart[k];
    TotalRemove(tail, id, k - 1, w);
    TotalAppend([cart[0]], RemoveFromCart(tail, id), w);
  }

  /** `getTotalCount`: the left-to-right `reduce` summing the quantities. */
  method GetTotalCount(cart: Cart) returns (n: int)
    ensures n == Total(cart, ItemQty)
  {
    n := 0;
    var i := 0;
    while i < |cart|
      invariant 0 <= i <= |cart|
      invariant n == Total(cart[..i], ItemQty)
    {
      assert cart[..i + 1] == cart[..i] + [cart[i]];
      TotalAppend(cart[..i], [cart[i]], ItemQty);
      n := n + cart[i].qty;
      i := i + 1;
    }
    assert cart[..i] == cart;
  }

  /** `getTotalPrice`: the left-to-right `reduce` summing price times quantity. */
  method GetTotalPrice(cart: Cart) returns (n: int)
    ensures n == Total(cart, ItemCost)
  {
    n := 0;
    var i := 0;
    while i < |cart|
      invariant 0 <= i <= |cart|
      invariant n == Total(cart[..i], ItemCost)
    {
      assert cart[..i + 1] == cart[..i] + [cart[i]];
      TotalAppend(cart[..i], [cart[i]], ItemCost);
      n := n + cart[i].product.price * cart[i].qty;
      i := i + 1;
    }
    assert cart[..i] == cart;
  }

  /** In a valid cart the count is at least the number of lines, so the badge
      reads zero exactly when the cart is empty. */
  lemma {:induction false} TotalCountBounds(cart: Cart)
    requires PositiveQty(cart)
    ensures Total(cart, ItemQty) >= |cart|
    ensures Total(cart, ItemQty) == 0 <==> |cart| == 0
    decreases |cart|
  {
    if |cart| > 0 {
      TotalCountBounds(cart[1..]);
    }
  }

  /** A successful add raises the count by one. */
  lemma AddToCartCount(catalog: seq<Product>, cart: Cart, id: int)
    requires FindProduct(catalog, id).Some?
    ensures Total(AddToCart(catalog, cart, id), ItemQty) == Total(cart, ItemQty) + 1
  {
    var p := FindProduct(catalog, id).value;
    match IndexOf(cart, id)
    case Some(k) =>
      TotalUpdate(cart, k, cart[k].(qty := cart[k].qty + 1), ItemQty);
    case None =>
      TotalAppend(cart, [CartItem(p, 1)], ItemQty);
  }

  /** A successful add raises the price by the product's price, provided the
      cart's lines agree with the catalog. */
  lemma AddToCartPrice(catalog: seq<Product>, cart: Cart, id: int)
    requires FindProduct(catalog, id).Some? && Consistent(catalog, cart)
    ensures Total(AddToCart(catalog, cart, id), ItemCost) == Total(cart, ItemCost) + FindProduct(catalog, id).value.price
  {
    if InCart(cart, id) {
      var k := IndexOf(cart, id).value;
      LineIsCatalogProduct(catalog, cart, id, k);
      AddExistingIsBump(catalog, cart, id, k);
      BumpCost(cart, k);
    } else {
      TotalAppend(cart, [CartItem(FindProduct(catalog, id).value, 1)], ItemCost);
    }
  }

  /** Adding a product already on line `k` is one more unit on that line. */
  lemma AddExistingIsBump(catalog: seq<Product>, cart: Cart, id: int, k: nat)
    requires FindProduct(catalog, id).Some? && IndexOf(cart, id) == Some(k)
    ensures AddToCart(catalog, cart, id) == cart[k := cart[k].(qty := cart[k].qty + 1)]
  {
  }

  /** In a cart that agrees with the catalog, a line holds the product its id finds. */
  lemma LineIsCatalogProduct(catalog: seq<Product>, cart: Cart, id: int, k: nat)
    requires Consistent(catalog, cart)
    requires k < |cart| && cart[k].product.id == id
    ensures FindProduct(catalog, id) == Some(cart[k].product)
  {
  }

  /** One more unit on line `k` adds that line's price to the total price. */
  lemma BumpCost(cart: Cart, k: nat)
    requires k < |cart|
    ensures Total(cart[k := cart[k].(qty := cart[k].qty + 1)], ItemCost) == Total(cart, ItemCost) + cart[k].product.price
  {
    var x := cart[k].(qty := cart[k].qty + 1);
    assert ItemCost(x) == ItemCost(cart[k]) + x.product.price by {
      assert x.product.price * (cart[k].qty + 1) == x.product.price * cart[k].qty + x.product.price;
    }
    TotalUpdate(cart, k, x, ItemCost);
  }

  /** Removing a product present once takes its whole line off both totals. */
  lemma RemoveFromCartTotals(cart: Cart, id: int)
    requires UniqueIds(cart) && InCart(cart, id)
    ensures var it := GetCartItem(cart, id).value;
            && Total(RemoveFromCart(cart, id), ItemQty) == Total(cart, ItemQty) - it.qty
            && Total(RemoveFromCart(cart, id), ItemCost) == Total(cart, ItemCost) - it.product.price * it.qty
  {
    var k := IndexOf(cart, id).value;
    TotalRemove(cart, id, k, ItemQty);
    TotalRemove(cart, id, k, ItemCost);
  }

  /** Changing a quantity moves the count by `delta` while the line survives,
      and by the line's whole quantity once it is removed. */
  lemma ChangeQtyTotals(cart: Cart, id: int, delta: int)
    requires UniqueIds(cart) && InCart(cart, id)
    ensures var it := GetCartItem(cart, id).value;
            var r := ChangeQty(cart, id, delta);
            && (it.qty + delta > 0 ==>
                  Total(r, ItemQty) == Total(cart, ItemQty) + delta
                  && Total(r, ItemCost) == Total(cart, ItemCost) + it.product.price * delta)
            && (it.qty + delta <= 0 ==>
                  Total(r, ItemQty) == Total(cart, ItemQty) - it.qty
                  && Total(r, ItemCost) == Total(cart, ItemCost) - it.product.price * it.qty)
  {
    var k := IndexOf(cart, id).value;
    var q := cart[k].qty + delta;
    if q <= 0 {
      RemoveFromCartTotals(cart, id);
    } else {
      TotalUpdate(cart, k, cart[k].(qty := q), ItemQty);
      TotalUpdate(cart, k, cart[k].(qty := q), ItemCost);
    }
  }

}
