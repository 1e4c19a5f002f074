/** The sequence of cart actions the storefront's buttons trigger: the
    product cards' and search results' add buttons, the drawer's quantity
    buttons and its remove buttons. */
module Session {
  import opened Catalog
  import opened Cart

  datatype Action =
    | Add(id: int)
    | Remove(id: int)
    | Change(id: int, delta: int)

  function Step(catalog: seq<Product>, cart: Cart, a: Action): Cart {
    match a
    case Add(id) => AddToCart(catalog, cart, id)
    case Remove(id) => RemoveFromCart(cart, id)
    case Change(id, delta) => ChangeQty(cart, id, delta)
  }

  /** The cart after the actions, applied in order. */
  function Run(catalog: seq<Product>, cart: Cart, actions: seq<Action>): Cart
    decreases |actions|
  {
    if |actions| == 0 then cart else Run(catalog, Step(catalog, cart, actions[0]), actions[1..])
  }

  /** Each action keeps ids unique, quantities positive and lines equal to the catalog's products. */
  lemma StepPreserves(catalog: seq<Product>, cart: Cart, a: Action)
    requires Valid(cart) && Consistent(catalog, cart)
    ensures Valid(Step(catalog, cart, a)) && Consistent(catalog, Step(catalog, cart, a))
  {
    match a
    case Add(id) =>
      AddToCartValid(catalog, cart, id);
      AddToCartConsistent(catalog, cart, id);
    case Remove(id) =>
      RemoveFromCartValid(cart, id);
      RemoveFromCartConsistent(catalog, cart, id);
    case Change(id, delta) =>
      ChangeQtyValid(cart, id, delta);
      ChangeQtyConsistent(catalog, cart, id, delta);
  }

  /** Any run of actions from a cart satisfying the invariants ends in one that does. */
  lemma {:induction false} RunPreserves(catalog: seq<Product>, cart: Cart, actions: seq<Action>)
    requires Valid(cart) && Consistent(catalog, cart)
    ensures Valid(Run(catalog, cart, actions)) && Consistent(catalog, Run(catalog, cart, actions))
    decreases |actions|
  {
    if |actions| > 0 {
      StepPreserves(catalog, cart, actions[0]);
      RunPreserves(catalog, Step(catalog, cart, actions[0]), actions[1..]);
    }
  }

  /** In particular, every cart built up from an empty one satisfies them. */
  lemma RunFromEmpty(catalog: seq<Product>, actions: seq<Action>)
    ensures Valid(Run(catalog, [], actions)) && Consistent(catalog, Run(catalog, [], actions))
  {
    RunPreserves(catalog, [], actions);
  }

}
