/** The cart reducer: a pure transition function from a cart and an
    action to the next cart. Add, remove and update rebuild the item list
    and then recompute both aggregates by folding over all of it. */
module CartReducer {
  import opened Types
  import Seqs

  /** The action union. `SetLoading` is part of the union but the reducer
      has no case for it, so it falls through to the default branch. */
  datatype CartAction =
    | AddToCart(product: Product, quantity: int)
    | RemoveFromCart(productId: string)
    | UpdateQuantity(productId: string, quantity: int)
    | ClearCart
    | LoadCart(cart: Cart)
    | SetLoading(loading: bool)

  /** The empty cart the store starts from and that clearing returns. */
  const InitialCart: Cart := Cart([], 0, 0)

  function LineTotal(item: CartItem): int {
    item.product.price * item.quantity
  }

  /** `items.reduce((total, item) => total + price * quantity, 0)` */
  function Total(items: seq<CartItem>): int {
    if |items| == 0 then 0
    else Total(items[..|items| - 1]) + LineTotal(items[|items| - 1])
  }

  /** `items.reduce((count, item) => count + quantity, 0)` */
  function ItemCount(items: seq<CartItem>): int {
    if |items| == 0 then 0
    else ItemCount(items[..|items| - 1]) + items[|items| - 1].quantity
  }

  /** The cart's aggregates are exactly those recomputed from its items. */
  predicate AggregatesMatch(c: Cart) {
    c.total == Total(c.items) && c.itemCount == ItemCount(c.items)
  }

  /** Some item of the list is for product `id` (`items.find(...)` found one). */
  predicate HasProduct(items: seq<CartItem>, id: string) {
    exists i :: 0 <= i < |items| && items[i].product.id == id
  }

  /** At most one item per product id. */
  predicate UniqueIds(items: seq<CartItem>) {
    forall i, j :: 0 <= i < j < |items| ==> items[i].product.id != items[j].product.id
  }

  /** The item at `k` is the only one for its product id. */
  predicate SoleEntry(items: seq<CartItem>, k: nat)
    requires k < |items|
  {
    forall i :: 0 <= i < |items| && i != k ==> items[i].product.id != items[k].product.id
  }

  function WithAggregates(items: seq<CartItem>): Cart {
    Cart(items, Total(items), ItemCount(items))
  }

  /** The ADD item list: bump every item for the product, or append one. */
  function AddItems(items: seq<CartItem>, product: Product, quantity: int): seq<CartItem> {
    if HasProduct(items, product.id) then
      seq(|items|, i requires 0 <= i < |items| =>
        if items[i].product.id == product.id
        then items[i].(quantity := items[i].quantity + quantity)
        else items[i])
    else items + [CartItem(product, quantity)]
  }

  /** The REMOVE filter predicate: the item is for some other product. */
  function OtherThan(id: string): CartItem -> bool {
    (item: CartItem) => item.product.id != id
  }

  function RemoveItems(items: seq<CartItem>, id: string): seq<CartItem> {
    Seqs.Filter(items, OtherThan(id))
  }

  /** The UPDATE item list for a positive quantity. */
  function SetQuantity(items: seq<CartItem>, id: string, quantity: int): seq<CartItem> {
    seq(|items|, i requires 0 <= i < |items| =>
      if items[i].product.id == id then items[i].(quantity := quantity) else items[i])
  }

  /** `cartReducer(state, action)`. */
  function Reduce(state: Cart, action: CartAction): (r: Cart)
    ensures !action.LoadCart? && !action.SetLoading? ==> AggregatesMatch(r)
    decreases if action.UpdateQuantity? then 1 else 0
  {
    match action
    case AddToCart(product, quantity) =>
      WithAggregates(AddItems(state.items, product, quantity))
    case RemoveFromCart(id) =>
      WithAggregates(RemoveItems(state.items, id))
    case UpdateQuantity(id, quantity) =>
      if quantity <= 0 then Reduce(state, RemoveFromCart(id))
      else WithAggregates(SetQuantity(state.items, id, quantity))
    case ClearCart => InitialCart
    case LoadCart(cart) => cart
    case SetLoading(_) => state
  }

  // ---------------------------------------------------------------------
  // Facts about the folds

  lemma {:induction false} TotalAppend(a: seq<CartItem>, b: seq<CartItem>)
    ensures Total(a + b) == Total(a) + Total(b)
    ensures ItemCount(a + b) == ItemCount(a) + ItemCount(b)
    decreases |b|
  {
    if |b| == 0 {
      assert a + b == a;
    } else {
      var b0 := b[..|b| - 1];
      assert (a + b)[..|a + b| - 1] == a + b0;
      TotalAppend(a, b0);
    }
  }

  /** Both folds split around any index. */
  lemma TotalSplit(s: seq<CartItem>, k: nat)
    requires k < |s|
    ensures Total(s) == Total(s[..k]) + LineTotal(s[k]) + Total(s[k + 1..])
    ensures ItemCount(s) == ItemCount(s[..k]) + s[k].quantity + ItemCount(s[k + 1..])
  {
    var head := s[..k + 1];
    assert head[..k] == s[..k];
    assert s == head + s[k + 1..];
    TotalAppend(head, s[k + 1..]);
  }

  /** Replacing one item changes the folds by the difference of that item. */
  lemma TotalReplace(s: seq<CartItem>, k: nat, x: CartItem)
    requires k < |s|
    ensures Total(s[k := x]) == Total(s) - LineTotal(s[k]) + LineTotal(x)
    ensures ItemCount(s[k := x]) == ItemCount(s) - s[k].quantity + x.quantity
  {
    var t := s[k := x];
    assert t[..k] == s[..k] && t[k + 1..] == s[k + 1..];
    TotalSplit(s, k);
    TotalSplit(t, k);
  }

  /** Dropping one item lowers the folds by that item. */
  lemma TotalDrop(s: seq<CartItem>, k: nat)
    requires k < |s|
    ensures Total(s[..k] + s[k + 1..]) == Total(s) - LineTotal(s[k])
    ensures ItemCount(s[..k] + s[k + 1..]) == ItemCount(s) - s[k].quantity
  {
    TotalSplit(s, k);
    TotalAppend(s[..k], s[k + 1..]);
  }

  // ---------------------------------------------------------------------
  // ADD_TO_CART

  /** Adding a product whose id is held by exactly one entry changes only
      that entry's quantity, by `quantity`; the list keeps its length and
      order, and the aggregates move by that entry's own price (the entry
      keeps its product record). */
  lemma AddExisting(c: Cart, product: Product, quantity: int, k: nat)
    requires k < |c.items| && c.items[k].product.id == product.id
    requires SoleEntry(c.items, k)
    ensures Reduce(c, AddToCart(product, quantity)).items
         == c.items[k := c.items[k].(quantity := c.items[k].quantity + quantity)]
    ensures AggregatesMatch(c) ==>
              Reduce(c, AddToCart(product, quantity)).total
                == c.total + c.items[k].product.price * quantity
              && Reduce(c, AddToCart(product, quantity)).itemCount == c.itemCount + quantity
  {
    var s := c.items;
    var x := s[k].(quantity := s[k].quantity + quantity);
    ReduceAdd(c, product, quantity);
    AddItemsAtSoleEntry(s, product, quantity, k);
    if AggregatesMatch(c) {
      BumpFolds(s, k, quantity);
    }
  }

  lemma ReduceAdd(c: Cart, product: Product, quantity: int)
    ensures Reduce(c, AddToCart(product, quantity)) == WithAggregates(AddItems(c.items, product, quantity))
  {
  }

  /** Raising one item's quantity by `d` raises the folds by its price
      times `d` and by `d`. */
  lemma BumpFolds(s: seq<CartItem>, k: nat, d: int)
    requires k < |s|
    ensures Total(s[k := s[k].(quantity := s[k].quantity + d)]) == Total(s) + s[k].product.price * d
    ensures ItemCount(s[k := s[k].(quantity := s[k].quantity + d)]) == ItemCount(s) + d
  {
    TotalReplace(s, k, s[k].(quantity := s[k].quantity + d));
    Distribute(s[k].product.price, s[k].quantity, d);
  }

  lemma Distribute(p: int, q: int, d: int)
    ensures p * (q + d) == p * q + p * d
  {
  }

  lemma AddItemsAtSoleEntry(s: seq<CartItem>, product: Product, quantity: int, k: nat)
    requires k < |s| && s[k].product.id == product.id
    requires SoleEntry(s, k)
    ensures AddItems(s, product, quantity) == s[k := s[k].(quantity := s[k].quantity + quantity)]
  {
    var x := s[k].(quantity := s[k].quantity + quantity);
    assert HasProduct(s, product.id);
    var r := AddItems(s, product, quantity);
    forall i | 0 <= i < |s| ensures r[i] == s[k := x][i] {
      if i != k {
        assert s[i].product.id != product.id;
      }
    }
    assert r == s[k := x];
  }

  /** Adding a product not in the cart appends exactly one item at the end. */
  lemma AddNew(c: Cart, product: Product, quantity: int)
    requires !HasProduct(c.items, product.id)
    ensures Reduce(c, AddToCart(product, quantity)).items == c.items + [CartItem(product, quantity)]
    ensures AggregatesMatch(c) ==>
              Reduce(c, AddToCart(product, quantity)).total == c.total + product.price * quantity
              && Reduce(c, AddToCart(product, quantity)).itemCount == c.itemCount + quantity
  {
    var s := c.items + [CartItem(product, quantity)];
    assert s[..|s| - 1] == c.items;
  }

  /** After an add the product is in the cart, and a cart with one entry
      per id still has one entry per id. */
  lemma AddKeepsUniqueIds(c: Cart, product: Product, quantity: int)
    ensures HasProduct(Reduce(c, AddToCart(product, quantity)).items, product.id)
    ensures UniqueIds(c.items) ==> UniqueIds(Reduce(c, AddToCart(product, quantity)).items)
  {
    var r := Reduce(c, AddToCart(product, quantity)).items;
    if HasProduct(c.items, product.id) {
      var k :| 0 <= k < |c.items| && c.items[k].product.id == product.id;
      assert r[k].product.id == product.id;
    } else {
      assert r[|r| - 1].product.id == product.id;
    }
  }

  /** Adding the same new product twice yields one entry holding the sum. */
  lemma AddTwice(c: Cart, product: Product, q1: int, q2: int)
    requires !HasProduct(c.items, product.id)
    ensures Reduce(Reduce(c, AddToCart(product, q1)), AddToCart(product, q2)).items
         == c.items + [CartItem(product, q1 + q2)]
  {
    var c1 := Reduce(c, AddToCart(product, q1));
    AddNew(c, product, q1);
    var k := |c.items|;
    assert c1.items[k] == CartItem(product, q1);
    forall i | 0 <= i < |c1.items| && i != k
      ensures c1.items[i].product.id != c1.items[k].product.id
    {
      assert c1.items[i] == c.items[i];
    }
    AddExisting(c1, product, q2, k);
    assert c1.items[k := c1.items[k].(quantity := q1 + q2)] == c.items + [CartItem(product, q1 + q2)];
  }

  // ---------------------------------------------------------------------
  // REMOVE_FROM_CART

  /** Removing drops every item for `id` and keeps all others, each as
      often as before, in order. */
  lemma RemoveSpec(c: Cart, id: string)
    ensures !HasProduct(Reduce(c, RemoveFromCart(id)).items, id)
    ensures forall x :: x in Reduce(c, RemoveFromCart(id)).items <==> x in c.items && x.product.id != id
    ensures Seqs.IsSubsequence(Reduce(c, RemoveFromCart(id)).items, c.items)
    ensures forall x :: multiset(Reduce(c, RemoveFromCart(id)).items)[x]
                        == if x.product.id != id then multiset(c.items)[x] else 0
    ensures !HasProduct(c.items, id) ==> Reduce(c, RemoveFromCart(id)).items == c.items
  {
    var r := Reduce(c, RemoveFromCart(id)).items;
    Seqs.FilterMultiplicity(c.items, OtherThan(id));
    Seqs.FilterMembership(c.items, OtherThan(id));
    Seqs.FilterIsSubsequence(c.items, OtherThan(id));
    Seqs.FilterAll(c.items, OtherThan(id));
    assert forall i :: 0 <= i < |r| ==> OtherThan(id)(r[i]);
    if !HasProduct(c.items, id) {
      Seqs.FilterKeepsAll(c.items, OtherThan(id));
    }
  }

  /** Removing the id of a sole entry at `k` leaves the items around it
      and lowers the aggregates by that entry. */
  lemma RemoveExisting(c: Cart, k: nat)
    requires k < |c.items| && SoleEntry(c.items, k)
    ensures Reduce(c, RemoveFromCart(c.items[k].product.id)).items == c.items[..k] + c.items[k + 1..]
    ensures AggregatesMatch(c) ==>
              Reduce(c, RemoveFromCart(c.items[k].product.id)).total == c.total - LineTotal(c.items[k])
              && Reduce(c, RemoveFromCart(c.items[k].product.id)).itemCount
                 == c.itemCount - c.items[k].quantity
  {
    var s, id := c.items, c.items[k].product.id;
    var pre, post := s[..k], s[k + 1..];
    var f := OtherThan(id);
    assert s == pre + [s[k]] + post;
    Seqs.FilterAppend(pre + [s[k]], post, f);
    Seqs.FilterAppend(pre, [s[k]], f);
    Seqs.FilterKeepsAll(pre, f);
    Seqs.FilterKeepsAll(post, f);
    Seqs.FilterDropsAll([s[k]], f);
    TotalDrop(s, k);
  }

  /** Removing twice is removing once. */
  lemma RemoveIdempotent(c: Cart, id: string)
    ensures Reduce(Reduce(c, RemoveFromCart(id)), RemoveFromCart(id)) == Reduce(c, RemoveFromCart(id))
  {
    Seqs.FilterIdempotent(c.items, OtherThan(id));
  }

  // ---------------------------------------------------------------------
  // UPDATE_QUANTITY

  /** A non-positive quantity yields exactly the cart that removal yields. */
  lemma UpdateNonPositiveIsRemove(c: Cart, id: string, quantity: int)
    requires quantity <= 0
    ensures Reduce(c, UpdateQuantity(id, quantity)) == Reduce(c, RemoveFromCart(id))
  {
  }

  /** A positive quantity replaces the quantity of every item for `id`;
      length, order and all other items stay, and an absent id leaves
      the items as they were. */
  lemma UpdatePositive(c: Cart, id: string, quantity: int)
    requires quantity > 0
    ensures |Reduce(c, UpdateQuantity(id, quantity)).items| == |c.items|
    ensures forall i :: 0 <= i < |c.items| ==>
              Reduce(c, UpdateQuantity(id, quantity)).items[i].product == c.items[i].product
              && (c.items[i].product.id == id ==> Reduce(c, UpdateQuantity(id, quantity)).items[i].quantity == quantity)
              && (c.items[i].product.id != id ==> Reduce(c, UpdateQuantity(id, quantity)).items[i] == c.items[i])
    ensures !HasProduct(c.items, id) ==> Reduce(c, UpdateQuantity(id, quantity)).items == c.items
  {
  }

  /** A positive update of the id of a sole entry at `k` moves the
      aggregates by the change in that entry's quantity. */
  lemma UpdateExisting(c: Cart, k: nat, quantity: int)
    requires k < |c.items| && SoleEntry(c.items, k) && quantity > 0
    ensures Reduce(c, UpdateQuantity(c.items[k].product.id, quantity)).items
         == c.items[k := c.items[k].(quantity := quantity)]
    ensures AggregatesMatch(c) ==>
              Reduce(c, UpdateQuantity(c.items[k].product.id, quantity)).total
                == c.total + c.items[k].product.price * (quantity - c.items[k].quantity)
              && Reduce(c, UpdateQuantity(c.items[k].product.id, quantity)).itemCount
                == c.itemCount + (quantity - c.items[k].quantity)
  {
    var s := c.items;
    SetQuantityAtSoleEntry(s, k, quantity);
    var r := Reduce(c, UpdateQuantity(s[k].product.id, quantity));
    assert r == WithAggregates(s[k := s[k].(quantity := quantity)]);
    if AggregatesMatch(c) {
      SetFolds(s, k, quantity);
    }
  }

  /** Setting one item's quantity to `q` moves the folds by its price times
      the change and by the change. */
  lemma SetFolds(s: seq<CartItem>, k: nat, q: int)
    requires k < |s|
    ensures Total(s[k := s[k].(quantity := q)]) == Total(s) + s[k].product.price * (q - s[k].quantity)
    ensures ItemCount(s[k := s[k].(quantity := q)]) == ItemCount(s) + (q - s[k].quantity)
  {
    TotalReplace(s, k, s[k].(quantity := q));
    Distribute(s[k].product.price, s[k].quantity, q - s[k].quantity);
  }

  lemma SetQuantityAtSoleEntry(s: seq<CartItem>, k: nat, quantity: int)
    requires k < |s| && SoleEntry(s, k)
    ensures SetQuantity(s, s[k].product.id, quantity) == s[k := s[k].(quantity := quantity)]
  {
    var x := s[k].(quantity := quantity);
    var r := SetQuantity(s, s[k].product.id, quantity);
    forall i | 0 <= i < |s| ensures r[i] == s[k := x][i] {
      if i != k {
        assert s[i].product.id != s[k].product.id;
      }
    }
    assert r == s[k := x];
  }

  // ---------------------------------------------------------------------
  // CLEAR_CART, LOAD_CART and the default branch

  lemma ClearLoadDefault(c: Cart, loaded: Cart, flag: bool)
    ensures Reduce(c, ClearCart) == Cart([], 0, 0)
    ensures Reduce(c, LoadCart(loaded)) == loaded
    ensures Reduce(c, SetLoading(flag)) == c
  {
  }

  // ---------------------------------------------------------------------
  // Invariants across every action

  /** One entry per product id survives every action; a load brings in
      whatever the loaded cart has. */
  lemma ReduceKeepsUniqueIds(c: Cart, action: CartAction)
    requires UniqueIds(c.items)
    requires action.LoadCart? ==> UniqueIds(action.cart.items)
    ensures UniqueIds(Reduce(c, action).items)
  {
    match action
    case AddToCart(p, q) => AddKeepsUniqueIds(c, p, q);
    case RemoveFromCart(id) => RemoveKeepsUniqueIds(c.items, id);
    case UpdateQuantity(id, q) =>
      if q <= 0 { RemoveKeepsUniqueIds(c.items, id); }
    case ClearCart =>
    case LoadCart(_) =>
    case SetLoading(_) =>
  }

  lemma RemoveKeepsUniqueIds(s: seq<CartItem>, id: string)
    requires UniqueIds(s)
    ensures UniqueIds(RemoveItems(s, id))
  {
    var f := OtherThan(id);
    Seqs.FilterIsSubsequence(s, f);
    SubsequenceKeepsUniqueIds(RemoveItems(s, id), s);
  }

  lemma {:induction false} SubsequenceKeepsUniqueIds(t: seq<CartItem>, s: seq<CartItem>)
    requires Seqs.IsSubsequence(t, s) && UniqueIds(s)
    ensures UniqueIds(t)
    decreases |s|
  {
    if |t| > 0 && |s| > 0 {
      var s0 := s[..|s| - 1];
      assert UniqueIds(s0);
      if t[|t| - 1] == s[|s| - 1] {
        var t0 := t[..|t| - 1];
        SubsequenceKeepsUniqueIds(t0, s0);
        SubsequenceMembers(t0, s0);
        forall i, j | 0 <= i < j < |t| ensures t[i].product.id != t[j].product.id {
          if j == |t| - 1 {
            assert t[i] == t0[i] && t0[i] in s0;
            var m :| 0 <= m < |s0| && s0[m] == t0[i];
            assert s[m] == t[i];
          } else {
            assert t[i] == t0[i] && t[j] == t0[j];
          }
        }
      } else {
        SubsequenceKeepsUniqueIds(t, s0);
      }
    }
  }

  lemma {:induction false} SubsequenceMembers(t: seq<CartItem>, s: seq<CartItem>)
    requires Seqs.IsSubsequence(t, s)
    ensures forall x :: x in t ==> x in s
    decreases |s|
  {
    if |t| > 0 && |s| > 0 {
      var s0 := s[..|s| - 1];
      if t[|t| - 1] == s[|s| - 1] {
        SubsequenceMembers(t[..|t| - 1], s0);
        assert t == t[..|t| - 1] + [t[|t| - 1]];
        assert s == s0 + [s[|s| - 1]];
      } else {
        SubsequenceMembers(t, s0);
        assert s == s0 + [s[|s| - 1]];
      }
    }
  }

  // ---------------------------------------------------------------------
  // A worked sequence of mutations on one 15-unit mug

  lemma MugScenario(mug: Product)
    requires mug.price == 15
    ensures Reduce(InitialCart, AddToCart(mug, 1)) == Cart([CartItem(mug, 1)], 15, 1)
    ensures Reduce(Cart([CartItem(mug, 1)], 15, 1), AddToCart(mug, 2))
         == Cart([CartItem(mug, 3)], 45, 3)
    ensures Reduce(Cart([CartItem(mug, 3)], 45, 3), UpdateQuantity(mug.id, 1))
         == Cart([CartItem(mug, 1)], 15, 1)
    ensures Reduce(Cart([CartItem(mug, 1)], 15, 1), RemoveFromCart(mug.id)) == InitialCart
  {
    var one := Cart([CartItem(mug, 1)], 15, 1);
    AddNew(InitialCart, mug, 1);
    assert [] + [CartItem(mug, 1)] == [CartItem(mug, 1)];
    AddExisting(one, mug, 2, 0);
    UpdateExisting(Cart([CartItem(mug, 3)], 45, 3), 0, 1);
    RemoveExisting(one, 0);
  }
}
