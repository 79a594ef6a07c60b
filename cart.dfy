/**
 * The shopping cart kept by the app's cart provider: a list of
 * (item, quantity) entries matched by item id. Every operation builds a
 * new list; the provider swaps it in.
 */
module Cart {
  import opened Wrappers
  import Orders

  /** The item record a cart entry carries, as the app fetched it. */
  datatype CartItem = CartItem(id: Orders.ItemId, name: string, price: int)

  datatype CartEntry = CartEntry(item: CartItem, quantity: int)

  /** No two entries share an item id. */
  ghost predicate UniqueIds(cart: seq<CartEntry>)
  {
    forall i, j :: 0 <= i < j < |cart| ==> cart[i].item.id != cart[j].item.id
  }

  ghost predicate Absent(cart: seq<CartEntry>, id: Orders.ItemId)
  {
    forall k :: 0 <= k < |cart| ==> cart[k].item.id != id
  }

  function EntryAmount(e: CartEntry): int
  {
    e.item.price * e.quantity
  }

  /** The position of the first entry for `id`, if any. */
  function Find(cart: seq<CartEntry>, id: Orders.ItemId): (r: Option<nat>)
    ensures r.None? <==> Absent(cart, id)
    ensures r.Some? ==> r.value < |cart| && cart[r.value].item.id == id
                        && forall j :: 0 <= j < r.value ==> cart[j].item.id != id
  {
    if cart == [] then None
    else if cart[0].item.id == id then Some(0)
    else match Find(cart[1..], id)
      case None => None
      case Some(k) => Some(k + 1)
  }

  /** Every entry for `id` gets quantity `q`; the rest are kept as they are. */
  function SetQuantity(cart: seq<CartEntry>, id: Orders.ItemId, q: int): seq<CartEntry>
  {
    if cart == [] then []
    else [if cart[0].item.id == id then cart[0].(quantity := q) else cart[0]] + SetQuantity(cart[1..], id, q)
  }

  /** Drop every entry for `id`. */
  function RemoveFromCart(cart: seq<CartEntry>, id: Orders.ItemId): seq<CartEntry>
  {
    if cart == [] then []
    else (if cart[0].item.id == id then [] else [cart[0]]) + RemoveFromCart(cart[1..], id)
  }

  /** A quantity of zero or less removes the item; otherwise it replaces the entry's quantity. */
  function UpdateQuantity(cart: seq<CartEntry>, id: Orders.ItemId, q: int): seq<CartEntry>
  {
    if q <= 0 then RemoveFromCart(cart, id) else SetQuantity(cart, id, q)
  }

  /** Add `q` of `item`: merged into the first entry for its id, or appended as a new entry. */
  function AddToCart(cart: seq<CartEntry>, item: CartItem, q: int): seq<CartEntry>
  {
    match Find(cart, item.id)
    case Some(k) => UpdateQuantity(cart, item.id, cart[k].quantity + q)
    case None => cart + [CartEntry(item, q)]
  }

  function ClearCart(): seq<CartEntry>
  {
    []
  }

  /** The running sum of price * quantity, entry by entry from the first. */
  function CartTotal(cart: seq<CartEntry>): int
  {
    if cart == [] then 0 else CartTotal(cart[..|cart| - 1]) + EntryAmount(cart[|cart| - 1])
  }

  // ---- setting a quantity ----

  /** Setting a quantity keeps length and order and touches only entries for `id`. */
  lemma {:induction false} SetQuantityAt(cart: seq<CartEntry>, id: Orders.ItemId, q: int)
    ensures |SetQuantity(cart, id, q)| == |cart|
    ensures forall k :: 0 <= k < |cart| ==>
      SetQuantity(cart, id, q)[k] == if cart[k].item.id == id then cart[k].(quantity := q) else cart[k]
  {
    if cart != [] {
      SetQuantityAt(cart[1..], id, q);
    }
  }

  /** In a cart with one entry per id, a positive update rewrites exactly that entry's quantity. */
  lemma UpdateQuantityPositive(cart: seq<CartEntry>, k: nat, q: int)
    requires UniqueIds(cart) && k < |cart| && q > 0
    ensures UpdateQuantity(cart, cart[k].item.id, q) == cart[k := cart[k].(quantity := q)]
  {
    SetQuantityAt(cart, cart[k].item.id, q);
  }

  /** A positive update for an id not in the cart changes nothing. */
  lemma UpdateQuantityAbsent(cart: seq<CartEntry>, id: Orders.ItemId, q: int)
    requires Absent(cart, id) && q > 0
    ensures UpdateQuantity(cart, id, q) == cart
  {
    SetQuantityAt(cart, id, q);
  }

  /** A quantity of zero or less is the same as removing the item. */
  lemma UpdateQuantityNonPositive(cart: seq<CartEntry>, id: Orders.ItemId, q: int)
    requires q <= 0
    ensures UpdateQuantity(cart, id, q) == RemoveFromCart(cart, id)
  {
  }

  // ---- removing ----

  /** Removal keeps exactly the entries for other ids. */
  lemma {:induction false} RemoveFromCartMembers(cart: seq<CartEntry>, id: Orders.ItemId)
    ensures forall e :: e in RemoveFromCart(cart, id) <==> e in cart && e.item.id != id
  {
    if cart != [] {
      RemoveFromCartMembers(cart[1..], id);
      assert cart == [cart[0]] + cart[1..];
    }
  }

  /** Removal works entry by entry, so it keeps the order of what remains. */
  lemma {:induction false} RemoveFromCartAppend(a: seq<CartEntry>, b: seq<CartEntry>, id: Orders.ItemId)
    ensures RemoveFromCart(a + b, id) == RemoveFromCart(a, id) + RemoveFromCart(b, id)
  {
    if a != [] {
      assert (a + b)[1..] == a[1..] + b;
      RemoveFromCartAppend(a[1..], b, id);
    } else {
      assert a + b == b;
    }
  }

  /** Removing an id the cart does not hold leaves it unchanged. */
  lemma {:induction false} RemoveFromCartAbsent(cart: seq<CartEntry>, id: Orders.ItemId)
    requires Absent(cart, id)
    ensures RemoveFromCart(cart, id) == cart
  {
    if cart != [] {
      RemoveFromCartAbsent(cart[1..], id);
    }
  }

  /** Removing the id of an entry that no other entry shares cuts out just that entry. */
  lemma RemoveFromCartSplit(before: seq<CartEntry>, e: CartEntry, after: seq<CartEntry>)
    requires Absent(before, e.item.id) && Absent(after, e.item.id)
    ensures RemoveFromCart(before + [e] + after, e.item.id) == before + after
  {
    var id := e.item.id;
    RemoveFromCartAbsent(before, id);
    RemoveFromCartAbsent(after, id);
    assert [e][1..] == [];
    assert RemoveFromCart([e], id) == [];
    RemoveFromCartAppend(before, [e], id);
    RemoveFromCartAppend(before + [e], after, id);
  }

  /** In a cart with one entry per id, removal cuts out exactly that entry. */
  lemma RemoveFromCartUnique(cart: seq<CartEntry>, k: nat)
    requires UniqueIds(cart) && k < |cart|
    ensures RemoveFromCart(cart, cart[k].item.id) == cart[..k] + cart[k + 1..]
  {
    var id := cart[k].item.id;
    var before, after := cart[..k], cart[k + 1..];
    forall j | 0 <= j < |before|
      ensures before[j].item.id != id
    {
      assert before[j] == cart[j];
    }
    forall j | 0 <= j < |after|
      ensures after[j].item.id != id
    {
      assert after[j] == cart[k + 1 + j];
    }
    assert cart == before + [cart[k]] + after;
    RemoveFromCartSplit(before, cart[k], after);
  }

  // ---- adding ----

  /** An item not yet in the cart is appended, and existing entries stay as they are. */
  lemma AddToCartNew(cart: seq<CartEntry>, item: CartItem, q: int)
    requires Absent(cart, item.id)
    ensures AddToCart(cart, item, q) == cart + [CartEntry(item, q)]
  {
  }

  /**
   * An item already in the cart adds no entry: its entry keeps its item
   * record and gets the summed quantity, or goes away if the sum is not positive.
   */
  lemma AddToCartExisting(cart: seq<CartEntry>, k: nat, item: CartItem, q: int)
    requires UniqueIds(cart) && k < |cart| && cart[k].item.id == item.id
    ensures AddToCart(cart, item, q) ==
      if cart[k].quantity + q > 0 then cart[k := cart[k].(quantity := cart[k].quantity + q)]
      else cart[..k] + cart[k + 1..]
  {
    var f := Find(cart, item.id);
    assert f == Some(k);
    if cart[k].quantity + q > 0 {
      UpdateQuantityPositive(cart, k, cart[k].quantity + q);
    } else {
      RemoveFromCartUnique(cart, k);
    }
  }

  // ---- one entry per id ----

  lemma RemoveFromCartKeepsUnique(cart: seq<CartEntry>, id: Orders.ItemId)
    requires UniqueIds(cart)
    ensures UniqueIds(RemoveFromCart(cart, id))
  {
    if cart != [] {
      RemoveFromCartKeepsUnique(cart[1..], id);
      RemoveFromCartMembers(cart[1..], id);
      var rest := RemoveFromCart(cart[1..], id);
      forall j | 0 <= j < |rest|
        ensures rest[j].item.id != cart[0].item.id
      {
        assert rest[j] in cart[1..];
      }
    }
  }

  lemma UpdateQuantityKeepsUnique(cart: seq<CartEntry>, id: Orders.ItemId, q: int)
    requires UniqueIds(cart)
    ensures UniqueIds(UpdateQuantity(cart, id, q))
  {
    if q <= 0 {
      RemoveFromCartKeepsUnique(cart, id);
    } else {
      SetQuantityAt(cart, id, q);
    }
  }

  lemma AddToCartKeepsUnique(cart: seq<CartEntry>, item: CartItem, q: int)
    requires UniqueIds(cart)
    ensures UniqueIds(AddToCart(cart, item, q))
  {
    match Find(cart, item.id)
    case Some(k) => UpdateQuantityKeepsUnique(cart, item.id, cart[k].quantity + q);
    case None =>
  }

  // ---- totals ----

  /** The total of a concatenation is the sum of the totals. */
  lemma {:induction false} CartTotalAppend(a: seq<CartEntry>, b: seq<CartEntry>)
    ensures CartTotal(a + b) == CartTotal(a) + CartTotal(b)
  {
    if b == [] {
      assert a + b == a;
    } else {
      assert (a + b)[..|a + b| - 1] == a + b[..|b| - 1];
      CartTotalAppend(a, b[..|b| - 1]);
    }
  }

  /** The empty cart that clearing yields totals 0. */
  lemma ClearCartEmpty()
    ensures ClearCart() == [] && CartTotal(ClearCart()) == 0
  {
  }

  /** Appending a new item raises the total by its price times the quantity. */
  lemma AddToCartNewTotal(cart: seq<CartEntry>, item: CartItem, q: int)
    requires Absent(cart, item.id)
    ensures CartTotal(AddToCart(cart, item, q)) == CartTotal(cart) + item.price * q
  {
    CartTotalAppend(cart, [CartEntry(item, q)]);
    assert [CartEntry(item, q)][..0] == [];
  }

  /** The total around one entry splits into the parts before it, the entry, and after it. */
  lemma CartTotalSplit(before: seq<CartEntry>, e: CartEntry, after: seq<CartEntry>)
    ensures CartTotal(before + [e] + after) == CartTotal(before) + EntryAmount(e) + CartTotal(after)
  {
    CartTotalAppend(before + [e], after);
    CartTotalAppend(before, [e]);
    SingleEntryTotal(e);
  }

  /** Removing an item lowers the total by exactly that entry's amount. */
  lemma RemoveFromCartTotal(cart: seq<CartEntry>, k: nat)
    requires UniqueIds(cart) && k < |cart|
    ensures CartTotal(RemoveFromCart(cart, cart[k].item.id)) == CartTotal(cart) - EntryAmount(cart[k])
  {
    var before, after := cart[..k], cart[k + 1..];
    RemoveFromCartUnique(cart, k);
    assert cart == before + [cart[k]] + after;
    CartTotalSplit(before, cart[k], after);
    CartTotalAppend(before, after);
  }

  /** Replacing one entry replaces its amount in the total. */
  lemma CartTotalReplace(cart: seq<CartEntry>, k: nat, e: CartEntry)
    requires k < |cart|
    ensures CartTotal(cart[k := e]) == CartTotal(cart) - EntryAmount(cart[k]) + EntryAmount(e)
  {
    var before, after := cart[..k], cart[k + 1..];
    assert cart == before + [cart[k]] + after;
    assert cart[k := e] == before + [e] + after;
    CartTotalSplit(before, cart[k], after);
    CartTotalSplit(before, e, after);
  }

  /** A positive update replaces that entry's amount with price times the new quantity. */
  lemma UpdateQuantityTotal(cart: seq<CartEntry>, k: nat, q: int)
    requires UniqueIds(cart) && k < |cart| && q > 0
    ensures CartTotal(UpdateQuantity(cart, cart[k].item.id, q))
            == CartTotal(cart) - EntryAmount(cart[k]) + cart[k].item.price * q
  {
    UpdateQuantityPositive(cart, k, q);
    CartTotalReplace(cart, k, cart[k].(quantity := q));
  }

  lemma SingleEntryTotal(e: CartEntry)
    ensures CartTotal([e]) == EntryAmount(e)
  {
    assert [e][..0] == [];
  }
}
