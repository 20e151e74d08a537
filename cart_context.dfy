/**
 * The client cart of src/context/CartContext.tsx: a list of cart entries held
 * in a state cell that addToCart, updateQuantity, removeFromCart and clearCart
 * replace. Each new list is computed by a pure function below (find, map,
 * filter and spread in the source); the class Cart holds the cell.
 */
module CartContext {
  import opened Wrappers

  datatype CartItem = CartItem(id: string, name: string, price: real, quantity: int, category: string)

  /** The argument of addToCart: a cart entry without its quantity. */
  datatype CartProduct = CartProduct(id: string, name: string, price: real, category: string)

  predicate HasId(items: seq<CartItem>, id: string) {
    exists k | 0 <= k < |items| :: items[k].id == id
  }

  /** Ids are pairwise distinct. */
  predicate UniqueIds(items: seq<CartItem>) {
    forall i, j | 0 <= i < j < |items| :: items[i].id != items[j].id
  }

  /** Every quantity is at least 1. */
  predicate QuantitiesPositive(items: seq<CartItem>) {
    forall i | 0 <= i < |items| :: items[i].quantity >= 1
  }

  predicate WellFormed(items: seq<CartItem>) {
    UniqueIds(items) && QuantitiesPositive(items)
  }

  /** items.find(i => i.id === id) */
  function Find(items: seq<CartItem>, id: string): (r: Option<CartItem>)
    ensures r.Some? <==> HasId(items, id)
    ensures r.Some? ==> r.value in items && r.value.id == id
    ensures r.Some? ==> exists k | 0 <= k < |items| :: items[k] == r.value && forall j | 0 <= j < k :: items[j].id != id
  {
    if items == [] then None
    else if items[0].id == id then
      Some(items[0])
    else
      var r := Find(items[1..], id);
      assert r.Some? ==> exists k | 0 <= k < |items| :: items[k] == r.value && forall j | 0 <= j < k :: items[j].id != id by {
        if r.Some? {
          var k :| 0 <= k < |items[1..]| && items[1..][k] == r.value && forall j | 0 <= j < k :: items[1..][j].id != id;
          assert items[k + 1] == r.value;
          forall j | 0 <= j < k + 1 ensures items[j].id != id {
            if j > 0 {
              assert items[j] == items[1..][j - 1];
            }
          }
        }
      }
      assert HasId(items, id) ==> HasId(items[1..], id) by {
        if HasId(items, id) {
          var k :| 0 <= k < |items| && items[k].id == id;
          assert items[1..][k - 1].id == id;
        }
      }
      assert HasId(items[1..], id) ==> HasId(items, id) by {
        if HasId(items[1..], id) {
          var k :| 0 <= k < |items[1..]| && items[1..][k].id == id;
          assert items[k + 1].id == id;
        }
      }
      r
  }

  /** cartItems.reduce((sum, item) => sum + item.quantity, 0) */
  function TotalQuantity(items: seq<CartItem>): (n: int)
    ensures QuantitiesPositive(items) ==> n >= |items|
  {
    if items == [] then 0
    else
      assert QuantitiesPositive(items) ==> QuantitiesPositive(items[1..]) by {
        if QuantitiesPositive(items) {
          forall i | 0 <= i < |items[1..]| ensures items[1..][i].quantity >= 1 {
            assert items[1..][i] == items[i + 1];
          }
        }
      }
      items[0].quantity + TotalQuantity(items[1..])
  }

  /** prev.map(i => i.id === id ? { ...i, quantity: i.quantity + 1 } : i) */
  function Incremented(items: seq<CartItem>, id: string): (r: seq<CartItem>)
    ensures |r| == |items|
    ensures forall k | 0 <= k < |items| ::
      r[k] == if items[k].id == id then items[k].(quantity := items[k].quantity + 1) else items[k]
  {
    if items == [] then []
    else
      var head := if items[0].id == id then items[0].(quantity := items[0].quantity + 1) else items[0];
      [head] + Incremented(items[1..], id)
  }

  /** prev.map(item => item.id === id ? { ...item, quantity } : item) */
  function WithQuantity(items: seq<CartItem>, id: string, quantity: int): (r: seq<CartItem>)
    ensures |r| == |items|
    ensures forall k | 0 <= k < |items| ::
      r[k] == if items[k].id == id then items[k].(quantity := quantity) else items[k]
  {
    if items == [] then []
    else
      var head := if items[0].id == id then items[0].(quantity := quantity) else items[0];
      [head] + WithQuantity(items[1..], id, quantity)
  }

  /** prev.filter(item => item.id !== id) */
  function Without(items: seq<CartItem>, id: string): (r: seq<CartItem>)
    ensures forall x | x in r :: x in items
    ensures forall x | x in r :: x.id != id
    ensures |r| <= |items|
  {
    if items == [] then []
    else
      assert items == [items[0]] + items[1..];
      (if items[0].id != id then [items[0]] else []) + Without(items[1..], id)
  }

  /** The entry addToCart appends for a product not yet in the cart: the product's fields with quantity 1. */
  function FirstEntry(product: CartProduct): (e: CartItem)
    ensures e.quantity == 1
    ensures CartProduct(e.id, e.name, e.price, e.category) == product
  {
    CartItem(product.id, product.name, product.price, 1, product.category)
  }

  /**
   * The list addToCart computes: afterwards the product is in the cart, the
   * list grows by one entry exactly when it was absent, and entries with
   * other ids keep their places.
   */
  function Added(items: seq<CartItem>, product: CartProduct): (r: seq<CartItem>)
    ensures HasId(r, product.id)
    ensures |r| == if HasId(items, product.id) then |items| else |items| + 1
    ensures forall k | 0 <= k < |items| && items[k].id != product.id :: r[k] == items[k]
  {
    if Find(items, product.id).Some? then
      var r := Incremented(items, product.id);
      var k :| 0 <= k < |items| && items[k].id == product.id;
      assert r[k].id == product.id;
      r
    else
      var r := items + [FirstEntry(product)];
      assert r[|items|].id == product.id;
      r
  }

  // ---------------------------------------------------------------------
  // addToCart
  // ---------------------------------------------------------------------

  /** A product not in the cart is appended with quantity 1; earlier entries are untouched. */
  lemma AddNewProductAppends(items: seq<CartItem>, product: CartProduct)
    requires !HasId(items, product.id)
    ensures Added(items, product) == items + [CartItem(product.id, product.name, product.price, 1, product.category)]
  {
  }

  /** A product already in the cart (at position k) raises that entry's quantity by 1 and changes nothing else. */
  lemma AddExistingProductIncrements(items: seq<CartItem>, product: CartProduct, k: nat)
    requires UniqueIds(items) && k < |items| && items[k].id == product.id
    ensures |Added(items, product)| == |items|
    ensures Added(items, product)[k] == items[k].(quantity := items[k].quantity + 1)
    ensures forall j | 0 <= j < |items| && j != k :: Added(items, product)[j] == items[j]
  {
    assert HasId(items, product.id);
  }

  lemma AddKeepsWellFormed(items: seq<CartItem>, product: CartProduct)
    requires WellFormed(items)
    ensures WellFormed(Added(items, product))
  {
    if !HasId(items, product.id) {
      var r := Added(items, product);
      assert r == items + [FirstEntry(product)];
      forall i, j | 0 <= i < j < |r| ensures r[i].id != r[j].id {
        if j == |items| {
          assert r[i] == items[i];
        }
      }
    }
  }

  lemma {:induction false} TotalQuantityAppend(items: seq<CartItem>, x: CartItem)
    ensures TotalQuantity(items + [x]) == TotalQuantity(items) + x.quantity
  {
    if items == [] {
      assert items + [x] == [x];
    } else {
      assert (items + [x])[1..] == items[1..] + [x];
      TotalQuantityAppend(items[1..], x);
    }
  }

  /** How many entries carry `id`. */
  function Occurrences(items: seq<CartItem>, id: string): nat {
    if items == [] then 0 else (if items[0].id == id then 1 else 0) + Occurrences(items[1..], id)
  }

  lemma {:induction false} TotalQuantityIncremented(items: seq<CartItem>, id: string)
    ensures TotalQuantity(Incremented(items, id)) == TotalQuantity(items) + Occurrences(items, id)
  {
    if items != [] {
      TotalQuantityIncremented(items[1..], id);
      assert Incremented(items, id)[1..] == Incremented(items[1..], id);
    }
  }

  /** An id is in a non-empty cart when it is the head's or in the tail. */
  lemma HasIdSplit(items: seq<CartItem>, id: string)
    requires items != []
    ensures HasId(items, id) <==> items[0].id == id || HasId(items[1..], id)
  {
    var t := items[1..];
    forall m | 0 <= m < |t| ensures t[m] == items[m + 1] {
    }
    if HasId(items, id) && items[0].id != id {
      var k :| 0 <= k < |items| && items[k].id == id;
      assert t[k - 1].id == id;
    }
  }

  lemma UniqueTail(items: seq<CartItem>)
    requires items != [] && UniqueIds(items)
    ensures UniqueIds(items[1..])
    ensures !HasId(items[1..], items[0].id)
  {
    var t := items[1..];
    forall i, j | 0 <= i < j < |t| ensures t[i].id != t[j].id {
      assert t[i] == items[i + 1] && t[j] == items[j + 1];
    }
    forall m | 0 <= m < |t| ensures t[m].id != items[0].id {
      assert t[m] == items[m + 1];
    }
  }

  lemma {:induction false} UniqueIdOccursOnce(items: seq<CartItem>, id: string)
    requires UniqueIds(items)
    ensures Occurrences(items, id) == if HasId(items, id) then 1 else 0
  {
    if items != [] {
      UniqueTail(items);
      UniqueIdOccursOnce(items[1..], id);
      HasIdSplit(items, id);
    }
  }

  /** addToCart raises cartCount by exactly 1. */
  lemma AddRaisesCountByOne(items: seq<CartItem>, product: CartProduct)
    requires WellFormed(items)
    ensures TotalQuantity(Added(items, product)) == TotalQuantity(items) + 1
  {
    if HasId(items, product.id) {
      TotalQuantityIncremented(items, product.id);
      UniqueIdOccursOnce(items, product.id);
    } else {
      TotalQuantityAppend(items, FirstEntry(product));
    }
  }

  // ---------------------------------------------------------------------
  // updateQuantity
  // ---------------------------------------------------------------------

  /** Setting the quantity of an id that is not in the cart changes nothing. */
  lemma WithQuantityAbsentIsNoOp(items: seq<CartItem>, id: string, quantity: int)
    requires !HasId(items, id)
    ensures WithQuantity(items, id, quantity) == items
  {
  }

  /** A quantity of at least 1 keeps the cart well formed. */
  lemma WithQuantityKeepsWellFormed(items: seq<CartItem>, id: string, quantity: int)
    requires WellFormed(items) && quantity >= 1
    ensures WellFormed(WithQuantity(items, id, quantity))
  {
  }

  // ---------------------------------------------------------------------
  // removeFromCart
  // ---------------------------------------------------------------------

  /** Removing keeps the remaining entries in their original order. */
  lemma {:induction false} WithoutConcat(a: seq<CartItem>, b: seq<CartItem>, id: string)
    ensures Without(a + b, id) == Without(a, id) + Without(b, id)
  {
    if a == [] {
      assert a + b == b;
    } else {
      var h := if a[0].id != id then [a[0]] else [];
      assert (a + b)[0] == a[0] && (a + b)[1..] == a[1..] + b;
      WithoutConcat(a[1..], b, id);
      calc {
        Without(a + b, id);
        h + Without(a[1..] + b, id);
        h + (Without(a[1..], id) + Without(b, id));
        (h + Without(a[1..], id)) + Without(b, id);
        Without(a, id) + Without(b, id);
      }
    }
  }

  /** Removing an id that is not in the cart changes nothing. */
  lemma {:induction false} WithoutAbsentIsNoOp(items: seq<CartItem>, id: string)
    requires !HasId(items, id)
    ensures Without(items, id) == items
  {
    if items != [] {
      HasIdSplit(items, id);
      WithoutAbsentIsNoOp(items[1..], id);
      assert items == [items[0]] + items[1..];
    }
  }

  /** Every entry with another id survives removal. */
  lemma {:induction false} WithoutKeepsOthers(items: seq<CartItem>, id: string, x: CartItem)
    requires x in items && x.id != id
    ensures x in Without(items, id)
  {
    if items[0] != x {
      WithoutKeepsOthers(items[1..], id, x);
    }
  }

  /** In a cart with unique ids, removing the id of entry k takes out exactly that entry. */
  lemma {:induction false} WithoutRemovesOneEntry(items: seq<CartItem>, k: nat)
    requires UniqueIds(items) && k < |items|
    ensures Without(items, items[k].id) == items[..k] + items[k + 1..]
  {
    var id := items[k].id;
    var t := items[1..];
    UniqueTail(items);
    if k == 0 {
      WithoutAbsentIsNoOp(t, id);
      assert Without(items, id) == Without(t, id);
    } else {
      assert items[0].id != id;
      assert t[k - 1] == items[k];
      WithoutRemovesOneEntry(t, k - 1);
      assert Without(items, id) == [items[0]] + Without(t, id);
      SpliceThroughTail(items, k);
    }
  }

  /** Cutting entry k out of a sequence is cutting entry k - 1 out of its tail. */
  lemma SpliceThroughTail<T>(s: seq<T>, k: nat)
    requires 0 < k < |s|
    ensures s[..k] + s[k + 1..] == [s[0]] + (s[1..][..k - 1] + s[1..][k..])
  {
    assert s[..k] == [s[0]] + s[1..][..k - 1];
    assert s[k + 1..] == s[1..][k..];
  }

  /** Putting an entry with a fresh id and a positive quantity in front keeps a cart well formed. */
  lemma ConsWellFormed(x: CartItem, rest: seq<CartItem>)
    requires WellFormed(rest) && x.quantity >= 1
    requires forall y | y in rest :: y.id != x.id
    ensures WellFormed([x] + rest)
  {
    var r := [x] + rest;
    forall i, j | 0 <= i < j < |r| ensures r[i].id != r[j].id {
      assert r[j] == rest[j - 1];
      if i > 0 {
        assert r[i] == rest[i - 1];
      }
    }
    forall i | 0 <= i < |r| ensures r[i].quantity >= 1 {
      if i > 0 {
        assert r[i] == rest[i - 1];
      }
    }
  }

  lemma {:induction false} WithoutKeepsWellFormed(items: seq<CartItem>, id: string)
    requires WellFormed(items)
    ensures WellFormed(Without(items, id))
  {
    if items != [] {
      var t := items[1..];
      UniqueTail(items);
      forall i | 0 <= i < |t| ensures t[i].quantity >= 1 {
        assert t[i] == items[i + 1];
      }
      WithoutKeepsWellFormed(t, id);
      var rest := Without(t, id);
      if items[0].id != id {
        forall y | y in rest ensures y.id != items[0].id {
          var m :| 0 <= m < |t| && t[m] == y;
        }
        ConsWellFormed(items[0], rest);
        assert Without(items, id) == [items[0]] + rest;
      } else {
        assert Without(items, id) == rest;
      }
    }
  }

  // ---------------------------------------------------------------------
  // The state cell
  // ---------------------------------------------------------------------

  class Cart {
    var items: seq<CartItem>

    /** Unique ids and positive quantities: what all four operations keep. */
    ghost predicate Valid()
      reads this
    {
      WellFormed(items)
    }

    /** useState<CartItem[]>([]) */
    constructor ()
      ensures items == [] && Valid()
    {
      items := [];
    }

    /** cartCount: the sum of the quantities, at least the number of entries. */
    function CartCount(): (n: int)
      reads this
      ensures Valid() ==> n >= |items|
    {
      TotalQuantity(items)
    }

    method AddToCart(item: CartProduct)
      modifies this
      ensures items == Added(old(items), item)
      ensures old(Valid()) ==> Valid() && CartCount() == old(CartCount()) + 1
    {
      if old(Valid()) {
        AddKeepsWellFormed(items, item);
        AddRaisesCountByOne(items, item);
      }
      items := Added(items, item);
    }

    method UpdateQuantity(id: string, quantity: int)
      modifies this
      ensures quantity < 1 ==> items == Without(old(items), id)
      ensures quantity >= 1 ==> items == WithQuantity(old(items), id, quantity)
      ensures old(Valid()) ==> Valid()
    {
      if quantity < 1 {
        RemoveFromCart(id);
        return;
      }
      if Valid() {
        WithQuantityKeepsWellFormed(items, id, quantity);
      }
      items := WithQuantity(items, id, quantity);
    }

    method RemoveFromCart(id: string)
      modifies this
      ensures items == Without(old(items), id)
      ensures old(Valid()) ==> Valid()
    {
      if Valid() {
        WithoutKeepsWellFormed(items, id);
      }
      items := Without(items, id);
    }

    method ClearCart()
      modifies this
      ensures items == [] && Valid() && CartCount() == 0
    {
      items := [];
    }
  }

}
