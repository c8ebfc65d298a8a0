/** The cart slice: an ordered list of course items keyed by `_id`, plus a
    running `total` that the reducers adjust by hand on every add and
    remove. */
module Cart {
  import opened Common

  /** The item the course pages put into the cart. `price` is whatever the
      caller supplies: the reducer never checks its sign. */
  datatype CartItem = CartItem(
    id: string,
    title: string,
    price: int,
    thumbnail: Option<string>,
    instructorName: Option<string>)

  datatype CartState = CartState(items: seq<CartItem>, total: int)

  /** The reducers the slice exports. */
  datatype Event = AddToCart(item: CartItem) | RemoveFromCart(id: string) | ClearCart

  const Init := CartState([], 0)

  /** Sum of the prices of a list of items, read from the front. */
  function SumPrices(items: seq<CartItem>): int {
    if items == [] then 0 else items[0].price + SumPrices(items[1..])
  }

  predicate HasId(items: seq<CartItem>, id: string) {
    exists j :: 0 <= j < |items| && items[j].id == id
  }

  predicate DistinctIds(items: seq<CartItem>) {
    forall i, j :: 0 <= i < j < |items| ==> items[i].id != items[j].id
  }

  /** What the slice relies on without ever checking: the running total is
      the sum of the listed prices, and no id is listed twice. */
  predicate Valid(s: CartState) {
    s.total == SumPrices(s.items) && DistinctIds(s.items)
  }

  /** `items.findIndex(item => item._id === id)`: the first position holding
      `id`, or -1. */
  function FindIndex(items: seq<CartItem>, id: string): (r: int)
    ensures -1 <= r < |items|
    ensures r == -1 <==> !HasId(items, id)
    ensures r >= 0 ==> items[r].id == id && forall j :: 0 <= j < r ==> items[j].id != id
  {
    if items == [] then -1
    else if items[0].id == id then 0
    else
      var k := FindIndex(items[1..], id);
      assert forall j :: 1 <= j < |items| ==> items[1..][j - 1] == items[j];
      if k == -1 then -1 else k + 1
  }

  /** `addToCart`: an item whose id is already listed is ignored; otherwise it
      is appended at the end and its price added to the total. */
  function Add(s: CartState, item: CartItem): (r: CartState)
    ensures HasId(r.items, item.id)
    ensures HasId(s.items, item.id) ==> r == s
    ensures !HasId(s.items, item.id) ==>
      |r.items| == |s.items| + 1 && r.items[..|s.items|] == s.items && r.items[|s.items|] == item &&
      r.total == s.total + item.price
  {
    if FindIndex(s.items, item.id) != -1 then s
    else
      var items := s.items + [item];
      assert items[|s.items|] == item;
      CartState(items, s.total + item.price)
  }

  /** `removeFromCart`: the first item with the id goes, and its price is
      taken off the total; an id that is not listed changes nothing. */
  function Remove(s: CartState, id: string): (r: CartState)
    ensures !HasId(s.items, id) ==> r == s
    ensures HasId(s.items, id) ==>
      exists i :: 0 <= i < |s.items| && s.items[i].id == id && (forall j :: 0 <= j < i ==> s.items[j].id != id) &&
        r.items == s.items[..i] + s.items[i + 1..] && r.total == s.total - s.items[i].price
  {
    var i := FindIndex(s.items, id);
    if i == -1 then s
    else CartState(s.items[..i] + s.items[i + 1..], s.total - s.items[i].price)
  }

  /** `clearCart` */
  function Clear(s: CartState): (r: CartState)
    ensures r.items == [] && r.total == 0 && Valid(r)
  {
    Init
  }

  function Reduce(s: CartState, e: Event): CartState {
    match e
    case AddToCart(item) => Add(s, item)
    case RemoveFromCart(id) => Remove(s, id)
    case ClearCart => Clear(s)
  }

  /** `selectCartItemsCount` */
  function ItemsCount(s: CartState): (n: nat)
    ensures n == |s.items|
  {
    |s.items|
  }

  /** Applies the events in order, starting from `s`. */
  function ReduceAll(s: CartState, es: seq<Event>): CartState
    decreases |es|
  {
    if es == [] then s else ReduceAll(Reduce(s, es[0]), es[1..])
  }

  // ---------------------------------------------------------------- proofs

  lemma {:induction false} SumAppend(items: seq<CartItem>, item: CartItem)
    ensures SumPrices(items + [item]) == SumPrices(items) + item.price
  {
    if items != [] {
      assert (items + [item])[1..] == items[1..] + [item];
      SumAppend(items[1..], item);
    }
  }

  lemma {:induction false} SumConcat(a: seq<CartItem>, b: seq<CartItem>)
    ensures SumPrices(a + b) == SumPrices(a) + SumPrices(b)
  {
    if a != [] {
      assert (a + b)[1..] == a[1..] + b;
      SumConcat(a[1..], b);
    } else {
      assert a + b == b;
    }
  }

  /** Taking item `i` out of the list takes exactly its price off the sum. */
  lemma SumWithout(items: seq<CartItem>, i: int)
    requires 0 <= i < |items|
    ensures SumPrices(items[..i] + items[i + 1..]) == SumPrices(items) - items[i].price
  {
    assert items == items[..i] + ([items[i]] + items[i + 1..]);
    SumConcat(items[..i], [items[i]] + items[i + 1..]);
    SumConcat(items[..i], items[i + 1..]);
    assert ([items[i]] + items[i + 1..])[1..] == items[i + 1..];
  }

  /** `addToCart` keeps the total equal to the sum and the ids distinct. */
  lemma AddValid(s: CartState, item: CartItem)
    requires Valid(s)
    ensures Valid(Add(s, item))
  {
    if !HasId(s.items, item.id) {
      SumAppend(s.items, item);
    }
  }

  /** `removeFromCart` keeps the total equal to the sum and the ids distinct,
      and when the ids are distinct no copy of the removed id survives. */
  lemma RemoveValid(s: CartState, id: string)
    requires Valid(s)
    ensures Valid(Remove(s, id))
    ensures !HasId(Remove(s, id).items, id)
  {
    var i := FindIndex(s.items, id);
    if i != -1 {
      SumWithout(s.items, i);
      var r := s.items[..i] + s.items[i + 1..];
      assert forall j :: 0 <= j < |r| ==> r[j] == (if j < i then s.items[j] else s.items[j + 1]);
    }
  }

  lemma ReduceValid(s: CartState, e: Event)
    requires Valid(s)
    ensures Valid(Reduce(s, e))
  {
    match e
    case AddToCart(item) => AddValid(s, item);
    case RemoveFromCart(id) => RemoveValid(s, id);
    case ClearCart =>
  }

  /** From the initial state, after any sequence of adds, removes and clears,
      `total` is the sum of the listed prices and no id is listed twice. */
  lemma {:induction false} TotalIsSumAfterAnyEvents(es: seq<Event>)
    ensures Valid(ReduceAll(Init, es))
  {
    ReduceAllValid(Init, es);
  }

  lemma {:induction false} ReduceAllValid(s: CartState, es: seq<Event>)
    requires Valid(s)
    ensures Valid(ReduceAll(s, es))
    decreases |es|
  {
    if es != [] {
      ReduceValid(s, es[0]);
      ReduceAllValid(Reduce(s, es[0]), es[1..]);
    }
  }

  /** Adding the same item twice is the same as adding it once. */
  lemma AddIdempotent(s: CartState, item: CartItem)
    ensures Add(Add(s, item), item) == Add(s, item)
  {
  }

  /** Removing an item just added (to a cart that did not list it) restores
      the cart exactly. */
  lemma AddThenRemove(s: CartState, item: CartItem)
    requires !HasId(s.items, item.id)
    ensures Remove(Add(s, item), item.id) == s
  {
    var a := Add(s, item);
    var i := FindIndex(a.items, item.id);
    assert i == |s.items| by {
      forall j | 0 <= j < |s.items|
        ensures a.items[j].id != item.id
      {
        assert a.items[j] == s.items[j];
      }
    }
    assert a.items[..i] + a.items[i + 1..] == s.items;
  }

  /** Under `Valid`, removing a listed id takes exactly that item out, drops
      the count by one and keeps the other items in their relative order. */
  lemma RemovePresent(s: CartState, id: string)
    requires Valid(s) && HasId(s.items, id)
    ensures var r := Remove(s, id);
      |r.items| == |s.items| - 1 &&
      (forall it :: it in r.items <==> it in s.items && it.id != id)
  {
    var i := FindIndex(s.items, id);
    var r := s.items[..i] + s.items[i + 1..];
    forall it
      ensures it in r <==> it in s.items && it.id != id
    {
      if it in s.items && it.id != id {
        var j :| 0 <= j < |s.items| && s.items[j] == it;
        assert j != i;
        if j < i {
          assert r[j] == it;
        } else {
          assert r[j - 1] == it;
        }
      }
      if it in r {
        var j :| 0 <= j < |r| && r[j] == it;
        if j < i {
          assert s.items[j] == it;
        } else {
          assert s.items[j + 1] == it;
        }
      }
    }
  }

  /** The item count shown in the navigation bar grows by one exactly when an
      added item is new. */
  lemma CountAfterAdd(s: CartState, item: CartItem)
    ensures ItemsCount(Add(s, item)) == ItemsCount(s) + (if HasId(s.items, item.id) then 0 else 1)
  {
  }
}
