/**
 * The visitor's cart as `shopping-cart.js` keeps it: an array of line items
 * stored as JSON text under `swarnimCart` in the durable tier. Each operation
 * reads the stored array, changes it and writes it back.
 */
module ShoppingCart {
  import opened Js
  import opened JsonText
  import opened Storage
  import opened Items

  const Placeholder := "https://via.placeholder.com/150"

  /** `getCart()`: the stored value, `[]` when there is none or it does not
      parse. A stored non-array (such as `null`) is returned as it is. */
  function Load(local: map<string, string>): (c: Json)
    ensures KeyCart !in local ==> c == Arr([])
    ensures KeyCart in local && Parse(local[KeyCart]).None? ==> c == Arr([])
  {
    if KeyCart in local && local[KeyCart] != "" then
      match Parse(local[KeyCart])
      case None => Arr([])
      case Some(v) => v
    else Arr([])
  }

  /** A saved cart loads back as its trip through JSON text. */
  lemma LoadSaved(local: map<string, string>, items: seq<Json>)
    ensures Load(local[KeyCart := Stored(Arr(items))]) == Normal(Arr(items))
  {
    ReadStored(local, KeyCart, Arr(items));
  }

  // =============================================================== addItem

  /** `v <= 0` */
  predicate AtMostZero(v: Json)
  {
    ToNumber(v).Num? && ToNumber(v).n <= 0
  }

  /** The checks `addItem` makes before it reads the cart: the product with
      its name defaulted to "Product", or None where it returns false. */
  function Checked(product: Json): (p: Option<Json>)
    ensures p.None? <==> !Truthy(Get(product, "id")) || !Truthy(Get(product, "price")) || AtMostZero(Get(product, "price"))
    ensures p.Some? ==>
      Get(p.value, "id") == Get(product, "id") && Get(p.value, "price") == Get(product, "price") &&
      Truthy(Get(p.value, "name"))
  {
    if !Truthy(Get(product, "id")) then None
    else
      var named := Named(product);
      if !Truthy(Get(named, "price")) || AtMostZero(Get(named, "price")) then None
      else Some(named)
  }

  /** `if (!product.name) product.name = 'Product'` */
  function Named(product: Json): (p: Json)
    requires product.Obj?
    ensures Truthy(Get(p, "name"))
    ensures !Truthy(Get(product, "name")) ==> Get(p, "name") == Str("Product")
    ensures Truthy(Get(product, "name")) ==> p == product
    ensures Get(p, "id") == Get(product, "id") && Get(p, "price") == Get(product, "price")
  {
    if Truthy(Get(product, "name")) then product
    else
      PutThenGet(product, "name", Str("Product"));
      PutKeepsOthers(product, "name", Str("Product"), "id");
      PutKeepsOthers(product, "name", Str("Product"), "price");
      Put(product, "name", Str("Product"))
  }

  /** `parseInt(v)` as a value: the leading integer, or NaN. */
  function IntOrNaN(v: Json): (r: Json)
    ensures r.Num? <==> ParseInt(v).Some?
    ensures r.Num? ==> r.n == ParseInt(v).value
    ensures !r.Num? ==> r == NaN
  {
    match ParseInt(v)
    case Some(n) => Num(n)
    case None => NaN
  }

  /** `parseFloat(v)` on the integers of this model, where it agrees with
      `parseInt`. */
  function ParseFloat(v: Json): (r: Json)
    ensures r.Num? || r.NaN?
  {
    IntOrNaN(v)
  }

  /** The line `addItem` appends for a product not yet in the cart: its id
      as a string, quantity 1. */
  function NewItem(p: Json, now: string): Json
  {
    Line(ToStr(Get(p, "id")), Trim(ToStr(Get(p, "name"))), ParseFloat(Get(p, "price")),
      Or(Get(p, "image"), Str(Placeholder)), now)
  }

  /** A cart line with quantity 1. */
  function Line(id: string, name: string, price: Json, image: Json, now: string): Json
  {
    Obj([
      Field("id", Str(id)),
      Field("name", Str(name)),
      Field("price", price),
      Field("image", image),
      Field("quantity", Num(1)),
      Field("addedAt", Str(now))])
  }

  lemma LineFields(id: string, name: string, price: Json, image: Json, now: string)
    ensures Get(Line(id, name, price, image, now), "id") == Str(id)
    ensures Get(Line(id, name, price, image, now), "quantity") == Num(1)
  {
    var fs := Line(id, name, price, image, now).fields;
    LastIndexIs(fs, "id", 0);
    LastIndexIs(fs, "quantity", 4);
  }

  lemma NewItemFields(p: Json, now: string)
    ensures Get(NewItem(p, now), "id") == Str(ToStr(Get(p, "id")))
    ensures Get(NewItem(p, now), "quantity") == Num(1)
  {
    LineFields(ToStr(Get(p, "id")), Trim(ToStr(Get(p, "name"))), ParseFloat(Get(p, "price")),
      Or(Get(p, "image"), Str(Placeholder)), now);
  }

  /** `item.quantity = (item.quantity || 1) + 1` */
  function Bumped(item: Json): Json
  {
    Put(item, "quantity", Add(Or(Get(item, "quantity"), Num(1)), Num(1)))
  }

  /** The cart after adding a checked product: the first line whose id is
      `===` to the product's id gets one more, otherwise a new line is
      appended; every other line stays as it was. */
  function AddedItems(items: seq<Json>, p: Json, now: string): (r: Outcome<seq<Json>>)
    ensures r.Threw? <==> FindIndex(items, SameId(Get(p, "id"))).Threw?
    ensures FindIndex(items, SameId(Get(p, "id"))) == Returned(-1) ==>
      r == Returned(items + [NewItem(p, now)])
    ensures FindIndex(items, SameId(Get(p, "id"))).Returned? && FindIndex(items, SameId(Get(p, "id"))).value >= 0 ==>
      var i := FindIndex(items, SameId(Get(p, "id"))).value;
      0 <= i < |items| && StrictEq(Get(items[i], "id"), Get(p, "id")) && r.value == items[i := Bumped(items[i])]
  {
    match FindIndex(items, SameId(Get(p, "id")))
    case Threw => Threw
    case Returned(i) =>
      if i > -1 then Returned(items[i := Bumped(items[i])])
      else Returned(items + [NewItem(p, now)])
  }

  // ============================================================== getCount

  /** `parseInt(item.quantity) || 1` */
  function QtyOf(item: Json): int
  {
    match ParseInt(Get(item, "quantity"))
    case Some(n) => if n != 0 then n else 1
    case None => 1
  }

  /** The sum the count adds up. */
  function Sum(items: seq<Json>): int
  {
    if items == [] then 0 else Sum(items[..|items| - 1]) + QtyOf(items[|items| - 1])
  }

  /** `cart.reduce((t, item) => t + (parseInt(item.quantity) || 1), 0)`:
      throws at an unreadable line. */
  function Count(items: seq<Json>): (n: Outcome<int>)
    ensures n.Returned? <==> Readable(items)
    ensures n.Returned? ==> n.value == Sum(items)
  {
    if Readable(items) then Returned(Sum(items)) else Threw
  }

  /** `getCount()`: a stored non-array has no `reduce` and throws. */
  function CartCount(local: map<string, string>): (n: Outcome<int>)
    ensures n.Returned? <==> Load(local).Arr? && Readable(Load(local).items)
    ensures n.Returned? ==> n.value == Sum(Load(local).items)
  {
    var cart := Load(local);
    if cart.Arr? then Count(cart.items) else Threw
  }

  /** A quantity the count reads as written: absent or a positive number. */
  predicate Counted(x: Json)
  {
    var q := Get(x, "quantity");
    q.Undefined? || (q.Num? && q.n >= 1)
  }

  /** `parseInt(q) || 1`: a zero quantity and one `parseInt` cannot read
      (NaN) both count as one. */
  lemma FalsyCountsOne(x: Json)
    requires Get(x, "quantity") == Num(0) || ParseInt(Get(x, "quantity")).None?
    ensures QtyOf(x) == 1
  {
    if Get(x, "quantity") == Num(0) {
      ParseIntOfNum(0);
    }
  }

  lemma QtyOfCounted(x: Json)
    requires Counted(x)
    ensures Get(x, "quantity").Num? ==> QtyOf(x) == Get(x, "quantity").n
    ensures Get(x, "quantity").Undefined? ==> QtyOf(x) == 1
  {
    if Get(x, "quantity").Num? {
      ParseIntOfNum(Get(x, "quantity").n);
    } else {
      assert ToStr(Undefined) == "undefined";
      assert TrimStart("undefined") == "undefined";
      assert DigitPrefix("undefined") == [];
    }
  }

  lemma {:induction false} SumAppend(items: seq<Json>, x: Json)
    ensures Sum(items + [x]) == Sum(items) + QtyOf(x)
  {
    assert (items + [x])[..|items|] == items;
  }

  lemma {:induction false} SumUpdate(items: seq<Json>, i: nat, y: Json)
    requires i < |items|
    ensures Sum(items[i := y]) == Sum(items) - QtyOf(items[i]) + QtyOf(y)
    decreases |items|
  {
    var n := |items|;
    if i == n - 1 {
      SumUpdateLast(items, y);
    } else {
      SumUpdate(items[..n - 1], i, y);
      SumUpdateBefore(items, i, y);
    }
  }

  lemma SumUpdateLast(items: seq<Json>, y: Json)
    requires items != []
    ensures var n := |items|; Sum(items[n - 1 := y]) == Sum(items) - QtyOf(items[n - 1]) + QtyOf(y)
  {
    var n := |items|;
    var s := items[n - 1 := y];
    SumLast(s);
    SumLast(items);
    assert s[..n - 1] == items[..n - 1];
  }

  lemma SumUpdateBefore(items: seq<Json>, i: nat, y: Json)
    requires i + 1 < |items|
    requires var front := items[..|items| - 1];
      Sum(front[i := y]) == Sum(front) - QtyOf(front[i]) + QtyOf(y)
    ensures Sum(items[i := y]) == Sum(items) - QtyOf(items[i]) + QtyOf(y)
  {
    var n := |items|;
    var front := items[..n - 1];
    UpdateBeforeLast(items, i, y);
    assert front[i] == items[i];
    SumOfParts(items[i := y], front[i := y], items[n - 1]);
    SumOfParts(items, front, items[n - 1]);
  }

  lemma SumOfParts(s: seq<Json>, front: seq<Json>, last: Json)
    requires s != [] && s[..|s| - 1] == front && s[|s| - 1] == last
    ensures Sum(s) == Sum(front) + QtyOf(last)
  {
  }

  lemma UpdateBeforeLast<T>(s: seq<T>, i: nat, y: T)
    requires i + 1 < |s|
    ensures s[i := y][..|s| - 1] == s[..|s| - 1][i := y]
    ensures s[i := y][|s| - 1] == s[|s| - 1]
  {
  }

  lemma SumLast(s: seq<Json>)
    requires s != []
    ensures Sum(s) == Sum(s[..|s| - 1]) + QtyOf(s[|s| - 1])
  {
  }

  /** Adding a product raises the count by exactly one when every quantity
      is absent or positive. */
  lemma AddCountsOne(items: seq<Json>, p: Json, now: string)
    requires Readable(items) && forall j :: 0 <= j < |items| ==> Counted(items[j])
    requires Truthy(Get(p, "id"))
    ensures AddedItems(items, p, now).Returned?
    ensures Sum(AddedItems(items, p, now).value) == Sum(items) + 1
  {
    var i := FindIndex(items, SameId(Get(p, "id"))).value;
    if i > -1 {
      BumpCountsOne(items, p, now, i);
    } else {
      NewItemCountsOne(p, now);
      SumAppend(items, NewItem(p, now));
      assert AddedItems(items, p, now).value == items + [NewItem(p, now)];
    }
  }

  lemma BumpCountsOne(items: seq<Json>, p: Json, now: string, i: int)
    requires 0 <= i < |items| && Counted(items[i]) && Truthy(Get(p, "id"))
    requires FindIndex(items, SameId(Get(p, "id"))) == Returned(i)
    ensures AddedItems(items, p, now) == Returned(items[i := Bumped(items[i])])
    ensures Sum(AddedItems(items, p, now).value) == Sum(items) + 1
  {
    var x := items[i];
    assert x.Obj?;
    BumpedCountsOne(x);
    SumUpdate(items, i, Bumped(x));
  }

  lemma BumpedCountsOne(x: Json)
    requires x.Obj? && Counted(x)
    ensures QtyOf(Bumped(x)) == QtyOf(x) + 1
  {
    QtyOfCounted(x);
    var k := if Get(x, "quantity").Num? then Get(x, "quantity").n else 1;
    assert Or(Get(x, "quantity"), Num(1)) == Num(k);
    PutThenGet(x, "quantity", Add(Num(k), Num(1)));
    ParseIntOfNum(k + 1);
  }

  lemma NewItemCountsOne(p: Json, now: string)
    ensures QtyOf(NewItem(p, now)) == 1
  {
    NewItemFields(p, now);
    ParseIntOfNum(1);
  }

  /** The quirk of `addItem`: a new line stores the id as a string, and the
      search compares with `===`, so a product with a numeric id never finds
      its own line and is appended again. */
  lemma NumericIdAddsAgain(items: seq<Json>, p: Json, now: string)
    requires Readable(items) && forall j :: 0 <= j < |items| ==> Get(items[j], "id").Str?
    requires Get(p, "id").Num?
    ensures AddedItems(items, p, now) == Returned(items + [NewItem(p, now)])
  {
    assert forall j :: 0 <= j < |items| ==> !SameId(Get(p, "id"))(items[j]);
  }

  /** With a string id the second add finds the first line and raises it
      to two. */
  lemma StringIdAddsOnce(p: Json, now: string)
    requires Get(p, "id").Str?
    ensures AddedItems([NewItem(p, now)], p, now) == Returned([Bumped(NewItem(p, now))])
    ensures Get(Bumped(NewItem(p, now)), "quantity") == Num(2)
  {
    NewItemFields(p, now);
    AddsOnce(NewItem(p, now), p, now);
  }

  lemma AddsOnce(x: Json, p: Json, now: string)
    requires x.Obj? && StrictEq(Get(x, "id"), Get(p, "id")) && Get(x, "quantity") == Num(1)
    ensures AddedItems([x], p, now) == Returned([Bumped(x)])
    ensures Get(Bumped(x), "quantity") == Num(2)
  {
    FoundFirst(x, Get(p, "id"));
    assert AddedItems([x], p, now) == Returned([x][0 := Bumped(x)]);
    assert [x][0 := Bumped(x)] == [Bumped(x)];
    PutThenGet(x, "quantity", Add(Num(1), Num(1)));
  }

  lemma FoundFirst(x: Json, id: Json)
    requires x.Obj? && StrictEq(Get(x, "id"), id)
    ensures FindIndex([x], SameId(id)) == Returned(0)
  {
    assert SameId(id)(x);
  }

  // ======================================================= removeItem, update

  /** `cart.filter(item => item.id !== key)` */
  function Kept(items: seq<Json>, key: string): (r: seq<Json>)
    ensures |r| <= |items|
  {
    if items == [] then []
    else (if SameId(Str(key))(items[0]) then [] else [items[0]]) + Kept(items[1..], key)
  }

  /** The filter keeps exactly the lines whose id is not the key, and no
      line with that id is left. */
  lemma {:induction false} KeptMembers(items: seq<Json>, key: string, x: Json)
    ensures x in Kept(items, key) <==> x in items && !SameId(Str(key))(x)
  {
    if items != [] {
      KeptMembers(items[1..], key, x);
      assert items == [items[0]] + items[1..];
    }
  }

  /** The filter works line by line: it keeps the order of the lines and
      each line's multiplicity. */
  lemma {:induction false} KeptAppend(a: seq<Json>, b: seq<Json>, key: string)
    ensures Kept(a + b, key) == Kept(a, key) + Kept(b, key)
  {
    if a == [] {
      assert a + b == b;
    } else {
      var x, rest := a[0], a[1..];
      assert a == [x] + rest;
      assert a + b == [x] + (rest + b);
      KeptAppend(rest, b, key);
      KeptCons(x, rest + b, key);
      KeptCons(x, rest, key);
      var h := if SameId(Str(key))(x) then [] else [x];
      assert Kept(a + b, key) == h + (Kept(rest, key) + Kept(b, key));
      Associative(h, Kept(rest, key), Kept(b, key));
    }
  }

  lemma KeptCons(x: Json, rest: seq<Json>, key: string)
    ensures Kept([x] + rest, key) == (if SameId(Str(key))(x) then [] else [x]) + Kept(rest, key)
  {
    assert ([x] + rest)[1..] == rest;
  }

  /** A cart without a line for the key is kept as it is. */
  lemma {:induction false} KeptNoMatch(items: seq<Json>, key: string)
    requires forall j :: 0 <= j < |items| ==> !SameId(Str(key))(items[j])
    ensures Kept(items, key) == items
  {
    if items != [] {
      KeptNoMatch(items[1..], key);
      assert items == [items[0]] + items[1..];
    }
  }

  /** After the filter no line with the key is left to find. */
  lemma RemovedIsGone(items: seq<Json>, key: string)
    requires Readable(items)
    ensures FindIndex(Kept(items, key), SameId(Str(key))) == Returned(-1)
  {
    var k := Kept(items, key);
    forall j | 0 <= j < |k|
      ensures !Unreadable(k[j]) && !SameId(Str(key))(k[j])
    {
      KeptMembers(items, key, k[j]);
    }
  }

  /** `removeItem`'s filter throws at an unreadable line. */
  function Removing(items: seq<Json>, key: string): (r: Outcome<seq<Json>>)
    ensures r.Returned? <==> Readable(items)
  {
    if Readable(items) then Returned(Kept(items, key)) else Threw
  }

  /** The cart after `updateQuantity`: None when no line has the id (nothing
      is saved); a quantity at most zero removes the first such line, any
      other sets its quantity to `parseInt(quantity)`. */
  function Requantified(items: seq<Json>, key: string, quantity: Json): (r: Outcome<Option<seq<Json>>>)
    ensures r.Threw? <==> FindIndex(items, SameId(Str(key))).Threw?
    ensures r == Returned(None) <==> FindIndex(items, SameId(Str(key))) == Returned(-1)
    ensures r.Returned? && r.value.Some? ==>
      var i := FindIndex(items, SameId(Str(key))).value;
      0 <= i < |items| &&
      (AtMostZero(quantity) ==> Sheet.Removed(items, r.value.value, i)) &&
      (!AtMostZero(quantity) ==> r.value.value == items[i := Put(items[i], "quantity", IntOrNaN(quantity))])
  {
    match FindIndex(items, SameId(Str(key)))
    case Threw => Threw
    case Returned(i) =>
      if i == -1 then Returned(None) else Returned(Some(SetLine(items, i, quantity)))
  }

  /** Line `i` spliced out for a quantity at most zero, otherwise given the
      new quantity. */
  function SetLine(items: seq<Json>, i: int, quantity: Json): (r: seq<Json>)
    requires 0 <= i < |items|
    ensures AtMostZero(quantity) ==> Sheet.Removed(items, r, i)
    ensures !AtMostZero(quantity) ==> r == items[i := Put(items[i], "quantity", IntOrNaN(quantity))]
  {
    if AtMostZero(quantity) then items[..i] + items[i + 1..]
    else items[i := Put(items[i], "quantity", IntOrNaN(quantity))]
  }

  /** Setting a positive quantity changes the count by the difference. */
  lemma SetQuantityCount(items: seq<Json>, key: string, n: int)
    requires n >= 1
    requires Requantified(items, key, Num(n)).Returned? && Requantified(items, key, Num(n)).value.Some?
    ensures var i := FindIndex(items, SameId(Str(key))).value;
      Sum(Requantified(items, key, Num(n)).value.value) == Sum(items) - QtyOf(items[i]) + n
  {
    var i := FindIndex(items, SameId(Str(key))).value;
    var x := items[i];
    assert x.Obj?;
    PutThenGet(x, "quantity", IntOrNaN(Num(n)));
    ParseIntOfNum(n);
    SumUpdate(items, i, Put(x, "quantity", Num(n)));
  }

  // =============================================================== methods

  /** `saveCart(cart)`: the text is stored first; the badge update that
      follows inside the same `try` counts the stored cart, so a cart that
      cannot be counted (not an array, or a null line) gives false. */
  method SaveCart(b: Browser, cart: Json) returns (ok: bool)
    modifies b
    ensures b.local == old(b.local)[KeyCart := Stored(cart)] && b.session == old(b.session)
    ensures ok <==> CartCount(b.local).Returned?
  {
    b.LsSet(KeyCart, cart);
    ok := CartCount(b.local).Returned?;
  }

  /** A stored null and a stored `[null]` are written, yet cannot be counted,
      so `saveCart` reports false for them. */
  lemma UncountableSaves(local: map<string, string>)
    ensures CartCount(local[KeyCart := Stored(Null)]).Threw?
    ensures CartCount(local[KeyCart := Stored(Arr([Null]))]).Threw?
  {
    SavedNullThrows(local);
    SavedNullLineThrows(local);
  }

  lemma SavedNullThrows(local: map<string, string>)
    ensures CartCount(local[KeyCart := Stored(Null)]).Threw?
  {
    ReadStored(local, KeyCart, Null);
  }

  lemma SavedNullLineThrows(local: map<string, string>)
    ensures CartCount(local[KeyCart := Stored(Arr([Null]))]).Threw?
  {
    LoadSaved(local, [Null]);
    assert Normal(Arr([Null])) == Arr([Null]);
    assert Unreadable(Null);
  }

  /** `addItem(product)`: false for an invalid product, true once the cart
      is saved. */
  method AddItem(b: Browser, product: Json, now: string) returns (r: Outcome<bool>)
    modifies b
    ensures Checked(product).None? ==> r == Returned(false) && b.local == old(b.local) && b.session == old(b.session)
    ensures Checked(product).Some? && !Load(old(b.local)).Arr? ==>
      r == Threw && b.local == old(b.local) && b.session == old(b.session)
    ensures Checked(product).Some? && Load(old(b.local)).Arr? ==>
      var added := AddedItems(Load(old(b.local)).items, Checked(product).value, now);
      (added.Threw? ==> r == Threw && b.local == old(b.local)) &&
      (added.Returned? ==> r == Returned(true) && b.local == old(b.local)[KeyCart := Stored(Arr(added.value))]) &&
      b.session == old(b.session)
  {
    var checked := Checked(product);
    if checked.None? {
      return Returned(false);
    }
    var p := checked.value;
    var cart := Load(b.local);
    if !cart.Arr? {
      return Threw;
    }
    var items := cart.items;
    var found := Find(items, SameId(Get(p, "id")));
    if found.Threw? {
      return Threw;
    }
    if found.value > -1 {
      items := items[found.value := Bumped(items[found.value])];
    } else {
      items := items + [NewItem(p, now)];
    }
    var _ := SaveCart(b, Arr(items));
    r := Returned(true);
  }

  /** `removeItem(productId)`: always true once saved. */
  method RemoveItem(b: Browser, productId: Json) returns (r: Outcome<bool>)
    modifies b
    ensures var cart := Load(old(b.local));
      (cart.Arr? && Readable(cart.items) ==>
         r == Returned(true) && b.local == old(b.local)[KeyCart := Stored(Arr(Kept(cart.items, ToStr(productId))))]) &&
      (!(cart.Arr? && Readable(cart.items)) ==> r == Threw && b.local == old(b.local))
    ensures b.session == old(b.session)
  {
    var cart := Load(b.local);
    if !cart.Arr? {
      return Threw;
    }
    var kept := Removing(cart.items, ToStr(productId));
    if kept.Threw? {
      return Threw;
    }
    var _ := SaveCart(b, Arr(kept.value));
    r := Returned(true);
  }

  /** `updateQuantity(productId, quantity)`: false, with nothing saved, when
      no line has the id. */
  method UpdateQuantity(b: Browser, productId: Json, quantity: Json) returns (r: Outcome<bool>)
    modifies b
    ensures var cart := Load(old(b.local));
      (!cart.Arr? ==> r == Threw && b.local == old(b.local)) &&
      (cart.Arr? ==>
        var u := Requantified(cart.items, ToStr(productId), quantity);
        (u.Threw? ==> r == Threw && b.local == old(b.local)) &&
        (u == Returned(None) ==> r == Returned(false) && b.local == old(b.local)) &&
        (u.Returned? && u.value.Some? ==>
           r == Returned(true) && b.local == old(b.local)[KeyCart := Stored(Arr(u.value.value))]))
    ensures b.session == old(b.session)
  {
    var cart := Load(b.local);
    if !cart.Arr? {
      return Threw;
    }
    var u := Requantify(cart.items, ToStr(productId), quantity);
    if u.Threw? {
      return Threw;
    }
    if u.value.None? {
      return Returned(false);
    }
    var _ := SaveCart(b, Arr(u.value.value));
    r := Returned(true);
  }

  /** The search and the splice or quantity change on the list itself. */
  method Requantify(items: seq<Json>, key: string, quantity: Json) returns (u: Outcome<Option<seq<Json>>>)
    ensures u == Requantified(items, key, quantity)
  {
    var found := Find(items, SameId(Str(key)));
    if found.Threw? {
      return Threw;
    }
    var i := found.value;
    if i == -1 {
      return Returned(None);
    }
    u := Returned(Some(SetLine(items, i, quantity)));
  }

  /** `clear()`: removes the key, so the cart reads as empty. */
  method Clear(b: Browser)
    modifies b
    ensures b.local == old(b.local) - {KeyCart} && b.session == old(b.session)
    ensures Load(b.local) == Arr([]) && CartCount(b.local) == Returned(0)
  {
    b.local := b.local - {KeyCart};
  }
}
