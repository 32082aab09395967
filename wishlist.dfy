/**
 * The wishlist of `user-system.js`: a list of products kept under
 * `sj_wishlist` in the durable tier, toggled by `String(id)`.
 */
module Wishlist {
  import opened Js
  import opened Storage
  import opened Items
  import opened CartSync

  /** `getWishlist()`: the stored value, or `[]` when there is none. */
  function GetWishlist(local: map<string, string>): (w: Json)
    ensures !Truthy(Read(local, KeyWish)) ==> w == Arr([])
    ensures Truthy(Read(local, KeyWish)) ==> w == Read(local, KeyWish)
  {
    Or(Read(local, KeyWish), Arr([]))
  }

  /** `isWishlisted(id)`: a stored non-array has no `some` and throws, and so
      does an unreadable entry met before a match. */
  function IsWishlisted(local: map<string, string>, id: Json): (r: Outcome<bool>)
    ensures GetWishlist(local).Arr? && Readable(GetWishlist(local).items) ==>
      r == Returned(Has(GetWishlist(local).items, ToStr(id)))
    ensures !GetWishlist(local).Arr? ==> r == Threw
    ensures GetWishlist(local).Arr? ==>
      (r.Threw? <==> FindIndex(GetWishlist(local).items, KeyIs(ToStr(id))).Threw?)
    ensures r.Returned? ==> r.value == (FindIndex(GetWishlist(local).items, KeyIs(ToStr(id))).value > -1)
  {
    var list := GetWishlist(local);
    if !list.Arr? then Threw
    else
      match FindIndex(list.items, KeyIs(ToStr(id)))
      case Threw => Threw
      case Returned(j) => Returned(j > -1)
  }

  /** The list after `toggleWishlist(product)`: the first entry with the
      product's `String(id)` is spliced out, or the product is pushed. The
      callback reads the product's id only when there is an entry to compare
      with. */
  function Toggled(list: seq<Json>, product: Json): (r: Outcome<seq<Json>>)
    ensures list == [] ==> r == Returned([product])
    ensures r.Returned? ==> |r.value| == |list| + 1 || |r.value| + 1 == |list|
    ensures list != [] && Unreadable(product) ==> r == Threw
    ensures list != [] && !Unreadable(product) ==> (r.Threw? <==> FindIndex(list, KeyIs(Key(product))).Threw?)
    ensures r.Returned? && list != [] ==>
      var j := FindIndex(list, KeyIs(Key(product))).value;
      (j > -1 ==> r.value == list[..j] + list[j + 1..]) && (j == -1 ==> r.value == list + [product])
  {
    if list == [] then Returned([product])
    else if Unreadable(product) then Threw
    else
      match FindIndex(list, KeyIs(Key(product)))
      case Threw => Threw
      case Returned(j) =>
        if j > -1 then Returned(list[..j] + list[j + 1..])
        else Returned(list + [product])
  }

  /** Toggling a product that is not in the list, twice, gives back the
      list. */
  lemma ToggleTwiceRestores(list: seq<Json>, product: Json)
    requires Readable(list) && !Unreadable(product) && !Has(list, Key(product))
    ensures Toggled(list, product) == Returned(list + [product])
    ensures Toggled(list + [product], product) == Returned(list)
  {
    var s := list + [product];
    assert FindIndex(s, KeyIs(Key(product))) == Returned(|list|) by {
      assert forall j :: 0 <= j < |list| ==> s[j] == list[j];
      assert KeyIs(Key(product))(s[|list|]);
    }
    assert s[..|list|] + s[|list| + 1..] == list;
  }

  /** With distinct ids, a toggle flips whether the id is listed and keeps
      the ids distinct. */
  lemma ToggleFlips(list: seq<Json>, product: Json)
    requires Readable(list) && !Unreadable(product) && Distinct(list)
    ensures Toggled(list, product).Returned?
    ensures Has(Toggled(list, product).value, Key(product)) <==> !Has(list, Key(product))
    ensures Distinct(Toggled(list, product).value)
  {
    if list == [] {
      assert Key([product][0]) == Key(product);
    } else {
      var j := FindIndex(list, KeyIs(Key(product))).value;
      if j > -1 {
        assert Key(list[j]) == Key(product);
        SpliceDropsKey(list, j);
      } else {
        var r := list + [product];
        assert Key(r[|list|]) == Key(product);
      }
    }
  }

  lemma SpliceDropsKey(list: seq<Json>, j: int)
    requires Distinct(list) && 0 <= j < |list|
    ensures !Has(list[..j] + list[j + 1..], Key(list[j]))
    ensures Distinct(list[..j] + list[j + 1..])
  {
    var r := list[..j] + list[j + 1..];
    assert forall i :: 0 <= i < |r| ==> r[i] == (if i < j then list[i] else list[i + 1]);
  }

  /** `toggleWishlist(product)`: the list is saved and returned. */
  method ToggleWishlist(b: Browser, product: Json) returns (r: Outcome<seq<Json>>)
    modifies b
    ensures var list := GetWishlist(old(b.local));
      (!list.Arr? ==> r == Threw) &&
      (list.Arr? ==> r == Toggled(list.items, product))
    ensures r.Threw? ==> b.local == old(b.local)
    ensures r.Returned? ==> b.local == old(b.local)[KeyWish := Stored(Arr(r.value))]
    ensures b.session == old(b.session)
  {
    var list := GetWishlist(b.local);
    if !list.Arr? {
      return Threw;
    }
    r := Toggle(list.items, product);
    if r.Returned? {
      b.LsSet(KeyWish, Arr(r.value));
    }
  }

  /** The splice or push on the list itself. */
  method Toggle(items: seq<Json>, product: Json) returns (r: Outcome<seq<Json>>)
    ensures r == Toggled(items, product)
  {
    if items == [] {
      return Returned([product]);
    }
    if Unreadable(product) {
      return Threw;
    }
    var found := Find(items, KeyIs(Key(product)));
    if found.Threw? {
      return Threw;
    }
    if found.value > -1 {
      r := Returned(items[..found.value] + items[found.value + 1..]);
    } else {
      r := Returned(items + [product]);
    }
  }
}
