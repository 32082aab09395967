/**
 * Lists of items as the browser code keeps them (cart lines, wishlist
 * entries): arrays of JavaScript values searched with `findIndex` by a
 * callback that reads `x.id`. Reading a property of null or undefined
 * throws, so a search can end in an exception.
 */
module Items {
  import opened Js
  import opened Sheet

  /** How a piece of browser code ends: with a value, or by throwing. */
  datatype Outcome<T> = Returned(value: T) | Threw

  /** Reading a property of this value throws. */
  predicate Unreadable(x: Json)
  {
    x.Null? || x.Undefined?
  }

  /** No element of the list throws when a property is read. */
  predicate Readable(items: seq<Json>)
  {
    forall j :: 0 <= j < |items| ==> !Unreadable(items[j])
  }

  /** `x => x.id === id` */
  function SameId(id: Json): Json -> bool
  {
    (x: Json) => StrictEq(Get(x, "id"), id)
  }

  /** `x => String(x.id) === key` */
  function KeyIs(key: string): Json -> bool
  {
    (x: Json) => ToStr(Get(x, "id")) == key
  }

  /** Where `findIndex` stops: at an element the callback throws on or
      accepts. */
  function StopsAt(test: Json -> bool): Json -> bool
  {
    (x: Json) => Unreadable(x) || test(x)
  }

  /** `items.findIndex(test)`: the first accepted element, -1 when none is,
      or a throw at the first unreadable element before any accepted one. */
  function FindIndex(items: seq<Json>, test: Json -> bool): (r: Outcome<int>)
    ensures r.Returned? ==> -1 <= r.value < |items|
    ensures r.Returned? && r.value >= 0 ==> test(items[r.value]) && !Unreadable(items[r.value])
    ensures r.Returned? && r.value >= 0 ==> forall j :: 0 <= j < r.value ==> !test(items[j])
    ensures r.Returned? && r.value >= 0 ==> forall j :: 0 <= j < r.value ==> !Unreadable(items[j])
    ensures r.Threw? <==>
      exists k :: 0 <= k < |items| && Unreadable(items[k]) && forall j :: 0 <= j < k ==> !test(items[j])
    ensures r == Returned(-1) <==> forall j :: 0 <= j < |items| ==> !Unreadable(items[j]) && !test(items[j])
    ensures Readable(items) ==> r.Returned?
  {
    var i := FirstMatch(items, StopsAt(test), 0);
    if i == -1 then Returned(-1)
    else if Unreadable(items[i]) then Threw
    else Returned(i)
  }

  /** The search loop itself. */
  method Find(items: seq<Json>, test: Json -> bool) returns (r: Outcome<int>)
    ensures r == FindIndex(items, test)
  {
    var i := Scan(items, StopsAt(test), 0);
    if i == -1 {
      r := Returned(-1);
    } else if Unreadable(items[i]) {
      r := Threw;
    } else {
      r := Returned(i);
    }
  }

  /** What `for (const x of v)` walks: the elements of an array, the
      characters of a string; any other value is not iterable and throws. */
  function Iterate(v: Json): (r: Outcome<seq<Json>>)
    ensures v.Arr? ==> r == Returned(v.items)
    ensures r.Threw? <==> !(v.Arr? || v.Str?)
  {
    match v
    case Arr(xs) => Returned(xs)
    case Str(s) => Returned(seq(|s|, i requires 0 <= i < |s| => Str([s[i]])))
    case _ => Threw
  }
}
