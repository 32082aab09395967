/**
 * The spreadsheet behind the storefront, as the Apps Script sees it: six tabs
 * of rows, each row a fixed set of cells. Row 0 of a tab is its first sheet
 * row (the header in Products, Users and Orders); the handlers that skip the
 * header start their scans at index 1.
 */
module Sheet {
  import opened Js

  /** A cell as a script reads it: text (an empty cell reads as ""), a
      number, a boolean, or NaN. */
  type Cell = v: Json | v.Str? || v.Num? || v.Bool? || v.NaN? witness Str("")

  /** What a cell holds after a script writes `v` into it: null and undefined
      leave it empty, arrays and objects are written as their string form. */
  function ToCell(v: Json): (c: Cell)
    ensures v.Str? || v.Num? || v.Bool? || v.NaN? ==> c == v
    ensures v.Undefined? || v.Null? ==> c == Str("")
    ensures v.Arr? || v.Obj? ==> c == Str(ToStr(v))
  {
    match v
    case Undefined => Str("")
    case Null => Str("")
    case Arr(_) => Str(ToStr(v))
    case Obj(_) => Str(ToStr(v))
    case _ => v
  }

  /** A text cell. */
  function Text(s: string): Cell
  {
    Str(s)
  }

  /** Products   A:ID  B:Name  C:Description  D:Price  E:CoverImage
                 F:GalleryImages  G:Category  H:VideoURLs */
  datatype ProductRow = ProductRow(
    id: Cell, name: Cell, description: Cell, price: Cell,
    coverImage: Cell, galleryImages: Cell, category: Cell, videoUrls: Cell)

  /** Categories A:Name */
  datatype CategoryRow = CategoryRow(name: Cell)

  /** Banners    A:ID  B:ImageUrl  C:Active  D:SortOrder  E:Title */
  datatype BannerRow = BannerRow(id: Cell, imageUrl: Cell, active: Cell, sortOrder: Cell, title: Cell)

  /** Coupons    A:Code  B:DiscountPercent  C:Active  D:ExpiryDate  E:MinimumAmount */
  datatype CouponRow = CouponRow(code: Cell, discount: Cell, active: Cell, expiry: Cell, minimumAmount: Cell)

  /** Users      A:UserID  B:Name  C:Email  D:PasswordHash  E:Phone  F:CreatedAt
                 G:Cart (JSON text)  H:Addresses (JSON text) */
  datatype UserRow = UserRow(
    userId: Cell, name: Cell, email: Cell, passwordHash: Cell,
    phone: Cell, createdAt: Cell, cart: Cell, addresses: Cell)

  /** Orders     A:OrderID  B:UserID  C:Date  D:Items  E:Total  F:Name  G:Phone
                 H:Address  I:Status */
  datatype OrderRow = OrderRow(
    orderId: Cell, userId: Cell, date: Cell, items: Cell, total: Cell,
    name: Cell, phone: Cell, address: Cell, status: Cell)

  /** The whole spreadsheet. Categories, Banners and Coupons may be missing
      (None); Products, Users and Orders are taken to exist. */
  datatype Tables = Tables(
    products: seq<ProductRow>,
    categories: Option<seq<CategoryRow>>,
    banners: Option<seq<BannerRow>>,
    coupons: Option<seq<CouponRow>>,
    users: seq<UserRow>,
    orders: seq<OrderRow>)

  /** The rows of a tab that may be missing; `insertSheet` makes an empty one. */
  function Rows<T>(tab: Option<seq<T>>): seq<T>
  {
    if tab.Some? then tab.value else []
  }

  /** A local date and time, compared field by field. */
  datatype Clock = Clock(year: int, month: int, day: int, hour: int, minute: int, second: int, milli: int)

  /** `a > b` on the two instants. */
  predicate Later(a: Clock, b: Clock)
  {
    if a.year != b.year then a.year > b.year
    else if a.month != b.month then a.month > b.month
    else if a.day != b.day then a.day > b.day
    else if a.hour != b.hour then a.hour > b.hour
    else if a.minute != b.minute then a.minute > b.minute
    else if a.second != b.second then a.second > b.second
    else a.milli > b.milli
  }

  /** What the server takes from its surroundings on one request: the
      suffix that makes a fresh id, `new Date().toISOString()`, the formatted
      order date and the current local time. */
  datatype Env = Env(stamp: string, isoNow: string, orderDate: string, now: Clock)

  /** Index of the first row at or after `from` that satisfies `p`, or -1:
      what a `for` scan that returns at its first hit finds. */
  function FirstMatch<T>(rows: seq<T>, p: T -> bool, from: nat): (i: int)
    ensures i == -1 || (from <= i < |rows| && p(rows[i]))
    ensures i == -1 <==> forall j :: from <= j < |rows| ==> !p(rows[j])
    ensures i != -1 ==> forall j :: from <= j < i ==> !p(rows[j])
    decreases |rows| - from
  {
    if from >= |rows| then -1
    else if p(rows[from]) then from
    else FirstMatch(rows, p, from + 1)
  }

  /** The scan itself. */
  method Scan<T>(rows: seq<T>, p: T -> bool, from: nat) returns (i: int)
    ensures i == FirstMatch(rows, p, from)
  {
    var k := from;
    while k < |rows|
      invariant from <= k
      invariant forall j :: from <= j < k && j < |rows| ==> !p(rows[j])
      decreases |rows| - k
    {
      if p(rows[k]) {
        return k;
      }
      k := k + 1;
    }
    return -1;
  }

  /** `r` is `s` with entry `i` taken out and the rest kept in order. */
  predicate Removed<T(==)>(s: seq<T>, r: seq<T>, i: int)
  {
    0 <= i < |s| && |r| == |s| - 1 &&
    (forall j :: 0 <= j < i ==> r[j] == s[j]) &&
    (forall j :: i <= j < |r| ==> r[j] == s[j + 1])
  }

  /** The sequence with entry `i` removed: `deleteRow`. */
  function Without<T(==)>(s: seq<T>, i: nat): (r: seq<T>)
    requires i < |s|
    ensures Removed(s, r, i)
  {
    s[..i] + s[i + 1..]
  }
}
