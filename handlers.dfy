/**
 * What each `doPost` action does to the spreadsheet and what it answers,
 * as functions of (tables, payload). The class in module AppsScript runs
 * the same actions as methods with scans and in-place updates, and is proved
 * to agree with these functions.
 */
module Handlers {
  import opened Js
  import opened JsonText
  import opened Sheet

  /** The result of one request: the object `out` serialises, or an
      exception the handler does not catch (a `.trim()` on a non-string, a
      property read on null, a range with no rows). */
  datatype Reply = Out(body: Json) | Threw

  function Fail(msg: string): (f: Json)
    ensures f.Obj? && |f.fields| == 2 && f.fields[0].value == Bool(false)
  {
    Obj([Field("success", Bool(false)), Field("error", Str(msg))])
  }

  function Ok(fields: seq<Field>): (f: Json)
    ensures f.Obj? && |f.fields| > 0 && f.fields[0].value == Bool(true)
  {
    Obj([Field("success", Bool(true))] + fields)
  }

  /** `a || ''` */
  function OrEmpty(a: Json): Json
  {
    Or(a, Str(""))
  }

  /** `String(cell) === String(key)`: how every ID column is matched. */
  predicate SameKey(cell: Cell, key: Json)
  {
    ToStr(cell) == ToStr(key)
  }

  /** `cell.toString().trim() === name` */
  predicate NamesCategory(cell: Cell, name: string)
  {
    Trim(ToStr(cell)) == name
  }

  /** `cell.toString().toUpperCase().trim() === code` */
  predicate NamesCoupon(cell: Cell, code: string)
  {
    Trim(Upper(ToStr(cell))) == code
  }

  /** `cell.toString().toLowerCase() === email` */
  predicate SameEmail(cell: Cell, email: string)
  {
    Lower(ToStr(cell)) == email
  }

  /** `cell.toString() === hash`: the stored hash is compared exactly. */
  predicate SameHash(cell: Cell, hash: Json)
  {
    StrictEq(Str(ToStr(cell)), hash)
  }

  // The row tests of the scans, one per kind of lookup.

  function ProductKey(id: Json): ProductRow -> bool
  {
    (r: ProductRow) => SameKey(r.id, id)
  }

  function CategoryKey(name: string): CategoryRow -> bool
  {
    (r: CategoryRow) => NamesCategory(r.name, name)
  }

  function BannerKey(id: Json): BannerRow -> bool
  {
    (r: BannerRow) => SameKey(r.id, id)
  }

  function CouponKey(code: string): CouponRow -> bool
  {
    (r: CouponRow) => NamesCoupon(r.code, code)
  }

  function UserKey(userId: Json): UserRow -> bool
  {
    (r: UserRow) => SameKey(r.userId, userId)
  }

  function EmailKey(email: string): UserRow -> bool
  {
    (r: UserRow) => SameEmail(r.email, email)
  }

  function LoginKey(email: string, hash: Json): UserRow -> bool
  {
    (r: UserRow) => SameEmail(r.email, email) && SameHash(r.passwordHash, hash)
  }

  // ================================================================ products

  /** The row `addProduct` appends and `updateProduct` writes. */
  function ProductRowOf(d: Json): ProductRow
  {
    ProductRow(
      ToCell(Get(d, "id")), ToCell(Get(d, "name")), ToCell(Get(d, "description")), ToCell(Get(d, "price")),
      ToCell(OrEmpty(Get(d, "coverImage"))), ToCell(OrEmpty(Get(d, "galleryImages"))),
      ToCell(OrEmpty(Get(d, "category"))), ToCell(OrEmpty(Get(d, "videoURLs"))))
  }

  /** The data row holding product `id`, or -1: the first row after the
      header whose ID reads as `String(id)`. */
  function ProductIndex(rows: seq<ProductRow>, id: Json): (i: int)
    ensures i == -1 || 1 <= i < |rows|
    ensures i == -1 <==> forall j :: 1 <= j < |rows| ==> !SameKey(rows[j].id, id)
    ensures i != -1 ==> SameKey(rows[i].id, id) && forall j :: 1 <= j < i ==> !SameKey(rows[j].id, id)
  {
    FirstMatch(rows, ProductKey(id), 1)
  }

  function AddProduct(t: Tables, d: Json): (r: (Reply, Tables))
    ensures r.0 == Out(Ok([]))
    ensures r.1 == t.(products := t.products + [ProductRowOf(d)])
  {
    (Out(Ok([])), t.(products := t.products + [ProductRowOf(d)]))
  }

  /** Overwrites the eight columns of the matching row and nothing else. */
  function UpdateProduct(t: Tables, d: Json): (r: (Reply, Tables))
    ensures var i := ProductIndex(t.products, Get(d, "id"));
      (i == -1 ==> r == (Out(Fail("Product not found.")), t)) &&
      (i != -1 ==> (r.0 == Out(Ok([])) && r.1 == t.(products := r.1.products) &&
         |r.1.products| == |t.products| && r.1.products[i] == ProductRowOf(d) &&
         (forall j :: 0 <= j < |t.products| && j != i ==> r.1.products[j] == t.products[j])))
  {
    var i := ProductIndex(t.products, Get(d, "id"));
    if i < 0 then (Out(Fail("Product not found.")), t)
    else (Out(Ok([])), t.(products := t.products[i := ProductRowOf(d)]))
  }

  /** Removes the matching row; the rows after it move up one place. */
  function DeleteProduct(t: Tables, d: Json): (r: (Reply, Tables))
    ensures var i := ProductIndex(t.products, Get(d, "id"));
      (i == -1 ==> r == (Out(Fail("Product not found.")), t)) &&
      (i != -1 ==> (r.0 == Out(Ok([])) && r.1 == t.(products := r.1.products) &&
         Removed(t.products, r.1.products, i)))
  {
    var i := ProductIndex(t.products, Get(d, "id"));
    if i < 0 then (Out(Fail("Product not found.")), t)
    else (Out(Ok([])), t.(products := Without(t.products, i)))
  }

  // ====================================================== categories, banners

  /** Appends one row to Categories, creating the tab when it is missing. */
  function AddCategory(t: Tables, d: Json): (r: (Reply, Tables))
    ensures r.0 == Out(Ok([]))
    ensures r.1 == t.(categories := Some(Rows(t.categories) + [CategoryRow(ToCell(Get(d, "category")))]))
  {
    (Out(Ok([])), t.(categories := Some(Rows(t.categories) + [CategoryRow(ToCell(Get(d, "category")))])))
  }

  /** The first row (Categories has no header) whose trimmed text is `name`. */
  function CategoryIndex(rows: seq<CategoryRow>, name: string): (i: int)
    ensures i == -1 || 0 <= i < |rows|
    ensures i == -1 <==> forall j :: 0 <= j < |rows| ==> !NamesCategory(rows[j].name, name)
    ensures i != -1 ==> NamesCategory(rows[i].name, name) && forall j :: 0 <= j < i ==> !NamesCategory(rows[j].name, name)
  {
    FirstMatch(rows, CategoryKey(name), 0)
  }

  /** Reading the range of an empty tab throws, and so does `.trim()` on a
      category that is not a string. */
  function DeleteCategory(t: Tables, d: Json): (r: (Reply, Tables))
    ensures t.categories.None? ==> r == (Out(Fail("Sheet not found.")), t)
    ensures r.0.Threw? <==> t.categories.Some? && (t.categories.value == [] || !OrEmpty(Get(d, "category")).Str?)
    ensures r.0.Threw? ==> r.1 == t
    ensures t.categories.Some? && t.categories.value != [] && OrEmpty(Get(d, "category")).Str? ==>
      var rows := t.categories.value;
      var i := CategoryIndex(rows, Trim(OrEmpty(Get(d, "category")).s));
      (i == -1 ==> r == (Out(Fail("Category not found.")), t)) &&
      (i != -1 ==> (r.0 == Out(Ok([])) && r.1.categories.Some? && r.1 == t.(categories := r.1.categories) &&
         Removed(rows, r.1.categories.value, i)))
  {
    if t.categories.None? then (Out(Fail("Sheet not found.")), t)
    else
      var rows := t.categories.value;
      var name := OrEmpty(Get(d, "category"));
      if rows == [] || !name.Str? then (Threw, t)
      else
        var i := CategoryIndex(rows, Trim(name.s));
        if i < 0 then (Out(Fail("Category not found.")), t)
        else (Out(Ok([])), t.(categories := Some(Without(rows, i))))
  }

  /** The row `addBanner` appends: active unless `d.active` is exactly false. */
  function BannerRowOf(d: Json): BannerRow
  {
    BannerRow(
      ToCell(Get(d, "id")), ToCell(OrEmpty(Get(d, "imageUrl"))),
      Bool(!StrictEq(Get(d, "active"), Bool(false))),
      ToCell(Or(Get(d, "sortOrder"), Num(0))), ToCell(OrEmpty(Get(d, "title"))))
  }

  /** Appends one banner, creating the tab when it is missing; the banner is
      inactive only when `active` is the boolean false. */
  function AddBanner(t: Tables, d: Json): (r: (Reply, Tables))
    ensures r.0 == Out(Ok([]))
    ensures r.1 == t.(banners := Some(Rows(t.banners) + [BannerRowOf(d)]))
    ensures r.1.banners.value[|r.1.banners.value| - 1].active == Bool(Get(d, "active") != Bool(false))
  {
    (Out(Ok([])), t.(banners := Some(Rows(t.banners) + [BannerRowOf(d)])))
  }

  /** The first row (Banners has no header) whose ID reads as `String(id)`. */
  function BannerIndex(rows: seq<BannerRow>, id: Json): (i: int)
    ensures i == -1 || 0 <= i < |rows|
    ensures i == -1 <==> forall j :: 0 <= j < |rows| ==> !SameKey(rows[j].id, id)
    ensures i != -1 ==> SameKey(rows[i].id, id) && forall j :: 0 <= j < i ==> !SameKey(rows[j].id, id)
  {
    FirstMatch(rows, BannerKey(id), 0)
  }

  function DeleteBanner(t: Tables, d: Json): (r: (Reply, Tables))
    ensures t.banners.None? ==> r == (Out(Fail("Sheet not found.")), t)
    ensures r.0.Threw? <==> t.banners == Some([])
    ensures r.0.Threw? ==> r.1 == t
    ensures t.banners.Some? && t.banners.value != [] ==>
      var rows := t.banners.value;
      var i := BannerIndex(rows, Get(d, "id"));
      (i == -1 ==> r == (Out(Fail("Banner not found.")), t)) &&
      (i != -1 ==> (r.0 == Out(Ok([])) && r.1.banners.Some? && r.1 == t.(banners := r.1.banners) &&
         Removed(rows, r.1.banners.value, i)))
  {
    if t.banners.None? then (Out(Fail("Sheet not found.")), t)
    else
      var rows := t.banners.value;
      if rows == [] then (Threw, t)
      else
        var i := BannerIndex(rows, Get(d, "id"));
        if i < 0 then (Out(Fail("Banner not found.")), t)
        else (Out(Ok([])), t.(banners := Some(Without(rows, i))))
  }

  // ================================================================= coupons

  /** `r[2] === true || r[2] === 'TRUE'` */
  predicate IsActive(c: Cell)
  {
    c == Bool(true) || c == Str("TRUE")
  }

  /** The expiry column as text: an empty cell gives "". */
  function ExpiryText(c: Cell): string
  {
    if Truthy(c) then Trim(ToStr(c)) else ""
  }

  predicate DigitsAt(s: string, from: nat, to: nat)
  {
    from <= to <= |s| && forall i :: from <= i < to ==> IsDigit(s[i])
  }

  /** `/^(\d{4})-(\d{2})-(\d{2})$/`: year, month and day as numbers. */
  function DateParts(s: string): (r: Option<(int, int, int)>)
    ensures r.Some? <==>
      |s| == 10 && DigitsAt(s, 0, 4) && s[4] == '-' && DigitsAt(s, 5, 7) && s[7] == '-' && DigitsAt(s, 8, 10)
    ensures r.Some? ==> r.value == (DigitsValue(s[..4]), DigitsValue(s[5..7]), DigitsValue(s[8..]))
  {
    if |s| == 10 && DigitsAt(s, 0, 4) && s[4] == '-' && DigitsAt(s, 5, 7) && s[7] == '-' && DigitsAt(s, 8, 10)
    then Some((DigitsValue(s[..4]), DigitsValue(s[5..7]), DigitsValue(s[8..])))
    else None
  }

  /** `new Date(y, m - 1, d, 23, 59, 59)`: a two-digit year means 19yy. */
  function EndOfDay(y: int, m: int, d: int): (c: Clock)
    ensures c.year == (if 0 <= y <= 99 then 1900 + y else y) && c.month == m && c.day == d
    ensures c.hour == 23 && c.minute == 59 && c.second == 59 && c.milli == 0
  {
    Clock(if 0 <= y <= 99 then 1900 + y else y, m, d, 23, 59, 59, 0)
  }

  /** Whether a coupon with this expiry text is past its end at `now`. */
  predicate Expired(expiry: string, now: Clock)
    ensures DateParts(expiry).None? ==> !Expired(expiry, now)
    ensures Expired(expiry, now) ==> expiry != ""
  {
    expiry != "" && DateParts(expiry).Some? &&
    var (y, m, d) := DateParts(expiry).value;
    Later(now, EndOfDay(y, m, d))
  }

  /** The coupon code a payload carries, upper-cased and trimmed; None when
      `.toUpperCase()` would throw. */
  function CouponCode(d: Json): Option<string>
  {
    var c := OrEmpty(Or(Get(d, "couponCode"), Get(d, "code")));
    if c.Str? then Some(Trim(Upper(c.s))) else None
  }

  /** The success reply for a coupon row. */
  function CouponOffer(row: CouponRow): Json
  {
    Ok([
      Field("discount", ToNumber(row.discount)),
      Field("expiryDate", Str(ExpiryText(row.expiry))),
      Field("minimumAmount", Or(ToNumber(row.minimumAmount), Num(0)))])
  }

  /** The first row (every row is scanned, header included) whose code,
      upper-cased and trimmed, is `code`. */
  function CouponIndex(rows: seq<CouponRow>, code: string): (i: int)
    ensures i == -1 || 0 <= i < |rows|
    ensures i == -1 <==> forall j :: 0 <= j < |rows| ==> !NamesCoupon(rows[j].code, code)
    ensures i != -1 ==> NamesCoupon(rows[i].code, code)
    ensures i != -1 ==> forall j :: 0 <= j < i ==> !NamesCoupon(rows[j].code, code)
  {
    FirstMatch(rows, CouponKey(code), 0)
  }

  /** Whether a reply is a success envelope. */
  predicate Succeeded(r: Reply)
  {
    r.Out? && r.body.Obj? && |r.body.fields| > 0 && r.body.fields[0].value == Bool(true)
  }

  /** The checks after the code is known, in order: a row with that code,
      active, not expired. A coupon is accepted exactly when the first row
      with its code is active and not past the end of its expiry day. */
  function CouponVerdict(rows: seq<CouponRow>, code: string, now: Clock): (r: Json)
    ensures CouponIndex(rows, code) == -1 ==> r == Fail("Invalid coupon code.")
    ensures Succeeded(Out(r)) <==>
      var i := CouponIndex(rows, code);
      i != -1 && IsActive(rows[i].active) && !Expired(ExpiryText(rows[i].expiry), now)
    ensures Succeeded(Out(r)) ==> r == CouponOffer(rows[CouponIndex(rows, code)])
    ensures CouponIndex(rows, code) != -1 && !IsActive(rows[CouponIndex(rows, code)].active) ==>
      r == Fail("This coupon is inactive.")
    ensures (CouponIndex(rows, code) != -1 && IsActive(rows[CouponIndex(rows, code)].active) &&
             Expired(ExpiryText(rows[CouponIndex(rows, code)].expiry), now)) ==>
      r == Fail("This coupon has expired.")
  {
    var i := CouponIndex(rows, code);
    if i < 0 then Fail("Invalid coupon code.")
    else if !IsActive(rows[i].active) then Fail("This coupon is inactive.")
    else if Expired(ExpiryText(rows[i].expiry), now) then Fail("This coupon has expired.")
    else CouponOffer(rows[i])
  }

  /** `validateCoupon`: the tab must exist and a code must be given before
      any row is looked at. */
  function ValidateCoupon(t: Tables, d: Json, now: Clock): (r: Reply)
    ensures t.coupons.None? ==> r == Out(Fail("No coupons available."))
    ensures t.coupons.Some? ==> (r.Threw? <==> CouponCode(d).None?)
    ensures t.coupons.Some? && CouponCode(d) == Some("") ==> r == Out(Fail("Coupon code is required."))
    ensures t.coupons.Some? && CouponCode(d).Some? && CouponCode(d).value != "" ==>
      r == Out(CouponVerdict(t.coupons.value, CouponCode(d).value, now))
  {
    if t.coupons.None? then Out(Fail("No coupons available."))
    else if CouponCode(d).None? then Threw
    else
      var code := CouponCode(d).value;
      if code == "" then Out(Fail("Coupon code is required."))
      else Out(CouponVerdict(t.coupons.value, code, now))
  }

  // =================================================================== users

  /** `_userRow`: the first row after the header whose UserID reads as
      `String(userId)`, or -1. */
  function UserIndex(rows: seq<UserRow>, userId: Json): (i: int)
    ensures i == -1 || 1 <= i < |rows|
    ensures i == -1 <==> forall j :: 1 <= j < |rows| ==> !SameKey(rows[j].userId, userId)
    ensures i != -1 ==> SameKey(rows[i].userId, userId) && forall j :: 1 <= j < i ==> !SameKey(rows[j].userId, userId)
  {
    FirstMatch(rows, UserKey(userId), 1)
  }

  /** `(d.email || '').toLowerCase().trim()`; None when the email is a
      non-string and `.toLowerCase()` throws. */
  function NormalEmail(d: Json): Option<string>
  {
    var e := OrEmpty(Get(d, "email"));
    if e.Str? then Some(Trim(Lower(e.s))) else None
  }

  /** No data row holds `email`, compared case-insensitively on the stored side. */
  predicate EmailFree(rows: seq<UserRow>, email: string)
  {
    forall j :: 1 <= j < |rows| ==> !SameEmail(rows[j].email, email)
  }

  /** Whether the duplicate-email scan finds a row. */
  function EmailTaken(rows: seq<UserRow>, email: string): (b: bool)
    ensures b <==> !EmailFree(rows, email)
  {
    FirstMatch(rows, EmailKey(email), 1) != -1
  }

  /** The row `registerUser` appends. */
  function NewUserRow(d: Json, email: string, name: string, env: Env): (row: UserRow)
    ensures row.userId == Str("U" + env.stamp) && row.name == Str(Trim(name)) && row.email == Str(email)
    ensures row.cart == Str("[]") && row.addresses == Str("[]")
  {
    UserRow(
      Text("U" + env.stamp), Text(Trim(name)), Text(email), ToCell(Get(d, "passwordHash")),
      ToCell(OrEmpty(Get(d, "phone"))), Text(env.isoNow), Text("[]"), Text("[]"))
  }

  /** Registration succeeds exactly when the email, the hash and the name are
      all present and no existing row has the email; it then appends exactly
      one row, with empty cart and address lists. */
  function RegisterUser(t: Tables, d: Json, env: Env): (r: (Reply, Tables))
    ensures NormalEmail(d).None? ==> r == (Threw, t)
    ensures NormalEmail(d).Some? && (NormalEmail(d).value == "" || !Truthy(Get(d, "passwordHash")) || !Truthy(Get(d, "name"))) ==>
      r == (Out(Fail("Missing required fields.")), t)
    ensures Succeeded(r.0) <==>
      NormalEmail(d).Some? && NormalEmail(d).value != "" && Truthy(Get(d, "passwordHash")) &&
      Truthy(Get(d, "name")) && Get(d, "name").Str? && EmailFree(t.users, NormalEmail(d).value)
    ensures (NormalEmail(d).Some? && NormalEmail(d).value != "" && Truthy(Get(d, "passwordHash")) &&
             Truthy(Get(d, "name")) && !EmailFree(t.users, NormalEmail(d).value)) ==>
      r == (Out(Fail("An account with this email already exists.")), t)
    ensures (NormalEmail(d).Some? && NormalEmail(d).value != "" && Truthy(Get(d, "passwordHash")) &&
             Truthy(Get(d, "name")) && EmailFree(t.users, NormalEmail(d).value) && !Get(d, "name").Str?) ==>
      r == (Threw, t)
    ensures !Succeeded(r.0) ==> r.1 == t
    ensures Succeeded(r.0) ==>
      r.0 == Out(Ok([Field("userId", Str("U" + env.stamp))])) &&
      r.1 == t.(users := t.users + [NewUserRow(d, NormalEmail(d).value, Get(d, "name").s, env)])
  {
    if NormalEmail(d).None? then (Threw, t)
    else
      var email := NormalEmail(d).value;
      var name := Get(d, "name");
      if email == "" || !Truthy(Get(d, "passwordHash")) || !Truthy(name) then
        (Out(Fail("Missing required fields.")), t)
      else if EmailTaken(t.users, email) then
        (Out(Fail("An account with this email already exists.")), t)
      else if !name.Str? then (Threw, t)
      else
        (Out(Ok([Field("userId", Str("U" + env.stamp))])), t.(users := t.users + [NewUserRow(d, email, name.s, env)]))
  }

  /** The first data row holding both the email and the hash, or -1. */
  function LoginIndex(rows: seq<UserRow>, email: string, hash: Json): (i: int)
    ensures i == -1 || 1 <= i < |rows|
    ensures i == -1 <==> forall j :: 1 <= j < |rows| ==>
      !(SameEmail(rows[j].email, email) && SameHash(rows[j].passwordHash, hash))
    ensures i != -1 ==> SameEmail(rows[i].email, email) && SameHash(rows[i].passwordHash, hash)
    ensures i != -1 ==> forall j :: 1 <= j < i ==>
      !(SameEmail(rows[j].email, email) && SameHash(rows[j].passwordHash, hash))
  {
    FirstMatch(rows, LoginKey(email, hash), 1)
  }

  /** The user object `loginUser` answers with. */
  function UserInfo(r: UserRow): Json
  {
    Obj([
      Field("userId", Str(ToStr(r.userId))),
      Field("name", Str(ToStr(r.name))),
      Field("email", Str(ToStr(r.email))),
      Field("phone", Str(ToStr(OrEmpty(r.phone))))])
  }

  /** Login succeeds exactly when a data row matches both the email and the
      hash, and answers with the first such row; an empty table and a
      mismatch give the same message. */
  function LoginUser(t: Tables, d: Json): (r: Reply)
    ensures r.Threw? <==> NormalEmail(d).None?
    ensures NormalEmail(d).Some? ==>
      var i := LoginIndex(t.users, NormalEmail(d).value, Get(d, "passwordHash"));
      (i == -1 ==> r == Out(Fail("Incorrect email or password."))) &&
      (i != -1 ==> r == Out(Ok([Field("user", UserInfo(t.users[i]))])))
    ensures |t.users| <= 1 && NormalEmail(d).Some? ==> r == Out(Fail("Incorrect email or password."))
  {
    if NormalEmail(d).None? then Threw
    else
      var i := LoginIndex(t.users, NormalEmail(d).value, Get(d, "passwordHash"));
      if i < 0 then Out(Fail("Incorrect email or password."))
      else Out(Ok([Field("user", UserInfo(t.users[i]))]))
  }

  /** Name and phone after `updateUser`; None when `.trim()` throws. A name
      that is blank after trimming keeps the stored one; a supplied phone is
      always written, trimmed, even when it is empty. */
  function UpdatedProfile(cur: UserRow, d: Json): (r: Option<UserRow>)
    ensures r.None? <==> (Truthy(Get(d, "name")) && !Get(d, "name").Str?) || !(Get(d, "phone").Undefined? || Get(d, "phone").Str?)
    ensures r.Some? ==> r.value == cur.(name := r.value.name, phone := r.value.phone)
    ensures r.Some? ==> r.value.name == (if Get(d, "name").Str? && Trim(Get(d, "name").s) != "" then Str(Trim(Get(d, "name").s)) else cur.name)
    ensures r.Some? ==> r.value.phone == (if Get(d, "phone").Str? then Str(Trim(Get(d, "phone").s)) else cur.phone)
  {
    var name := Get(d, "name");
    var phone := Get(d, "phone");
    if Truthy(name) && !name.Str? then None
    else if !phone.Undefined? && !phone.Str? then None
    else
      var newName := if name.Str? && Trim(name.s) != "" then Text(Trim(name.s)) else cur.name;
      var newPhone := if phone.Str? then Text(Trim(phone.s)) else cur.phone;
      Some(cur.(name := newName, phone := newPhone))
  }

  /** Changes the Name and Phone columns of the user's row and nothing else. */
  function UpdateUser(t: Tables, d: Json): (r: (Reply, Tables))
    ensures UserIndex(t.users, Get(d, "userId")) == -1 ==> r == (Out(Fail("User not found.")), t)
    ensures !Succeeded(r.0) ==> r.1 == t
    ensures Succeeded(r.0) <==>
      UserIndex(t.users, Get(d, "userId")) != -1 && UpdatedProfile(t.users[UserIndex(t.users, Get(d, "userId"))], d).Some?
    ensures Succeeded(r.0) ==>
      var i := UserIndex(t.users, Get(d, "userId"));
      r.1 == t.(users := t.users[i := UpdatedProfile(t.users[i], d).value])
  {
    var i := UserIndex(t.users, Get(d, "userId"));
    if i < 0 then (Out(Fail("User not found.")), t)
    else
      match UpdatedProfile(t.users[i], d)
      case None => (Threw, t)
      case Some(row) => (Out(Ok([])), t.(users := t.users[i := row]))
  }

  /** The hash is replaced only when the stored one equals `currentHash`. */
  function ChangePassword(t: Tables, d: Json): (r: (Reply, Tables))
    ensures UserIndex(t.users, Get(d, "userId")) == -1 ==> r == (Out(Fail("User not found.")), t)
    ensures !Succeeded(r.0) ==> r.1 == t
    ensures Succeeded(r.0) <==>
      UserIndex(t.users, Get(d, "userId")) != -1 &&
      SameHash(t.users[UserIndex(t.users, Get(d, "userId"))].passwordHash, Get(d, "currentHash"))
    ensures UserIndex(t.users, Get(d, "userId")) != -1 && !Succeeded(r.0) ==>
      r.0 == Out(Fail("Current password is incorrect."))
    ensures Succeeded(r.0) ==>
      var i := UserIndex(t.users, Get(d, "userId"));
      r.1 == t.(users := t.users[i := t.users[i].(passwordHash := ToCell(Get(d, "newHash")))])
  {
    var i := UserIndex(t.users, Get(d, "userId"));
    if i < 0 then (Out(Fail("User not found.")), t)
    else if !SameHash(t.users[i].passwordHash, Get(d, "currentHash")) then
      (Out(Fail("Current password is incorrect.")), t)
    else
      (Out(Ok([])), t.(users := t.users[i := t.users[i].(passwordHash := ToCell(Get(d, "newHash")))]))
  }

  // ==================================================== cart and addresses

  /** `JSON.parse(cell || '[]')`, with `[]` when the text does not parse. */
  function ParseCell(c: Cell): (v: Json)
    ensures !Truthy(c) ==> v == Arr([])
    ensures Parse(ToStr(Or(c, Str("[]")))).None? ==> v == Arr([])
  {
    match Parse(ToStr(Or(c, Str("[]"))))
    case None => Arr([])
    case Some(v) => v
  }

  /** Never fails: an unknown user has an empty cart. */
  function GetCart(t: Tables, d: Json): (r: Reply)
    ensures Succeeded(r)
    ensures UserIndex(t.users, Get(d, "userId")) == -1 ==> r == Out(Ok([Field("cart", Arr([]))]))
    ensures UserIndex(t.users, Get(d, "userId")) != -1 ==>
      r == Out(Ok([Field("cart", ParseCell(t.users[UserIndex(t.users, Get(d, "userId"))].cart))]))
  {
    var i := UserIndex(t.users, Get(d, "userId"));
    if i < 0 then Out(Ok([Field("cart", Arr([]))]))
    else Out(Ok([Field("cart", ParseCell(t.users[i].cart))]))
  }

  /** The longest cart text (in UTF-16 code units) `saveCart` accepts. */
  const MaxCartLength := 45000

  /** `JSON.stringify(Array.isArray(d.cart) ? d.cart : [])` */
  function CartText(d: Json): (s: string)
    ensures !Get(d, "cart").Arr? ==> s == "[]"
  {
    var c := Get(d, "cart");
    Encode(if c.Arr? then c else Arr([]))
  }

  /** Writes the Cart column only, and only when the text fits. */
  function SaveCart(t: Tables, d: Json): (r: (Reply, Tables))
    ensures UserIndex(t.users, Get(d, "userId")) == -1 ==> r == (Out(Fail("User not found.")), t)
    ensures !Succeeded(r.0) ==> r.1 == t
    ensures UserIndex(t.users, Get(d, "userId")) != -1 ==>
      (Succeeded(r.0) <==> Utf16Length(CartText(d)) <= MaxCartLength)
    ensures UserIndex(t.users, Get(d, "userId")) != -1 && !Succeeded(r.0) ==>
      r.0 == Out(Fail("Cart is too large. Please remove some items."))
    ensures Succeeded(r.0) ==>
      var i := UserIndex(t.users, Get(d, "userId"));
      r.1 == t.(users := t.users[i := t.users[i].(cart := Str(CartText(d)))])
  {
    var i := UserIndex(t.users, Get(d, "userId"));
    if i < 0 then (Out(Fail("User not found.")), t)
    else
      var json := CartText(d);
      if Utf16Length(json) > MaxCartLength then
        (Out(Fail("Cart is too large. Please remove some items.")), t)
      else (Out(Ok([])), t.(users := t.users[i := t.users[i].(cart := Text(json))]))
  }

  /** `existing.concat([address])`: arrays append one element, strings append
      the address's string form; anything else has no `concat` and throws. */
  function Concat(existing: Json, address: Json): (r: Option<Json>)
    ensures existing.Arr? ==> r == Some(Arr(existing.items + [address]))
    ensures r.None? <==> !(existing.Arr? || existing.Str?)
  {
    match existing
    case Arr(xs) => Some(Arr(xs + [address]))
    case Str(s) => Some(Str(s + ToStr(Arr([address]))))
    case _ => None
  }

  /** Appends one address to the stored list and writes the Addresses column only. */
  function SaveAddress(t: Tables, d: Json): (r: (Reply, Tables))
    ensures UserIndex(t.users, Get(d, "userId")) == -1 ==> r == (Out(Fail("User not found.")), t)
    ensures !Succeeded(r.0) ==> r.1 == t
    ensures Succeeded(r.0) ==>
      var i := UserIndex(t.users, Get(d, "userId"));
      i != -1 && Concat(ParseCell(t.users[i].addresses), Get(d, "address")).Some? &&
      var updated := Concat(ParseCell(t.users[i].addresses), Get(d, "address")).value;
      r.0 == Out(Ok([Field("addresses", updated)])) &&
      r.1 == t.(users := t.users[i := t.users[i].(addresses := Str(Encode(updated)))])
  {
    var i := UserIndex(t.users, Get(d, "userId"));
    if i < 0 then (Out(Fail("User not found.")), t)
    else
      match Concat(ParseCell(t.users[i].addresses), Get(d, "address"))
      case None => (Threw, t)
      case Some(updated) =>
        (Out(Ok([Field("addresses", updated)])),
         t.(users := t.users[i := t.users[i].(addresses := Text(Encode(updated)))]))
  }

  /** Sets the stored list to the given array, or to `[]` when it is not one. */
  function ReplaceAddresses(t: Tables, d: Json): (r: (Reply, Tables))
    ensures UserIndex(t.users, Get(d, "userId")) == -1 ==> r == (Out(Fail("User not found.")), t)
    ensures UserIndex(t.users, Get(d, "userId")) != -1 ==> Succeeded(r.0)
    ensures Succeeded(r.0) ==>
      var i := UserIndex(t.users, Get(d, "userId"));
      var updated := if Get(d, "addresses").Arr? then Get(d, "addresses") else Arr([]);
      r.0 == Out(Ok([Field("addresses", updated)])) &&
      r.1 == t.(users := t.users[i := t.users[i].(addresses := Str(Encode(updated)))])
  {
    var i := UserIndex(t.users, Get(d, "userId"));
    if i < 0 then (Out(Fail("User not found.")), t)
    else
      var given := Get(d, "addresses");
      var updated := if given.Arr? then given else Arr([]);
      (Out(Ok([Field("addresses", updated)])),
       t.(users := t.users[i := t.users[i].(addresses := Text(Encode(updated)))]))
  }

  /** Never fails: an unknown user has no addresses. */
  function GetAddresses(t: Tables, d: Json): (r: Reply)
    ensures Succeeded(r)
    ensures UserIndex(t.users, Get(d, "userId")) == -1 ==> r == Out(Ok([Field("addresses", Arr([]))]))
    ensures UserIndex(t.users, Get(d, "userId")) != -1 ==>
      r == Out(Ok([Field("addresses", ParseCell(t.users[UserIndex(t.users, Get(d, "userId"))].addresses))]))
  {
    var i := UserIndex(t.users, Get(d, "userId"));
    if i < 0 then Out(Ok([Field("addresses", Arr([]))]))
    else Out(Ok([Field("addresses", ParseCell(t.users[i].addresses))]))
  }

  // ================================================================== orders

  /** `(i.name || '') + ' x' + (i.quantity || 1)`; None when the item is null
      and reading its name throws. */
  function OrderLine(item: Json): Option<string>
  {
    if item.Null? || item.Undefined? then None
    else Some(ToStr(OrEmpty(Get(item, "name"))) + " x" + ToStr(Or(Get(item, "quantity"), Num(1))))
  }

  /** The lines of an items array; None when one of the items is null or
      undefined. */
  function OrderLines(items: seq<Json>): (r: Option<seq<string>>)
    ensures r.None? <==> exists k :: 0 <= k < |items| && OrderLine(items[k]).None?
    ensures r.Some? ==> |r.value| == |items| && forall k :: 0 <= k < |items| ==> Some(r.value[k]) == OrderLine(items[k])
  {
    if items == [] then Some([])
    else
      match (OrderLine(items[0]), OrderLines(items[1..]))
      case (Some(line), Some(rest)) =>
        assert forall k :: 1 <= k < |items| ==> items[k] == items[1..][k - 1];
        Some([line] + rest)
      case (None, _) => None
      case (Some(_), None) =>
        var k :| 0 <= k < |items[1..]| && OrderLine(items[1..][k]).None?;
        assert OrderLine(items[k + 1]).None?;
        None
  }

  /** The Items column of a new order: one line per item joined with ", ",
      or the string form of whatever else `items` is. */
  function OrderItemsText(order: Json): (r: Option<string>)
    ensures !Get(order, "items").Arr? ==> r == Some(ToStr(OrEmpty(Get(order, "items"))))
    ensures Get(order, "items").Arr? ==> (r.None? <==> OrderLines(Get(order, "items").items).None?)
    ensures Get(order, "items").Arr? && r.Some? ==> r.value == Join(OrderLines(Get(order, "items").items).value, ", ")
  {
    var items := Get(order, "items");
    if items.Arr? then
      match OrderLines(items.items)
      case None => None
      case Some(lines) => Some(Join(lines, ", "))
    else Some(ToStr(OrEmpty(items)))
  }

  /** The row `saveOrder` appends, given its Items text. */
  function NewOrderRow(d: Json, order: Json, items: string, env: Env): OrderRow
  {
    OrderRow(
      Text("SJ" + env.stamp), Text(ToStr(Or(Get(d, "userId"), Str("GUEST")))), Text(env.orderDate),
      Text(items), ToNumber(Or(Get(order, "total"), Num(0))),
      Text(ToStr(OrEmpty(Get(order, "name")))), Text(ToStr(OrEmpty(Get(order, "phone")))),
      Text(ToStr(OrEmpty(Get(order, "address")))), Text("Pending"))
  }

  /** Appends exactly one order, Pending, owned by `userId` or by GUEST. */
  function SaveOrder(t: Tables, d: Json, env: Env): (r: (Reply, Tables))
    ensures r.0.Threw? <==> OrderItemsText(Or(Get(d, "order"), Obj([]))).None?
    ensures r.0.Threw? ==> r.1 == t
    ensures !r.0.Threw? ==>
      r.0 == Out(Ok([Field("orderId", Str("SJ" + env.stamp))])) && r.1 == t.(orders := r.1.orders) &&
      |r.1.orders| == |t.orders| + 1 && r.1.orders[..|t.orders|] == t.orders &&
      r.1.orders[|t.orders|].orderId == Str("SJ" + env.stamp) &&
      r.1.orders[|t.orders|].status == Str("Pending") &&
      r.1.orders[|t.orders|].userId == Str(if Truthy(Get(d, "userId")) then ToStr(Get(d, "userId")) else "GUEST")
  {
    var order := Or(Get(d, "order"), Obj([]));
    match OrderItemsText(order)
    case None => (Threw, t)
    case Some(items) =>
      var orders := t.orders + [NewOrderRow(d, order, items, env)];
      assert orders[..|t.orders|] == t.orders;
      (Out(Ok([Field("orderId", Str("SJ" + env.stamp))])), t.(orders := orders))
  }

  /** The order object `getOrders` answers with for one row; an empty
      status reads as Pending. */
  function OrderInfo(r: OrderRow): Json
  {
    Obj([
      Field("orderId", Str(ToStr(r.orderId))), Field("date", Str(ToStr(r.date))),
      Field("items", Str(ToStr(r.items))), Field("total", ToNumber(r.total)),
      Field("name", Str(ToStr(r.name))), Field("phone", Str(ToStr(r.phone))),
      Field("address", Str(ToStr(r.address))), Field("status", Str(ToStr(Or(r.status, Str("Pending")))))])
  }

  /** `rows.forEach(r => { if (keep(r)) out.push(view(r)) })` */
  function Pick<T>(rows: seq<T>, keep: T -> bool, view: T -> Json): (r: seq<Json>)
    ensures |r| <= |rows|
  {
    if rows == [] then []
    else (if keep(rows[0]) then [view(rows[0])] else []) + Pick(rows[1..], keep, view)
  }

  /** `String(r[1]) === key` */
  predicate OwnedBy(r: OrderRow, key: string)
  {
    ToStr(r.userId) == key
  }

  function OwnerKey(key: string): OrderRow -> bool
  {
    (r: OrderRow) => OwnedBy(r, key)
  }

  /** The orders of `key`, in table order. */
  function OrdersOf(rows: seq<OrderRow>, key: string): seq<Json>
  {
    Pick(rows, OwnerKey(key), OrderInfo)
  }

  function Reverse<T>(s: seq<T>): (r: seq<T>)
    ensures |r| == |s|
    ensures forall i :: 0 <= i < |s| ==> r[i] == s[|s| - 1 - i]
  {
    if s == [] then [] else Reverse(s[1..]) + [s[0]]
  }

  /** The user's orders, newest (lowest in the sheet) first. */
  function UserOrders(rows: seq<OrderRow>, userId: Json): seq<Json>
  {
    if |rows| < 2 then [] else Reverse(OrdersOf(rows[1..], ToStr(userId)))
  }

  /** Never fails, and changes nothing. */
  function GetOrders(t: Tables, d: Json): (r: Reply)
    ensures Succeeded(r)
    ensures |t.orders| < 2 ==> r == Out(Ok([Field("orders", Arr([]))]))
  {
    Out(Ok([Field("orders", Arr(UserOrders(t.orders, Get(d, "userId"))))]))
  }

  // ================================================================ dispatch

  /** The nineteen actions `doPost` knows, under their wire names. */
  datatype Action =
    | addProduct | updateProduct | deleteProduct | addCategory | deleteCategory
    | addBanner | deleteBanner | validateCoupon | registerUser | loginUser
    | updateUser | changePassword | getCart | saveCart | saveOrder | getOrders
    | saveAddress | replaceAddresses | getAddresses

  function Name(a: Action): string
  {
    match a
    case addProduct => "addProduct"
    case updateProduct => "updateProduct"
    case deleteProduct => "deleteProduct"
    case addCategory => "addCategory"
    case deleteCategory => "deleteCategory"
    case addBanner => "addBanner"
    case deleteBanner => "deleteBanner"
    case validateCoupon => "validateCoupon"
    case registerUser => "registerUser"
    case loginUser => "loginUser"
    case updateUser => "updateUser"
    case changePassword => "changePassword"
    case getCart => "getCart"
    case saveCart => "saveCart"
    case saveOrder => "saveOrder"
    case getOrders => "getOrders"
    case saveAddress => "saveAddress"
    case replaceAddresses => "replaceAddresses"
    case getAddresses => "getAddresses"
  }

  /** The chain of `if (action === '...')` tests: the action a name selects. */
  function Lookup(action: string): (a: Option<Action>)
    ensures a.Some? ==> Name(a.value) == action
  {
    if action == "addProduct" then Some(addProduct)
    else if action == "updateProduct" then Some(updateProduct)
    else if action == "deleteProduct" then Some(deleteProduct)
    else if action == "addCategory" then Some(addCategory)
    else if action == "deleteCategory" then Some(deleteCategory)
    else if action == "addBanner" then Some(addBanner)
    else if action == "deleteBanner" then Some(deleteBanner)
    else if action == "validateCoupon" then Some(validateCoupon)
    else if action == "registerUser" then Some(registerUser)
    else if action == "loginUser" then Some(loginUser)
    else if action == "updateUser" then Some(updateUser)
    else if action == "changePassword" then Some(changePassword)
    else if action == "getCart" then Some(getCart)
    else if action == "saveCart" then Some(saveCart)
    else if action == "saveOrder" then Some(saveOrder)
    else if action == "getOrders" then Some(getOrders)
    else if action == "saveAddress" then Some(saveAddress)
    else if action == "replaceAddresses" then Some(replaceAddresses)
    else if action == "getAddresses" then Some(getAddresses)
    else None
  }

  /** `(data.action || '').toString().trim()` */
  function ActionOf(data: Json): string
  {
    Trim(ToStr(OrEmpty(Get(data, "action"))))
  }

  /** Runs the handler of an action. */
  function Dispatch(t: Tables, a: Action, d: Json, env: Env): (r: (Reply, Tables))
    ensures a in {validateCoupon, loginUser, getCart, getAddresses, getOrders} ==> r.1 == t
  {
    match a
    case addProduct => AddProduct(t, d)
    case updateProduct => UpdateProduct(t, d)
    case deleteProduct => DeleteProduct(t, d)
    case addCategory => AddCategory(t, d)
    case deleteCategory => DeleteCategory(t, d)
    case addBanner => AddBanner(t, d)
    case deleteBanner => DeleteBanner(t, d)
    case validateCoupon => (ValidateCoupon(t, d, env.now), t)
    case registerUser => RegisterUser(t, d, env)
    case loginUser => (LoginUser(t, d), t)
    case updateUser => UpdateUser(t, d)
    case changePassword => ChangePassword(t, d)
    case getCart => (GetCart(t, d), t)
    case saveCart => SaveCart(t, d)
    case saveOrder => SaveOrder(t, d, env)
    case getOrders => (GetOrders(t, d), t)
    case saveAddress => SaveAddress(t, d)
    case replaceAddresses => ReplaceAddresses(t, d)
    case getAddresses => (GetAddresses(t, d), t)
  }

  /** `doPost(e)`: `body` is `e.postData.contents`, None when the request
      has none. A body that is not JSON is refused before any table is
      read; `null` has no `action` and throws. */
  function Post(t: Tables, body: Option<string>, env: Env): (r: (Reply, Tables))
    ensures (body.None? || Parse(body.value).None?) ==> r == (Out(Fail("Invalid request body.")), t)
    ensures body.Some? && Parse(body.value) == Some(Null) ==> r == (Threw, t)
    ensures body.Some? && Parse(body.value).Some? && !Parse(body.value).value.Null? ==>
      var data := Parse(body.value).value;
      Lookup(ActionOf(data)).None? ==> r == (Out(Fail("Unknown action: " + ActionOf(data))), t)
    ensures body.Some? && Parse(body.value).Some? && !Parse(body.value).value.Null? ==>
      var data := Parse(body.value).value;
      Lookup(ActionOf(data)).Some? ==> r == Dispatch(t, Lookup(ActionOf(data)).value, data, env)
  {
    if body.None? then (Out(Fail("Invalid request body.")), t)
    else
      match Parse(body.value)
      case None => (Out(Fail("Invalid request body.")), t)
      case Some(data) =>
        if data.Null? then (Threw, t)
        else
          match Lookup(ActionOf(data))
          case None => (Out(Fail("Unknown action: " + ActionOf(data))), t)
          case Some(a) => Dispatch(t, a, data, env)
  }

  // ================================================================== doGet

  predicate HasProductId(r: ProductRow)
  {
    Truthy(r.id)
  }

  function ProductInfo(r: ProductRow): Json
  {
    Obj([
      Field("id", r.id), Field("name", r.name), Field("description", r.description),
      Field("price", r.price), Field("coverImage", r.coverImage),
      Field("galleryImages", r.galleryImages), Field("category", r.category),
      Field("videoURLs", OrEmpty(r.videoUrls))])
  }

  predicate NonEmptyCategory(r: CategoryRow)
  {
    Truthy(r.name)
  }

  function CategoryName(r: CategoryRow): Json
  {
    Str(Trim(ToStr(r.name)))
  }

  predicate HasBannerId(r: BannerRow)
  {
    Truthy(r.id)
  }

  /** A banner as listed: `active` is true exactly for `true` and "TRUE". */
  function BannerInfo(r: BannerRow): Json
  {
    Obj([
      Field("id", r.id), Field("imageUrl", r.imageUrl), Field("active", Bool(IsActive(r.active))),
      Field("sortOrder", r.sortOrder), Field("title", OrEmpty(r.title))])
  }

  /** A coupon is listed when it has a code and is active; its expiry is not
      looked at. */
  predicate Listed(r: CouponRow)
  {
    Truthy(r.code) && IsActive(r.active)
  }

  function CouponInfo(r: CouponRow): Json
  {
    Obj([
      Field("code", Str(Trim(Upper(ToStr(r.code))))), Field("discount", ToNumber(r.discount)),
      Field("expiryDate", Str(ExpiryText(r.expiry))),
      Field("minimumAmount", Or(ToNumber(r.minimumAmount), Num(0)))])
  }

  /** `doGet()`: the catalogue the storefront loads. Products skip the
      header row; the other tabs are read from their first row. */
  function Catalogue(t: Tables): (r: Json)
    ensures r.Obj? && |r.fields| == 4
    ensures r.fields[0].key == "products" && r.fields[1].key == "categories" &&
      r.fields[2].key == "banners" && r.fields[3].key == "coupons"
    ensures forall k :: 0 <= k < 4 ==> r.fields[k].value.Arr?
    ensures |t.products| <= 1 ==> r.fields[0].value == Arr([])
  {
    var products := if |t.products| > 1 then Pick(t.products[1..], HasProductId, ProductInfo) else [];
    var categories := Pick(Rows(t.categories), NonEmptyCategory, CategoryName);
    var banners := Pick(Rows(t.banners), HasBannerId, BannerInfo);
    var coupons := Pick(Rows(t.coupons), Listed, CouponInfo);
    Obj([Field("products", Arr(products)), Field("categories", Arr(categories)),
      Field("banners", Arr(banners)), Field("coupons", Arr(coupons))])
  }
}
