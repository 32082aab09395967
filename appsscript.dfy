/**
 * The Apps Script web app as it runs: one object holding the six tabs, whose
 * handlers scan rows with early returns and change the tabs in place
 * (`appendRow`, `setValue`, `deleteRow`). Every handler is proved to leave
 * the tabs and answer exactly as the matching function of module Handlers.
 */
module AppsScript {
  import opened Js
  import opened JsonText
  import opened Sheet
  import H = Handlers
  import ServerLaws

  class Spreadsheet {
    var products: seq<ProductRow>
    var categories: Option<seq<CategoryRow>>
    var banners: Option<seq<BannerRow>>
    var coupons: Option<seq<CouponRow>>
    var users: seq<UserRow>
    var orders: seq<OrderRow>

    /** The tabs as one value. */
    function Snap(): Tables
      reads this
    {
      Tables(products, categories, banners, coupons, users, orders)
    }

    constructor (t: Tables)
      ensures Snap() == t
    {
      products := t.products;
      categories := t.categories;
      banners := t.banners;
      coupons := t.coupons;
      users := t.users;
      orders := t.orders;
    }

    // ============================================================== products

    method AddProduct(d: Json) returns (r: H.Reply)
      modifies this
      ensures (r, Snap()) == H.AddProduct(old(Snap()), d)
    {
      products := products + [H.ProductRowOf(d)];
      r := H.Out(H.Ok([]));
    }

    method UpdateProduct(d: Json) returns (r: H.Reply)
      modifies this
      ensures (r, Snap()) == H.UpdateProduct(old(Snap()), d)
    {
      var i := Scan(products, H.ProductKey(Get(d, "id")), 1);
      if i < 0 {
        return H.Out(H.Fail("Product not found."));
      }
      products := products[i := H.ProductRowOf(d)];
      r := H.Out(H.Ok([]));
    }

    method DeleteProduct(d: Json) returns (r: H.Reply)
      modifies this
      ensures (r, Snap()) == H.DeleteProduct(old(Snap()), d)
    {
      var i := Scan(products, H.ProductKey(Get(d, "id")), 1);
      if i < 0 {
        return H.Out(H.Fail("Product not found."));
      }
      products := products[..i] + products[i + 1..];
      r := H.Out(H.Ok([]));
    }

    // ==================================================== categories, banners

    method AddCategory(d: Json) returns (r: H.Reply)
      modifies this
      ensures (r, Snap()) == H.AddCategory(old(Snap()), d)
    {
      if categories.None? {
        categories := Some([]);
      }
      categories := Some(categories.value + [CategoryRow(ToCell(Get(d, "category")))]);
      r := H.Out(H.Ok([]));
    }

    method DeleteCategory(d: Json) returns (r: H.Reply)
      modifies this
      ensures (r, Snap()) == H.DeleteCategory(old(Snap()), d)
    {
      var rest;
      r, rest := DeleteFromCategories(Snap(), d);
      categories := rest;
    }

    method AddBanner(d: Json) returns (r: H.Reply)
      modifies this
      ensures (r, Snap()) == H.AddBanner(old(Snap()), d)
    {
      if banners.None? {
        banners := Some([]);
      }
      banners := Some(banners.value + [H.BannerRowOf(d)]);
      r := H.Out(H.Ok([]));
    }

    method DeleteBanner(d: Json) returns (r: H.Reply)
      modifies this
      ensures (r, Snap()) == H.DeleteBanner(old(Snap()), d)
    {
      if banners.None? {
        return H.Out(H.Fail("Sheet not found."));
      }
      var rows := banners.value;
      if rows == [] {
        return H.Threw;
      }
      var i := Scan(rows, H.BannerKey(Get(d, "id")), 0);
      if i < 0 {
        return H.Out(H.Fail("Banner not found."));
      }
      banners := Some(rows[..i] + rows[i + 1..]);
      r := H.Out(H.Ok([]));
    }

    /** Reads only: the answer for a coupon code at local time `now`. */
    method ValidateCoupon(d: Json, now: Clock) returns (r: H.Reply)
      ensures r == H.ValidateCoupon(Snap(), d, now)
    {
      if coupons.None? {
        return H.Out(H.Fail("No coupons available."));
      }
      var code := H.CouponCode(d);
      if code.None? {
        return H.Threw;
      }
      if code.value == "" {
        return H.Out(H.Fail("Coupon code is required."));
      }
      var rows := coupons.value;
      var i := Scan(rows, H.CouponKey(code.value), 0);
      if i < 0 {
        return H.Out(H.Fail("Invalid coupon code."));
      }
      if !H.IsActive(rows[i].active) {
        return H.Out(H.Fail("This coupon is inactive."));
      }
      var expiry := H.ExpiryText(rows[i].expiry);
      if H.Expired(expiry, now) {
        return H.Out(H.Fail("This coupon has expired."));
      }
      r := H.Out(H.CouponOffer(rows[i]));
    }

    // ================================================================= users

    /** `_userRow`: index of the user's row, or -1. */
    method FindUser(userId: Json) returns (i: int)
      ensures i == -1 || 1 <= i < |users|
      ensures i == H.UserIndex(users, userId)
    {
      i := Scan(users, H.UserKey(userId), 1);
    }

    /** The login scan: the first data row with both the email and the hash. */
    method FindLogin(email: string, hash: Json) returns (i: int)
      ensures i == -1 || 1 <= i < |users|
      ensures i == H.LoginIndex(users, email, hash)
    {
      i := Scan(users, H.LoginKey(email, hash), 1);
    }

    /** The duplicate-email scan over the data rows. */
    method RegisterUser(d: Json, env: Env) returns (r: H.Reply)
      modifies this
      ensures (r, Snap()) == H.RegisterUser(old(Snap()), d, env)
    {
      var rows;
      r, rows := Register(Snap(), d, env);
      users := rows;
    }

    /** Reads only. */
    method LoginUser(d: Json) returns (r: H.Reply)
      ensures r == H.LoginUser(Snap(), d)
    {
      var e := H.NormalEmail(d);
      if e.None? {
        r := H.Threw;
      } else {
        var i := FindLogin(e.value, Get(d, "passwordHash"));
        if i < 0 {
          r := H.Out(H.Fail("Incorrect email or password."));
        } else {
          r := H.Out(H.Ok([Field("user", H.UserInfo(users[i]))]));
        }
      }
    }

    method UpdateUser(d: Json) returns (r: H.Reply)
      modifies this
      ensures (r, Snap()) == H.UpdateUser(old(Snap()), d)
    {
      var i := FindUser(Get(d, "userId"));
      if i < 0 {
        return H.Out(H.Fail("User not found."));
      }
      var row := Reprofile(users[i], d);
      if row.None? {
        return H.Threw;
      }
      users := users[i := row.value];
      r := H.Out(H.Ok([]));
    }

    method ChangePassword(d: Json) returns (r: H.Reply)
      modifies this
      ensures (r, Snap()) == H.ChangePassword(old(Snap()), d)
    {
      var i := FindUser(Get(d, "userId"));
      if i < 0 {
        return H.Out(H.Fail("User not found."));
      }
      if !H.SameHash(users[i].passwordHash, Get(d, "currentHash")) {
        return H.Out(H.Fail("Current password is incorrect."));
      }
      users := users[i := users[i].(passwordHash := ToCell(Get(d, "newHash")))];
      r := H.Out(H.Ok([]));
    }

    // ==================================================== cart and addresses

    /** Reads only. */
    method GetCart(d: Json) returns (r: H.Reply)
      ensures r == H.GetCart(Snap(), d)
    {
      var i := FindUser(Get(d, "userId"));
      if i < 0 {
        return H.Out(H.Ok([Field("cart", Arr([]))]));
      }
      r := H.Out(H.Ok([Field("cart", H.ParseCell(users[i].cart))]));
    }

    method SaveCart(d: Json) returns (r: H.Reply)
      modifies this
      ensures (r, Snap()) == H.SaveCart(old(Snap()), d)
    {
      var i := FindUser(Get(d, "userId"));
      if i < 0 {
        return H.Out(H.Fail("User not found."));
      }
      var json := H.CartText(d);
      if Utf16Length(json) > H.MaxCartLength {
        return H.Out(H.Fail("Cart is too large. Please remove some items."));
      }
      users := users[i := users[i].(cart := Text(json))];
      r := H.Out(H.Ok([]));
    }

    method SaveAddress(d: Json) returns (r: H.Reply)
      modifies this
      ensures (r, Snap()) == H.SaveAddress(old(Snap()), d)
    {
      var i := FindUser(Get(d, "userId"));
      if i < 0 {
        return H.Out(H.Fail("User not found."));
      }
      var existing := H.ParseCell(users[i].addresses);
      var updated := H.Concat(existing, Get(d, "address"));
      if updated.None? {
        return H.Threw;
      }
      users := users[i := users[i].(addresses := Text(Encode(updated.value)))];
      r := H.Out(H.Ok([Field("addresses", updated.value)]));
    }

    method ReplaceAddresses(d: Json) returns (r: H.Reply)
      modifies this
      ensures (r, Snap()) == H.ReplaceAddresses(old(Snap()), d)
    {
      var i := FindUser(Get(d, "userId"));
      if i < 0 {
        return H.Out(H.Fail("User not found."));
      }
      var given := Get(d, "addresses");
      var updated := if given.Arr? then given else Arr([]);
      users := users[i := users[i].(addresses := Text(Encode(updated)))];
      r := H.Out(H.Ok([Field("addresses", updated)]));
    }

    /** Reads only. */
    method GetAddresses(d: Json) returns (r: H.Reply)
      ensures r == H.GetAddresses(Snap(), d)
    {
      var i := FindUser(Get(d, "userId"));
      if i < 0 {
        return H.Out(H.Ok([Field("addresses", Arr([]))]));
      }
      r := H.Out(H.Ok([Field("addresses", H.ParseCell(users[i].addresses))]));
    }

    // ================================================================ orders

    method SaveOrder(d: Json, env: Env) returns (r: H.Reply)
      modifies this
      ensures (r, Snap()) == H.SaveOrder(old(Snap()), d, env)
    {
      var order := Or(Get(d, "order"), Obj([]));
      var items := H.OrderItemsText(order);
      if items.None? {
        return H.Threw;
      }
      orders := orders + [H.NewOrderRow(d, order, items.value, env)];
      r := H.Out(H.Ok([Field("orderId", Str("SJ" + env.stamp))]));
    }

    /** Reads only: collects the user's orders in sheet order, then reverses
        the list in place so the newest comes first. */
    method GetOrders(d: Json) returns (r: H.Reply)
      ensures r == H.GetOrders(Snap(), d)
    {
      if |orders| < 2 {
        return H.Out(H.Ok([Field("orders", Arr([]))]));
      }
      var key := ToStr(Get(d, "userId"));
      var found := Collect(orders[1..], H.OwnerKey(key), H.OrderInfo);
      var list := new Json[|found|](k requires 0 <= k < |found| => found[k]);
      assert list[..] == found;
      ReverseInPlace(list);
      r := H.Out(H.Ok([Field("orders", Arr(list[..]))]));
    }

    // ============================================================== dispatch

    /** Runs the handler of an action. */
    method Run(a: H.Action, d: Json, env: Env) returns (r: H.Reply)
      modifies this
      ensures (r, Snap()) == H.Dispatch(old(Snap()), a, d, env)
    {
      match a
      case addProduct => r := AddProduct(d);
      case updateProduct => r := UpdateProduct(d);
      case deleteProduct => r := DeleteProduct(d);
      case addCategory => r := AddCategory(d);
      case deleteCategory => r := DeleteCategory(d);
      case addBanner => r := AddBanner(d);
      case deleteBanner => r := DeleteBanner(d);
      case validateCoupon => r := ValidateCoupon(d, env.now);
      case registerUser => r := RegisterUser(d, env);
      case loginUser => r := LoginUser(d);
      case updateUser => r := UpdateUser(d);
      case changePassword => r := ChangePassword(d);
      case getCart => r := GetCart(d);
      case saveCart => r := SaveCart(d);
      case saveOrder => r := SaveOrder(d, env);
      case getOrders => r := GetOrders(d);
      case saveAddress => r := SaveAddress(d);
      case replaceAddresses => r := ReplaceAddresses(d);
      case getAddresses => r := GetAddresses(d);
    }

    /** `doPost(e)`, with `body` the request's contents (None when it has
        none). */
    method DoPost(body: Option<string>, env: Env) returns (r: H.Reply)
      modifies this
      ensures (r, Snap()) == H.Post(old(Snap()), body, env)
    {
      if body.None? {
        return H.Out(H.Fail("Invalid request body."));
      }
      var parsed := Parse(body.value);
      if parsed.None? {
        return H.Out(H.Fail("Invalid request body."));
      }
      var data := parsed.value;
      if data.Null? {
        return H.Threw;
      }
      var action := H.ActionOf(data);
      var a := H.Lookup(action);
      if a.None? {
        return H.Out(H.Fail("Unknown action: " + action));
      }
      r := Run(a.value, data, env);
    }

    /** `doGet()`: reads only. */
    method DoGet() returns (r: Json)
      ensures r == H.Catalogue(Snap())
    {
      var listed: seq<Json> := [];
      if |products| > 1 {
        listed := Collect(products[1..], H.HasProductId, H.ProductInfo);
      }
      var names := Collect(Rows(categories), H.NonEmptyCategory, H.CategoryName);
      var shown := Collect(Rows(banners), H.HasBannerId, H.BannerInfo);
      var offers := Collect(Rows(coupons), H.Listed, H.CouponInfo);
      r := Obj([
        Field("products", Arr(listed)), Field("categories", Arr(names)),
        Field("banners", Arr(shown)), Field("coupons", Arr(offers))]);
    }
  }

  /** The uniqueness loop of `registerUser`. */
  method EmailInUse(users: seq<UserRow>, email: string) returns (b: bool)
    ensures b == H.EmailTaken(users, email)
  {
    var i := Scan(users, H.EmailKey(email), 1);
    b := i != -1;
  }

  /** `registerUser` on the Users rows of `t`: the reply and the new rows. */
  method Register(t: Tables, d: Json, env: Env) returns (r: H.Reply, users: seq<UserRow>)
    ensures (r, t.(users := users)) == H.RegisterUser(t, d, env)
  {
    users := t.users;
    var e := H.NormalEmail(d);
    var name := Get(d, "name");
    if e.None? {
      r := H.Threw;
    } else if e.value == "" || !Truthy(Get(d, "passwordHash")) || !Truthy(name) {
      r := H.Out(H.Fail("Missing required fields."));
    } else {
      var taken := EmailInUse(users, e.value);
      if taken {
        r := H.Out(H.Fail("An account with this email already exists."));
      } else if !name.Str? {
        r := H.Threw;
      } else {
        users := users + [H.NewUserRow(d, e.value, name.s, env)];
        r := H.Out(H.Ok([Field("userId", Str("U" + env.stamp))]));
      }
    }
  }

  /** The new Name and Phone of a user's row; None where `.trim()` throws. */
  method Reprofile(cur: UserRow, d: Json) returns (row: Option<UserRow>)
    ensures row == H.UpdatedProfile(cur, d)
  {
    var name := Get(d, "name");
    var phone := Get(d, "phone");
    if Truthy(name) && !name.Str? {
      return None;
    }
    if !phone.Undefined? && !phone.Str? {
      return None;
    }
    var newName := if name.Str? && Trim(name.s) != "" then Text(Trim(name.s)) else cur.name;
    var newPhone := if phone.Str? then Text(Trim(phone.s)) else cur.phone;
    row := Some(cur.(name := newName, phone := newPhone));
  }

  /** `deleteCategory` on the Categories tab alone: the reply and the tab
      afterwards. */
  method DeleteFromCategories(t: Tables, d: Json) returns (r: H.Reply, categories: Option<seq<CategoryRow>>)
    ensures (r, t.(categories := categories)) == H.DeleteCategory(t, d)
  {
    categories := t.categories;
    if categories.None? {
      return H.Out(H.Fail("Sheet not found.")), categories;
    }
    var rows := categories.value;
    var name := H.OrEmpty(Get(d, "category"));
    if rows == [] || !name.Str? {
      return H.Threw, categories;
    }
    var found, rest := DeleteNamed(rows, Trim(name.s));
    if !found {
      return H.Out(H.Fail("Category not found.")), categories;
    }
    r, categories := H.Out(H.Ok([])), Some(rest);
  }

  /** The Categories scan and `deleteRow`: removes the first row named
      `name`, if there is one. */
  method DeleteNamed(rows: seq<CategoryRow>, name: string) returns (found: bool, rest: seq<CategoryRow>)
    ensures found <==> H.CategoryIndex(rows, name) != -1
    ensures found ==> rest == Without(rows, H.CategoryIndex(rows, name))
  {
    var i := Scan(rows, H.CategoryKey(name), 0);
    assert i == H.CategoryIndex(rows, name);
    found := i != -1;
    rest := rows;
    if found {
      rest := Without(rows, i);
    }
  }

  /** `rows.forEach(r => { if (keep(r)) out.push(view(r)) })` */
  method Collect<T>(rows: seq<T>, keep: T -> bool, view: T -> Json) returns (out: seq<Json>)
    ensures out == H.Pick(rows, keep, view)
  {
    out := [];
    var j := 0;
    while j < |rows|
      invariant 0 <= j <= |rows|
      invariant out == H.Pick(rows[..j], keep, view)
    {
      assert rows[..j + 1] == rows[..j] + [rows[j]];
      ServerLaws.PickSnoc(rows[..j], rows[j], keep, view);
      if keep(rows[j]) {
        out := out + [view(rows[j])];
      }
      j := j + 1;
    }
    assert rows[..j] == rows;
  }

  /** `Array.prototype.reverse`: swaps the ends inward. */
  method ReverseInPlace<T>(a: array<T>)
    modifies a
    ensures a[..] == H.Reverse(old(a[..]))
  {
    var n := a.Length;
    var i := 0;
    while i < n / 2
      invariant 0 <= i <= n / 2
      invariant forall k :: 0 <= k < i ==> a[k] == old(a[n - 1 - k]) && a[n - 1 - k] == old(a[k])
      invariant forall k :: i <= k < n - i ==> a[k] == old(a[k])
    {
      a[i], a[n - 1 - i] := a[n - 1 - i], a[i];
      i := i + 1;
    }
    assert forall k :: 0 <= k < n ==> a[..][k] == H.Reverse(old(a[..]))[k];
  }
}
