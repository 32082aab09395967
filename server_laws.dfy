/**
 * Properties of the `doPost`/`doGet` model that relate several requests, or
 * that hold for every action at once.
 */
module ServerLaws {
  import opened Js
  import opened JsonText
  import opened Sheet
  import opened Handlers

  // ======================================================== generic scans

  /** Two scans whose tests agree row by row find the same row. */
  lemma {:induction false} FirstMatchAgrees<T, U>(a: seq<T>, p: T -> bool, b: seq<U>, q: U -> bool, from: nat)
    requires |a| == |b|
    requires forall j :: from <= j < |a| ==> p(a[j]) == q(b[j])
    ensures FirstMatch(a, p, from) == FirstMatch(b, q, from)
    decreases |a| - from
  {
    if from < |a| && !p(a[from]) {
      FirstMatchAgrees(a, p, b, q, from + 1);
    }
  }

  /** `_userRow` does not look past the UserID column: rewriting other
      columns of any row leaves every lookup where it was. */
  lemma SameUserIds(rows: seq<UserRow>, rows': seq<UserRow>, userId: Json)
    requires |rows| == |rows'|
    requires forall j :: 0 <= j < |rows| ==> rows[j].userId == rows'[j].userId
    ensures UserIndex(rows', userId) == UserIndex(rows, userId)
  {
    FirstMatchAgrees(rows, UserKey(userId), rows', UserKey(userId), 1);
  }

  /** Pushing one more row onto a filtered list. */
  lemma {:induction false} PickSnoc<T>(rows: seq<T>, x: T, keep: T -> bool, view: T -> Json)
    ensures Pick(rows + [x], keep, view) == Pick(rows, keep, view) + (if keep(x) then [view(x)] else [])
  {
    if rows != [] {
      assert (rows + [x])[1..] == rows[1..] + [x];
      PickSnoc(rows[1..], x, keep, view);
    }
  }

  /** A filtered list holds exactly the views of the rows that pass. */
  lemma {:induction false} PickMembers<T>(rows: seq<T>, keep: T -> bool, view: T -> Json, y: Json)
    ensures y in Pick(rows, keep, view) <==> exists j :: 0 <= j < |rows| && keep(rows[j]) && view(rows[j]) == y
  {
    if rows != [] {
      PickMembers(rows[1..], keep, view, y);
      if exists j :: 0 <= j < |rows| && keep(rows[j]) && view(rows[j]) == y {
        var j :| 0 <= j < |rows| && keep(rows[j]) && view(rows[j]) == y;
        if j > 0 {
          assert rows[1..][j - 1] == rows[j];
        }
      }
      if exists j :: 0 <= j < |rows[1..]| && keep(rows[1..][j]) && view(rows[1..][j]) == y {
        var j :| 0 <= j < |rows[1..]| && keep(rows[1..][j]) && view(rows[1..][j]) == y;
        assert rows[j + 1] == rows[1..][j];
      }
    }
  }

  /** When every row is kept, `Pick` lists one view per row, in order. */
  lemma {:induction false} PickAll<T>(rows: seq<T>, keep: T -> bool, view: T -> Json)
    requires forall i :: 0 <= i < |rows| ==> keep(rows[i])
    ensures |Pick(rows, keep, view)| == |rows|
    ensures forall i :: 0 <= i < |rows| ==> Pick(rows, keep, view)[i] == view(rows[i])
  {
    if rows != [] {
      assert keep(rows[0]);
      assert forall i :: 0 <= i < |rows[1..]| ==> keep(rows[1..][i]) by {
        forall i | 0 <= i < |rows[1..]| ensures keep(rows[1..][i]) {
          assert rows[1..][i] == rows[i + 1];
        }
      }
      PickAll(rows[1..], keep, view);
    }
  }

  /** When no row is kept, `Pick` lists nothing. */
  lemma {:induction false} PickNone<T>(rows: seq<T>, keep: T -> bool, view: T -> Json)
    requires forall i :: 0 <= i < |rows| ==> !keep(rows[i])
    ensures Pick(rows, keep, view) == []
  {
    if rows != [] {
      assert !keep(rows[0]);
      assert forall i :: 0 <= i < |rows[1..]| ==> !keep(rows[1..][i]) by {
        forall i | 0 <= i < |rows[1..]| ensures !keep(rows[1..][i]) {
          assert rows[1..][i] == rows[i + 1];
        }
      }
      PickNone(rows[1..], keep, view);
    }
  }

  lemma ReverseSnoc<T>(s: seq<T>, x: T)
    ensures Reverse(s + [x]) == [x] + Reverse(s)
  {
    var l := Reverse(s + [x]);
    var r := [x] + Reverse(s);
    assert |l| == |r|;
    forall i | 0 <= i < |l|
      ensures l[i] == r[i]
    {
      if i > 0 {
        assert r[i] == Reverse(s)[i - 1] == s[|s| - i];
      }
    }
  }

  // ============================================================ dispatch

  /** Every action is reached by its own name. */
  lemma LookupName(a: Action)
    ensures Lookup(Name(a)) == Some(a)
  {
    if CatalogueAction(a) {
      LookupCatalogueName(a);
    } else if AccountAction(a) {
      LookupAccountName(a);
    } else if a.getCart? || a.saveCart? || a.saveOrder? || a.getOrders? {
      LookupOrderName(a);
    } else {
      LookupAddressName(a);
    }
  }

  predicate CatalogueAction(a: Action)
  {
    a.addProduct? || a.updateProduct? || a.deleteProduct? || a.addCategory? ||
    a.deleteCategory? || a.addBanner? || a.deleteBanner?
  }

  predicate AccountAction(a: Action)
  {
    a.validateCoupon? || a.registerUser? || a.loginUser? || a.updateUser? || a.changePassword?
  }

  lemma LookupCatalogueName(a: Action)
    requires CatalogueAction(a)
    ensures Lookup(Name(a)) == Some(a)
  {
    match a
    case addProduct =>
    case updateProduct =>
    case deleteProduct =>
    case addCategory =>
    case deleteCategory =>
    case addBanner =>
    case deleteBanner =>
  }

  lemma LookupAccountName(a: Action)
    requires AccountAction(a)
    ensures Lookup(Name(a)) == Some(a)
  {
    match a
    case validateCoupon =>
    case registerUser =>
    case loginUser =>
    case updateUser =>
    case changePassword =>
  }

  lemma LookupOrderName(a: Action)
    requires a.getCart? || a.saveCart? || a.saveOrder? || a.getOrders?
    ensures Lookup(Name(a)) == Some(a)
  {
    match a
    case getCart =>
    case saveCart =>
    case saveOrder =>
    case getOrders =>
  }

  lemma LookupAddressName(a: Action)
    requires a.saveAddress? || a.replaceAddresses? || a.getAddresses?
    ensures Lookup(Name(a)) == Some(a)
  {
    match a
    case saveAddress =>
    case replaceAddresses =>
    case getAddresses =>
  }

  /** A name is refused as unknown exactly when it is none of the nineteen. */
  lemma UnknownAction(action: string)
    ensures Lookup(action).None? <==> forall a: Action :: Name(a) != action
  {
    if Lookup(action).None? {
      forall a: Action
        ensures Name(a) != action
      {
        LookupName(a);
      }
    }
  }

  /** A request that fails, by an error reply or by throwing, leaves every
      tab as it was: each handler checks everything before it writes. */
  lemma FailuresWriteNothing(t: Tables, a: Action, d: Json, env: Env)
    ensures !Succeeded(Dispatch(t, a, d, env).0) ==> Dispatch(t, a, d, env).1 == t
  {
    match a
    case addProduct =>
    case updateProduct =>
    case deleteProduct =>
    case addCategory =>
    case deleteCategory =>
    case addBanner =>
    case deleteBanner =>
    case validateCoupon =>
    case registerUser =>
    case loginUser =>
    case updateUser =>
    case changePassword =>
    case getCart =>
    case saveCart =>
    case saveOrder =>
    case getOrders =>
    case saveAddress =>
    case replaceAddresses =>
    case getAddresses =>
  }

  /** The same for whole requests, malformed bodies and unknown actions included. */
  lemma FailedPostsWriteNothing(t: Tables, body: Option<string>, env: Env)
    ensures !Succeeded(Post(t, body, env).0) ==> Post(t, body, env).1 == t
  {
    if body.Some? && Parse(body.value).Some? && !Parse(body.value).value.Null? {
      var data := Parse(body.value).value;
      if Lookup(ActionOf(data)).Some? {
        FailuresWriteNothing(t, Lookup(ActionOf(data)).value, data, env);
      }
    }
  }

  // ================================================================= users

  predicate IsLowerText(s: string)
  {
    forall i :: 0 <= i < |s| ==> LowerChar(s[i]) == s[i]
  }

  /** A normalised email is its own lower case, so a row written with it
      matches it again. */
  lemma NormalEmailIsLower(e: string)
    ensures Lower(Trim(Lower(e))) == Trim(Lower(e))
  {
    var x := Lower(e);
    LowerIsLowerText(e);
    var y := TrimStart(x);
    LowerTextSlice(x, |x| - |y|, |x|);
    var z := TrimEnd(y);
    LowerTextSlice(y, 0, |z|);
    LowerTextFixed(z);
  }

  lemma LowerIsLowerText(e: string)
    ensures IsLowerText(Lower(e))
  {
    var x := Lower(e);
    forall i | 0 <= i < |x|
      ensures LowerChar(x[i]) == x[i]
    {
      LowerCharTwice(e[i]);
    }
  }

  lemma LowerCharTwice(c: char)
    ensures LowerChar(LowerChar(c)) == LowerChar(c)
  {
  }

  lemma LowerTextSlice(s: string, i: int, j: int)
    requires IsLowerText(s) && 0 <= i <= j <= |s|
    ensures IsLowerText(s[i..j])
  {
    assert forall k :: 0 <= k < j - i ==> s[i..j][k] == s[i + k];
  }

  lemma LowerTextFixed(s: string)
    requires IsLowerText(s)
    ensures Lower(s) == s
  {
  }

  /** The login payload the client sends after registering. */
  function LoginPayload(email: Json, hash: Json): Json
  {
    Obj([Field("email", email), Field("passwordHash", hash)])
  }

  lemma LoginPayloadFields(email: Json, hash: Json)
    ensures Get(LoginPayload(email, hash), "email") == email
    ensures Get(LoginPayload(email, hash), "passwordHash") == hash
  {
    var fs := LoginPayload(email, hash).fields;
    LastIndexIs(fs, "email", 0);
    LastIndexIs(fs, "passwordHash", 1);
  }

  /** A row appended below rows that do not hold its email is the first
      login match for it. */
  lemma AppendedRowMatchesFirst(rows: seq<UserRow>, row: UserRow, email: string, hash: Json)
    requires |rows| >= 1 && EmailFree(rows, email)
    requires SameEmail(row.email, email) && SameHash(row.passwordHash, hash)
    ensures LoginIndex(rows + [row], email, hash) == |rows|
  {
    var rows' := rows + [row];
    assert rows'[|rows|] == row;
    assert forall j :: 1 <= j < |rows| ==> rows'[j] == rows[j];
  }

  /** After a successful registration, logging in with the same email and
      hash answers with the new account, because no earlier row holds that
      email. The table needs its header row: the login scan starts below it. */
  lemma RegisterThenLogin(t: Tables, d: Json, env: Env)
    requires |t.users| >= 1
    requires Succeeded(RegisterUser(t, d, env).0)
    requires Get(d, "passwordHash").Str?
    ensures var t' := RegisterUser(t, d, env).1;
      var row := NewUserRow(d, NormalEmail(d).value, Get(d, "name").s, env);
      LoginUser(t', LoginPayload(Get(d, "email"), Get(d, "passwordHash"))) == Out(Ok([Field("user", UserInfo(row))]))
  {
    var email := NormalEmail(d).value;
    var hash := Get(d, "passwordHash");
    var q := LoginPayload(Get(d, "email"), hash);
    LoginPayloadFields(Get(d, "email"), hash);
    var row := NewUserRow(d, email, Get(d, "name").s, env);
    NormalEmailIsLower(OrEmpty(Get(d, "email")).s);
    AppendedRowMatchesFirst(t.users, row, email, hash);
  }

  // ========================================================= cart, addresses

  /** A cell written with `JSON.stringify(v)` reads back as `v`, in its
      JSON-normal form. */
  lemma ParseCellOfEncoded(v: Json)
    ensures ParseCell(Str(Encode(v))) == Normal(v)
  {
    RoundTrip(v);
  }

  /** What `saveCart` stored is what `getCart` answers, in its JSON-normal
      form (undefined members dropped, NaN as null). */
  lemma SaveCartThenGetCart(t: Tables, d: Json)
    requires Succeeded(SaveCart(t, d).0)
    ensures var c := Get(d, "cart");
      GetCart(SaveCart(t, d).1, d) == Out(Ok([Field("cart", Normal(if c.Arr? then c else Arr([])))]))
  {
    var t' := SaveCart(t, d).1;
    var i := UserIndex(t.users, Get(d, "userId"));
    SameUserIds(t.users, t'.users, Get(d, "userId"));
    var c := Get(d, "cart");
    ParseCellOfEncoded(if c.Arr? then c else Arr([]));
  }

  /** After `saveAddress` on a stored array, `getAddresses` answers with that
      array and the new address at its end. */
  lemma SaveAddressThenGetAddresses(t: Tables, d: Json)
    requires Succeeded(SaveAddress(t, d).0)
    requires ParseCell(t.users[UserIndex(t.users, Get(d, "userId"))].addresses).Arr?
    ensures var xs := ParseCell(t.users[UserIndex(t.users, Get(d, "userId"))].addresses).items;
      GetAddresses(SaveAddress(t, d).1, d) == Out(Ok([Field("addresses", Normal(Arr(xs + [Get(d, "address")])))]))
  {
    var t' := SaveAddress(t, d).1;
    var i := UserIndex(t.users, Get(d, "userId"));
    SameUserIds(t.users, t'.users, Get(d, "userId"));
    var xs := ParseCell(t.users[i].addresses).items;
    ParseCellOfEncoded(Arr(xs + [Get(d, "address")]));
  }

  /** After `replaceAddresses`, `getAddresses` answers with the given array,
      or with [] when something else was given. */
  lemma ReplaceThenGetAddresses(t: Tables, d: Json)
    requires Succeeded(ReplaceAddresses(t, d).0)
    ensures var given := Get(d, "addresses");
      GetAddresses(ReplaceAddresses(t, d).1, d) == Out(Ok([Field("addresses", Normal(if given.Arr? then given else Arr([])))]))
  {
    var t' := ReplaceAddresses(t, d).1;
    SameUserIds(t.users, t'.users, Get(d, "userId"));
    var given := Get(d, "addresses");
    ParseCellOfEncoded(if given.Arr? then given else Arr([]));
  }

  // ================================================================ orders

  lemma ReverseMembers<T>(s: seq<T>, y: T)
    ensures y in Reverse(s) <==> y in s
  {
    var r := Reverse(s);
    if y in s {
      var k :| 0 <= k < |s| && s[k] == y;
      assert r[|s| - 1 - k] == y;
    }
    if y in r {
      var k :| 0 <= k < |r| && r[k] == y;
      assert s[|s| - 1 - k] == y;
    }
  }

  lemma OrdersOfMembers(data: seq<OrderRow>, key: string, y: Json)
    ensures y in OrdersOf(data, key) <==>
      exists j :: 0 <= j < |data| && OwnedBy(data[j], key) && OrderInfo(data[j]) == y
  {
    PickMembers(data, OwnerKey(key), OrderInfo, y);
  }

  /** `getOrders` lists exactly the data rows of the user. */
  lemma UserOrdersMembers(rows: seq<OrderRow>, userId: Json, y: Json)
    ensures y in UserOrders(rows, userId) <==>
      exists j :: 1 <= j < |rows| && OwnedBy(rows[j], ToStr(userId)) && OrderInfo(rows[j]) == y
  {
    if |rows| >= 2 {
      var key := ToStr(userId);
      var data := rows[1..];
      ReverseMembers(OrdersOf(data, key), y);
      OrdersOfMembers(data, key, y);
      if y in UserOrders(rows, userId) {
        var j :| 0 <= j < |data| && OwnedBy(data[j], key) && OrderInfo(data[j]) == y;
        assert rows[j + 1] == data[j];
      }
      if exists j :: 1 <= j < |rows| && OwnedBy(rows[j], key) && OrderInfo(rows[j]) == y {
        var j :| 1 <= j < |rows| && OwnedBy(rows[j], key) && OrderInfo(rows[j]) == y;
        assert data[j - 1] == rows[j];
      }
    }
  }

  /** A saved order comes first in its owner's list, ahead of every earlier
      order, which keep their newest-first order. */
  lemma SaveOrderThenGetOrders(t: Tables, d: Json, env: Env, q: Json)
    requires |t.orders| >= 1
    requires !SaveOrder(t, d, env).0.Threw?
    requires ToStr(Get(q, "userId")) == if Truthy(Get(d, "userId")) then ToStr(Get(d, "userId")) else "GUEST"
    ensures var t' := SaveOrder(t, d, env).1;
      UserOrders(t'.orders, Get(q, "userId")) == [OrderInfo(t'.orders[|t.orders|])] + UserOrders(t.orders, Get(q, "userId"))
  {
    var t' := SaveOrder(t, d, env).1;
    var row := t'.orders[|t.orders|];
    assert t'.orders == t.orders + [row];
    assert OwnedBy(row, ToStr(Get(q, "userId")));
    AppendedOrderFirst(t.orders, row, Get(q, "userId"));
  }

  /** An order row appended below the header and earlier rows comes first
      in its owner's newest-first list. */
  lemma AppendedOrderFirst(rows: seq<OrderRow>, row: OrderRow, userId: Json)
    requires |rows| >= 1 && OwnedBy(row, ToStr(userId))
    ensures UserOrders(rows + [row], userId) == [OrderInfo(row)] + UserOrders(rows, userId)
  {
    var key := ToStr(userId);
    assert (rows + [row])[1..] == rows[1..] + [row];
    PickSnoc(rows[1..], row, OwnerKey(key), OrderInfo);
    ReverseSnoc(OrdersOf(rows[1..], key), OrderInfo(row));
    if |rows| < 2 {
      assert rows[1..] == [];
    }
  }

  // =============================================================== coupons

  /** An active coupon is still accepted during the last second of its
      expiry day and refused from the next millisecond on. */
  lemma CouponEndOfDay(t: Tables, d: Json, y: int, m: int, day: int)
    requires t.coupons.Some? && CouponCode(d).Some? && CouponCode(d).value != ""
    requires CouponIndex(t.coupons.value, CouponCode(d).value) != -1
    requires var row := t.coupons.value[CouponIndex(t.coupons.value, CouponCode(d).value)];
      IsActive(row.active) && DateParts(ExpiryText(row.expiry)) == Some((y, m, day))
    requires y >= 100
    ensures Succeeded(ValidateCoupon(t, d, Clock(y, m, day, 23, 59, 59, 0)))
    ensures ValidateCoupon(t, d, Clock(y, m, day, 23, 59, 59, 1)) == Out(Fail("This coupon has expired."))
  {
    var rows, code := t.coupons.value, CouponCode(d).value;
    var row := rows[CouponIndex(rows, code)];
    var before, after := Clock(y, m, day, 23, 59, 59, 0), Clock(y, m, day, 23, 59, 59, 1);
    ExpiryBoundary(ExpiryText(row.expiry), y, m, day);
    VerdictActive(rows, code, before);
    VerdictActive(rows, code, after);
  }

  /** The instant `new Date(y, m - 1, d, 23, 59, 59)` is not yet past, and
      one millisecond later it is. */
  lemma ExpiryBoundary(expiry: string, y: int, m: int, day: int)
    requires DateParts(expiry) == Some((y, m, day)) && y >= 100
    ensures !Expired(expiry, Clock(y, m, day, 23, 59, 59, 0))
    ensures Expired(expiry, Clock(y, m, day, 23, 59, 59, 1))
  {
    assert expiry != "";
    assert EndOfDay(y, m, day) == Clock(y, m, day, 23, 59, 59, 0);
  }

  /** For an active coupon the verdict turns on its expiry alone. */
  lemma VerdictActive(rows: seq<CouponRow>, code: string, now: Clock)
    requires CouponIndex(rows, code) != -1 && IsActive(rows[CouponIndex(rows, code)].active)
    ensures var row := rows[CouponIndex(rows, code)];
      CouponVerdict(rows, code, now) ==
        if Expired(ExpiryText(row.expiry), now) then Fail("This coupon has expired.") else CouponOffer(row)
  {
  }

  /** An expiry that is not a `YYYY-MM-DD` date never expires the coupon. */
  lemma UndatedNeverExpires(t: Tables, d: Json, now: Clock)
    requires t.coupons.Some? && CouponCode(d).Some? && CouponCode(d).value != ""
    requires CouponIndex(t.coupons.value, CouponCode(d).value) != -1
    requires var row := t.coupons.value[CouponIndex(t.coupons.value, CouponCode(d).value)];
      IsActive(row.active) && DateParts(ExpiryText(row.expiry)).None?
    ensures Succeeded(ValidateCoupon(t, d, now))
  {
  }

  // ================================================================= doGet

  /** The listed coupons are exactly the views of the rows that have a code
      and are active; the expiry date plays no part. */
  lemma ListedCoupons(t: Tables, y: Json)
    ensures y in Catalogue(t).fields[3].value.items <==>
      exists j :: 0 <= j < |Rows(t.coupons)| && Listed(Rows(t.coupons)[j]) && CouponInfo(Rows(t.coupons)[j]) == y
  {
    PickMembers(Rows(t.coupons), Listed, CouponInfo, y);
  }

  /** Every banner row with an ID is listed, active or not. */
  lemma ListedBanners(t: Tables, y: Json)
    ensures y in Catalogue(t).fields[2].value.items <==>
      exists j :: 0 <= j < |Rows(t.banners)| && HasBannerId(Rows(t.banners)[j]) && BannerInfo(Rows(t.banners)[j]) == y
  {
    PickMembers(Rows(t.banners), HasBannerId, BannerInfo, y);
  }
}
