/**
 * The account flows of `user-system.js`: the browser keeps the session in
 * its two storage tiers and talks to the Apps Script server through `api`,
 * which posts `{ action, ...data }` as JSON text and parses the JSON reply.
 * The server here is the spreadsheet model of module AppsScript.
 */
module UserSystem {
  import opened Js
  import opened JsonText
  import opened Sheet
  import opened Storage
  import opened Items
  import opened CartSync
  import H = Handlers
  import AppsScript
  import ServerLaws

  // ==================================================================== api

  const NetworkError := "Network error. Check your connection."

  /** The body `api(action, data)` posts: `{ action, ...data }`. */
  function Request(action: string, data: seq<Field>): Json
  {
    Obj([Field("action", Str(action))] + data)
  }

  /** What `api` resolves to: the reply parsed back from JSON text, or the
      network-error envelope when the server threw (Apps Script then answers
      with an error page that is not JSON). */
  function Received(r: H.Reply): Json
  {
    match r
    case Threw => H.Fail(NetworkError)
    case Out(body) => Normal(body)
  }

  /** One round trip: the answer the page gets and the tables afterwards. */
  function Call(t: Tables, action: string, data: seq<Field>, env: Env): (Json, Tables)
  {
    var reply := H.Post(t, Some(Encode(Request(action, data))), env);
    (Received(reply.0), reply.1)
  }

  /** `api(action, data)` against the spreadsheet. */
  method Api(server: AppsScript.Spreadsheet, action: string, data: seq<Field>, env: Env) returns (res: Json)
    modifies server
    ensures (res, server.Snap()) == Call(old(server.Snap()), action, data, env)
  {
    var reply := server.DoPost(Some(Encode(Request(action, data))), env);
    res := Received(reply);
  }

  /** No field of the payload is named `action`. */
  predicate Plain(data: seq<Field>)
  {
    forall i :: 0 <= i < |data| ==> data[i].key != "action"
  }

  lemma {:induction false} NormalMembersPlain(fs: seq<Field>)
    requires Plain(fs)
    ensures Plain(NormalMembers(fs))
  {
    if fs != [] {
      NormalMembersPlain(fs[1..]);
    }
  }

  lemma NameIsTrimmed(a: H.Action)
    ensures Trim(H.Name(a)) == H.Name(a)
  {
    TrimOfTrimmed(H.Name(a));
  }

  /** The server reads back the action the request was built with. */
  lemma RequestAction(action: string, data: seq<Field>)
    requires Plain(data)
    ensures Normal(Request(action, data)).Obj?
    ensures H.ActionOf(Normal(Request(action, data))) == Trim(action)
  {
    var fs := RequestMembers(action, data);
    NormalMembersPlain(data);
    FirstActionField(action, NormalMembers(data), fs);
    assert ToStr(H.OrEmpty(Str(action))) == action;
  }

  /** The members of the request after the trip through JSON text. */
  lemma RequestMembers(action: string, data: seq<Field>) returns (fs: seq<Field>)
    ensures Normal(Request(action, data)) == Obj(fs)
    ensures fs == [Field("action", Str(action))] + NormalMembers(data)
  {
    var raw := [Field("action", Str(action))] + data;
    assert raw[1..] == data;
    assert raw[0] == Field("action", Str(action));
    assert Normal(Str(action)) == Str(action);
    fs := NormalMembers(raw);
  }

  lemma FirstActionField(action: string, rest: seq<Field>, fs: seq<Field>)
    requires Plain(rest) && fs == [Field("action", Str(action))] + rest
    ensures Get(Obj(fs), "action") == Str(action)
  {
    assert forall j :: 0 < j < |fs| ==> fs[j] == rest[j - 1];
    LastIndexIs(fs, "action", 0);
  }

  /** A request `api` builds reaches the handler it names, with the payload
      as the server parses it. */
  lemma CallDispatches(t: Tables, a: H.Action, data: seq<Field>, env: Env)
    requires Plain(data)
    ensures var d := Normal(Request(H.Name(a), data));
      var reply := H.Dispatch(t, a, d, env);
      Call(t, H.Name(a), data, env) == (Received(reply.0), reply.1)
  {
    var req := Request(H.Name(a), data);
    RoundTrip(req);
    RequestAction(H.Name(a), data);
    NameIsTrimmed(a);
    ServerLaws.LookupName(a);
    var d := Normal(req);
    assert H.Lookup(H.ActionOf(d)) == Some(a);
    assert H.Post(t, Some(Encode(req)), env) == H.Dispatch(t, a, d, env);
  }

  /** `makeToken(userId)`, with the time and random part passed in. */
  function MakeToken(userId: Json, nonce: string): (r: Json)
    ensures r.Str? && |r.s| > |ToStr(userId)|
    ensures r.s[..|ToStr(userId)|] == ToStr(userId) && r.s[|ToStr(userId)|] == '_'
    ensures r.s[|ToStr(userId)| + 1..] == nonce
  {
    Str(ToStr(userId) + "_" + nonce)
  }

  /** For ids whose text holds no underscore, a token names its owner: two
      equal tokens belong to the same id and carry the same nonce. */
  lemma TokenNamesOwner(a: Json, b: Json, n: string, m: string)
    requires '_' !in ToStr(a) && '_' !in ToStr(b)
    requires MakeToken(a, n) == MakeToken(b, m)
    ensures ToStr(a) == ToStr(b) && n == m
  {
  }

  // ============================================================== register

  /** A character the `[^\s@]` class of the email pattern admits. */
  predicate EmailChar(c: char)
  {
    !IsSpace(c) && c != '@'
  }

  /** The test `/^[^\s@]+@[^\s@]+\.[^\s@]+$/`: one `@` after at least one
      character, and a dot with at least one character on each side after
      it; no white space anywhere. */
  predicate ValidEmail(s: string)
    ensures ValidEmail(s) ==> |s| >= 5 && '@' in s && ' ' !in s && s[0] != '@'
    ensures ValidEmail(s) ==> exists i :: 0 < i < |s| - 3 && s[i] == '@' && '.' in s[i + 2..|s| - 1] && '@' !in s[i + 1..]
  {
    exists i, j :: 0 < i && i + 1 < j && j + 1 < |s| && s[i] == '@' && s[j] == '.' &&
      forall k :: 0 <= k < |s| && k != i ==> EmailChar(s[k])
  }

  /** The pattern on a few addresses: a plain address passes; no dot after
      the `@`, nothing before it, a space, or a dot right after it fails. */
  lemma EmailExamples()
    ensures ValidEmail("a@b.co")
    ensures !ValidEmail("a@bco")
    ensures !ValidEmail("@b.co")
    ensures !ValidEmail("a b@c.d")
    ensures !ValidEmail("a@.cd")
  {
    assert "a@b.co"[1] == '@' && "a@b.co"[3] == '.';
    assert forall k :: 0 <= k < |"a@b.co"| && k != 1 ==> EmailChar("a@b.co"[k]);
  }

  /** The first complaint `register` makes about a form whose fields are
      already trimmed, or None when it goes on to the server. */
  function RegisterError(name: string, email: string, password: string): (e: Option<string>)
    ensures e.None? <==> name != "" && ValidEmail(email) && Utf16Length(password) >= 6
    ensures name == "" ==> e == Some("Full name is required.")
    ensures name != "" && !ValidEmail(email) ==> e == Some("Enter a valid email address.")
    ensures name != "" && ValidEmail(email) && Utf16Length(password) < 6 ==>
      e == Some("Password must be at least 6 characters.")
  {
    if name == "" then Some("Full name is required.")
    else if !ValidEmail(email) then Some("Enter a valid email address.")
    else if Utf16Length(password) < 6 then Some("Password must be at least 6 characters.")
    else None
  }

  /** An email the form accepts is one the server keeps as it is: its
      `toLowerCase().trim()` changes nothing, and it is not empty. */
  lemma AcceptedEmailIsNormal(raw: string)
    requires ValidEmail(Lower(Trim(raw)))
    ensures var e := Lower(Trim(raw));
      e != "" && Trim(Lower(e)) == e
  {
    var e := Lower(Trim(raw));
    EmailEnds(e);
    ServerLaws.LowerIsLowerText(Trim(raw));
    ServerLaws.LowerTextFixed(e);
    TrimOfTrimmed(e);
  }

  /** A valid email is not empty and neither starts nor ends with white
      space. */
  lemma EmailEnds(e: string)
    requires ValidEmail(e)
    ensures e != [] && !IsSpace(e[0]) && !IsSpace(e[|e| - 1])
  {
    var i, j :| 0 < i && i + 1 < j && j + 1 < |e| && e[i] == '@' && e[j] == '.' &&
      forall k :: 0 <= k < |e| && k != i ==> EmailChar(e[k]);
    assert EmailChar(e[0]) && EmailChar(e[|e| - 1]);
  }

  function RegisterData(name: string, email: string, phone: string, passwordHash: string): seq<Field>
  {
    [Field("name", Str(name)), Field("email", Str(email)), Field("phone", Str(phone)),
     Field("passwordHash", Str(passwordHash))]
  }

  /** The user `register` keeps: the server's id and the form's fields. */
  function NewSession(res: Json, name: string, email: string, phone: string): Json
  {
    Obj([Field("userId", Get(res, "userId")), Field("name", Str(name)), Field("email", Str(email)),
         Field("phone", Str(phone))])
  }

  /** `register(form)`: checks the form, asks the server, and on success
      keeps the token and the user in the durable tier. */
  method Register(b: Browser, server: AppsScript.Spreadsheet, name: string, email: string, phone: string,
                  password: string, hash: string -> string, nonce: string, env: Env) returns (res: Json)
    modifies b, server
    ensures var n, e, p := Trim(name), Lower(Trim(email)), Trim(phone);
      var err := RegisterError(n, e, password);
      (err.Some? ==>
        res == H.Fail(err.value) && b.local == old(b.local) && server.Snap() == old(server.Snap())) &&
      (err.None? ==>
        var call := Call(old(server.Snap()), "registerUser", RegisterData(n, e, p, hash(password)), env);
        res == call.0 && server.Snap() == call.1 &&
        (Truthy(Get(res, "success")) ==>
           b.local == old(b.local)[KeyToken := Stored(MakeToken(Get(res, "userId"), nonce))]
                                  [KeyUser := Stored(NewSession(res, n, e, p))]) &&
        (!Truthy(Get(res, "success")) ==> b.local == old(b.local)))
    ensures b.session == old(b.session)
  {
    assert b as object != server as object;
    var n, e, p := Trim(name), Lower(Trim(email)), Trim(phone);
    var err := RegisterError(n, e, password);
    if err.Some? {
      res := H.Fail(err.value);
    } else {
      res := Api(server, "registerUser", RegisterData(n, e, p, hash(password)), env);
      if Truthy(Get(res, "success")) {
        b.LsSet(KeyToken, MakeToken(Get(res, "userId"), nonce));
        b.LsSet(KeyUser, NewSession(res, n, e, p));
      }
    }
  }

  // ============================================================== syncCart

  /** `(res.success && Array.isArray(res.cart)) ? res.cart : []` */
  function ServerCart(res: Json): seq<Json>
  {
    if Truthy(Get(res, "success")) && Get(res, "cart").Arr? then Get(res, "cart").items else []
  }

  /** What `syncCart(userId)` does, as a function of the durable tier and
      the tables: the merge's outcome, the durable tier and the tables
      afterwards. A throw in the merge comes after the `getCart` request and
      before anything is written. */
  function Synced(local: map<string, string>, t: Tables, userId: Json, env: Env): (r: (Outcome<seq<Json>>, map<string, string>, Tables))
    ensures r.0.Threw? ==> r.1 == local
    ensures r.0.Returned? ==> r.1 == local[KeyCart := Stored(Arr(r.0.value))]
  {
    var got := Call(t, "getCart", [Field("userId", userId)], env);
    match Iterate(Or(Read(local, KeyCart), Arr([])))
    case Threw => (Threw, local, got.1)
    case Returned(items) =>
      match MergeAll(ServerCart(got.0), items)
      case Threw => (Threw, local, got.1)
      case Returned(m) =>
        (Returned(m), local[KeyCart := Stored(Arr(m))],
         Call(got.1, "saveCart", [Field("userId", userId), Field("cart", Arr(m))], env).1)
  }

  lemma {:induction false} ThrowStays(server: seq<Json>, items: seq<Json>, k: nat)
    requires k <= |items| && MergeAll(server, items[..k]).Threw?
    ensures MergeAll(server, items).Threw?
    decreases |items| - k
  {
    if k < |items| {
      assert items[..k + 1][..k] == items[..k];
      ThrowStays(server, items, k + 1);
    } else {
      assert items[..k] == items;
    }
  }

  /** One turn of the merge loop: search, then add to the match or push. */
  method Merge1(merged: seq<Json>, item: Json) returns (r: Outcome<seq<Json>>)
    ensures r == MergeStep(merged, item)
  {
    if merged == [] {
      r := Returned([item]);
    } else if Unreadable(item) {
      r := Threw;
    } else {
      var found := Find(merged, KeyIs(Key(item)));
      if found.Threw? {
        r := Threw;
      } else if found.value > -1 {
        r := Returned(merged[found.value := Combined(merged[found.value], item)]);
      } else {
        r := Returned(merged + [item]);
      }
    }
  }

  /** The loop of `syncCart` over the local lines. */
  method MergeLocal(server: seq<Json>, items: seq<Json>) returns (r: Outcome<seq<Json>>)
    ensures r == MergeAll(server, items)
  {
    var merged := server;
    var k := 0;
    while k < |items|
      invariant 0 <= k <= |items|
      invariant MergeAll(server, items[..k]) == Returned(merged)
    {
      var step := Merge1(merged, items[k]);
      assert items[..k + 1][..k] == items[..k];
      if step.Threw? {
        ThrowStays(server, items, k + 1);
        return Threw;
      }
      merged := step.value;
      k := k + 1;
    }
    assert items[..k] == items;
    r := Returned(merged);
  }

  /** `syncCart(userId)` */
  method SyncCart(b: Browser, server: AppsScript.Spreadsheet, userId: Json, env: Env) returns (r: Outcome<seq<Json>>)
    modifies b, server
    ensures (r, b.local, server.Snap()) == Synced(old(b.local), old(server.Snap()), userId, env)
    ensures b.session == old(b.session)
  {
    assert b as object != server as object;
    var walk := Iterate(Or(Read(b.local, KeyCart), Arr([])));
    var res := Api(server, "getCart", [Field("userId", userId)], env);
    if walk.Threw? {
      return Threw;
    }
    r := MergeLocal(ServerCart(res), walk.value);
    if r.Returned? {
      b.LsSet(KeyCart, Arr(r.value));
      var _ := Api(server, "saveCart", [Field("userId", userId), Field("cart", Arr(r.value))], env);
    }
  }

  // ================================================================= login

  function LoginData(email: string, passwordHash: string): seq<Field>
  {
    [Field("email", Str(email)), Field("passwordHash", Str(passwordHash))]
  }

  /** `login(form)`: with `rememberMe` the token and user go to the durable
      tier only, without it to the ephemeral tier only; then the cart is
      merged, and a throw there is ignored. */
  method Login(b: Browser, server: AppsScript.Spreadsheet, email: string, password: string, rememberMe: bool,
               hash: string -> string, nonce: string, env: Env) returns (res: Json)
    modifies b, server
    ensures var e := Lower(Trim(email));
      (e == "" || password == "" ==>
        res == H.Fail("Email and password are required.") &&
        b.local == old(b.local) && b.session == old(b.session) && server.Snap() == old(server.Snap())) &&
      (e != "" && password != "" ==>
        var call := Call(old(server.Snap()), "loginUser", LoginData(e, hash(password)), env);
        res == call.0 &&
        (!Truthy(Get(res, "success")) ==>
          b.local == old(b.local) && b.session == old(b.session) && server.Snap() == call.1) &&
        (Truthy(Get(res, "success")) ==>
          var user := Get(res, "user");
          var token := MakeToken(Get(user, "userId"), nonce);
          var local1 := if rememberMe then old(b.local)[KeyToken := Stored(token)][KeyUser := Stored(user)] else old(b.local);
          var session1 := if rememberMe then old(b.session) else old(b.session)[KeyToken := Stored(token)][KeyUser := Stored(user)];
          var synced := Synced(local1, call.1, Get(user, "userId"), env);
          b.session == session1 && b.local == synced.1 && server.Snap() == synced.2))
  {
    assert b as object != server as object;
    var e := Lower(Trim(email));
    if e == "" || password == "" {
      return H.Fail("Email and password are required.");
    }
    res := Api(server, "loginUser", LoginData(e, hash(password)), env);
    if Truthy(Get(res, "success")) {
      var user := Get(res, "user");
      var token := MakeToken(Get(user, "userId"), nonce);
      if rememberMe {
        b.LsSet(KeyToken, token);
        b.LsSet(KeyUser, user);
      } else {
        b.SsSet(KeyToken, token);
        b.SsSet(KeyUser, user);
      }
      var _ := SyncCart(b, server, Get(user, "userId"), env);
    }
  }

  /** A token and a user written to one tier read back truthy, whatever
      is written under the cart key afterwards. */
  lemma PairReadsBack(m: map<string, string>, token: Json, user: Json, cart: Option<string>)
    requires Truthy(Normal(token)) && Truthy(Normal(user))
    ensures var m1 := m[KeyToken := Stored(token)][KeyUser := Stored(user)];
      var m2 := if cart.Some? then m1[KeyCart := cart.value] else m1;
      Truthy(Read(m2, KeyToken)) && Truthy(Read(m2, KeyUser))
  {
    var m0 := m[KeyToken := Stored(token)];
    var m1 := m0[KeyUser := Stored(user)];
    var m2 := if cart.Some? then m1[KeyCart := cart.value] else m1;
    ReadStored(m, KeyToken, token);
    ReadStored(m0, KeyUser, user);
    assert Read(m1, KeyToken) == Read(m0, KeyToken);
    assert Read(m2, KeyToken) == Read(m1, KeyToken);
    assert Read(m2, KeyUser) == Read(m1, KeyUser);
  }

  /** After a successful login the visitor is logged in, in the tier the
      form chose, whatever the cart merge then writes under the cart key. */
  lemma LoginTier(local: map<string, string>, session: map<string, string>, token: Json, user: Json,
                  rememberMe: bool, merged: Outcome<seq<Json>>)
    requires Truthy(Normal(token)) && Truthy(Normal(user))
    ensures var local1 := if rememberMe then local[KeyToken := Stored(token)][KeyUser := Stored(user)] else local;
      var session1 := if rememberMe then session else session[KeyToken := Stored(token)][KeyUser := Stored(user)];
      var local2 := if merged.Returned? then local1[KeyCart := Stored(Arr(merged.value))] else local1;
      (rememberMe ==> Store(local2, session1) == Some(Durable)) &&
      (!rememberMe && Store(local, session).None? ==> Store(local2, session1) == Some(Ephemeral)) &&
      IsLoggedIn(local2, session1)
  {
    var cart := if merged.Returned? then Some(Stored(Arr(merged.value))) else None;
    if rememberMe {
      PairReadsBack(local, token, user, cart);
    } else {
      PairReadsBack(session, token, user, None);
      var local2 := if merged.Returned? then local[KeyCart := Stored(Arr(merged.value))] else local;
      assert Read(local2, KeyToken) == Read(local, KeyToken) && Read(local2, KeyUser) == Read(local, KeyUser);
    }
    var local1 := if rememberMe then local[KeyToken := Stored(token)][KeyUser := Stored(user)] else local;
    var session1 := if rememberMe then session else session[KeyToken := Stored(token)][KeyUser := Stored(user)];
    var local2 := if merged.Returned? then local1[KeyCart := Stored(Arr(merged.value))] else local1;
    StoreMeansLoggedIn(local2, session1);
  }

  // ======================================================= logout, pushCart

  /** The `saveCart` payload: the user's id and the stored cart, or `[]`. */
  function PushData(local: map<string, string>, user: Json): seq<Field>
  {
    [Field("userId", Get(user, "userId")), Field("cart", Or(Read(local, KeyCart), Arr([])))]
  }

  /** `pushCart()`: sends the stored cart when someone is logged in. */
  method PushCart(b: Browser, server: AppsScript.Spreadsheet, env: Env)
    modifies server
    ensures var user := GetUser(b.local, b.session);
      server.Snap() == if Truthy(user) then Call(old(server.Snap()), "saveCart", PushData(b.local, user), env).1
                       else old(server.Snap())
  {
    assert b as object != server as object;
    var user := GetUser(b.local, b.session);
    if Truthy(user) {
      var _ := Api(server, "saveCart", PushData(b.local, user), env);
    }
  }

  /** `logout()`: pushes the cart first, then drops the token and the user
      from both tiers, so nobody is logged in afterwards. */
  method Logout(b: Browser, server: AppsScript.Spreadsheet, env: Env)
    modifies b, server
    ensures var user := GetUser(old(b.local), old(b.session));
      server.Snap() == if Truthy(user) then Call(old(server.Snap()), "saveCart", PushData(old(b.local), user), env).1
                       else old(server.Snap())
    ensures b.local == old(b.local) - {KeyToken, KeyUser} && b.session == old(b.session) - {KeyToken, KeyUser}
    ensures !IsLoggedIn(b.local, b.session)
  {
    assert b as object != server as object;
    PushCart(b, server, env);
    b.Del(KeyToken);
    b.Del(KeyUser);
    assert b.local == old(b.local) - {KeyToken} - {KeyUser};
    assert b.session == old(b.session) - {KeyToken} - {KeyUser};
  }

  // ======================================================= profile, password

  /** `{ ...user, name, phone }`: an object keeps its other fields. */
  function Spread(user: Json, name: string, phone: string): (u: Json)
    ensures u.Obj?
  {
    if user.Obj? then Put(Put(user, "name", Str(name)), "phone", Str(phone))
    else Obj([Field("name", Str(name)), Field("phone", Str(phone))])
  }

  lemma SpreadFields(user: Json, name: string, phone: string, k: string)
    ensures Get(Spread(user, name, phone), "name") == Str(name)
    ensures Get(Spread(user, name, phone), "phone") == Str(phone)
    ensures user.Obj? && k != "name" && k != "phone" ==> Get(Spread(user, name, phone), k) == Get(user, k)
  {
    if user.Obj? {
      var u1 := Put(user, "name", Str(name));
      PutThenGet(user, "name", Str(name));
      PutKeepsOthers(u1, "phone", Str(phone), "name");
      PutThenGet(u1, "phone", Str(phone));
      if k != "name" && k != "phone" {
        PutKeepsOthers(user, "name", Str(name), k);
        PutKeepsOthers(u1, "phone", Str(phone), k);
      }
    } else {
      var fs := Spread(user, name, phone).fields;
      LastIndexIs(fs, "name", 0);
      LastIndexIs(fs, "phone", 1);
    }
  }

  /** `updateProfile(form)`: on success the user is written back to the
      tier `store()` names, the durable one when it names none. */
  method UpdateProfile(b: Browser, server: AppsScript.Spreadsheet, name: string, phone: string, env: Env)
    returns (res: Json)
    modifies b, server
    ensures var user := GetUser(old(b.local), old(b.session));
      var n, p := Trim(name), Trim(phone);
      (!Truthy(user) ==>
        res == H.Fail("Not logged in.") && b.local == old(b.local) && server.Snap() == old(server.Snap())) &&
      (Truthy(user) && n == "" ==>
        res == H.Fail("Name is required.") && b.local == old(b.local) && server.Snap() == old(server.Snap())) &&
      (Truthy(user) && n != "" ==>
        var call := Call(old(server.Snap()), "updateUser",
                         [Field("userId", Get(user, "userId")), Field("name", Str(n)), Field("phone", Str(p))], env);
        res == call.0 && server.Snap() == call.1 &&
        (!Truthy(Get(res, "success")) ==> b.local == old(b.local) && b.session == old(b.session)) &&
        (Truthy(Get(res, "success")) && Store(old(b.local), old(b.session)) == Some(Ephemeral) ==>
           b.session == old(b.session)[KeyUser := Stored(Spread(user, n, p))] && b.local == old(b.local)) &&
        (Truthy(Get(res, "success")) && Store(old(b.local), old(b.session)) != Some(Ephemeral) ==>
           b.local == old(b.local)[KeyUser := Stored(Spread(user, n, p))] && b.session == old(b.session)))
    ensures !Truthy(GetUser(old(b.local), old(b.session))) || Trim(name) == "" ==> b.session == old(b.session)
  {
    assert b as object != server as object;
    var user := GetUser(b.local, b.session);
    if !Truthy(user) {
      return H.Fail("Not logged in.");
    }
    var n, p := Trim(name), Trim(phone);
    if n == "" {
      return H.Fail("Name is required.");
    }
    res := Api(server, "updateUser",
               [Field("userId", Get(user, "userId")), Field("name", Str(n)), Field("phone", Str(p))], env);
    if Truthy(Get(res, "success")) {
      if Store(b.local, b.session) == Some(Ephemeral) {
        b.SsSet(KeyUser, Spread(user, n, p));
      } else {
        b.LsSet(KeyUser, Spread(user, n, p));
      }
    }
  }

  /** The page reads the updated user back, unless the durable tier holds a
      stale user beside an ephemeral session: `getUser` prefers it. */
  lemma ProfileReadBack(local: map<string, string>, session: map<string, string>, u: Json)
    requires u.Obj?
    ensures Store(local, session) != Some(Ephemeral) ==>
      GetUser(local[KeyUser := Stored(u)], session) == Normal(u)
    ensures Store(local, session) == Some(Ephemeral) && !Truthy(Read(local, KeyUser)) ==>
      GetUser(local, session[KeyUser := Stored(u)]) == Normal(u)
  {
    ReadStored(local, KeyUser, u);
    ReadStored(session, KeyUser, u);
  }

  /** The first complaint `changePassword` makes, or None when it goes on to
      the server. */
  function PasswordError(loggedIn: bool, current: string, next: string): (e: Option<string>)
    ensures e.None? <==> loggedIn && current != "" && Utf16Length(next) >= 6 && current != next
    ensures !loggedIn ==> e == Some("Not logged in.")
    ensures loggedIn && current == "" ==> e == Some("Current password is required.")
    ensures loggedIn && current != "" && Utf16Length(next) < 6 ==>
      e == Some("New password must be at least 6 characters.")
    ensures loggedIn && current != "" && Utf16Length(next) >= 6 && current == next ==>
      e == Some("New password must be different.")
  {
    if !loggedIn then Some("Not logged in.")
    else if current == "" then Some("Current password is required.")
    else if Utf16Length(next) < 6 then Some("New password must be at least 6 characters.")
    else if current == next then Some("New password must be different.")
    else None
  }

  /** `changePassword(form)`: the server sees only the two hashes. */
  method ChangePassword(b: Browser, server: AppsScript.Spreadsheet, current: string, next: string,
                        hash: string -> string, env: Env) returns (res: Json)
    modifies server
    ensures var user := GetUser(b.local, b.session);
      var err := PasswordError(Truthy(user), current, next);
      (err.Some? ==> res == H.Fail(err.value) && server.Snap() == old(server.Snap())) &&
      (err.None? ==>
        (res, server.Snap()) == Call(old(server.Snap()), "changePassword",
          [Field("userId", Get(user, "userId")), Field("currentHash", Str(hash(current))),
           Field("newHash", Str(hash(next)))], env))
  {
    assert b as object != server as object;
    var user := GetUser(b.local, b.session);
    var err := PasswordError(Truthy(user), current, next);
    if err.Some? {
      res := H.Fail(err.value);
    } else {
      res := Api(server, "changePassword",
                 [Field("userId", Get(user, "userId")), Field("currentHash", Str(hash(current))),
                  Field("newHash", Str(hash(next)))], env);
    }
  }
}
