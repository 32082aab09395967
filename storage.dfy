/**
 * The browser's two storage tiers as the storefront uses them: `localStorage`
 * (durable, survives the browser) and `sessionStorage` (ephemeral, one tab).
 * Each maps keys to text; values go in as `JSON.stringify` output and come
 * back through `JSON.parse`.
 */
module Storage {
  import opened Js
  import opened JsonText

  const KeyUser := "sj_user"
  const KeyToken := "sj_token"
  const KeyCart := "swarnimCart"
  const KeyWish := "sj_wishlist"

  /** What `setItem(k, JSON.stringify(v))` stores: `undefined` is stored as
      the text "undefined". */
  function Stored(v: Json): (s: string)
    ensures s != ""
    ensures v.Undefined? <==> s == "undefined"
  {
    match Stringify(v)
    case None => "undefined"
    case Some(t) => t
  }

  /** `lsGet` / `ssGet`: `v ? JSON.parse(v) : null`, with null when the
      text does not parse. */
  function Read(m: map<string, string>, k: string): (v: Json)
    ensures k !in m || m[k] == "" ==> v == Null
  {
    if k in m && m[k] != "" then
      match Parse(m[k])
      case None => Null
      case Some(x) => x
    else Null
  }

  lemma UndefinedTextIsNotJson()
    ensures Parse("undefined") == None
  {
    assert SkipWs("undefined") == "undefined";
  }

  /** What is written under a key reads back as its trip through JSON text. */
  lemma ReadStored(m: map<string, string>, k: string, v: Json)
    ensures Read(m[k := Stored(v)], k) == Normal(v)
  {
    if v.Undefined? {
      UndefinedTextIsNotJson();
    } else {
      RoundTrip(v);
    }
  }

  /** The tier `store()` names. */
  datatype Tier = Durable | Ephemeral

  /** `store()`: the first tier that holds both a token and a user. */
  function Store(local: map<string, string>, session: map<string, string>): (r: Option<Tier>)
    ensures r == Some(Durable) <==> Truthy(Read(local, KeyToken)) && Truthy(Read(local, KeyUser))
    ensures r.None? <==>
      !(Truthy(Read(local, KeyToken)) && Truthy(Read(local, KeyUser))) &&
      !(Truthy(Read(session, KeyToken)) && Truthy(Read(session, KeyUser)))
  {
    if Truthy(Read(local, KeyToken)) && Truthy(Read(local, KeyUser)) then Some(Durable)
    else if Truthy(Read(session, KeyToken)) && Truthy(Read(session, KeyUser)) then Some(Ephemeral)
    else None
  }

  /** `getUser()`: the durable tier first, then the ephemeral one. */
  function GetUser(local: map<string, string>, session: map<string, string>): (r: Json)
    ensures Truthy(Read(local, KeyUser)) ==> r == Read(local, KeyUser)
    ensures !Truthy(Read(local, KeyUser)) && Truthy(Read(session, KeyUser)) ==> r == Read(session, KeyUser)
    ensures !Truthy(Read(local, KeyUser)) && !Truthy(Read(session, KeyUser)) ==> r == Null
  {
    Or(Or(Read(local, KeyUser), Read(session, KeyUser)), Null)
  }

  /** `getToken()`: the durable tier first, then the ephemeral one. */
  function GetToken(local: map<string, string>, session: map<string, string>): (r: Json)
    ensures Truthy(Read(local, KeyToken)) ==> r == Read(local, KeyToken)
    ensures !Truthy(Read(local, KeyToken)) && Truthy(Read(session, KeyToken)) ==> r == Read(session, KeyToken)
    ensures !Truthy(Read(local, KeyToken)) && !Truthy(Read(session, KeyToken)) ==> r == Null
  {
    Or(Or(Read(local, KeyToken), Read(session, KeyToken)), Null)
  }

  /** `isLoggedIn()`: a token and a user, each from whichever tier has one. */
  predicate IsLoggedIn(local: map<string, string>, session: map<string, string>)
    ensures IsLoggedIn(local, session) <==>
      (Truthy(Read(local, KeyToken)) || Truthy(Read(session, KeyToken))) &&
      (Truthy(Read(local, KeyUser)) || Truthy(Read(session, KeyUser)))
  {
    Truthy(GetToken(local, session)) && Truthy(GetUser(local, session))
  }

  /** A tier that holds a session means the visitor is logged in, and the
      user read is that tier's user. */
  lemma StoreMeansLoggedIn(local: map<string, string>, session: map<string, string>)
    ensures Store(local, session).Some? ==> IsLoggedIn(local, session)
    ensures Store(local, session) == Some(Ephemeral) && !Truthy(Read(local, KeyUser)) ==>
      GetUser(local, session) == Read(session, KeyUser)
    ensures Store(local, session) == Some(Durable) ==> GetUser(local, session) == Read(local, KeyUser)
  {
  }

  /** The converse fails: a token in one tier and a user in the other count
      as logged in, yet `store()` names no tier. */
  lemma LoggedInWithoutStore()
    ensures var local := map[KeyToken := Stored(Str("t"))];
      var session := map[KeyUser := Stored(Str("u"))];
      IsLoggedIn(local, session) && Store(local, session).None?
  {
    var local := map[KeyToken := Stored(Str("t"))];
    var session := map[KeyUser := Stored(Str("u"))];
    ReadStored(map[], KeyToken, Str("t"));
    ReadStored(map[], KeyUser, Str("u"));
    assert KeyUser !in local;
    assert KeyToken !in session;
  }

  /** The two tiers as the page sees them. */
  class Browser {
    var local: map<string, string>
    var session: map<string, string>

    constructor (local: map<string, string>, session: map<string, string>)
      ensures this.local == local && this.session == session
    {
      this.local := local;
      this.session := session;
    }

    /** `lsSet(k, v)` */
    method LsSet(k: string, v: Json)
      modifies this
      ensures local == old(local)[k := Stored(v)] && session == old(session)
      ensures Read(local, k) == Normal(v)
    {
      ReadStored(local, k, v);
      local := local[k := Stored(v)];
    }

    /** `ssSet(k, v)` */
    method SsSet(k: string, v: Json)
      modifies this
      ensures session == old(session)[k := Stored(v)] && local == old(local)
      ensures Read(session, k) == Normal(v)
    {
      ReadStored(session, k, v);
      session := session[k := Stored(v)];
    }

    /** `del(k)`: the key leaves both tiers. */
    method Del(k: string)
      modifies this
      ensures local == old(local) - {k} && session == old(session) - {k}
      ensures Read(local, k) == Null && Read(session, k) == Null
    {
      local := local - {k};
      session := session - {k};
    }
  }
}
