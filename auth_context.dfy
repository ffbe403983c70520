/**
 * The client's authentication context: the `user` and `loading` state, the
 * session kept under the "user" and "token" keys of `localStorage`, and the
 * `init`, `login` and `logout` steps that move between them. `JSON.stringify`
 * and `JSON.parse` of the stored user are stood in for by a length-prefixed
 * encoding that is proved to decode back to the same user.
 */
module AuthContext {
  import opened Common
  import Api

  // ---------------------------------------------------------------------------
  // The stored form of a user

  /** A string preceded by its length, so that any characters may follow it. */
  function Field(s: string): string
  {
    NatToString(|s|) + ":" + s
  }

  function OptionalField(o: Option<string>): string
  {
    match o case None => "-" case Some(s) => "+" + Field(s)
  }

  /** `JSON.stringify(user)`. */
  function EncodeUser(u: Api.ClientUser): (s: string)
    ensures s != ""
  {
    NatToString(u.id) + ";" + Field(u.role) + Field(u.name) + OptionalField(u.busId)
  }

  /** The number of leading digits. */
  function DigitsPrefix(s: string): (n: nat)
    ensures n <= |s|
    ensures forall i :: 0 <= i < n ==> IsDigit(s[i])
    ensures n < |s| ==> !IsDigit(s[n])
  {
    if |s| > 0 && IsDigit(s[0]) then 1 + DigitsPrefix(s[1..]) else 0
  }

  lemma {:induction false} DigitsPrefixOf(ds: string, rest: string)
    requires forall i :: 0 <= i < |ds| ==> IsDigit(ds[i])
    requires rest == [] || !IsDigit(rest[0])
    ensures DigitsPrefix(ds + rest) == |ds|
  {
    if |ds| > 0 {
      assert (ds + rest)[1..] == ds[1..] + rest;
      DigitsPrefixOf(ds[1..], rest);
    }
  }

  /** A decimal number ended by `delim`, and what follows the delimiter. */
  function ReadNum(s: string, delim: char): Option<(nat, string)>
  {
    var k := DigitsPrefix(s);
    if 1 <= k < |s| && s[k] == delim then Some((DigitsValue(s[..k]), s[k + 1..])) else None
  }

  lemma ReadNumOf(n: nat, delim: char, rest: string)
    requires !IsDigit(delim)
    ensures ReadNum(NatToString(n) + [delim] + rest, delim) == Some((n, rest))
  {
    var ds := NatToString(n);
    var s := ds + [delim] + rest;
    assert s == ds + ([delim] + rest);
    DigitsPrefixOf(ds, [delim] + rest);
    assert s[..|ds|] == ds;
    assert s[|ds| + 1..] == rest;
    ParseNatToString(n);
  }

  /** A length-prefixed string, and what follows it. */
  function ReadField(s: string): Option<(string, string)>
  {
    match ReadNum(s, ':')
    case None => None
    case Some((len, rest)) => if len <= |rest| then Some((rest[..len], rest[len..])) else None
  }

  lemma ReadFieldOf(x: string, rest: string)
    ensures ReadField(Field(x) + rest) == Some((x, rest))
  {
    var s := Field(x) + rest;
    assert s == NatToString(|x|) + [':'] + (x + rest);
    ReadNumOf(|x|, ':', x + rest);
    assert (x + rest)[..|x|] == x;
    assert (x + rest)[|x|..] == rest;
  }

  /** The optional bus id and nothing after it. */
  function DecodeOptional(s: string): Option<Option<string>>
  {
    if s == "-" then Some(None)
    else if |s| >= 1 && s[0] == '+' then
      match ReadField(s[1..])
      case Some((b, rest)) => if rest == "" then Some(Some(b)) else None
      case None => None
    else None
  }

  lemma DecodeOptionalOf(o: Option<string>)
    ensures DecodeOptional(OptionalField(o)) == Some(o)
  {
    match o {
      case None =>
      case Some(b) =>
        assert OptionalField(o)[1..] == Field(b) + "";
        ReadFieldOf(b, "");
    }
  }

  /** `JSON.parse(text)` for a stored user: `None` where the parse would throw. */
  function DecodeUser(s: string): Option<Api.ClientUser>
  {
    match ReadNum(s, ';')
    case None => None
    case Some((id, r1)) =>
      match ReadField(r1)
      case None => None
      case Some((role, r2)) =>
        match ReadField(r2)
        case None => None
        case Some((name, r3)) =>
          match DecodeOptional(r3)
          case None => None
          case Some(busId) => Some(Api.ClientUser(id, role, name, busId))
  }

  /** Parsing what was stringified gives back the same user. */
  lemma DecodeEncode(u: Api.ClientUser)
    ensures DecodeUser(EncodeUser(u)) == Some(u)
  {
    var tail := OptionalField(u.busId);
    var r2 := Field(u.name) + tail;
    var r1 := Field(u.role) + r2;
    assert EncodeUser(u) == NatToString(u.id) + [';'] + r1;
    ReadNumOf(u.id, ';', r1);
    ReadFieldOf(u.role, r2);
    ReadFieldOf(u.name, tail);
    DecodeOptionalOf(u.busId);
  }

  lemma EncodeUserInjective(u: Api.ClientUser, v: Api.ClientUser)
    requires EncodeUser(u) == EncodeUser(v)
    ensures u == v
  {
    DecodeEncode(u);
    DecodeEncode(v);
  }

  // ---------------------------------------------------------------------------
  // The session in storage

  /** What the initial effect finds in storage. */
  datatype Restore = NoSession | Session(user: Api.ClientUser) | Malformed

  /** Both keys must hold truthy values; the stored user must then parse. */
  function RestoreSession(items: map<string, string>): Restore
  {
    if Api.UserKey in items && items[Api.UserKey] != "" && Api.HasToken(items) then
      match DecodeUser(items[Api.UserKey])
      case Some(u) => Session(u)
      case None => Malformed
    else NoSession
  }

  /** The storage after a successful login. */
  function SaveSession(items: map<string, string>, u: Api.ClientUser, token: string): map<string, string>
  {
    items[Api.UserKey := EncodeUser(u)][Api.TokenKey := token]
  }

  /** A session saved with a non-empty token is restored as the same user; an empty token is no session. */
  lemma SaveThenRestore(items: map<string, string>, u: Api.ClientUser, token: string)
    ensures token != "" ==> RestoreSession(SaveSession(items, u, token)) == Session(u)
    ensures token == "" ==> RestoreSession(SaveSession(items, u, token)) == NoSession
  {
    DecodeEncode(u);
  }

  /** After the session keys are removed, nothing is restored. */
  lemma ClearedRestoresNothing(items: map<string, string>)
    ensures RestoreSession(Api.WithoutSession(items)) == NoSession
  {
  }

  /** A mock login, once saved, survives a reload. */
  lemma MockLoginSurvivesReload(items: map<string, string>, c: Api.Credentials, now: nat)
    requires Api.MockLogin(c, now).LoggedIn?
    ensures var r := Api.MockLogin(c, now);
      RestoreSession(SaveSession(items, r.user, r.token)) == Session(r.user)
  {
    Api.MockTokenShape(now);
    SaveThenRestore(items, Api.MockLogin(c, now).user, Api.MockLogin(c, now).token);
  }

  // ---------------------------------------------------------------------------
  // The provider

  /** What the context's `login` returns to its caller: the user, or the rethrown error. */
  datatype LoginResult = Returned(user: Api.ClientUser) | Rethrown(message: string)

  class AuthProvider {
    var user: Option<Api.ClientUser>
    var loading: bool
    const storage: Api.LocalStorage

    /** The provider's first render: no user, still loading. */
    constructor (storage: Api.LocalStorage)
      ensures this.storage == storage && user == None && loading
    {
      this.storage := storage;
      user := None;
      loading := true;
    }

    /** `isAuthenticated`: there is a user. */
    function IsAuthenticated(): bool
      reads this
    {
      user.Some?
    }

    /**
     * The initial effect: restores the stored user when both keys are set, and
     * stops loading. A stored user that does not parse throws before loading stops.
     */
    method Init()
      modifies this`user, this`loading
      ensures RestoreSession(storage.items) == NoSession ==> user == old(user) && !loading
      ensures RestoreSession(storage.items).Session? ==>
        user == Some(RestoreSession(storage.items).user) && !loading
      ensures RestoreSession(storage.items) == Malformed ==> user == old(user) && loading == old(loading)
    {
      var storedUser := storage.GetItem(Api.UserKey);
      var storedToken := storage.GetItem(Api.TokenKey);
      if storedUser.Some? && storedUser.value != "" && storedToken.Some? && storedToken.value != "" {
        var parsed := DecodeUser(storedUser.value);
        if parsed.None? {
          return;
        }
        user := parsed;
      }
      loading := false;
    }

    /** `login(credentials)`, given how `authAPI.login` settled. */
    method Login(reply: Api.LoginReply) returns (result: LoginResult)
      modifies this`user, storage
      ensures reply.LoggedIn? ==>
        (result == Returned(reply.user) && user == Some(reply.user) &&
         storage.items == SaveSession(old(storage.items), reply.user, reply.token))
      ensures reply.LoginFailed? ==>
        (result == Rethrown(reply.message) && user == old(user) && storage.items == old(storage.items))
    {
      match reply {
        case LoggedIn(u, token) =>
          storage.SetItem(Api.UserKey, EncodeUser(u));
          storage.SetItem(Api.TokenKey, token);
          user := Some(u);
          result := Returned(u);
        case LoginFailed(message) =>
          result := Rethrown(message);
      }
    }

    /** `logout()`: the API clears both keys, and so does the context; the user is gone. */
    method Logout()
      modifies this`user, storage
      ensures user == None && !IsAuthenticated()
      ensures storage.items == Api.WithoutSession(old(storage.items))
    {
      Api.Logout(storage);
      storage.RemoveItem(Api.UserKey);
      storage.RemoveItem(Api.TokenKey);
      user := None;
    }
  }

  /** Logging in and then reloading the page gives back the same user, and stops loading. */
  method LoginThenReload(storage: Api.LocalStorage, c: Api.Credentials, now: nat) returns (reloaded: AuthProvider)
    modifies storage
    ensures reloaded.storage == storage
    ensures Api.MockLogin(c, now).LoggedIn? ==>
      reloaded.user == Some(Api.MockLogin(c, now).user) && !reloaded.loading && reloaded.IsAuthenticated()
    ensures Api.MockLogin(c, now).LoginFailed? ==>
      (storage.items == old(storage.items) &&
       (reloaded.IsAuthenticated() <==> RestoreSession(old(storage.items)).Session?))
  {
    var first := new AuthProvider(storage);
    var r := first.Login(Api.MockLogin(c, now));
    if Api.MockLogin(c, now).LoggedIn? {
      MockLoginSurvivesReload(old(storage.items), c, now);
    }
    reloaded := new AuthProvider(storage);
    reloaded.Init();
  }

  /** `useAuth()`: the provider's value, or the error thrown outside any provider. */
  datatype UseAuthResult = Value(provider: AuthProvider) | Thrown(message: string)

  function UseAuth(context: Option<AuthProvider>): (r: UseAuthResult)
    ensures r.Thrown? <==> context.None?
    ensures r.Thrown? ==> r.message == "useAuth must be used within AuthProvider"
    ensures context.Some? ==> r == Value(context.value)
  {
    match context
    case None => Thrown("useAuth must be used within AuthProvider")
    case Some(p) => Value(p)
  }
}
