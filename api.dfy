/**
 * The client's API layer: the browser's `localStorage` session keys, the
 * request interceptor that attaches the bearer token, the response interceptor
 * that drops the session on a 401, and the mock `authAPI`, `busAPI` and
 * `driverAPI` the dashboards use in place of the server.
 */
module Api {
  import opened Common

  /** The browser's `localStorage`: string keys mapped to string values. */
  class LocalStorage {
    var items: map<string, string>

    constructor (initial: map<string, string>)
      ensures items == initial
    {
      items := initial;
    }

    /** `localStorage.getItem(key)`, with `null` as `None`. */
    function GetItem(key: string): Option<string>
      reads this
    {
      if key in items then Some(items[key]) else None
    }

    /** `localStorage.setItem(key, value)`. */
    method SetItem(key: string, value: string)
      modifies this
      ensures items == old(items)[key := value]
    {
      items := items[key := value];
    }

    /** `localStorage.removeItem(key)`; removing a missing key is harmless. */
    method RemoveItem(key: string)
      modifies this
      ensures items == old(items) - {key}
    {
      items := items - {key};
    }
  }

  const TokenKey := "token"
  const UserKey := "user"

  /** The storage left after both session keys are removed: every other key keeps its value. */
  function WithoutSession(items: map<string, string>): (r: map<string, string>)
    ensures TokenKey !in r && UserKey !in r
    ensures forall k :: k in r ==> k in items && r[k] == items[k]
    ensures forall k :: k in items && k != TokenKey && k != UserKey ==> k in r
  {
    items - {TokenKey, UserKey}
  }

  /** Clearing the session twice is clearing it once. */
  lemma WithoutSessionIdempotent(items: map<string, string>)
    ensures WithoutSession(WithoutSession(items)) == WithoutSession(items)
  {
  }

  // ---------------------------------------------------------------------------
  // Interceptors

  /** The value of the `Authorization` header for a token. */
  function BearerHeader(token: string): string
  {
    "Bearer " + token
  }

  /** A stored token counts only when it is non-empty (truthiness of the stored string). */
  predicate HasToken(items: map<string, string>)
  {
    TokenKey in items && items[TokenKey] != ""
  }

  /** The request interceptor: the headers of an outgoing request. */
  function RequestHeaders(items: map<string, string>, headers: map<string, string>): (h: map<string, string>)
    ensures HasToken(items) ==> "Authorization" in h && h["Authorization"] == BearerHeader(items[TokenKey])
    ensures !HasToken(items) ==> h == headers
    ensures forall k :: k != "Authorization" ==> (k in h <==> k in headers)
    ensures forall k :: k != "Authorization" && k in h ==> h[k] == headers[k]
  {
    if HasToken(items) then headers["Authorization" := BearerHeader(items[TokenKey])] else headers
  }

  /** What axios hands to the response interceptor: a response, or an error with an optional response status. */
  datatype Reply<T> = Ok(data: T) | Failed(status: Option<int>)

  /** What the caller of the API receives: the response body, or a rejection carrying the status. */
  datatype Delivery<T> = Data(data: T) | Rejection(status: Option<int>)

  /**
   * The response interceptor: a response is unwrapped to its body; every error
   * is passed on as a rejection, and a 401 also removes the session and sends
   * the browser to "/".
   */
  method HandleResponse<T>(storage: LocalStorage, reply: Reply<T>) returns (d: Delivery<T>, redirect: Option<string>)
    modifies storage
    ensures reply.Ok? ==> d == Data(reply.data)
    ensures reply.Failed? ==> d == Rejection(reply.status)
    ensures reply == Failed(Some(401)) ==>
      storage.items == WithoutSession(old(storage.items)) && redirect == Some("/")
    ensures reply != Failed(Some(401)) ==> storage.items == old(storage.items) && redirect == None
  {
    redirect := None;
    match reply {
      case Ok(data) =>
        d := Data(data);
      case Failed(status) =>
        if status == Some(401) {
          storage.RemoveItem(TokenKey);
          storage.RemoveItem(UserKey);
          redirect := Some("/");
        }
        d := Rejection(status);
    }
  }

  // ---------------------------------------------------------------------------
  // Mock authAPI

  /** The user object the client keeps: the mock templates' fields. */
  datatype ClientUser = ClientUser(id: nat, role: string, name: string, busId: Option<string>)

  /** `MOCK_DATA.users[role]`. */
  function MockUser(role: string): (u: Option<ClientUser>)
    ensures u.Some? <==> role in {"student", "driver", "admin"}
    ensures u.Some? ==> u.value.role == role
  {
    if role == "student" then Some(ClientUser(1, "student", "Student User", Some("BUS001")))
    else if role == "driver" then Some(ClientUser(2, "driver", "Mike Driver", Some("BUS001")))
    else if role == "admin" then Some(ClientUser(3, "admin", "Admin User", None))
    else None
  }

  /** The login form's fields; an absent username is `None`. */
  datatype Credentials = Credentials(username: Option<string>, password: Option<string>, role: string)

  datatype LoginReply = LoggedIn(user: ClientUser, token: string) | LoginFailed(message: string)

  /** Truthiness of an optional string: present and non-empty. */
  predicate Given(s: Option<string>)
  {
    s.Some? && s.value != ""
  }

  /** The token the mock issues at time `now` (milliseconds). */
  function MockToken(now: nat): string
  {
    "mock-jwt-token-" + NatToString(now)
  }

  /** `authAPI.login(credentials)`, with `Date.now()` as `now`. */
  function MockLogin(c: Credentials, now: nat): LoginReply
  {
    match MockUser(c.role)
    case None => LoginFailed("Invalid credentials")
    case Some(template) =>
      var user := if Given(c.username) then template.(name := c.username.value) else template;
      LoggedIn(user, MockToken(now))
  }

  /**
   * A known role yields the template with only its name replaced, and only when
   * a username is given; an unknown role rejects with "Invalid credentials".
   */
  lemma MockLoginMeaning(c: Credentials, now: nat)
    ensures MockLogin(c, now).LoginFailed? <==> c.role !in {"student", "driver", "admin"}
    ensures MockLogin(c, now).LoginFailed? ==> MockLogin(c, now).message == "Invalid credentials"
    ensures MockLogin(c, now).LoggedIn? ==>
      var t := MockUser(c.role).value;
      var u := MockLogin(c, now).user;
      u.id == t.id && u.role == c.role && u.busId == t.busId &&
      u.name == (if Given(c.username) then c.username.value else t.name)
  {
  }

  /** The password is never consulted: changing it changes nothing. */
  lemma MockLoginIgnoresPassword(c: Credentials, password: Option<string>, now: nat)
    ensures MockLogin(c.(password := password), now) == MockLogin(c, now)
  {
  }

  /** A mock token is never empty and has no space, so it survives a "Bearer " header. */
  lemma MockTokenShape(now: nat)
    ensures MockToken(now) != "" && ' ' !in MockToken(now)
  {
    var digits := NatToString(now);
    assert forall i :: 0 <= i < |digits| ==> digits[i] != ' ';
    assert forall i :: 0 <= i < |MockToken(now)| ==> MockToken(now)[i] != ' ' by {
      forall i | 0 <= i < |MockToken(now)|
        ensures MockToken(now)[i] != ' '
      {
        if i >= 15 {
          assert MockToken(now)[i] == digits[i - 15];
        }
      }
    }
  }

  /** `authAPI.logout()`: removes both session keys. */
  method Logout(storage: LocalStorage)
    modifies storage
    ensures storage.items == WithoutSession(old(storage.items))
  {
    storage.RemoveItem(TokenKey);
    storage.RemoveItem(UserKey);
  }

  // ---------------------------------------------------------------------------
  // Mock busAPI and driverAPI

  datatype LatLng = LatLng(lat: real, lng: real)

  datatype MockBus = MockBus(id: string, name: string, status: string, location: LatLng,
                             driver: string, capacity: nat, currentPassengers: nat)

  /** `MOCK_DATA.buses`. */
  const MockBuses: seq<MockBus> := [
    MockBus("BUS001", "Route A - Main Campus", "active", LatLng(28.6139, 77.2090), "Mike Driver", 40, 25),
    MockBus("BUS002", "Route B - North Campus", "active", LatLng(28.6889, 77.2090), "Sarah Johnson", 40, 30),
    MockBus("BUS003", "Route C - South Campus", "delayed", LatLng(28.5389, 77.2090), "Tom Wilson", 35, 20)
  ]

  /** `buses.find(b => b.id === id)`: the first bus with that id. */
  function FindBus(buses: seq<MockBus>, id: string): (r: Option<MockBus>)
    ensures r.None? <==> forall k :: 0 <= k < |buses| ==> buses[k].id != id
    ensures r.Some? ==>
      exists k :: (0 <= k < |buses| && buses[k] == r.value && r.value.id == id &&
                   forall j :: 0 <= j < k ==> buses[j].id != id)
  {
    if buses == [] then None
    else if buses[0].id == id then
      assert buses[0] == buses[0];
      Some(buses[0])
    else
      var r := FindBus(buses[1..], id);
      if r.Some? then
        var k :| 0 <= k < |buses[1..]| && buses[1..][k] == r.value && r.value.id == id &&
          forall j :: 0 <= j < k ==> buses[1..][j].id != id;
        assert buses[k + 1] == r.value;
        r
      else r
  }

  /** The location `getLocation` falls back to for an unknown bus. */
  const DefaultLocation := LatLng(28.6139, 77.2090)

  /** `busAPI.getLocation(busId)`. */
  function GetLocation(busId: string): LatLng
  {
    match FindBus(MockBuses, busId)
    case Some(bus) => bus.location
    case None => DefaultLocation
  }

  /** Every mock bus is found by its id, and an unknown id gets the default location. */
  lemma GetLocationMeaning(busId: string)
    ensures forall k :: 0 <= k < |MockBuses| && MockBuses[k].id == busId ==>
      GetLocation(busId) == MockBuses[k].location
    ensures busId !in {"BUS001", "BUS002", "BUS003"} ==> GetLocation(busId) == DefaultLocation
  {
    var r := FindBus(MockBuses, busId);
    if r.Some? {
      var k :| 0 <= k < |MockBuses| && MockBuses[k] == r.value && r.value.id == busId &&
        forall j :: 0 <= j < k ==> MockBuses[j].id != busId;
      assert MockBuses[0].id[5] == '1' && MockBuses[1].id[5] == '2' && MockBuses[2].id[5] == '3';
    }
  }

  /** The trip id `driverAPI.startTrip` returns at time `now`: "TRIP" and the clock. */
  function MockTripId(now: nat): (id: string)
    ensures |id| > 4 && id[..4] == "TRIP"
    ensures ParseNat(id[4..]) == Some(now)
  {
    var digits := NatToString(now);
    ParseNatToString(now);
    assert ("TRIP" + digits)[4..] == digits;
    "TRIP" + digits
  }

  /** Trips started at different times get different ids. */
  lemma MockTripIdInjective(m: nat, n: nat)
    requires MockTripId(m) == MockTripId(n)
    ensures m == n
  {
  }
}
