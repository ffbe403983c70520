/**
 * The server's `register` and `login` handlers over a collection of user
 * documents. bcrypt's hash and comparison are parameters, and a signed token
 * is represented by the id of the user it is issued for.
 */
module AuthController {
  import opened Common
  import opened UserModel

  /** The JSON body of a request; `None` for a key that is absent. */
  datatype RegisterBody = RegisterBody(
    username: Option<string>, password: Option<string>, role: Option<string>, name: Option<string>,
    email: Option<string>, phone: Option<string>, studentId: Option<string>,
    licenseNumber: Option<string>, busId: Option<string>)

  datatype LoginBody = LoginBody(username: Option<string>, password: Option<string>, role: Option<string>)

  /** A response: its status, its message, and on success the public user and the token's subject. */
  datatype Reply = Reply(status: nat, message: string, user: Option<PublicUser>, tokenFor: Option<nat>)

  function Fail(status: nat, message: string): Reply
  {
    Reply(status, message, None, None)
  }

  /** Truthiness of an optional string. */
  predicate Given(s: Option<string>)
  {
    s.Some? && s.value != ""
  }

  // ---------------------------------------------------------------------------
  // The collection and its lookups

  /** The unique indexes hold: usernames, and student ids where present. */
  predicate UniqueKeys(docs: seq<UserDoc>)
  {
    && (forall a, b :: 0 <= a < b < |docs| ==> docs[a].username != docs[b].username)
    && (forall a, b :: 0 <= a < b < |docs| && docs[a].studentId.Some? ==> docs[a].studentId != docs[b].studentId)
  }

  /** The `_id` primary key: no two documents share an id. */
  predicate DistinctIds(docs: seq<UserDoc>)
  {
    forall a, b :: 0 <= a < b < |docs| ==> docs[a].id != docs[b].id
  }

  /** Ids are below `nextId`, so a fresh id is never taken. */
  predicate IdsBelow(docs: seq<UserDoc>, nextId: nat)
  {
    forall k :: 0 <= k < |docs| ==> docs[k].id < nextId
  }

  /**
   * `findOne`: the index of the first stored user, in insertion order, with this
   * (already normalised) username and, when given, role.
   */
  function Find(docs: seq<UserDoc>, username: string, role: Option<string>): (r: Option<nat>)
    ensures r.Some? ==> r.value < |docs| && docs[r.value].username == username
    ensures r.Some? && role.Some? ==> docs[r.value].role == role.value
    ensures r.Some? ==> forall k :: 0 <= k < r.value ==>
      docs[k].username != username || (role.Some? && docs[k].role != role.value)
    ensures r.None? ==> forall k :: 0 <= k < |docs| ==>
      docs[k].username != username || (role.Some? && docs[k].role != role.value)
  {
    if docs == [] then None
    else if docs[0].username == username && (role.None? || docs[0].role == role.value) then Some(0)
    else
      match Find(docs[1..], username, role)
      case None => None
      case Some(i) => Some(i + 1)
  }

  /** `User.findOne({ username })`: the filter value passes through the path's setters. */
  function FindByUsername(docs: seq<UserDoc>, username: Option<string>): Option<nat>
  {
    match username
    case None => None
    case Some(u) => Find(docs, Normalize(u), None)
  }

  // ---------------------------------------------------------------------------
  // register

  /** The `userData` object: six base fields, then the fields of the role. */
  function UserData(b: RegisterBody): (f: UserFields)
    ensures f.username == b.username && f.password == b.password && f.role == b.role
    ensures f.name == b.name && f.email == b.email && f.phone == b.phone
    ensures f.studentId.Some? ==> b.role == Some("student") && Given(b.studentId)
    ensures b.role == Some("student") && Given(b.studentId) ==> f.studentId == b.studentId && f.busId == b.busId
    ensures f.licenseNumber.Some? ==> b.role == Some("driver") && Given(b.licenseNumber)
    ensures b.role == Some("driver") && Given(b.licenseNumber) ==>
      f.licenseNumber == b.licenseNumber && f.assignedBusId == b.busId
    ensures !(b.role == Some("student") && Given(b.studentId)) ==> f.busId == None
    ensures !(b.role == Some("driver") && Given(b.licenseNumber)) ==> f.assignedBusId == None
  {
    var base := UserFields(b.username, b.password, b.role, b.name, b.email, b.phone, None, None, None, None);
    if b.role == Some("student") && Given(b.studentId) then base.(studentId := b.studentId, busId := b.busId)
    else if b.role == Some("driver") && Given(b.licenseNumber) then
      base.(licenseNumber := b.licenseNumber, assignedBusId := b.busId)
    else base
  }

  /** The message of the unique-index violation, abbreviated to its code and index. */
  function DuplicateKeyMessage(index: string): string
  {
    "E11000 duplicate key error index: " + index + "_1"
  }

  /** The unique index, if any, a new document would violate. */
  function ViolatedIndex(docs: seq<UserDoc>, d: UserDoc): Option<string>
  {
    if exists k :: 0 <= k < |docs| && docs[k].username == d.username then Some("username")
    else if d.studentId.Some? && exists k :: 0 <= k < |docs| && docs[k].studentId == d.studentId then Some("studentId")
    else None
  }

  datatype RegisterOutcome = RegisterOutcome(reply: Reply, docs: seq<UserDoc>)

  /** Hashing, the unique indexes and the save, for a candidate that passed validation. */
  function SaveNew(docs: seq<UserDoc>, newId: nat, c: Candidate, hash: string -> string): RegisterOutcome
    requires ValidationErrors(c) == []
  {
    var d := PreSave(Materialize(c, newId), true, hash);
    match ViolatedIndex(docs, d)
    case Some(index) => RegisterOutcome(Fail(500, DuplicateKeyMessage(index)), docs)
    case None =>
      RegisterOutcome(Reply(201, "User registered successfully", Some(ToJSON(d)), Some(newId)), docs + [d])
  }

  /** `register(req, res)` against the documents `docs`, the new document taking id `newId`. */
  function RegisterSpec(docs: seq<UserDoc>, newId: nat, b: RegisterBody, hash: string -> string): RegisterOutcome
  {
    if FindByUsername(docs, b.username).Some? then RegisterOutcome(Fail(400, "Username already exists"), docs)
    else
      var c := NewUser(UserData(b));
      var errors := ValidationErrors(c);
      if errors != [] then RegisterOutcome(Fail(500, ValidationMessage(errors)), docs)
      else SaveNew(docs, newId, c, hash)
  }

  /** A taken username is refused with 400 before anything is validated or saved. */
  lemma RegisterExisting(docs: seq<UserDoc>, newId: nat, b: RegisterBody, hash: string -> string)
    requires b.username.Some? && exists k :: 0 <= k < |docs| && docs[k].username == Normalize(b.username.value)
    ensures RegisterSpec(docs, newId, b, hash) == RegisterOutcome(Fail(400, "Username already exists"), docs)
  {
  }

  /** Only a 201 changes the collection, and it appends exactly one document. */
  lemma RegisterChangesOnlyOn201(docs: seq<UserDoc>, newId: nat, b: RegisterBody, hash: string -> string)
    ensures var o := RegisterSpec(docs, newId, b, hash);
      o.reply.status in {201, 400, 500} &&
      (o.reply.status != 201 ==> o.docs == docs) &&
      (o.reply.status == 201 ==> |o.docs| == |docs| + 1 && o.docs[..|docs|] == docs)
  {
    if FindByUsername(docs, b.username).Some? {
      assert RegisterSpec(docs, newId, b, hash) == RegisterOutcome(Fail(400, "Username already exists"), docs);
    } else {
      var c := NewUser(UserData(b));
      var errors := ValidationErrors(c);
      if errors != [] {
        assert RegisterSpec(docs, newId, b, hash) == RegisterOutcome(Fail(500, ValidationMessage(errors)), docs);
      } else {
        assert RegisterSpec(docs, newId, b, hash) == SaveNew(docs, newId, c, hash);
        SaveNewAppendsOne(docs, newId, c, hash);
      }
    }
  }

  /** The save either fails with a 500 and changes nothing, or replies 201 and appends one document with the new id. */
  lemma SaveNewAppendsOne(docs: seq<UserDoc>, newId: nat, c: Candidate, hash: string -> string)
    requires ValidationErrors(c) == []
    ensures var o := SaveNew(docs, newId, c, hash);
      (o.reply.status == 500 && o.docs == docs) ||
      (o.reply.status == 201 && |o.docs| == |docs| + 1 && o.docs[..|docs|] == docs && o.docs[|docs|].id == newId)
  {
    var d := PreSave(Materialize(c, newId), true, hash);
    if ViolatedIndex(docs, d).None? {
      assert SaveNew(docs, newId, c, hash) ==
        RegisterOutcome(Reply(201, "User registered successfully", Some(ToJSON(d)), Some(newId)), docs + [d]);
      assert (docs + [d])[..|docs|] == docs;
    }
  }

  /**
   * A registered document holds the normalised username, the hashed password,
   * the requested role (student by default), and the role's own fields only.
   */
  lemma RegisteredDocument(docs: seq<UserDoc>, newId: nat, b: RegisterBody, hash: string -> string)
    requires RegisterSpec(docs, newId, b, hash).reply.status == 201
    ensures var o := RegisterSpec(docs, newId, b, hash);
      var d := o.docs[|docs|];
      && b.username.Some? && d.username == Normalize(b.username.value) && |d.username| >= 3
      && b.password.Some? && d.password == hash(b.password.value) && |b.password.value| >= 6
      && d.role == (if b.role.Some? then b.role.value else "student") && d.role in Roles
      && d.isActive && d.lastLogin == None && d.id == newId
      && (d.studentId.Some? ==> d.role == "student") && (d.licenseNumber.Some? ==> d.role == "driver")
      && o.reply.user == Some(ToJSON(d)) && o.reply.tokenFor == Some(newId)
  {
  }

  /**
   * Because the lookup passes through the same setters as the save, the unique
   * index on the username is never the one violated by a registration that runs
   * alone, with no other request between its lookup and its save.
   */
  lemma UsernameIndexNeverViolated(docs: seq<UserDoc>, newId: nat, b: RegisterBody, hash: string -> string)
    requires FindByUsername(docs, b.username).None?
    requires ValidationErrors(NewUser(UserData(b))) == []
    ensures ViolatedIndex(docs, PreSave(Materialize(NewUser(UserData(b)), newId), true, hash)) != Some("username")
  {
    var c := NewUser(UserData(b));
    var d := PreSave(Materialize(c, newId), true, hash);
    assert b.username.Some? && d.username == Normalize(b.username.value) by {
      assert c.username == Some(d.username);
    }
    FreshUsername(docs, d);
  }

  lemma FreshUsername(docs: seq<UserDoc>, d: UserDoc)
    requires Find(docs, d.username, None).None?
    ensures ViolatedIndex(docs, d) != Some("username")
  {
    assert forall k :: 0 <= k < |docs| ==> docs[k].username != d.username;
  }

  /** Appending a document that violates no index keeps both indexes unique. */
  lemma AppendKeepsUnique(docs: seq<UserDoc>, d: UserDoc)
    requires UniqueKeys(docs) && ViolatedIndex(docs, d).None?
    ensures UniqueKeys(docs + [d])
  {
  }

  /** Saving a validated candidate keeps both unique indexes and the fresh-id bound. */
  lemma SaveNewKeepsInvariant(docs: seq<UserDoc>, newId: nat, c: Candidate, hash: string -> string)
    requires UniqueKeys(docs) && IdsBelow(docs, newId) && ValidationErrors(c) == []
    ensures UniqueKeys(SaveNew(docs, newId, c, hash).docs)
    ensures IdsBelow(SaveNew(docs, newId, c, hash).docs, newId + 1)
  {
    var d := PreSave(Materialize(c, newId), true, hash);
    if ViolatedIndex(docs, d).None? {
      AppendKeepsUnique(docs, d);
      assert SaveNew(docs, newId, c, hash).docs == docs + [d];
    }
  }

  /** Registration keeps both unique indexes and the fresh-id bound. */
  lemma RegisterKeepsInvariant(docs: seq<UserDoc>, newId: nat, b: RegisterBody, hash: string -> string)
    requires UniqueKeys(docs) && IdsBelow(docs, newId)
    ensures UniqueKeys(RegisterSpec(docs, newId, b, hash).docs)
    ensures IdsBelow(RegisterSpec(docs, newId, b, hash).docs, newId + 1)
  {
    var c := NewUser(UserData(b));
    if FindByUsername(docs, b.username).None? && ValidationErrors(c) == [] {
      assert RegisterSpec(docs, newId, b, hash) == SaveNew(docs, newId, c, hash);
      SaveNewKeepsInvariant(docs, newId, c, hash);
    }
  }

  /** Registration keeps ids distinct, because the new document takes the fresh id. */
  lemma RegisterKeepsDistinctIds(docs: seq<UserDoc>, newId: nat, b: RegisterBody, hash: string -> string)
    requires DistinctIds(docs) && IdsBelow(docs, newId)
    ensures DistinctIds(RegisterSpec(docs, newId, b, hash).docs)
  {
    var c := NewUser(UserData(b));
    if FindByUsername(docs, b.username).None? && ValidationErrors(c) == [] {
      assert RegisterSpec(docs, newId, b, hash) == SaveNew(docs, newId, c, hash);
      SaveNewAppendsOne(docs, newId, c, hash);
      var o := SaveNew(docs, newId, c, hash);
      if o.reply.status == 201 {
        assert o.docs == docs + [o.docs[|docs|]];
      }
    }
  }

  // ---------------------------------------------------------------------------
  // login

  const InvalidCredentials := "Invalid credentials"
  const Deactivated := "Account is deactivated. Please contact admin."
  const MissingFields := "Please provide username, password, and role"

  datatype LoginOutcome = LoginOutcome(reply: Reply, docs: seq<UserDoc>)

  /**
   * `login(req, res)`: `matches(candidate, hash)` is bcrypt's comparison and
   * `now` the time recorded as `lastLogin`.
   */
  function LoginSpec(docs: seq<UserDoc>, b: LoginBody, matches: (string, string) -> bool, now: nat): LoginOutcome
  {
    if !Given(b.username) || !Given(b.password) || !Given(b.role) then
      LoginOutcome(Fail(400, MissingFields), docs)
    else
      match Find(docs, Normalize(ToLower(b.username.value)), b.role)
      case None => LoginOutcome(Fail(401, InvalidCredentials), docs)
      case Some(k) =>
        var d := docs[k];
        if !d.isActive then LoginOutcome(Fail(403, Deactivated), docs)
        else if !ComparePassword(d, b.password.value, matches) then LoginOutcome(Fail(401, InvalidCredentials), docs)
        else
          var e := PreSave(d.(lastLogin := Some(now)), false, NoHash());
          LoginOutcome(Reply(200, "Login successful", Some(ToJSON(e)), Some(e.id)), docs[k := e])
  }

  /** The save after login does not hash (the password is unmodified), so any function serves; this one is the identity. */
  function NoHash(): string -> string
  {
    s => s
  }

  /** The explicit lower-casing in `login` changes nothing beyond what the username setters do. */
  lemma LoginLowerCaseRedundant(u: string)
    ensures Normalize(ToLower(u)) == Normalize(u)
  {
    NormalizeOrderIrrelevant(u);
    ToLowerIdempotent(Trim(u));
  }

  /** A missing username, password or role is a 400, decided before any lookup. */
  lemma LoginMissingField(docs: seq<UserDoc>, b: LoginBody, matches: (string, string) -> bool, now: nat)
    requires !Given(b.username) || !Given(b.password) || !Given(b.role)
    ensures LoginSpec(docs, b, matches, now) == LoginOutcome(Fail(400, MissingFields), docs)
  {
  }

  /** The status of a login, stated against the stored documents. */
  lemma LoginStatus(docs: seq<UserDoc>, b: LoginBody, matches: (string, string) -> bool, now: nat)
    requires Given(b.username) && Given(b.password) && Given(b.role)
    requires UniqueKeys(docs)
    ensures var key := Normalize(b.username.value);
      var found := exists k :: 0 <= k < |docs| && docs[k].username == key && docs[k].role == b.role.value;
      var r := LoginSpec(docs, b, matches, now).reply;
      (!found ==> r == Fail(401, InvalidCredentials)) &&
      (found ==> forall k :: 0 <= k < |docs| && docs[k].username == key && docs[k].role == b.role.value ==>
        (!docs[k].isActive ==> r == Fail(403, Deactivated)) &&
        (docs[k].isActive && !matches(b.password.value, docs[k].password) ==> r == Fail(401, InvalidCredentials)) &&
        (docs[k].isActive && matches(b.password.value, docs[k].password) ==> r.status == 200))
  {
    var key := Normalize(b.username.value);
    LoginLowerCaseRedundant(b.username.value);
    var idx := Find(docs, key, b.role);
    if idx.Some? {
      assert forall k :: 0 <= k < |docs| && docs[k].username == key ==> k == idx.value;
    }
  }

  /** A wrong password and an unknown user get the very same reply. */
  lemma LoginNoEnumeration(docs: seq<UserDoc>, b: LoginBody, other: string, matches: (string, string) -> bool, now: nat)
    requires Given(b.username) && Given(b.password) && Given(b.role)
    requires Find(docs, Normalize(ToLower(b.username.value)), b.role).Some?
    requires Find(docs, Normalize(ToLower(other)), b.role).None? && other != ""
    requires docs[Find(docs, Normalize(ToLower(b.username.value)), b.role).value].isActive
    requires !matches(b.password.value, docs[Find(docs, Normalize(ToLower(b.username.value)), b.role).value].password)
    ensures LoginSpec(docs, b, matches, now) == LoginSpec(docs, b.(username := Some(other)), matches, now)
  {
  }

  /** A deactivated account is refused whatever password is offered. */
  lemma LoginInactiveBeforePassword(docs: seq<UserDoc>, b: LoginBody, p: string,
                                    matches: (string, string) -> bool, now: nat)
    requires Given(b.username) && Given(b.password) && Given(b.role) && p != ""
    requires Find(docs, Normalize(ToLower(b.username.value)), b.role).Some?
    requires !docs[Find(docs, Normalize(ToLower(b.username.value)), b.role).value].isActive
    ensures LoginSpec(docs, b, matches, now).reply == Fail(403, Deactivated)
    ensures LoginSpec(docs, b.(password := Some(p)), matches, now).reply == Fail(403, Deactivated)
  {
  }

  /**
   * Only a 200 changes the collection, and then only the logged-in user's
   * `lastLogin`; the stored password is not rehashed.
   */
  lemma LoginChangesOnlyLastLogin(docs: seq<UserDoc>, b: LoginBody, matches: (string, string) -> bool, now: nat)
    ensures var o := LoginSpec(docs, b, matches, now);
      o.reply.status in {200, 400, 401, 403} &&
      (o.reply.status != 200 ==> o.docs == docs) &&
      (o.reply.status == 200 ==>
        |o.docs| == |docs| && Given(b.username) && Given(b.password) && Given(b.role) &&
        exists k :: 0 <= k < |docs| && o.docs == docs[k := docs[k].(lastLogin := Some(now))] &&
          docs[k].username == Normalize(b.username.value) && docs[k].role == b.role.value &&
          docs[k].isActive && matches(b.password.value, docs[k].password) &&
          o.reply.user == Some(ToJSON(o.docs[k])) && o.reply.tokenFor == Some(docs[k].id))
  {
    if Given(b.username) && Given(b.password) && Given(b.role) {
      LoginLowerCaseRedundant(b.username.value);
      var idx := Find(docs, Normalize(ToLower(b.username.value)), b.role);
      if idx.Some? && docs[idx.value].isActive && ComparePassword(docs[idx.value], b.password.value, matches) {
        var k := idx.value;
        var e := PreSave(docs[k].(lastLogin := Some(now)), false, NoHash());
        assert e == docs[k].(lastLogin := Some(now));
        var o := LoginSpec(docs, b, matches, now);
        assert o == LoginOutcome(Reply(200, "Login successful", Some(ToJSON(e)), Some(e.id)), docs[k := e]);
        assert o.docs[k] == e;
      }
    }
  }

  /** Logging in keeps both unique indexes. */
  lemma LoginKeepsInvariant(docs: seq<UserDoc>, b: LoginBody, matches: (string, string) -> bool, now: nat)
    requires UniqueKeys(docs)
    ensures UniqueKeys(LoginSpec(docs, b, matches, now).docs)
  {
    LoginChangesOnlyLastLogin(docs, b, matches, now);
  }

  /** Logging in keeps ids distinct: only `lastLogin` changes. */
  lemma LoginKeepsDistinctIds(docs: seq<UserDoc>, b: LoginBody, matches: (string, string) -> bool, now: nat)
    requires DistinctIds(docs)
    ensures DistinctIds(LoginSpec(docs, b, matches, now).docs)
  {
    LoginChangesOnlyLastLogin(docs, b, matches, now);
  }

  // ---------------------------------------------------------------------------
  // The collection as the handlers see it

  class UserCollection {
    var docs: seq<UserDoc>
    var nextId: nat

    predicate Valid()
      reads this
    {
      UniqueKeys(docs) && DistinctIds(docs) && IdsBelow(docs, nextId)
    }

    constructor ()
      ensures Valid() && docs == [] && nextId == 0
    {
      docs := [];
      nextId := 0;
    }

    /** `register`: builds `userData` step by step, then validates, hashes and saves. */
    method Register(b: RegisterBody, hash: string -> string) returns (reply: Reply)
      requires Valid()
      modifies this
      ensures Valid()
      ensures RegisterOutcome(reply, docs) == RegisterSpec(old(docs), old(nextId), b, hash)
    {
      if FindByUsername(docs, b.username).Some? {
        return Fail(400, "Username already exists");
      }
      var userData := UserFields(b.username, b.password, b.role, b.name, b.email, b.phone, None, None, None, None);
      if b.role == Some("student") && Given(b.studentId) {
        userData := userData.(studentId := b.studentId);
        userData := userData.(busId := b.busId);
      } else if b.role == Some("driver") && Given(b.licenseNumber) {
        userData := userData.(licenseNumber := b.licenseNumber);
        userData := userData.(assignedBusId := b.busId);
      }
      assert userData == UserData(b);
      var candidate := NewUser(userData);
      var errors := ValidationErrors(candidate);
      if errors != [] {
        return Fail(500, ValidationMessage(errors));
      }
      var d := PreSave(Materialize(candidate, nextId), true, hash);
      var violated := ViolatedIndex(docs, d);
      if violated.Some? {
        return Fail(500, DuplicateKeyMessage(violated.value));
      }
      RegisterKeepsInvariant(docs, nextId, b, hash);
      RegisterKeepsDistinctIds(docs, nextId, b, hash);
      docs := docs + [d];
      reply := Reply(201, "User registered successfully", Some(ToJSON(d)), Some(nextId));
      nextId := nextId + 1;
    }

    /** `login`: the early returns, then `user.lastLogin = now` and a save. */
    method Login(b: LoginBody, matches: (string, string) -> bool, now: nat) returns (reply: Reply)
      requires Valid()
      modifies this`docs
      ensures Valid()
      ensures LoginOutcome(reply, docs) == LoginSpec(old(docs), b, matches, now)
    {
      if !Given(b.username) || !Given(b.password) || !Given(b.role) {
        return Fail(400, MissingFields);
      }
      var found := Find(docs, Normalize(ToLower(b.username.value)), b.role);
      if found.None? {
        return Fail(401, InvalidCredentials);
      }
      var k := found.value;
      var user := docs[k];
      if !user.isActive {
        return Fail(403, Deactivated);
      }
      if !ComparePassword(user, b.password.value, matches) {
        return Fail(401, InvalidCredentials);
      }
      LoginKeepsInvariant(docs, b, matches, now);
      LoginKeepsDistinctIds(docs, b, matches, now);
      user := user.(lastLogin := Some(now));
      user := PreSave(user, false, NoHash());
      docs := docs[k := user];
      reply := Reply(200, "Login successful", Some(ToJSON(user)), Some(user.id));
    }
  }
}
