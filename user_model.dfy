/**
 * The `User` schema: what the setters do to a new document's fields (trim,
 * lower-case, defaults), which validators fail and with which message, the
 * e-mail pattern, the pre-save password hashing gate and `toJSON`.
 */
module UserModel {
  import opened Common

  // ---------------------------------------------------------------------------
  // Normalisation

  /** What the `trim` and `lowercase` setters leave of a string. */
  function Normalize(s: string): string
  {
    ToLower(Trim(s))
  }

  lemma {:induction false} TrimStartLower(s: string)
    ensures TrimStart(ToLower(s)) == ToLower(TrimStart(s))
  {
    if |s| > 0 {
      assert ToLower(s)[1..] == ToLower(s[1..]);
      assert IsWhitespace(ToLower(s)[0]) == IsWhitespace(s[0]);
      TrimStartLower(s[1..]);
    }
  }

  lemma {:induction false} TrimEndLower(s: string)
    ensures TrimEnd(ToLower(s)) == ToLower(TrimEnd(s))
  {
    if |s| > 0 {
      assert ToLower(s)[..|s| - 1] == ToLower(s[..|s| - 1]);
      assert IsWhitespace(ToLower(s)[|s| - 1]) == IsWhitespace(s[|s| - 1]);
      TrimEndLower(s[..|s| - 1]);
    }
  }

  /** The two setters commute, so the order in which they run does not matter. */
  lemma NormalizeOrderIrrelevant(s: string)
    ensures Trim(ToLower(s)) == Normalize(s)
  {
    TrimStartLower(s);
    TrimEndLower(TrimStart(s));
  }

  /** A normalised string is trimmed, lower-case and stable under normalising again. */
  lemma NormalizeIdempotent(s: string)
    ensures Normalize(Normalize(s)) == Normalize(s)
  {
    var t := Trim(s);
    TrimIdempotent(s);
    NormalizeOrderIrrelevant(ToLower(t));
    ToLowerIdempotent(t);
    TrimEndLower(TrimStart(t));
    TrimStartLower(t);
  }

  // ---------------------------------------------------------------------------
  // The e-mail pattern /^\S+@\S+\.\S+$/

  /**
   * The pattern as a statement about positions: no whitespace anywhere, an '@'
   * with something before it, and a later '.' with something on both sides.
   */
  predicate EmailPattern(s: string)
  {
    NoWhitespace(s) &&
    exists i, j | 0 < i < j < |s| :: s[i] == '@' && s[j] == '.' && i + 2 <= j <= |s| - 2
  }

  /** The first '@' at or after `from`. */
  function FirstAt(s: string, from: nat): (r: Option<nat>)
    decreases |s| - from
    ensures r.Some? ==> from <= r.value < |s| && s[r.value] == '@'
    ensures r.Some? ==> forall k :: from <= k < r.value ==> s[k] != '@'
    ensures r.None? ==> forall k :: from <= k < |s| ==> s[k] != '@'
  {
    if from >= |s| then None
    else if s[from] == '@' then Some(from)
    else FirstAt(s, from + 1)
  }

  /** The last '.' before position `upto`. */
  function LastDot(s: string, upto: nat): (r: Option<nat>)
    requires upto <= |s|
    ensures r.Some? ==> r.value < upto && s[r.value] == '.'
    ensures r.Some? ==> forall k :: r.value < k < upto ==> s[k] != '.'
    ensures r.None? ==> forall k :: 0 <= k < upto ==> s[k] != '.'
  {
    if upto == 0 then None
    else if s[upto - 1] == '.' then Some(upto - 1)
    else LastDot(s, upto - 1)
  }

  /** A direct check of the pattern: the earliest usable '@' and the latest usable '.'. */
  predicate EmailAccepted(s: string)
  {
    NoWhitespace(s) && |s| >= 2 &&
    match (FirstAt(s, 1), LastDot(s, |s| - 1))
    case (Some(i), Some(j)) => i + 2 <= j
    case _ => false
  }

  /** The direct check accepts exactly the strings the pattern matches. */
  lemma EmailAcceptedIff(s: string)
    ensures EmailAccepted(s) <==> EmailPattern(s)
  {
    if EmailPattern(s) {
      var i, j :| 0 < i < j < |s| && s[i] == '@' && s[j] == '.' && i + 2 <= j <= |s| - 2;
      var a := FirstAt(s, 1);
      var d := LastDot(s, |s| - 1);
      assert a.Some? && a.value <= i;
      assert d.Some? && d.value >= j;
    }
    if EmailAccepted(s) {
      var i := FirstAt(s, 1).value;
      var j := LastDot(s, |s| - 1).value;
      assert 0 < i < j < |s| && s[i] == '@' && s[j] == '.' && i + 2 <= j <= |s| - 2;
    }
  }

  lemma EmailExamples()
    ensures EmailAccepted("a@b.c")
    ensures !EmailAccepted("@b.c") && !EmailAccepted("a@.c") && !EmailAccepted("a@b.")
    ensures !EmailAccepted("a @b.c")
    ensures EmailAccepted("a@b@c.d.e")
  {
    assert FirstAt("a@b.c", 1) == Some(1);
    assert LastDot("a@b.c", 4) == Some(3);
    assert FirstAt("a@b@c.d.e", 1) == Some(1);
    assert LastDot("a@b@c.d.e", 8) == Some(7);
    assert LastDot("@b.c", 3) == Some(2);
    assert FirstAt("@b.c", 1) == None;
    assert FirstAt("a@.c", 1) == Some(1);
    assert LastDot("a@.c", 3) == Some(2);
    assert LastDot("a@b.", 3) == None;
    assert IsWhitespace("a @b.c"[1]);
  }

  // ---------------------------------------------------------------------------
  // A new document

  /** The fields handed to `new User(...)`; `None` for a key that is absent. */
  datatype UserFields = UserFields(
    username: Option<string>, password: Option<string>, role: Option<string>, name: Option<string>,
    email: Option<string>, phone: Option<string>, studentId: Option<string>, busId: Option<string>,
    licenseNumber: Option<string>, assignedBusId: Option<string>)

  /** A document before validation: setters applied and defaults filled. */
  datatype Candidate = Candidate(
    username: Option<string>, password: Option<string>, role: string, name: Option<string>,
    email: Option<string>, phone: Option<string>, studentId: Option<string>, busId: Option<string>,
    licenseNumber: Option<string>, assignedBusId: Option<string>, isActive: bool)

  function MapOption(o: Option<string>, f: string -> string): Option<string>
  {
    match o case None => None case Some(s) => Some(f(s))
  }

  const Roles: set<string> := {"student", "driver", "admin"}

  /** `new User(fields)`: the setters of each path and the defaults of `role` and `isActive`. */
  function NewUser(f: UserFields): (c: Candidate)
    ensures c.username == MapOption(f.username, Normalize)
    ensures c.name == MapOption(f.name, Trim) && c.phone == MapOption(f.phone, Trim)
    ensures c.email == MapOption(f.email, Normalize)
    ensures c.role == (if f.role.Some? then f.role.value else "student")
    ensures c.isActive
    ensures c.password == f.password && c.studentId == f.studentId && c.licenseNumber == f.licenseNumber
  {
    Candidate(MapOption(f.username, Normalize), f.password,
              if f.role.Some? then f.role.value else "student",
              MapOption(f.name, Trim), MapOption(f.email, Normalize), MapOption(f.phone, Trim),
              f.studentId, f.busId, f.licenseNumber, f.assignedBusId, true)
  }

  /** A failed validator: the path and the schema's message. */
  datatype PathError = PathError(path: string, message: string)

  /** The `required` check of a string path: absent and empty both fail. */
  predicate Missing(v: Option<string>)
  {
    v.None? || v.value == ""
  }

  function UsernameError(c: Candidate): Option<PathError>
  {
    if Missing(c.username) then Some(PathError("username", "Username is required"))
    else if |c.username.value| < 3 then Some(PathError("username", "Username must be at least 3 characters long"))
    else None
  }

  function PasswordError(c: Candidate): Option<PathError>
  {
    if Missing(c.password) then Some(PathError("password", "Password is required"))
    else if |c.password.value| < 6 then Some(PathError("password", "Password must be at least 6 characters long"))
    else None
  }

  function RoleError(c: Candidate): Option<PathError>
  {
    if c.role == "" then Some(PathError("role", "Role is required"))
    else if c.role !in Roles then
      Some(PathError("role", "`" + c.role + "` is not a valid enum value for path `role`."))
    else None
  }

  function NameError(c: Candidate): Option<PathError>
  {
    if Missing(c.name) then Some(PathError("name", "Name is required")) else None
  }

  /** The `match` validator skips an absent or empty value. */
  function EmailError(c: Candidate): Option<PathError>
  {
    if Missing(c.email) || EmailAccepted(c.email.value) then None
    else Some(PathError("email", "Please enter a valid email"))
  }

  function AsList(e: Option<PathError>): seq<PathError>
  {
    match e case None => [] case Some(x) => [x]
  }

  /** Every failing path, in schema order, each with its first failing validator. */
  function ValidationErrors(c: Candidate): seq<PathError>
  {
    AsList(UsernameError(c)) + AsList(PasswordError(c)) + AsList(RoleError(c)) +
    AsList(NameError(c)) + AsList(EmailError(c))
  }

  /** A candidate passes validation exactly when it satisfies every constraint of the schema. */
  predicate Acceptable(c: Candidate)
  {
    && c.username.Some? && |c.username.value| >= 3
    && c.password.Some? && |c.password.value| >= 6
    && c.role in Roles
    && c.name.Some? && c.name.value != ""
    && (c.email.Some? && c.email.value != "" ==> EmailPattern(c.email.value))
  }

  lemma ValidationErrorsIff(c: Candidate)
    ensures ValidationErrors(c) == [] <==> Acceptable(c)
  {
    if c.email.Some? {
      EmailAcceptedIff(c.email.value);
    }
  }

  /** A missing role takes the default, and the default passes the enum check. */
  lemma RoleDefault(f: UserFields)
    requires f.role.None?
    ensures NewUser(f).role == "student" && RoleError(NewUser(f)) == None
  {
  }

  /** An empty or absent e-mail is never an error; a given one is an error iff the pattern fails. */
  lemma EmailOptional(f: UserFields)
    ensures Missing(NewUser(f).email) ==> EmailError(NewUser(f)) == None
    ensures !Missing(NewUser(f).email) ==>
      (EmailError(NewUser(f)).Some? <==> !EmailPattern(Normalize(f.email.value)))
  {
    if f.email.Some? {
      EmailAcceptedIff(Normalize(f.email.value));
    }
  }

  /** A whitespace-only username is stored as "" and so fails `required`, not `minlength`. */
  lemma BlankUsernameRequired(f: UserFields)
    requires f.username.Some? && AllWhitespace(f.username.value)
    ensures UsernameError(NewUser(f)) == Some(PathError("username", "Username is required"))
  {
    TrimEmptyIff(f.username.value);
  }

  /** "User validation failed: path: message, path: message". */
  function ValidationMessage(errors: seq<PathError>): string
    requires |errors| >= 1
  {
    "User validation failed: " + JoinErrors(errors)
  }

  function JoinErrors(errors: seq<PathError>): string
    requires |errors| >= 1
  {
    var head := errors[0].path + ": " + errors[0].message;
    if |errors| == 1 then head else head + ", " + JoinErrors(errors[1..])
  }

  // ---------------------------------------------------------------------------
  // A stored document

  datatype UserDoc = UserDoc(
    id: nat, username: string, password: string, role: string, name: string,
    email: Option<string>, phone: Option<string>, studentId: Option<string>, busId: Option<string>,
    licenseNumber: Option<string>, assignedBusId: Option<string>, isActive: bool, lastLogin: Option<nat>)

  /** The stored form of an acceptable candidate: its password not yet hashed. */
  function Materialize(c: Candidate, id: nat): (d: UserDoc)
    requires ValidationErrors(c) == []
    ensures c.username == Some(d.username) && c.password == Some(d.password) && d.role == c.role
    ensures |d.username| >= 3 && |d.password| >= 6 && d.role in Roles && d.name != ""
    ensures d.isActive == c.isActive && d.lastLogin == None && d.id == id
  {
    ValidationErrorsIff(c);
    UserDoc(id, c.username.value, c.password.value, c.role, c.name.value, c.email, c.phone,
            c.studentId, c.busId, c.licenseNumber, c.assignedBusId, c.isActive, None)
  }

  /** The pre-save hook: hashes the password only when it was modified. */
  function PreSave(d: UserDoc, passwordModified: bool, hash: string -> string): (e: UserDoc)
    ensures !passwordModified ==> e == d
    ensures passwordModified ==> e == d.(password := hash(d.password))
  {
    if !passwordModified then d else d.(password := hash(d.password))
  }

  /** Saving an unmodified password any number of times never rehashes it. */
  lemma PreSaveUnmodifiedStable(d: UserDoc, hash: string -> string)
    ensures PreSave(PreSave(d, false, hash), false, hash) == d
    ensures PreSave(d, false, hash).password == d.password
  {
  }

  /** Hashing touches nothing but the password, so the public form of a document is the same before and after a save. */
  lemma PreSaveKeepsPublicForm(d: UserDoc, passwordModified: bool, hash: string -> string)
    ensures ToJSON(PreSave(d, passwordModified, hash)) == ToJSON(d)
    ensures PreSave(d, passwordModified, hash).password == if passwordModified then hash(d.password) else d.password
  {
  }

  /** `user.comparePassword(candidate)`, with bcrypt's comparison as `matches(candidate, hash)`. */
  function ComparePassword(d: UserDoc, candidate: string, matches: (string, string) -> bool): bool
  {
    matches(candidate, d.password)
  }

  /** `toJSON()`: every field but the password. */
  datatype PublicUser = PublicUser(
    id: nat, username: string, role: string, name: string,
    email: Option<string>, phone: Option<string>, studentId: Option<string>, busId: Option<string>,
    licenseNumber: Option<string>, assignedBusId: Option<string>, isActive: bool, lastLogin: Option<nat>)

  function ToJSON(d: UserDoc): PublicUser
  {
    PublicUser(d.id, d.username, d.role, d.name, d.email, d.phone, d.studentId, d.busId,
               d.licenseNumber, d.assignedBusId, d.isActive, d.lastLogin)
  }

  /** Puts a password back beside the public fields. */
  function WithPassword(p: PublicUser, password: string): UserDoc
  {
    UserDoc(p.id, p.username, password, p.role, p.name, p.email, p.phone, p.studentId, p.busId,
            p.licenseNumber, p.assignedBusId, p.isActive, p.lastLogin)
  }

  /** `toJSON` drops exactly the password: it is all `toJSON` loses. */
  lemma ToJSONDropsOnlyPassword(d: UserDoc)
    ensures WithPassword(ToJSON(d), d.password) == d
  {
  }

  /** The public form does not depend on the password. */
  lemma ToJSONHidesPassword(d: UserDoc, password: string)
    ensures ToJSON(d.(password := password)) == ToJSON(d)
  {
  }
}
