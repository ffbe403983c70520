/**
 * The sign-up form: its field record and `handleChange`, the ordered checks
 * `handleSubmit` makes before it calls the API, the payload it sends, and the
 * `error`/`success`/`loading` state it leaves behind.
 */
module Signup {
  import opened Common

  /** The form's named inputs; `handleChange` writes the one named by the event. */
  datatype Field = Role | Username | Password | ConfirmPassword | Name | Email | Phone | StudentId | LicenseNumber

  datatype FormData = FormData(role: string, username: string, password: string, confirmPassword: string,
                               name: string, email: string, phone: string, studentId: string,
                               licenseNumber: string)

  /** The form as first rendered: a student with every text input empty. */
  const InitialForm := FormData("student", "", "", "", "", "", "", "", "")

  function Get(f: FormData, field: Field): string
  {
    match field
    case Role => f.role
    case Username => f.username
    case Password => f.password
    case ConfirmPassword => f.confirmPassword
    case Name => f.name
    case Email => f.email
    case Phone => f.phone
    case StudentId => f.studentId
    case LicenseNumber => f.licenseNumber
  }

  /** `handleChange`: the named input takes the value, and every other input keeps its own. */
  function HandleChange(f: FormData, field: Field, value: string): (g: FormData)
    ensures Get(g, field) == value
    ensures forall other :: other != field ==> Get(g, other) == Get(f, other)
  {
    match field
    case Role => f.(role := value)
    case Username => f.(username := value)
    case Password => f.(password := value)
    case ConfirmPassword => f.(confirmPassword := value)
    case Name => f.(name := value)
    case Email => f.(email := value)
    case Phone => f.(phone := value)
    case StudentId => f.(studentId := value)
    case LicenseNumber => f.(licenseNumber := value)
  }

  /** A change writes the field and nothing else, so two changes to different fields commute. */
  lemma ChangesCommute(f: FormData, a: Field, x: string, b: Field, y: string)
    requires a != b
    ensures HandleChange(HandleChange(f, a, x), b, y) == HandleChange(HandleChange(f, b, y), a, x)
  {
    var g := HandleChange(HandleChange(f, a, x), b, y);
    var h := HandleChange(HandleChange(f, b, y), a, x);
    assert forall field :: Get(g, field) == Get(h, field);
    assert g.role == Get(g, Role) == Get(h, Role) == h.role;
    assert g.username == Get(g, Username) == Get(h, Username) == h.username;
    assert g.password == Get(g, Password) == Get(h, Password) == h.password;
    assert g.confirmPassword == Get(g, ConfirmPassword) == Get(h, ConfirmPassword) == h.confirmPassword;
    assert g.name == Get(g, Name) == Get(h, Name) == h.name;
    assert g.email == Get(g, Email) == Get(h, Email) == h.email;
    assert g.phone == Get(g, Phone) == Get(h, Phone) == h.phone;
    assert g.studentId == Get(g, StudentId) == Get(h, StudentId) == h.studentId;
    assert g.licenseNumber == Get(g, LicenseNumber) == Get(h, LicenseNumber) == h.licenseNumber;
  }

  const PasswordMismatch := "Passwords do not match"
  const PasswordTooShort := "Password must be at least 6 characters long"
  const StudentIdMissing := "Student ID is required for students"
  const LicenseMissing := "License number is required for drivers"

  /** The checks of `handleSubmit`, in order: the first one that fails gives the error. */
  function Validate(f: FormData): Option<string>
  {
    if f.password != f.confirmPassword then Some(PasswordMismatch)
    else if |f.password| < 6 then Some(PasswordTooShort)
    else if f.role == "student" && f.studentId == "" then Some(StudentIdMissing)
    else if f.role == "driver" && f.licenseNumber == "" then Some(LicenseMissing)
    else None
  }

  /** Each message appears exactly when every earlier check passed and its own failed. */
  lemma ValidationOrder(f: FormData)
    ensures Validate(f) == Some(PasswordMismatch) <==> f.password != f.confirmPassword
    ensures Validate(f) == Some(PasswordTooShort) <==> f.password == f.confirmPassword && |f.password| < 6
    ensures Validate(f) == Some(StudentIdMissing) <==>
      (f.password == f.confirmPassword && |f.password| >= 6 && f.role == "student" && f.studentId == "")
    ensures Validate(f) == Some(LicenseMissing) <==>
      (f.password == f.confirmPassword && |f.password| >= 6 && f.role == "driver" && f.licenseNumber == "")
    ensures Validate(f) == None <==>
      (f.password == f.confirmPassword && |f.password| >= 6 &&
       (f.role == "student" ==> f.studentId != "") && (f.role == "driver" ==> f.licenseNumber != ""))
  {
  }

  /** The untouched form is refused, and for the first reason: its empty password is too short. */
  lemma InitialFormRefused()
    ensures Validate(InitialForm) == Some(PasswordTooShort)
  {
  }

  /** The keys every payload carries. */
  const BaseKeys: set<string> := {"username", "password", "role", "name", "email", "phone"}

  /** The `userData` object `handleSubmit` sends. */
  function Payload(f: FormData): map<string, string>
  {
    var base := map["username" := f.username, "password" := f.password, "role" := f.role,
                    "name" := f.name, "email" := f.email, "phone" := f.phone];
    if f.role == "student" then base["studentId" := f.studentId]
    else if f.role == "driver" then base["licenseNumber" := f.licenseNumber]
    else base
  }

  /**
   * The payload holds the six base fields, `studentId` exactly for a student
   * and `licenseNumber` exactly for a driver, each copied from its input,
   * and never the confirmation.
   */
  lemma PayloadShape(f: FormData)
    ensures BaseKeys <= Payload(f).Keys
    ensures "studentId" in Payload(f) <==> f.role == "student"
    ensures "licenseNumber" in Payload(f) <==> f.role == "driver"
    ensures Payload(f).Keys <= BaseKeys + {"studentId", "licenseNumber"}
    ensures "confirmPassword" !in Payload(f)
    ensures Payload(f)["username"] == f.username && Payload(f)["password"] == f.password
    ensures Payload(f)["role"] == f.role && Payload(f)["name"] == f.name
    ensures Payload(f)["email"] == f.email && Payload(f)["phone"] == f.phone
    ensures "studentId" in Payload(f) ==> Payload(f)["studentId"] == f.studentId
    ensures "licenseNumber" in Payload(f) ==> Payload(f)["licenseNumber"] == f.licenseNumber
  {
  }

  /** The confirmation never reaches the server: changing it changes no payload. */
  lemma PayloadIgnoresConfirmation(f: FormData, value: string)
    ensures Payload(HandleChange(f, ConfirmPassword, value)) == Payload(f)
  {
  }

  /**
   * How the `register` call settles: resolved, rejected with an error message
   * ("" when it has none), or never made because `authAPI` has no `register`
   * member, so that evaluating the call throws a `TypeError` before any payload
   * is handed over. The last is what the repository's `authAPI` does.
   */
  datatype RegisterOutcome = Registered | RegisterError(message: string) | RegisterMissing

  const SuccessMessage := "Account created successfully! Redirecting to login..."
  const FallbackError := "Registration failed. Please try again."
  const MissingRegisterError := "authAPI.register is not a function"

  class SignupState {
    var formData: FormData
    var loading: bool
    var error: string
    var success: string
    /** The payloads handed to `register`, oldest first. */
    var submitted: seq<map<string, string>>
    /** Where the pending timer will navigate, if one was set. */
    var navigation: Option<string>

    constructor ()
      ensures formData == InitialForm && !loading && error == "" && success == ""
      ensures submitted == [] && navigation == None
    {
      formData := InitialForm;
      loading := false;
      error := "";
      success := "";
      submitted := [];
      navigation := None;
    }

    /** An input's change event. */
    method Change(field: Field, value: string)
      modifies this`formData
      ensures formData == HandleChange(old(formData), field, value)
    {
      formData := HandleChange(formData, field, value);
    }

    /**
     * `handleSubmit`: clears both messages, stops at the first failed check
     * before loading starts and before anything is sent, and otherwise sends
     * the payload and reports how `register` settled.
     */
    method HandleSubmit(outcome: RegisterOutcome)
      modifies this`loading, this`error, this`success, this`submitted, this`navigation
      ensures Validate(formData).Some? ==>
        (error == Validate(formData).value && success == "" && loading == old(loading) &&
         submitted == old(submitted) && navigation == old(navigation))
      ensures Validate(formData).None? ==> !loading
      ensures Validate(formData).None? && !outcome.RegisterMissing? ==>
        submitted == old(submitted) + [Payload(formData)]
      ensures Validate(formData).None? && outcome == Registered ==>
        (success == SuccessMessage && error == "" && navigation == Some("/"))
      ensures Validate(formData).None? && outcome.RegisterError? ==>
        (success == "" && navigation == old(navigation) &&
         error == (if outcome.message != "" then outcome.message else FallbackError))
      ensures Validate(formData).None? && outcome == RegisterMissing ==>
        (success == "" && navigation == old(navigation) && submitted == old(submitted) &&
         error == MissingRegisterError)
    {
      error := "";
      success := "";
      var check := Validate(formData);
      if check.Some? {
        error := check.value;
        return;
      }
      loading := true;
      if outcome != RegisterMissing {
        submitted := submitted + [Payload(formData)];
      }
      match outcome {
        case Registered =>
          success := SuccessMessage;
          navigation := Some("/");
        case RegisterError(message) =>
          error := if message != "" then message else FallbackError;
        case RegisterMissing =>
          error := MissingRegisterError;
      }
      loading := false;
    }
  }

  /** After any submission one message at most is shown, and an error is never empty. */
  method SubmitShowsOneMessage(s: SignupState, outcome: RegisterOutcome)
    modifies s
    ensures s.error == "" || s.success == ""
    ensures Validate(s.formData).Some? || !outcome.Registered? ==> s.error != ""
  {
    s.HandleSubmit(outcome);
  }

  /**
   * A submission in the repository as it stands, where `authAPI` has no
   * `register`: no payload is ever sent, no success is shown, no navigation is
   * scheduled, and an error is always on screen.
   */
  method SubmitAsWritten(s: SignupState)
    modifies s
    ensures s.submitted == old(s.submitted) && s.navigation == old(s.navigation)
    ensures s.success == "" && s.error != ""
  {
    s.HandleSubmit(RegisterMissing);
  }
}
