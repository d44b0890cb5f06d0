/** validateForm of the registration form (frontend/src/components/Auth/Register.jsx):
    one message at most per field, chosen by an if/else-if chain, and the form is valid
    exactly when no message was recorded. */
module RegisterForm {
  import opened Wrappers
  import opened Text
  import opened GameRoutes
  import opened AuthRoutes

  datatype Form = Form(username: string, email: string, password: string, confirmPassword: string)

  /** The keys of the `newErrors` object. */
  datatype Field = Username | Email | Password | ConfirmPassword

  /** The username must not be blank, must have 3 to 20 characters (20 included), and
      only letters, digits and underscores; the first failed test names the error. */
  function UsernameError(u: string): (e: Option<string>)
    ensures e.None? <==> !IsBlank(u) && 3 <= |u| <= 20 && IsWord(u)
    ensures IsBlank(u) ==> e == Some("Username is required")
    ensures !IsBlank(u) && |u| < 3 ==> e == Some("Username must be at least 3 characters")
    ensures !IsBlank(u) && |u| > 20 ==> e == Some("Username must be less than 20 characters")
    ensures !IsBlank(u) && 3 <= |u| <= 20 && !IsWord(u) ==>
      e == Some("Username can only contain letters, numbers, and underscores")
  {
    TrimEmptyIffBlank(u);
    if Trim(u) == "" then Some("Username is required")
    else if |u| < 3 then Some("Username must be at least 3 characters")
    else if |u| > 20 then Some("Username must be less than 20 characters")
    else if !IsWord(u) then Some("Username can only contain letters, numbers, and underscores")
    else None
  }

  /** The e-mail must not be blank and must match the anchored address pattern. */
  function EmailError(m: string): (e: Option<string>)
    ensures e.None? <==> !IsBlank(m) && StrictEmail(m)
    ensures IsBlank(m) ==> e == Some("Email is required")
    ensures !IsBlank(m) && !StrictEmail(m) ==> e == Some("Please enter a valid email address")
  {
    TrimEmptyIffBlank(m);
    if Trim(m) == "" then Some("Email is required")
    else if !StrictEmail(m) then Some("Please enter a valid email address")
    else None
  }

  /** The password is required and has at least 6 characters. */
  function PasswordError(p: string): (e: Option<string>)
    ensures e.None? <==> |p| >= 6
    ensures p == "" ==> e == Some("Password is required")
    ensures 0 < |p| < 6 ==> e == Some("Password must be at least 6 characters")
  {
    if p == "" then Some("Password is required")
    else if |p| < 6 then Some("Password must be at least 6 characters")
    else None
  }

  /** The confirmation is required and equals the password. */
  function ConfirmError(p: string, c: string): (e: Option<string>)
    ensures e.None? <==> c != "" && c == p
    ensures c == "" ==> e == Some("Please confirm your password")
    ensures c != "" && c != p ==> e == Some("Passwords do not match")
  {
    if c == "" then Some("Please confirm your password")
    else if p != c then Some("Passwords do not match")
    else None
  }

  const Fields: set<Field> := {Username, Email, Password, ConfirmPassword}

  lemma EveryFieldListed()
    ensures forall k: Field :: k in Fields
  {
    forall k: Field ensures k in Fields {
      match k
      case Username =>
      case Email =>
      case Password =>
      case ConfirmPassword =>
    }
  }

  /** The message the test of one field records, if its test fails. */
  function ErrorOf(f: Form, k: Field): Option<string> {
    match k
    case Username => UsernameError(f.username)
    case Email => EmailError(f.email)
    case Password => PasswordError(f.password)
    case ConfirmPassword => ConfirmError(f.password, f.confirmPassword)
  }

  /** The `newErrors` object validateForm fills: a field is present exactly when its test
      failed, and holds that test's message. */
  function Errors(f: Form): (m: map<Field, string>)
    ensures forall k :: k in m <==> ErrorOf(f, k).Some?
    ensures forall k :: k in m ==> m[k] == ErrorOf(f, k).value
  {
    EveryFieldListed();
    map k | k in Fields && ErrorOf(f, k).Some? :: ErrorOf(f, k).value
  }

  /** `Object.keys(newErrors).length === 0`. */
  function ValidateForm(f: Form): (ok: bool)
    ensures ok <==>
      !IsBlank(f.username) && 3 <= |f.username| <= 20 && IsWord(f.username)
      && !IsBlank(f.email) && StrictEmail(f.email)
      && |f.password| >= 6
      && f.confirmPassword == f.password
  {
    var m := Errors(f);
    if |m| == 0 then
      assert Username !in m && Email !in m && Password !in m && ConfirmPassword !in m;
      true
    else
      false
  }

  /** A form the page accepts passes every check POST /register makes of its own: the only
      refusal left is a username or e-mail already registered. */
  lemma AcceptedFormPassesRegister(f: Form, directory: seq<Entry>, newId: string)
    requires ValidateForm(f)
    ensures Register(directory, f.username, f.email, f.password, newId).Success?
      || Register(directory, f.username, f.email, f.password, newId)
         == Failure(HttpError(400, "User with this email or username already exists"))
    ensures Register(directory, f.username, f.email, f.password, newId).Success?
      <==> !Exists(directory, f.username, f.email)
  {
  }
}
