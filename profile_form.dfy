/** The profile page's validateForm and formatDuration
    (frontend/src/components/User/Profile.jsx). */
module ProfileForm {
  import opened Wrappers
  import opened Lists
  import opened Text
  import opened GameRoutes
  import opened AuthRoutes

  datatype Form = Form(username: string, email: string, currentPassword: string, newPassword: string, confirmPassword: string)

  /** The keys of the `newErrors` object. */
  datatype Key = Username | Email | CurrentPassword | NewPassword | ConfirmPassword

  /** The conditions under which validateForm records nothing: a non-blank username of 3
      to 20 characters, a non-blank e-mail matching the loose pattern, and, only when a new
      password is typed, a current password, a new one of at least 6 characters and a
      matching confirmation. */
  predicate FormValid(f: Form) {
    !IsBlank(f.username) && 3 <= |f.username| <= 20
    && !IsBlank(f.email) && LooseEmail(f.email)
    && (f.newPassword != "" ==> f.currentPassword != "" && |f.newPassword| >= 6 && f.confirmPassword == f.newPassword)
  }

  /** validateForm: the username and e-mail get at most one message each from an
      if/else-if chain; the three password checks run only with a new password, and
      independently of each other, so any of them may fail together. */
  method ValidateForm(f: Form) returns (errors: map<Key, string>, ok: bool)
    ensures (Username in errors) <==> IsBlank(f.username) || !(3 <= |f.username| <= 20)
    ensures IsBlank(f.username) ==> errors[Username] == "Username is required"
    ensures !IsBlank(f.username) && |f.username| < 3 ==> errors[Username] == "Username must be at least 3 characters"
    ensures !IsBlank(f.username) && |f.username| > 20 ==> errors[Username] == "Username must not exceed 20 characters"
    ensures (Email in errors) <==> IsBlank(f.email) || !LooseEmail(f.email)
    ensures IsBlank(f.email) ==> errors[Email] == "Email is required"
    ensures !IsBlank(f.email) && !LooseEmail(f.email) ==> errors[Email] == "Please enter a valid email"
    ensures (CurrentPassword in errors) <==> f.newPassword != "" && f.currentPassword == ""
    ensures CurrentPassword in errors ==> errors[CurrentPassword] == "Current password is required to change password"
    ensures (NewPassword in errors) <==> f.newPassword != "" && |f.newPassword| < 6
    ensures NewPassword in errors ==> errors[NewPassword] == "New password must be at least 6 characters"
    ensures (ConfirmPassword in errors) <==> f.newPassword != "" && f.confirmPassword != f.newPassword
    ensures ConfirmPassword in errors ==> errors[ConfirmPassword] == "Passwords do not match"
    ensures ok <==> |errors| == 0
    ensures ok <==> FormValid(f)
  {
    errors := UsernameChecks(f.username);
    errors := EmailChecks(f.email, errors);
    errors := PasswordChecks(f, errors);
    ok := |errors| == 0;
    if ok {
      assert Username !in errors && Email !in errors;
      assert CurrentPassword !in errors && NewPassword !in errors && ConfirmPassword !in errors;
    } else {
      assert errors.Keys != {};
      var k :| k in errors;
    }
  }

  /** The username block: blank after trimming, then shorter than 3, then longer than 20
      (so 20 characters pass). */
  method UsernameChecks(u: string) returns (errors: map<Key, string>)
    ensures errors.Keys <= {Username}
    ensures (Username in errors) <==> IsBlank(u) || !(3 <= |u| <= 20)
    ensures IsBlank(u) ==> errors[Username] == "Username is required"
    ensures !IsBlank(u) && |u| < 3 ==> errors[Username] == "Username must be at least 3 characters"
    ensures !IsBlank(u) && |u| > 20 ==> errors[Username] == "Username must not exceed 20 characters"
  {
    TrimEmptyIffBlank(u);
    errors := map[];
    if Trim(u) == "" {
      errors := errors[Username := "Username is required"];
    } else if |u| < 3 {
      errors := errors[Username := "Username must be at least 3 characters"];
    } else if |u| > 20 {
      errors := errors[Username := "Username must not exceed 20 characters"];
    }
  }

  /** The e-mail block: blank after trimming, then not matching the loose pattern. */
  method EmailChecks(m: string, before: map<Key, string>) returns (after: map<Key, string>)
    requires before.Keys <= {Username}
    ensures after.Keys <= {Username, Email}
    ensures (Username in after) == (Username in before)
    ensures Username in before ==> after[Username] == before[Username]
    ensures (Email in after) <==> IsBlank(m) || !LooseEmail(m)
    ensures IsBlank(m) ==> after[Email] == "Email is required"
    ensures !IsBlank(m) && !LooseEmail(m) ==> after[Email] == "Please enter a valid email"
  {
    TrimEmptyIffBlank(m);
    after := before;
    if Trim(m) == "" {
      after := after[Email := "Email is required"];
    } else if !LooseEmail(m) {
      after := after[Email := "Please enter a valid email"];
    }
  }

  /** The password block of validateForm, run only when a new password is typed; it
      leaves the username and e-mail entries as they were. */
  method PasswordChecks(f: Form, before: map<Key, string>) returns (after: map<Key, string>)
    requires before.Keys <= {Username, Email}
    ensures after.Keys <= {Username, Email, CurrentPassword, NewPassword, ConfirmPassword}
    ensures (Username in after) == (Username in before) && (Email in after) == (Email in before)
    ensures Username in before ==> after[Username] == before[Username]
    ensures Email in before ==> after[Email] == before[Email]
    ensures (CurrentPassword in after) <==> f.newPassword != "" && f.currentPassword == ""
    ensures CurrentPassword in after ==> after[CurrentPassword] == "Current password is required to change password"
    ensures (NewPassword in after) <==> f.newPassword != "" && |f.newPassword| < 6
    ensures NewPassword in after ==> after[NewPassword] == "New password must be at least 6 characters"
    ensures (ConfirmPassword in after) <==> f.newPassword != "" && f.confirmPassword != f.newPassword
    ensures ConfirmPassword in after ==> after[ConfirmPassword] == "Passwords do not match"
  {
    after := before;
    if f.newPassword != "" {
      if f.currentPassword == "" {
        after := after[CurrentPassword := "Current password is required to change password"];
      }
      if |f.newPassword| < 6 {
        after := after[NewPassword := "New password must be at least 6 characters"];
      }
      if f.newPassword != f.confirmPassword {
        after := after[ConfirmPassword := "Passwords do not match"];
      }
    }
  }

  /** A form the page accepts passes every check of PUT /update-profile that does not
      depend on stored data: the only refusals left are a name or address another user
      holds and a wrong current password. */
  lemma AcceptedFormPassesUpdate(f: Form, directory: seq<Entry>, id: string, oldUsername: string, oldEmail: string, passwordMatches: bool)
    requires FormValid(f)
    ensures var e := ProfileUpdateError(directory, id, oldUsername, oldEmail, passwordMatches, f.username, f.email, f.currentPassword, f.newPassword);
      e.None? || e == Some(HttpError(400, "Username already taken")) || e == Some(HttpError(400, "Email already taken"))
      || e == Some(HttpError(400, "Current password is incorrect"))
    ensures ProfileUpdateError(directory, id, oldUsername, oldEmail, passwordMatches, f.username, f.email, f.currentPassword, f.newPassword).None?
      <==> (f.username == oldUsername || !UsernameTaken(directory, id, f.username))
           && (f.email == oldEmail || !EmailTaken(directory, id, f.email))
           && (f.newPassword != "" ==> passwordMatches)
  {
  }

  // ---------------------------------------------------------------------------------------
  // formatDuration

  /** formatDuration for a whole number of seconds: "0s" for none, "<s>s" under a minute,
      and "<minutes>m <seconds>s" from a minute on. */
  function FormatDuration(seconds: nat): (t: string)
    ensures |t| >= 2 && t[|t| - 1] == 's'
    ensures ('m' in t) <==> seconds >= 60
    ensures seconds < 60 ==> t == NatToString(seconds) + "s"
    ensures seconds >= 60 ==> t == NatToString(seconds / 60) + "m " + NatToString(seconds % 60) + "s"
  {
    if seconds == 0 then "0s"
    else
      var mins := seconds / 60;
      var secs := seconds % 60;
      if mins > 0 then
        var m := NatToString(mins);
        var out := m + "m " + NatToString(secs) + "s";
        assert out[|m|] == 'm';
        out
      else
        var digits := NatToString(secs);
        assert 'm' !in digits by { assert forall k :: 0 <= k < |digits| ==> digits[k] != 'm'; }
        digits + "s"
  }

  predicate IsMinuteMark(c: char) { c == 'm' }

  /** Reads a duration back: digits then "s", or digits, "m ", digits and "s" with fewer
      than 60 seconds. */
  function ParseDuration(t: string): Option<nat> {
    if |t| == 0 || t[|t| - 1] != 's' then None
    else
      var body := t[..|t| - 1];
      match FirstIndex(body, IsMinuteMark)
      case None =>
        if |body| > 0 && AllDigits(body) then Some(ParseDigits(body)) else None
      case Some(k) =>
        var mins := body[..k];
        var rest := body[k + 1..];
        if |mins| > 0 && AllDigits(mins) && |rest| > 1 && rest[0] == ' ' && AllDigits(rest[1..])
           && ParseDigits(rest[1..]) < 60
        then Some(ParseDigits(mins) * 60 + ParseDigits(rest[1..]))
        else None
  }

  /** A rendered duration reads back as the number of seconds it was made from, so no two
      durations render alike. */
  lemma ParseFormatDuration(seconds: nat)
    ensures ParseDuration(FormatDuration(seconds)) == Some(seconds)
  {
    if seconds < 60 {
      ParseSeconds(seconds);
    } else {
      ParseMinutes(seconds);
    }
  }

  /** Under a minute the rendering is the digits of the seconds and "s". */
  lemma ParseSeconds(seconds: nat)
    requires seconds < 60
    ensures ParseDuration(FormatDuration(seconds)) == Some(seconds)
  {
    var t := FormatDuration(seconds);
    assert t == NatToString(seconds) + "s";
    var body := t[..|t| - 1];
    assert body == NatToString(seconds);
    FirstIndexNone(body, IsMinuteMark);
    ParseNatToString(seconds);
  }

  /** From a minute on the rendering is the minutes, "m ", the seconds and "s". */
  lemma ParseMinutes(seconds: nat)
    requires seconds >= 60
    ensures ParseDuration(FormatDuration(seconds)) == Some(seconds)
  {
    var m := NatToString(seconds / 60);
    var r := NatToString(seconds % 60);
    var t := FormatDuration(seconds);
    assert t == m + "m " + r + "s";
    var body := t[..|t| - 1];
    assert body == m + "m " + r;
    FirstIndexIs(body, IsMinuteMark, |m|);
    assert body[..|m|] == m;
    assert body[|m| + 1..][1..] == r;
    ParseNatToString(seconds / 60);
    ParseNatToString(seconds % 60);
  }

  /** Rendering is one-to-one. */
  lemma FormatDurationInjective(a: nat, b: nat)
    requires FormatDuration(a) == FormatDuration(b)
    ensures a == b
  {
    ParseFormatDuration(a);
    ParseFormatDuration(b);
  }
}
