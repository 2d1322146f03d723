/** The request schemas of registration and login. */
module AuthValidation {
  import opened Wrappers
  import opened Zod
  import Text

  const UserNameTooShort := "Username must be at least 3 characters"
  const UserNameTooLong := "Username must not exceed 30 characters"
  const PasswordTooShort := "Password must be at least 6 characters"
  const PasswordTooLong := "Password must not exceed 100 characters"

  datatype Credentials = Credentials(email: string, password: string)
  datatype Registration = Registration(userName: string, email: string, password: string)

  /** `z.string().toLowerCase().trim()`, the e-mail normalisation of both schemas. */
  function NormaliseEmail(s: string): (r: string)
    ensures |r| <= |s|
  {
    Text.Trim(Text.ToLower(s))
  }

  /** Normalising a normalised e-mail changes nothing. */
  lemma NormaliseEmailIdempotent(s: string)
    ensures NormaliseEmail(NormaliseEmail(s)) == NormaliseEmail(s)
  {
    Text.LowerTrimIdempotent(s);
  }

  function Combine(p: Checked, q: Checked, r: Checked): set<Issue> {
    p.issues + q.issues + r.issues
  }

  /** `registerSchema`. The user name's length is checked before it is trimmed. */
  function RegisterSchema(userName: Value, email: Value, password: Value): (r: Result<Registration, set<Issue>>)
    ensures r.Ok? <==>
      && userName.Str? && 3 <= |userName.s| <= 30
      && email.Str?
      && password.Str? && 6 <= |password.s| <= 100
    ensures r.Ok? ==>
      r.value == Registration(Text.Trim(userName.s), NormaliseEmail(email.s), password.s)
    ensures !userName.Str? ==> r.Err? && Issue("body.userName", None, "Username is required") in r.error
    ensures !email.Str? ==> r.Err? && Issue("body.email", None, "Email is required") in r.error
    ensures !password.Str? ==> r.Err? && Issue("body.password", None, "Password is required") in r.error
    ensures userName.Str? && |userName.s| < 3 ==> r.Err? && Issue("body.userName", None, UserNameTooShort) in r.error
    ensures password.Str? && |password.s| < 6 ==> r.Err? && Issue("body.password", None, PasswordTooShort) in r.error
  {
    var u := StringField(userName, "body.userName", Some("Username is required"),
                         [MinLength(3, UserNameTooShort), MaxLength(30, UserNameTooLong), Trimmed]);
    var e := StringField(email, "body.email", Some("Email is required"), [Lowered, Trimmed]);
    var p := StringField(password, "body.password", Some("Password is required"),
                         [MinLength(6, PasswordTooShort), MaxLength(100, PasswordTooLong)]);
    assert userName.Str? ==> u == Checked(TooShort(userName.s, 3, "body.userName", UserNameTooShort)
                                          + TooLong(userName.s, 30, "body.userName", UserNameTooLong),
                                          Text.Trim(userName.s)) by {
      if userName.Str? { RunMinMaxTrim(userName.s, 3, UserNameTooShort, 30, UserNameTooLong, "body.userName"); }
    }
    assert email.Str? ==> e == Checked({}, NormaliseEmail(email.s)) by {
      if email.Str? { RunLowerTrim(email.s, "body.email"); }
    }
    assert password.Str? ==> p == Checked(TooShort(password.s, 6, "body.password", PasswordTooShort)
                                          + TooLong(password.s, 100, "body.password", PasswordTooLong),
                                          password.s) by {
      if password.Str? { RunMinMax(password.s, 6, PasswordTooShort, 100, PasswordTooLong, "body.password"); }
    }
    var issues := Combine(u, e, p);
    if issues == {} then Ok(Registration(u.value, e.value, p.value)) else Err(issues)
  }

  /** As written, a name of white space around fewer than three characters is accepted and
      stored shorter than three characters. */
  lemma PaddedShortUserNameAccepted()
    ensures var r := RegisterSchema(Str("  ab  "), Str("a@b.c"), Str("secret"));
      r.Ok? && r.value.userName == "ab"
  {
    PaddedTrim();
  }

  lemma PaddedTrim()
    ensures Text.Trim("  ab  ") == "ab"
  {
    assert "  ab  " == "  " + "ab" + "  ";
    Text.TrimPadded("  ", "ab", "  ");
  }

  /** The user-name field with the trim first, as its messages describe it. */
  function UserNameTrimFirst(userName: Value): (r: Result<string, set<Issue>>)
    ensures r.Ok? <==> userName.Str? && 3 <= |Text.Trim(userName.s)| <= 30
    ensures r.Ok? ==> r.value == Text.Trim(userName.s) && 3 <= |r.value| <= 30
  {
    var u := StringField(userName, "body.userName", Some("Username is required"),
                         [Trimmed, MinLength(3, UserNameTooShort), MaxLength(30, UserNameTooLong)]);
    assert userName.Str? ==> u == Checked(TooShort(Text.Trim(userName.s), 3, "body.userName", UserNameTooShort)
                                          + TooLong(Text.Trim(userName.s), 30, "body.userName", UserNameTooLong),
                                          Text.Trim(userName.s)) by {
      if userName.Str? { RunTrimMinMax(userName.s, 3, UserNameTooShort, 30, UserNameTooLong, "body.userName"); }
    }
    if u.issues == {} then Ok(u.value) else Err(u.issues)
  }

  /** With the trim first, an accepted user name is itself trimmed. */
  lemma UserNameTrimFirstIsTrimmed(userName: Value)
    requires UserNameTrimFirst(userName).Ok?
    ensures Text.Trim(UserNameTrimFirst(userName).value) == UserNameTrimFirst(userName).value
  {
    Text.TrimIdempotent(userName.s);
  }

  /** `loginSchema`. */
  function LoginSchema(email: Value, password: Value): (r: Result<Credentials, set<Issue>>)
    ensures r.Ok? <==> email.Str? && password.Str? && |password.s| >= 1
    ensures r.Ok? ==> r.value == Credentials(NormaliseEmail(email.s), password.s)
    ensures password.Str? && password.s == "" ==> r.Err? && Issue("body.password", None, "Password is required") in r.error
    ensures !password.Str? ==> r.Err? && Issue("body.password", None, "Password is required") in r.error
    ensures !email.Str? ==> r.Err? && Issue("body.email", None, "Email is required") in r.error
  {
    var e := StringField(email, "body.email", Some("Email is required"), [Lowered, Trimmed]);
    var p := StringField(password, "body.password", Some("Password is required"),
                         [MinLength(1, "Password is required")]);
    assert email.Str? ==> e == Checked({}, NormaliseEmail(email.s)) by {
      if email.Str? { RunLowerTrim(email.s, "body.email"); }
    }
    assert password.Str? ==> p == Checked(TooShort(password.s, 1, "body.password", "Password is required"), password.s) by {
      if password.Str? { RunMin(password.s, 1, "Password is required", "body.password"); }
    }
    var issues := e.issues + p.issues;
    if issues == {} then Ok(Credentials(e.value, p.value)) else Err(issues)
  }
}
