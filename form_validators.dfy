/** The sign-in and sign-up form schemas. The form always supplies strings; e-mail format is
    the abstract predicate `isEmail`. Length and format failures do not stop the
    object-level refinement, so a password mismatch is reported beside them. */
module FormValidators {
  import opened Wrappers
  import opened Zod

  const EmailInvalid := "Please enter a valid email address"
  const PasswordShort := "Password must be at least 6 characters long"
  const NameShort := "Name must be at least 3 characters long"
  const ConfirmShort := "Confirm Password must be at least 6 characters long"
  const Mismatch := "Passwords do not match"

  function Check(ok: bool, path: string, message: string): set<Issue> {
    if ok then {} else {Issue(path, None, message)}
  }

  /** `loginFormSchema`. */
  function LoginForm(email: string, password: string, isEmail: string -> bool): (r: set<Issue>)
    ensures r == {} <==> isEmail(email) && |password| >= 6
    ensures Issue("email", None, EmailInvalid) in r <==> !isEmail(email)
    ensures Issue("password", None, PasswordShort) in r <==> |password| < 6
  {
    Check(isEmail(email), "email", EmailInvalid) + Check(|password| >= 6, "password", PasswordShort)
  }

  /** `registerFormSchema`, its refinement reporting a mismatch on `confirmPassword`. */
  function RegisterForm(userName: string, email: string, password: string, confirmPassword: string,
                        isEmail: string -> bool): (r: set<Issue>)
    ensures r == {} <==>
      |userName| >= 3 && isEmail(email) && |password| >= 6 && |confirmPassword| >= 6 && password == confirmPassword
    ensures Issue("confirmPassword", None, Mismatch) in r <==> password != confirmPassword
    ensures Issue("userName", None, NameShort) in r <==> |userName| < 3
    ensures Issue("password", None, PasswordShort) in r <==> |password| < 6
    ensures Issue("confirmPassword", None, ConfirmShort) in r <==> |confirmPassword| < 6
    ensures forall i :: i in r ==> i.path in {"userName", "email", "password", "confirmPassword"}
  {
    Check(|userName| >= 3, "userName", NameShort)
    + Check(isEmail(email), "email", EmailInvalid)
    + Check(|password| >= 6, "password", PasswordShort)
    + Check(|confirmPassword| >= 6, "confirmPassword", ConfirmShort)
    + Check(password == confirmPassword, "confirmPassword", Mismatch)
  }

  /** Every password the sign-up form accepts is one the sign-in form accepts. */
  lemma RegisteredPasswordSignsIn(userName: string, email: string, password: string, isEmail: string -> bool)
    requires RegisterForm(userName, email, password, password, isEmail) == {}
    ensures LoginForm(email, password, isEmail) == {}
  {
  }
}
