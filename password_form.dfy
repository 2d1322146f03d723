/** The password-change form: an ordered chain of checks, only the first failure reported,
    and the form cleared after a successful change or a cancel. */
module PasswordChange {
  import opened Wrappers
  import Text

  const AllRequired := "All password fields are required"
  const TooShort := "New password must be at least 8 characters"
  const TooWeak := "Password must contain uppercase, lowercase, and numbers"
  const Mismatch := "Passwords do not match"
  const Updated := "Password updated successfully"
  const UpdateFailed := "Failed to update password"

  /** The line terminators, which `.` in a regular expression does not match. */
  predicate IsLineTerminator(c: char) {
    c == '\n' || c == '\r' || c == '\U{2028}' || c == '\U{2029}'
  }

  datatype CharClass = Lower | Upper | Digit

  predicate InClass(c: char, k: CharClass) {
    match k
    case Lower => Text.IsAsciiLower(c)
    case Upper => Text.IsAsciiUpper(c)
    case Digit => Text.IsAsciiDigit(c)
  }

  /** `(?=.*[class])` at position `p`: a character of the class later on the same line. */
  predicate Ahead(s: string, p: nat, k: CharClass) {
    exists j | p <= j < |s| :: InClass(s[j], k) && forall m | p <= m < j :: !IsLineTerminator(s[m])
  }

  /** `/(?=.*[a-z])(?=.*[A-Z])(?=.*\d)/.test(s)`: some position sees all three classes. */
  predicate Strong(s: string) {
    exists p | 0 <= p <= |s| :: Ahead(s, p, Lower) && Ahead(s, p, Upper) && Ahead(s, p, Digit)
  }

  predicate Has(s: string, k: CharClass) {
    exists i | 0 <= i < |s| :: InClass(s[i], k)
  }

  /** On a single line, the pattern holds exactly when the password has a lower-case letter,
      an upper-case letter and a digit. */
  lemma StrongOnOneLine(s: string)
    requires forall i | 0 <= i < |s| :: !IsLineTerminator(s[i])
    ensures Strong(s) <==> Has(s, Lower) && Has(s, Upper) && Has(s, Digit)
  {
    if Has(s, Lower) && Has(s, Upper) && Has(s, Digit) {
      assert Ahead(s, 0, Lower) && Ahead(s, 0, Upper) && Ahead(s, 0, Digit);
    }
  }

  /** The checks of `handleSubmit`, in order; `None` when all pass. */
  function FirstFailure(current: string, next: string, confirm: string): (r: Option<string>)
    ensures r.None? <==> current != "" && next != "" && |next| >= 8 && Strong(next) && next == confirm
    ensures current == "" || next == "" ==> r == Some(AllRequired)
    ensures current != "" && next != "" && |next| < 8 ==> r == Some(TooShort)
    ensures current != "" && |next| >= 8 && !Strong(next) ==> r == Some(TooWeak)
    ensures current != "" && |next| >= 8 && Strong(next) && next != confirm ==> r == Some(Mismatch)
  {
    if current == "" || next == "" then Some(AllRequired)
    else if |next| < 8 then Some(TooShort)
    else if !Strong(next) then Some(TooWeak)
    else if next != confirm then Some(Mismatch)
    else None
  }

  /** The mutation's payload: the confirmation is not sent. */
  datatype PasswordUpdate = PasswordUpdate(currentPassword: string, newPassword: string)

  class PasswordChangeForm {
    var isChanging: bool
    var currentPassword: string
    var newPassword: string
    var confirmPassword: string
    var toasts: seq<string>
    var requests: seq<PasswordUpdate>

    constructor ()
      ensures !isChanging && currentPassword == "" && newPassword == "" && confirmPassword == ""
      ensures toasts == [] && requests == []
    {
      isChanging := false;
      currentPassword, newPassword, confirmPassword := "", "", "";
      toasts, requests := [], [];
    }

    method StartChanging()
      modifies this
      ensures isChanging
      ensures currentPassword == old(currentPassword) && newPassword == old(newPassword)
      ensures confirmPassword == old(confirmPassword) && toasts == old(toasts) && requests == old(requests)
    {
      isChanging := true;
    }

    /** The three inputs' `onChange`. */
    method Type(current: string, next: string, confirm: string)
      modifies this
      ensures currentPassword == current && newPassword == next && confirmPassword == confirm
      ensures isChanging == old(isChanging) && toasts == old(toasts) && requests == old(requests)
    {
      currentPassword, newPassword, confirmPassword := current, next, confirm;
    }

    /** `handleSubmit`: the first failed check is shown and nothing is sent; when all pass
        the update is sent with the current and new passwords. */
    method HandleSubmit()
      modifies this
      ensures var f := FirstFailure(old(currentPassword), old(newPassword), old(confirmPassword));
        && (f.Some? ==> toasts == old(toasts) + [f.value] && requests == old(requests))
        && (f.None? ==> requests == old(requests) + [PasswordUpdate(old(currentPassword), old(newPassword))]
                        && toasts == old(toasts))
      ensures currentPassword == old(currentPassword) && newPassword == old(newPassword)
      ensures confirmPassword == old(confirmPassword) && isChanging == old(isChanging)
    {
      var failure := FirstFailure(currentPassword, newPassword, confirmPassword);
      if failure.Some? {
        toasts := toasts + [failure.value];
        return;
      }
      requests := requests + [PasswordUpdate(currentPassword, newPassword)];
    }

    /** The mutation's `onSuccess`: the form is cleared and closed. */
    method OnSuccess()
      modifies this
      ensures !isChanging && currentPassword == "" && newPassword == "" && confirmPassword == ""
      ensures toasts == old(toasts) + [Updated] && requests == old(requests)
    {
      toasts := toasts + [Updated];
      currentPassword, newPassword, confirmPassword := "", "", "";
      isChanging := false;
    }

    /** The mutation's `onError`: the server's message, or the default one. */
    method OnError(serverMessage: Option<string>)
      modifies this
      ensures toasts == old(toasts) + [if serverMessage.Some? && serverMessage.value != "" then serverMessage.value else UpdateFailed]
      ensures isChanging == old(isChanging) && currentPassword == old(currentPassword)
      ensures newPassword == old(newPassword) && confirmPassword == old(confirmPassword) && requests == old(requests)
    {
      var m := if serverMessage.Some? && serverMessage.value != "" then serverMessage.value else UpdateFailed;
      toasts := toasts + [m];
    }

    /** `handleCancel`: the form is cleared and closed, with no message. */
    method HandleCancel()
      modifies this
      ensures !isChanging && currentPassword == "" && newPassword == "" && confirmPassword == ""
      ensures toasts == old(toasts) && requests == old(requests)
    {
      currentPassword, newPassword, confirmPassword := "", "", "";
      isChanging := false;
    }
  }

  /** "Passw0rd" passes every check, and fails only the confirmation against "Passw0rd!". */
  lemma ExampleChecks()
    ensures FirstFailure("old", "Passw0rd", "Passw0rd") == None
    ensures FirstFailure("old", "Passw0rd", "Passw0rd!") == Some(Mismatch)
  {
    var s := "Passw0rd";
    assert Strong(s) by {
      assert InClass(s[1], Lower) && InClass(s[0], Upper) && InClass(s[5], Digit);
      assert Ahead(s, 0, Lower) && Ahead(s, 0, Upper) && Ahead(s, 0, Digit);
    }
    assert s != "Passw0rd!" by { assert |s| != |"Passw0rd!"|; }
  }

  /** A long, strong, confirmed password is sent; the same password unconfirmed is not. */
  method SubmitStrongPassword() returns (sent: seq<PasswordUpdate>, shown: seq<string>)
    ensures sent == [PasswordUpdate("old", "Passw0rd")]
    ensures shown == [Mismatch]
  {
    ExampleChecks();
    var form := new PasswordChangeForm();
    form.StartChanging();
    form.Type("old", "Passw0rd", "Passw0rd");
    form.HandleSubmit();
    form.Type("old", "Passw0rd", "Passw0rd!");
    form.HandleSubmit();
    sent, shown := form.requests, form.toasts;
  }
}
