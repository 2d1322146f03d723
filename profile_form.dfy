/** The profile form: a name that is blank after trimming is refused; only the name and
    the avatar are sent; cancel restores the user's own values. */
module ProfileEditing {
  import opened Wrappers
  import Text

  const NameRequired := "Name is required"
  const Updated := "Profile updated successfully"
  const UpdateFailed := "Failed to update profile"

  /** The fields of the signed-in user the form shows. */
  datatype Profile = Profile(name: Option<string>, email: Option<string>, avatar: Option<string>)

  /** The payload of the update: never the e-mail address. */
  datatype ProfileUpdate = ProfileUpdate(name: string, avatar: string)

  class ProfileForm {
    const user: Profile
    var isEditing: bool
    var name: string
    var email: string
    var avatar: string
    var toasts: seq<string>
    var requests: seq<ProfileUpdate>

    /** The form starts closed, holding the user's values. */
    constructor (user: Profile)
      ensures this.user == user && !isEditing
      ensures name == user.name.GetOr("") && email == user.email.GetOr("") && avatar == user.avatar.GetOr("")
      ensures toasts == [] && requests == []
    {
      this.user := user;
      isEditing := false;
      name, email, avatar := user.name.GetOr(""), user.email.GetOr(""), user.avatar.GetOr("");
      toasts, requests := [], [];
    }

    method StartEditing()
      modifies this
      ensures isEditing && name == old(name) && email == old(email) && avatar == old(avatar)
      ensures toasts == old(toasts) && requests == old(requests)
    {
      isEditing := true;
    }

    /** The name input's `onChange`, the form's only editable field: the e-mail input is
        always disabled and has no handler, and there is no avatar input. */
    method Type(newName: string)
      modifies this
      ensures name == newName && email == old(email) && avatar == old(avatar)
      ensures isEditing == old(isEditing) && toasts == old(toasts) && requests == old(requests)
    {
      name := newName;
    }

    /** `handleSubmit`: a blank name is refused; otherwise the untrimmed name and the avatar
        are sent. */
    method HandleSubmit()
      modifies this
      ensures Text.IsBlank(old(name)) ==> toasts == old(toasts) + [NameRequired] && requests == old(requests)
      ensures !Text.IsBlank(old(name)) ==>
        requests == old(requests) + [ProfileUpdate(old(name), old(avatar))] && toasts == old(toasts)
      ensures isEditing == old(isEditing) && name == old(name) && email == old(email) && avatar == old(avatar)
    {
      Text.TrimEmptyIffBlank(name);
      if Text.Trim(name) == "" {
        toasts := toasts + [NameRequired];
        return;
      }
      requests := requests + [ProfileUpdate(name, avatar)];
    }

    /** The mutation's `onSuccess`: the form closes, keeping what was typed. */
    method OnSuccess()
      modifies this
      ensures !isEditing && name == old(name) && email == old(email) && avatar == old(avatar)
      ensures toasts == old(toasts) + [Updated] && requests == old(requests)
    {
      toasts := toasts + [Updated];
      isEditing := false;
    }

    /** The mutation's `onError`: the server's message, or the default one; the form stays
        as it is. */
    method OnError(serverMessage: Option<string>)
      modifies this
      ensures toasts == old(toasts) + [if serverMessage.Some? && serverMessage.value != "" then serverMessage.value else UpdateFailed]
      ensures isEditing == old(isEditing) && name == old(name) && email == old(email) && avatar == old(avatar)
      ensures requests == old(requests)
    {
      var m := if serverMessage.Some? && serverMessage.value != "" then serverMessage.value else UpdateFailed;
      toasts := toasts + [m];
    }

    /** `handleCancel`: the user's values come back and the form closes. */
    method HandleCancel()
      modifies this
      ensures !isEditing
      ensures name == user.name.GetOr("") && email == user.email.GetOr("") && avatar == user.avatar.GetOr("")
      ensures toasts == old(toasts) && requests == old(requests)
    {
      name, email, avatar := user.name.GetOr(""), user.email.GetOr(""), user.avatar.GetOr("");
      isEditing := false;
    }
  }

  /** Whatever non-blank name is typed, it is sent with the user's own avatar, the e-mail
      address stays the user's throughout, and cancel brings the user's name back. */
  method EditThenCancel(user: Profile, typedName: string)
    returns (sent: seq<ProfileUpdate>, emailSubmitted: string, nameAfter: string)
    requires !Text.IsBlank(typedName)
    ensures sent == [ProfileUpdate(typedName, user.avatar.GetOr(""))]
    ensures emailSubmitted == user.email.GetOr("")
    ensures nameAfter == user.name.GetOr("")
  {
    var form := new ProfileForm(user);
    form.StartEditing();
    form.Type(typedName);
    form.HandleSubmit();
    emailSubmitted := form.email;
    form.HandleCancel();
    sent, nameAfter := form.requests, form.name;
  }
}
