/** The group-chat dialog: a name and at least two members before the request goes out. */
module GroupCreation {
  import opened Wrappers
  import Text

  const NameRequired := "Group name is required"
  const TooFewUsers := "Select at least 2 users for a group"

  datatype GroupRequest = GroupRequest(name: string, users: seq<string>)

  /** The outcome of `handleSubmit`: an error toast, or the request sent to the server. */
  function SubmitOutcome(groupName: string, selected: seq<string>): (r: Result<GroupRequest, string>)
    ensures r.Err? <==> Text.Trim(groupName) == "" || |selected| < 2
    ensures Text.Trim(groupName) == "" ==> r == Err(NameRequired)
    ensures Text.Trim(groupName) != "" && |selected| < 2 ==> r == Err(TooFewUsers)
    ensures r.Ok? ==> r.value.name == groupName && r.value.users == selected
  {
    if Text.Trim(groupName) == "" then Err(NameRequired)
    else if |selected| < 2 then Err(TooFewUsers)
    else Ok(GroupRequest(groupName, selected))
  }

  class CreateGroupChat {
    var open: bool
    var groupName: string
    var selectedUsers: seq<string>
    var toasts: seq<string>
    var requests: seq<GroupRequest>

    constructor ()
      ensures !open && groupName == "" && selectedUsers == [] && toasts == [] && requests == []
    {
      open := false;
      groupName := "";
      selectedUsers := [];
      toasts := [];
      requests := [];
    }

    /** The dialog's `onOpenChange`, which is `setOpen`: closing keeps the draft. */
    method SetOpen(next: bool)
      modifies this
      ensures open == next && groupName == old(groupName) && selectedUsers == old(selectedUsers)
      ensures toasts == old(toasts) && requests == old(requests)
    {
      open := next;
    }

    /** The name input's `onChange`. */
    method SetGroupName(value: string)
      modifies this
      ensures groupName == value && open == old(open) && selectedUsers == old(selectedUsers)
      ensures toasts == old(toasts) && requests == old(requests)
    {
      groupName := value;
    }

    /** The selector's `onSelectionChange`. */
    method SetSelectedUsers(users: seq<string>)
      modifies this
      ensures selectedUsers == users && open == old(open) && groupName == old(groupName)
      ensures toasts == old(toasts) && requests == old(requests)
    {
      selectedUsers := users;
    }

    /** `handleSubmit`: the name is checked trimmed but sent as typed. */
    method HandleSubmit()
      modifies this
      ensures SubmitOutcome(old(groupName), old(selectedUsers)).Err? ==>
        toasts == old(toasts) + [SubmitOutcome(old(groupName), old(selectedUsers)).error] && requests == old(requests)
      ensures SubmitOutcome(old(groupName), old(selectedUsers)).Ok? ==>
        requests == old(requests) + [GroupRequest(old(groupName), old(selectedUsers))] && toasts == old(toasts)
      ensures open == old(open) && groupName == old(groupName) && selectedUsers == old(selectedUsers)
    {
      if Text.Trim(groupName) == "" {
        toasts := toasts + [NameRequired];
        return;
      }
      if |selectedUsers| < 2 {
        toasts := toasts + [TooFewUsers];
        return;
      }
      requests := requests + [GroupRequest(groupName, selectedUsers)];
    }

    /** The mutation's `onSuccess`: close and clear the form. */
    method OnSuccess()
      modifies this
      ensures !open && groupName == "" && selectedUsers == []
      ensures toasts == old(toasts) && requests == old(requests)
    {
      open := false;
      groupName := "";
      selectedUsers := [];
    }
  }

  /** A name of spaces is refused before the member count is looked at. */
  lemma SpacesNameRefused(selected: seq<string>)
    ensures SubmitOutcome("  ", selected) == Err(NameRequired)
  {
    Text.TrimSpaces("  ");
  }

  /** A padded name goes to the server with its padding. */
  method PaddedNameSentAsTyped(a: string, b: string) returns (sent: GroupRequest)
    ensures sent == GroupRequest(" team ", [a, b])
  {
    var dialog := new CreateGroupChat();
    dialog.SetGroupName(" team ");
    dialog.SetSelectedUsers([a, b]);
    assert Text.Trim(" team ") != "" by {
      Text.TrimEmptyIffBlank(" team ");
      assert !Text.IsWhitespace(" team "[1]);
    }
    dialog.HandleSubmit();
    sent := dialog.requests[0];
  }
}
