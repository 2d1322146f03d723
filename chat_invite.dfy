/** The new-chat dialog: pick a user by name from an autocomplete, then create a chat with
    that user. */
module ChatInvitation {
  import opened Wrappers

  datatype UserListItem = UserListItem(id: string, userName: string)

  /** `users.map((user) => user.userName)`. */
  function UserOptions(users: seq<UserListItem>): (r: seq<string>)
    ensures |r| == |users|
    ensures forall i :: 0 <= i < |users| ==> r[i] == users[i].userName
  {
    if users == [] then [] else [users[0].userName] + UserOptions(users[1..])
  }

  /** `users.find((u) => u.userName === name) || null`: the first user with that name. */
  function FindByName(users: seq<UserListItem>, name: string): (r: Option<UserListItem>)
    ensures r.None? <==> forall i :: 0 <= i < |users| ==> users[i].userName != name
    ensures r.Some? ==> r.value.userName == name
    ensures r.Some? ==> exists i :: 0 <= i < |users| && users[i] == r.value && (forall j :: 0 <= j < i ==> users[j].userName != name)
  {
    if users == [] then None
    else if users[0].userName == name then Some(users[0])
    else
      var rest := FindByName(users[1..], name);
      assert forall i :: 1 <= i < |users| ==> users[i] == users[1..][i - 1];
      if rest.Some? then
        assert exists i :: 1 <= i < |users| && users[i] == rest.value && (forall j :: 0 <= j < i ==> users[j].userName != name) by {
          var k :| 0 <= k < |users[1..]| && users[1..][k] == rest.value && (forall j :: 0 <= j < k ==> users[1..][j].userName != name);
          assert users[k + 1] == rest.value;
          assert forall j :: 0 <= j < k + 1 ==> users[j].userName != name by {
            forall j | 0 <= j < k + 1 ensures users[j].userName != name {
              if j > 0 { assert users[j] == users[1..][j - 1]; }
            }
          }
        }
        rest
      else rest
  }

  class ChatInvite {
    const users: seq<UserListItem>
    var open: bool
    var searchValue: string
    var selectedUser: Option<UserListItem>
    /** The user ids chats were requested with. */
    var requested: seq<string>

    constructor (users: seq<UserListItem>)
      ensures this.users == users && !open && searchValue == "" && selectedUser.None? && requested == []
    {
      this.users := users;
      open := false;
      searchValue := "";
      selectedUser := None;
      requested := [];
    }

    /** `handleDialogChange`: closing resets the search and the selection. */
    method HandleDialogChange(nextOpen: bool)
      modifies this
      ensures open == nextOpen && requested == old(requested)
      ensures !nextOpen ==> searchValue == "" && selectedUser.None?
      ensures nextOpen ==> searchValue == old(searchValue) && selectedUser == old(selectedUser)
    {
      open := nextOpen;
      if !nextOpen {
        searchValue := "";
        selectedUser := None;
      }
    }

    /** The autocomplete's `onChange`: typing drops the selection. */
    method OnType(value: string)
      modifies this
      ensures searchValue == value && selectedUser.None? && open == old(open) && requested == old(requested)
    {
      searchValue := value;
      selectedUser := None;
    }

    /** `handleSelectUser`. */
    method HandleSelectUser(userName: string)
      modifies this
      ensures searchValue == userName && selectedUser == FindByName(users, userName)
      ensures open == old(open) && requested == old(requested)
    {
      searchValue := userName;
      selectedUser := FindByName(users, userName);
    }

    /** Picking an option: the autocomplete calls `onChange`, then `onSelect`, so the name
        picked decides the selection. */
    method PickOption(userName: string)
      modifies this
      ensures searchValue == userName && selectedUser == FindByName(users, userName)
      ensures open == old(open) && requested == old(requested)
    {
      OnType(userName);
      HandleSelectUser(userName);
    }

    /** `handleSubmit`: nothing without a selection. */
    method HandleSubmit()
      modifies this
      ensures old(selectedUser).None? ==> requested == old(requested)
      ensures old(selectedUser).Some? ==> requested == old(requested) + [old(selectedUser).value.id]
      ensures open == old(open) && searchValue == old(searchValue) && selectedUser == old(selectedUser)
    {
      if selectedUser.None? {
        return;
      }
      requested := requested + [selectedUser.value.id];
    }

    /** The mutation's `onSuccess`: reset and close. */
    method OnSuccess()
      modifies this
      ensures !open && searchValue == "" && selectedUser.None? && requested == old(requested)
    {
      searchValue := "";
      selectedUser := None;
      open := false;
    }
  }

  /** Every option offered names a user the dialog can select. */
  lemma OptionsResolve(users: seq<UserListItem>, i: nat)
    requires i < |users|
    ensures FindByName(users, UserOptions(users)[i]).Some?
    ensures FindByName(users, UserOptions(users)[i]).value.userName == users[i].userName
  {
  }
}
