/** The two group-membership dialogs: adding users who are not yet in the chat and removing
    users who are. */
module ParticipantsDialogs {
  import opened Wrappers
  import Text
  import Lists
  import UserSelection

  /** A participant as the chat carries it: a bare id, or a populated user. */
  datatype Participant = IdOnly(id: string) | Populated(id: string, userName: string)

  /** `participants.map(p => typeof p === 'string' ? p : p.id)`. */
  function ParticipantIds(ps: seq<Participant>): (r: seq<string>)
    ensures |r| == |ps|
    ensures forall i :: 0 <= i < |ps| ==> r[i] == ps[i].id
  {
    if ps == [] then [] else [ps[0].id] + ParticipantIds(ps[1..])
  }

  datatype MembershipRequest = MembershipRequest(chatId: string, userIds: seq<string>)

  /** The state `useParticipantsModal` shares between the dialogs that use it. */
  class ParticipantsModal {
    var open: bool
    var selectedUsers: seq<string>

    constructor ()
      ensures !open && selectedUsers == []
    {
      open := false;
      selectedUsers := [];
    }

    method SetSelectedUsers(users: seq<string>)
      modifies this
      ensures selectedUsers == users && open == old(open)
    {
      selectedUsers := users;
    }

    /** `handleSubmit`: the callback gets the selection, unless it is empty. */
    method HandleSubmit() returns (submitted: Option<seq<string>>)
      ensures submitted.None? <==> selectedUsers == []
      ensures submitted.Some? ==> submitted.value == selectedUsers
    {
      if |selectedUsers| == 0 {
        return None;
      }
      return Some(selectedUsers);
    }

    /** `handleOpenChange`: closing drops the selection. */
    method HandleOpenChange(newOpen: bool)
      modifies this
      ensures open == newOpen
      ensures selectedUsers == if newOpen then old(selectedUsers) else []
    {
      open := newOpen;
      if !newOpen {
        selectedUsers := [];
      }
    }

    method CloseModal()
      modifies this
      ensures !open && selectedUsers == []
    {
      open := false;
      selectedUsers := [];
    }
  }

  /** The users the add dialog offers: everyone who is not already a participant. */
  function AddOptions(users: seq<UserSelection.UserOption>, existing: seq<Participant>, query: string)
    : (r: seq<UserSelection.UserOption>)
    ensures forall i :: 0 <= i < |r| ==> r[i] in users && r[i].id !in ParticipantIds(existing)
    ensures forall u :: u in users && u.id !in ParticipantIds(existing) && Text.ContainsIgnoreCase(u.userName, query) ==> u in r
  {
    UserSelection.FilteredOptions(users, ParticipantIds(existing), query)
  }

  class AddParticipantsModal {
    const chatId: string
    const existingParticipantIds: seq<string>
    var open: bool
    var selectedUsers: seq<string>
    var isPending: bool
    var requests: seq<MembershipRequest>

    constructor (chatId: string, existing: seq<Participant>)
      ensures this.chatId == chatId && existingParticipantIds == ParticipantIds(existing)
      ensures !open && selectedUsers == [] && !isPending && requests == []
    {
      this.chatId := chatId;
      existingParticipantIds := ParticipantIds(existing);
      open := false;
      selectedUsers := [];
      isPending := false;
      requests := [];
    }

    /** The submit button is greyed out while a request is pending or nothing is picked. */
    predicate SubmitDisabled()
      reads this
    {
      isPending || selectedUsers == []
    }

    method SetOpen(next: bool)
      modifies this
      ensures open == next && selectedUsers == old(selectedUsers)
      ensures isPending == old(isPending) && requests == old(requests)
    {
      open := next;
    }

    method SetSelectedUsers(users: seq<string>)
      modifies this
      ensures selectedUsers == users && open == old(open)
      ensures isPending == old(isPending) && requests == old(requests)
    {
      selectedUsers := users;
    }

    /** `handleSubmit`: nothing for an empty selection; otherwise the selection is sent
        and the mutation is pending. */
    method HandleSubmit()
      modifies this
      ensures old(selectedUsers) == [] ==> requests == old(requests) && isPending == old(isPending)
      ensures old(selectedUsers) != [] ==>
        requests == old(requests) + [MembershipRequest(chatId, old(selectedUsers))] && isPending
      ensures !old(SubmitDisabled()) ==> |requests| == |old(requests)| + 1
      ensures open == old(open) && selectedUsers == old(selectedUsers)
    {
      if |selectedUsers| == 0 {
        return;
      }
      requests := requests + [MembershipRequest(chatId, selectedUsers)];
      isPending := true;
    }

    /** The mutation's `onSuccess`: close and clear. */
    method OnSuccess()
      modifies this
      ensures !open && selectedUsers == [] && !isPending && requests == old(requests)
    {
      open := false;
      selectedUsers := [];
      isPending := false;
    }

    /** The mutation's failure: the hook's `onError` toasts the server's message (toasts are
        not part of this dialog's state) and react-query clears `isPending`, so the dialog
        stays open with its selection and the button is enabled again. */
    method OnError()
      modifies this
      ensures !isPending
      ensures open == old(open) && selectedUsers == old(selectedUsers) && requests == old(requests)
      ensures !SubmitDisabled() <==> selectedUsers != []
    {
      isPending := false;
    }
  }

  /** The delete dialog's picker AS WRITTEN: it hands `UserSelector` the participant ids as
      `includeUserIds`, a prop the selector does not read, so it filters with no exclusions
      at all and the ids play no part. */
  function DeleteOptionsAsWritten(users: seq<UserSelection.UserOption>, participantIds: seq<string>, query: string)
    : (r: seq<UserSelection.UserOption>)
    ensures forall i :: 0 <= i < |r| ==> r[i] in users && Text.ContainsIgnoreCase(r[i].userName, query)
    ensures forall u :: u in users && Text.ContainsIgnoreCase(u.userName, query) ==> u in r
  {
    UserSelection.FilteredOptions(users, [], query)
  }

  /** A user who is not in the chat is offered for removal. */
  lemma NonParticipantOfferedForRemoval()
    ensures UserSelection.UserOption("2", "bob")
            in DeleteOptionsAsWritten([UserSelection.UserOption("1", "ann"), UserSelection.UserOption("2", "bob")],
                                      ParticipantIds([IdOnly("1")]), "")
    ensures "2" !in ParticipantIds([IdOnly("1")])
  {
    var users := [UserSelection.UserOption("1", "ann"), UserSelection.UserOption("2", "bob")];
    assert ParticipantIds([IdOnly("1")]) == ["1"];
    Text.ContainsIgnoreCaseEmptyQuery("bob");
    assert users[1] in users;
  }

  predicate Removable(u: UserSelection.UserOption, participantIds: seq<string>, query: string) {
    u.id in participantIds && Text.ContainsIgnoreCase(u.userName, query)
  }

  /** The delete dialog's picker as intended: only the chat's participants, filtered by the
      query. */
  function DeleteOptions(users: seq<UserSelection.UserOption>, participantIds: seq<string>, query: string)
    : (r: seq<UserSelection.UserOption>)
    ensures forall i :: 0 <= i < |r| ==> r[i] in users && r[i].id in participantIds
    ensures forall u :: u in users && Removable(u, participantIds, query) ==> u in r
  {
    Lists.Filter(users, (u: UserSelection.UserOption) => Removable(u, participantIds, query))
  }

  /** With an empty query every known participant is offered for removal. */
  lemma EveryParticipantRemovable(users: seq<UserSelection.UserOption>, participantIds: seq<string>, u: UserSelection.UserOption)
    requires u in users && u.id in participantIds
    ensures u in DeleteOptions(users, participantIds, "")
  {
    Text.ContainsIgnoreCaseEmptyQuery(u.userName);
  }

  /** With the intended picker a selection of participants stays one after any click, so
      every id the dialog sends is a participant. */
  lemma IntendedPickKeepsParticipants(selected: seq<string>, users: seq<UserSelection.UserOption>,
                                      participantIds: seq<string>, query: string, i: nat)
    requires forall id :: id in selected ==> id in participantIds
    requires i < |DeleteOptions(users, participantIds, query)|
    ensures forall id :: id in Lists.Toggle(selected, DeleteOptions(users, participantIds, query)[i].id) ==> id in participantIds
  {
    var picked := DeleteOptions(users, participantIds, query)[i].id;
    assert picked in participantIds;
    forall id | id in Lists.Toggle(selected, picked) ensures id in participantIds {
      if id != picked {
        assert id in selected;
      }
    }
  }

  class DeleteParticipantsModal {
    const chatId: string
    const participantIds: seq<string>
    const users: seq<UserSelection.UserOption>
    const modal: ParticipantsModal
    var requests: seq<MembershipRequest>

    constructor (chatId: string, participants: seq<Participant>, users: seq<UserSelection.UserOption>)
      ensures fresh(modal)
      ensures this.chatId == chatId && participantIds == ParticipantIds(participants) && this.users == users
      ensures !modal.open && modal.selectedUsers == [] && requests == []
    {
      this.chatId := chatId;
      participantIds := ParticipantIds(participants);
      this.users := users;
      modal := new ParticipantsModal();
      requests := [];
    }

    /** The submit button is greyed out exactly when nothing is picked. */
    predicate SubmitDisabled()
      reads this, modal
    {
      modal.selectedUsers == []
    }

    /** Clicking the `i`th offered user: the selector toggles that id. The offer is every
        user matching the query, participant or not. */
    method PickOption(query: string, i: nat)
      requires i < |DeleteOptionsAsWritten(users, participantIds, query)|
      modifies modal
      ensures modal.selectedUsers == Lists.Toggle(old(modal.selectedUsers), DeleteOptionsAsWritten(users, participantIds, query)[i].id)
      ensures DeleteOptionsAsWritten(users, participantIds, query)[i] in users
      ensures modal.open == old(modal.open)
    {
      var options := DeleteOptionsAsWritten(users, participantIds, query);
      modal.SetSelectedUsers(Lists.Toggle(modal.selectedUsers, options[i].id));
    }

    /** The form's submit: the hook hands the selection to `onSubmit`, which sends it. */
    method HandleSubmit()
      modifies this
      ensures old(modal.selectedUsers) == [] ==> requests == old(requests)
      ensures old(modal.selectedUsers) != [] ==> requests == old(requests) + [MembershipRequest(chatId, old(modal.selectedUsers))]
      ensures !old(SubmitDisabled()) ==> |requests| == |old(requests)| + 1
      ensures modal.selectedUsers == old(modal.selectedUsers) && modal.open == old(modal.open)
    {
      var submitted := modal.HandleSubmit();
      if submitted.Some? {
        requests := requests + [MembershipRequest(chatId, submitted.value)];
      }
    }

    method HandleOpenChange(newOpen: bool)
      modifies modal
      ensures modal.open == newOpen
      ensures modal.selectedUsers == if newOpen then old(modal.selectedUsers) else []
    {
      modal.HandleOpenChange(newOpen);
    }

    /** The mutation's `onSuccess` is the hook's `closeModal`. */
    method OnSuccess()
      modifies modal
      ensures !modal.open && modal.selectedUsers == []
    {
      modal.CloseModal();
    }
  }

  /** A failed add is retried: after the error the button is enabled again with the same
      selection, and a second submit sends the same request once more. */
  method RetryAfterFailedAdd() returns (dialog: AddParticipantsModal)
    ensures dialog.requests == [MembershipRequest("c", ["2"]), MembershipRequest("c", ["2"])]
    ensures dialog.isPending && dialog.selectedUsers == ["2"]
  {
    dialog := new AddParticipantsModal("c", [IdOnly("1")]);
    dialog.SetOpen(true);
    dialog.SetSelectedUsers(["2"]);
    dialog.HandleSubmit();
    assert dialog.SubmitDisabled();
    dialog.OnError();
    assert !dialog.SubmitDisabled();
    dialog.HandleSubmit();
  }

  /** The dialog as written removes a user who is not in the chat: with ann (id 1) the only
      participant, clicking bob (id 2) and submitting sends bob's id. */
  method OutsiderSentForRemoval() returns (dialog: DeleteParticipantsModal)
    ensures dialog.requests == [MembershipRequest("c", ["2"])]
    ensures "2" !in dialog.participantIds
  {
    var bob := UserSelection.UserOption("2", "bob");
    var users := [UserSelection.UserOption("1", "ann"), bob];
    dialog := new DeleteParticipantsModal("c", [IdOnly("1")], users);
    NonParticipantOfferedForRemoval();
    var options := DeleteOptionsAsWritten(users, dialog.participantIds, "");
    var k :| 0 <= k < |options| && options[k] == bob;
    dialog.PickOption("", k);
    assert dialog.modal.selectedUsers == ["2"];
    dialog.HandleSubmit();
  }
}
