/** The forward dialog: chats other than the current one, searched by name; a toggled
    selection; a forward that clears the dialog only when it succeeds. */
module ForwardMessage {
  import opened Wrappers
  import Text
  import Lists

  datatype ChatOption = ChatOption(id: string, name: string)

  /** `currentChatId && chat.id === currentChatId` excludes; an empty or absent current id
      excludes nothing. */
  predicate Listed(c: ChatOption, currentChatId: Option<string>, query: string) {
    !(currentChatId.Some? && currentChatId.value != "" && c.id == currentChatId.value)
    && Text.ContainsIgnoreCase(c.name, query)
  }

  /** `Listed` as a filter callback. */
  function ListedBy(currentChatId: Option<string>, query: string): ChatOption -> bool {
    (c: ChatOption) => Listed(c, currentChatId, query)
  }

  /** `filteredChats`, in the chats' order (`FilteredChatsAppend` states the order). */
  function FilteredChats(chats: seq<ChatOption>, currentChatId: Option<string>, query: string): (r: seq<ChatOption>)
    ensures |r| <= |chats|
    ensures forall i :: 0 <= i < |r| ==> r[i] in chats && Listed(r[i], currentChatId, query)
    ensures forall c :: c in chats && Listed(c, currentChatId, query) ==> c in r
  {
    Lists.Filter(chats, ListedBy(currentChatId, query))
  }

  /** One more chat at the end is offered at the end, iff it is listed. */
  lemma FilteredChatsAppend(chats: seq<ChatOption>, c: ChatOption, currentChatId: Option<string>, query: string)
    ensures FilteredChats(chats + [c], currentChatId, query)
         == FilteredChats(chats, currentChatId, query) + (if Listed(c, currentChatId, query) then [c] else [])
  {
    Lists.FilterAppend(chats, c, ListedBy(currentChatId, query));
  }

  /** The current chat is never offered as a target. */
  lemma CurrentChatExcluded(chats: seq<ChatOption>, current: string, query: string)
    requires current != ""
    ensures forall c :: c in FilteredChats(chats, Some(current), query) ==> c.id != current
  {
  }

  class ForwardMessageModal {
    const chats: seq<ChatOption>
    const currentChatId: Option<string>
    var selectedChats: seq<string>
    var searchQuery: string
    var isForwarding: bool
    /** Whether the parent's dialog is open (`onOpenChange`). */
    var open: bool
    /** The selections passed to `onForward`, oldest first. */
    var forwarded: seq<seq<string>>

    constructor (chats: seq<ChatOption>, currentChatId: Option<string>)
      ensures this.chats == chats && this.currentChatId == currentChatId
      ensures selectedChats == [] && searchQuery == "" && !isForwarding && open && forwarded == []
    {
      this.chats := chats;
      this.currentChatId := currentChatId;
      selectedChats, searchQuery := [], "";
      isForwarding := false;
      open := true;
      forwarded := [];
    }

    method SetQuery(q: string)
      modifies this
      ensures searchQuery == q && selectedChats == old(selectedChats)
      ensures isForwarding == old(isForwarding) && open == old(open) && forwarded == old(forwarded)
    {
      searchQuery := q;
    }

    /** `toggleChat`. */
    method ToggleChat(chatId: string)
      modifies this
      ensures selectedChats == Lists.Toggle(old(selectedChats), chatId)
      ensures searchQuery == old(searchQuery) && isForwarding == old(isForwarding)
      ensures open == old(open) && forwarded == old(forwarded)
    {
      selectedChats := Lists.Toggle(selectedChats, chatId);
    }

    /** `handleSubmit` up to the `await`: nothing with an empty selection; otherwise the
        selection is forwarded and the dialog is busy. */
    method Submit() returns (started: bool)
      modifies this
      ensures started <==> old(selectedChats) != []
      ensures started ==> isForwarding && forwarded == old(forwarded) + [old(selectedChats)]
      ensures !started ==> isForwarding == old(isForwarding) && forwarded == old(forwarded)
      ensures selectedChats == old(selectedChats) && searchQuery == old(searchQuery) && open == old(open)
    {
      if |selectedChats| == 0 {
        return false;
      }
      isForwarding := true;
      forwarded := forwarded + [selectedChats];
      return true;
    }

    /** The rest of `handleSubmit`: after a successful forward the dialog is cleared and
        closed; when the forward threw it is left as it was. It is not busy afterwards in
        either case. */
    method ForwardSettled(succeeded: bool)
      modifies this
      ensures !isForwarding && forwarded == old(forwarded)
      ensures succeeded ==> selectedChats == [] && searchQuery == "" && !open
      ensures !succeeded ==> selectedChats == old(selectedChats) && searchQuery == old(searchQuery) && open == old(open)
    {
      if succeeded {
        HandleClose();
      }
      isForwarding := false;
    }

    /** `handleClose`. */
    method HandleClose()
      modifies this
      ensures selectedChats == [] && searchQuery == "" && !open
      ensures isForwarding == old(isForwarding) && forwarded == old(forwarded)
    {
      selectedChats := [];
      searchQuery := "";
      open := false;
    }
  }
}
