/** The user picker: a case-insensitive search over the users not excluded, a toggled
    selection, and a keyboard highlight kept inside the list. */
module UserSelection {
  import Text
  import Lists

  datatype UserOption = UserOption(id: string, userName: string)

  predicate Shown(u: UserOption, exclude: seq<string>, query: string) {
    u.id !in exclude && Text.ContainsIgnoreCase(u.userName, query)
  }

  /** `Shown` as a filter callback. */
  function ShownBy(exclude: seq<string>, query: string): UserOption -> bool {
    (u: UserOption) => Shown(u, exclude, query)
  }

  /** `filteredOptions`: the users that are not excluded and whose name contains the query,
      ignoring case, in their order (`FilteredOptionsAppend` states the order). */
  function FilteredOptions(users: seq<UserOption>, exclude: seq<string>, query: string): (r: seq<UserOption>)
    ensures |r| <= |users|
    ensures forall i :: 0 <= i < |r| ==> r[i] in users && Shown(r[i], exclude, query)
    ensures forall u :: u in users && Shown(u, exclude, query) ==> u in r
  {
    Lists.Filter(users, ShownBy(exclude, query))
  }

  /** One more user at the end is offered at the end, iff it is shown. */
  lemma FilteredOptionsAppend(users: seq<UserOption>, u: UserOption, exclude: seq<string>, query: string)
    ensures FilteredOptions(users + [u], exclude, query)
         == FilteredOptions(users, exclude, query) + (if Shown(u, exclude, query) then [u] else [])
  {
    Lists.FilterAppend(users, u, ShownBy(exclude, query));
  }

  /** With an empty query every user not excluded is offered. */
  lemma EmptyQueryShowsAll(users: seq<UserOption>, exclude: seq<string>, u: UserOption)
    requires u in users && u.id !in exclude
    ensures u in FilteredOptions(users, exclude, "")
  {
    Text.ContainsIgnoreCaseEmptyQuery(u.userName);
  }

  datatype Key = ArrowDown | ArrowUp | Enter | Other

  class UserSelector {
    const users: seq<UserOption>
    const excludeUserIds: seq<string>
    var searchQuery: string
    var highlightedIndex: nat
    /** The parent's selection, which `onSelectionChange` replaces. */
    var selected: seq<string>

    function Options(): seq<UserOption>
      reads this
    {
      FilteredOptions(users, excludeUserIds, searchQuery)
    }

    /** The highlight is 0 on an empty list and inside the list otherwise. */
    ghost predicate Valid()
      reads this
    {
      if Options() == [] then highlightedIndex == 0 else highlightedIndex < |Options()|
    }

    constructor (users: seq<UserOption>, excludeUserIds: seq<string>, selected: seq<string>)
      ensures Valid() && this.users == users && this.excludeUserIds == excludeUserIds
      ensures searchQuery == "" && highlightedIndex == 0 && this.selected == selected
    {
      this.users := users;
      this.excludeUserIds := excludeUserIds;
      searchQuery := "";
      highlightedIndex := 0;
      this.selected := selected;
    }

    /** Typing a query; the effect on `searchQuery` moves the highlight back to the top. */
    method SetQuery(q: string)
      modifies this
      ensures Valid() && searchQuery == q && highlightedIndex == 0 && selected == old(selected)
    {
      searchQuery := q;
      highlightedIndex := 0;
    }

    /** `toggleUser`. */
    method ToggleUser(id: string)
      modifies this
      ensures selected == Lists.Toggle(old(selected), id)
      ensures searchQuery == old(searchQuery) && highlightedIndex == old(highlightedIndex)
    {
      selected := Lists.Toggle(selected, id);
    }

    /** `handleKeyDown`: nothing on an empty list; the arrows move the highlight without
        leaving the list; Enter toggles the highlighted user. */
    method HandleKeyDown(key: Key)
      requires Valid()
      modifies this
      ensures Valid() && searchQuery == old(searchQuery)
      ensures Options() == [] || key == Other ==> highlightedIndex == old(highlightedIndex) && selected == old(selected)
      ensures Options() != [] && key == ArrowDown ==>
        highlightedIndex == (if old(highlightedIndex) < |Options()| - 1 then old(highlightedIndex) + 1 else old(highlightedIndex))
        && selected == old(selected)
      ensures Options() != [] && key == ArrowUp ==>
        highlightedIndex == (if old(highlightedIndex) > 0 then old(highlightedIndex) - 1 else 0)
        && selected == old(selected)
      ensures Options() != [] && key == Enter ==>
        highlightedIndex == old(highlightedIndex)
        && selected == Lists.Toggle(old(selected), Options()[old(highlightedIndex)].id)
    {
      var options := FilteredOptions(users, excludeUserIds, searchQuery);
      if |options| == 0 {
        return;
      }
      match key
      case ArrowDown =>
        if highlightedIndex < |options| - 1 {
          highlightedIndex := highlightedIndex + 1;
        }
      case ArrowUp =>
        if highlightedIndex > 0 {
          highlightedIndex := highlightedIndex - 1;
        }
      case Enter =>
        ToggleUser(options[highlightedIndex].id);
      case Other =>
    }
  }

  /** Enter twice on the same highlighted user gives back a selection that did not hold
      it. */
  method EnterTwice(users: seq<UserOption>, exclude: seq<string>, selected: seq<string>)
    returns (after: seq<string>)
    requires Lists.Distinct(selected)
    requires FilteredOptions(users, exclude, "") != [] && FilteredOptions(users, exclude, "")[0].id !in selected
    ensures after == selected
  {
    var s := new UserSelector(users, exclude, selected);
    s.HandleKeyDown(Enter);
    s.HandleKeyDown(Enter);
    Lists.ToggleTwice(selected, FilteredOptions(users, exclude, "")[0].id);
    after := s.selected;
  }
}
