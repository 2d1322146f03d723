/** The browser's authentication state: the signed-in user, a loading flag, and the copy
    of both kept in local storage. Storage is a map from keys to stored entries; an entry
    that is not a user's JSON (or fails to parse) reads as no user. */
module AuthContext {
  import opened Wrappers

  const UserKey := "chat-app-user"
  const AuthCheckedKey := "chat-app-auth-checked"

  /** The user record the server returns. */
  datatype Account = Account(id: string, userName: string, email: string, avatar: Option<string>)

  /** A local-storage value: a user serialised with `JSON.stringify`, or any other text. */
  datatype Stored = UserJson(user: Account) | Text(s: string)

  type Storage = map<string, Stored>

  /** `getStoredUser`. */
  function StoredUser(storage: Storage): (r: Option<Account>)
    ensures r.Some? <==> UserKey in storage && storage[UserKey].UserJson?
    ensures r.Some? ==> r.value == storage[UserKey].user
  {
    if UserKey in storage && storage[UserKey].UserJson? then Some(storage[UserKey].user) else None
  }

  /** `setStoredUser`: a user is written, no user removes the key. */
  function StoreUser(storage: Storage, user: Option<Account>): (r: Storage)
    ensures user.None? ==> UserKey !in r
    ensures user.Some? ==> UserKey in r && r[UserKey] == UserJson(user.value)
    ensures forall k :: k != UserKey ==> (k in r <==> k in storage) && (k in r ==> r[k] == storage[k])
  {
    if user.Some? then storage[UserKey := UserJson(user.value)] else storage - {UserKey}
  }

  /** Reading back what was stored gives the same user. */
  lemma StoredUserOfStore(storage: Storage, user: Option<Account>)
    ensures StoredUser(StoreUser(storage, user)) == user
  {
  }

  /** `localStorage.getItem(key)` is truthy: present and not the empty text. */
  predicate HasFlag(storage: Storage, key: string) {
    key in storage && storage[key] != Text("")
  }

  class AuthProvider {
    var user: Option<Account>
    var isLoading: bool
    var storage: Storage

    /** The user in memory is the user in storage. */
    ghost predicate Synced()
      reads this
    {
      user == StoredUser(storage)
    }

    /** The initial state: the stored user, loading only on a first visit. */
    constructor (storage: Storage)
      ensures Synced() && this.storage == storage
      ensures user == StoredUser(storage)
      ensures isLoading <==> !HasFlag(storage, AuthCheckedKey)
    {
      this.storage := storage;
      user := StoredUser(storage);
      isLoading := !HasFlag(storage, AuthCheckedKey);
    }

    /** `checkAuth`: `me` is the user `getMe` returned, or `None` when it threw. Either way
        memory and storage agree, the check is marked done and loading ends. */
    method CheckAuth(me: Option<Account>)
      modifies this
      ensures Synced() && !isLoading
      ensures user == me
      ensures storage == StoreUser(old(storage), me)[AuthCheckedKey := Text("true")]
    {
      isLoading := true;
      if me.Some? {
        user := me;
        storage := StoreUser(storage, me);
        storage := storage[AuthCheckedKey := Text("true")];
      } else {
        user := None;
        storage := StoreUser(storage, None);
        storage := storage[AuthCheckedKey := Text("true")];
      }
      isLoading := false;
    }

    /** The mount effect: the server is asked only when the check was never done or no user
        is stored. */
    method Mount(me: Option<Account>)
      modifies this
      ensures !isLoading
      ensures !HasFlag(old(storage), AuthCheckedKey) || StoredUser(old(storage)).None? ==>
        user == me && storage == StoreUser(old(storage), me)[AuthCheckedKey := Text("true")]
      ensures HasFlag(old(storage), AuthCheckedKey) && StoredUser(old(storage)).Some? ==>
        user == old(user) && storage == old(storage)
    {
      if !HasFlag(storage, AuthCheckedKey) || StoredUser(storage).None? {
        CheckAuth(me);
      } else {
        isLoading := false;
      }
    }

    /** `login` and `register`, which do the same with the response: `response` is the
        user the service returned, or `None` when it threw, which changes nothing. */
    method SignedIn(response: Option<Account>)
      requires Synced()
      modifies this
      ensures Synced() && isLoading == old(isLoading)
      ensures response.None? ==> user == old(user) && storage == old(storage)
      ensures response.Some? ==>
        user == response && storage == StoreUser(old(storage), response)[AuthCheckedKey := Text("true")]
    {
      if response.None? {
        return;
      }
      user := response;
      storage := StoreUser(storage, response);
      storage := storage[AuthCheckedKey := Text("true")];
    }

    /** `logout`: `succeeded` is whether the service call returned; when it threw nothing
        changes. */
    method Logout(succeeded: bool)
      requires Synced()
      modifies this
      ensures Synced() && isLoading == old(isLoading)
      ensures !succeeded ==> user == old(user) && storage == old(storage)
      ensures succeeded ==> user.None? && storage == StoreUser(old(storage), None) - {AuthCheckedKey}
      ensures succeeded ==> UserKey !in storage && AuthCheckedKey !in storage
    {
      if !succeeded {
        return;
      }
      user := None;
      storage := StoreUser(storage, None);
      storage := storage - {AuthCheckedKey};
    }

    function IsAuthenticated(): (b: bool)
      reads this
      ensures b <==> user.Some?
    {
      user.Some?
    }
  }

  /** After a logout the next visit starts signed out and loading, and the mount effect
      asks the server again. */
  method LogoutThenReload(a: Account, storage: Storage) returns (reloaded: AuthProvider)
    ensures reloaded.user.None? && reloaded.isLoading
  {
    var p := new AuthProvider(storage);
    p.SignedIn(Some(a));
    p.Logout(true);
    reloaded := new AuthProvider(p.storage);
  }
}
