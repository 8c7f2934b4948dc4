/**
 * The session hook of F/hooks/useAuth.ts: the signed-in user, restored from
 * the storage key `user` a short delay after mount, replaced by `login` and
 * cleared by `logout`.
 */
module Session {
  import opened Collections
  import opened Types
  import opened Text
  import opened Storage

  /** The storage key of the session record. */
  const UserKey := "user"

  /** The delay before the stored session is read, in milliseconds. */
  const RestoreDelay := 50

  /** The id of a user who signs in at `now`: `user_<now>`. */
  function UserIdFor(now: nat): string {
    "user_" + DecimalString(now)
  }

  /** What restore adopts: the stored record, when it is there, non-empty and parses. */
  function StoredUser(entries: map<string, Blob>): (r: Option<User>)
    ensures r.Some? <==> UserKey in entries && entries[UserKey].UserRecord?
    ensures r.Some? ==> r.value == entries[UserKey].user
  {
    if UserKey in entries && Truthy(entries[UserKey]) then ParseUser(entries[UserKey]) else None
  }

  /** Restore discards the record when it is there and non-empty but does not parse. */
  predicate RestoreDiscards(entries: map<string, Blob>) {
    UserKey in entries && Truthy(entries[UserKey]) && ParseUser(entries[UserKey]).None?
  }

  /** After logout, restore finds nothing to adopt and nothing to discard. */
  lemma RestoreAfterLogout(entries: map<string, Blob>)
    ensures StoredUser(entries - {UserKey}) == None
    ensures !RestoreDiscards(entries - {UserKey})
  {
  }

  /** After login, restore adopts the user that logged in. */
  lemma RestoreAfterLogin(entries: map<string, Blob>, u: User)
    ensures StoredUser(entries[UserKey := UserRecord(u)]) == Some(u)
  {
  }

  /** A record restore discards is not adopted, and after it is discarded restore finds nothing. */
  lemma DiscardIsFinal(entries: map<string, Blob>)
    requires RestoreDiscards(entries)
    ensures StoredUser(entries) == None
    ensures StoredUser(entries - {UserKey}) == None && !RestoreDiscards(entries - {UserKey})
  {
  }

  class SessionStore {
    const store: LocalStorage
    var user: Option<User>
    var loading: bool
    /** The restore timer scheduled by the mount effect is still pending. */
    var restorePending: bool

    /** Mount: no user, loading, the restore timer scheduled. */
    constructor (store: LocalStorage)
      ensures this.store == store
      ensures user == None && loading && restorePending
    {
      this.store := store;
      user := None;
      loading := true;
      restorePending := true;
    }

    /**
     * The restore timer fires: a record that parses becomes the user; one
     * that does not is removed and the user is left as it was. Loading ends
     * in every case. Without a pending timer nothing happens.
     */
    method FireRestore()
      modifies this, store
      ensures !old(restorePending) ==> unchanged(this) && unchanged(store)
      ensures old(restorePending) ==>
                !restorePending && !loading
                && user == (match StoredUser(old(store.entries))
                            case Some(u) => Some(u)
                            case None => old(user))
                && store.entries == (if RestoreDiscards(old(store.entries))
                                     then old(store.entries) - {UserKey}
                                     else old(store.entries))
    {
      if !restorePending {
        return;
      }
      restorePending := false;
      var stored := store.GetItem(UserKey);
      if stored.Some? && Truthy(stored.value) {
        var parsed := ParseUser(stored.value);
        if parsed.Some? {
          user := parsed;
        } else {
          store.RemoveItem(UserKey);
        }
      }
      loading := false;
    }

    /** The effect's cleanup: the restore timer is cleared, so no restore happens. */
    method Unmount()
      modifies this
      ensures !restorePending
      ensures user == old(user) && loading == old(loading)
    {
      restorePending := false;
    }

    /** `login(username)`: a new user `user_<now>` is stored and becomes current, replacing any earlier one. */
    method Login(username: string, now: nat) returns (u: User)
      modifies this, store
      ensures u == User(UserIdFor(now), username)
      ensures user == Some(u)
      ensures store.entries == old(store.entries)[UserKey := UserRecord(u)]
      ensures loading == old(loading) && restorePending == old(restorePending)
    {
      u := User(UserIdFor(now), username);
      store.SetItem(UserKey, UserRecord(u));
      user := Some(u);
    }

    /** `logout()`: the stored record is removed and there is no current user. */
    method Logout()
      modifies this, store
      ensures user == None
      ensures store.entries == old(store.entries) - {UserKey}
      ensures loading == old(loading) && restorePending == old(restorePending)
    {
      store.RemoveItem(UserKey);
      user := None;
    }
  }

  /** Logging out and mounting again: the restore that follows finds no user. */
  method LogoutThenRemount(store: LocalStorage, name: string, now: nat)
    modifies store
  {
    var session := new SessionStore(store);
    var u := session.Login(name, now);
    session.Logout();
    var again := new SessionStore(store);
    again.FireRestore();
    assert again.user == None && !again.loading;
  }
}
