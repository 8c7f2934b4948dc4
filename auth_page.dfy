/**
 * The sign-in form of F/app/auth/page.tsx: the username is checked, and a
 * valid one signs in and sends the router to the dashboard.
 */
module AuthPage {
  import opened Collections
  import opened Types
  import opened Text
  import opened Session

  const EmptyUsernameError := "Please enter a username"
  const ShortUsernameError := "Username must be at least 2 characters"

  /**
   * The message a submit shows, or `None` when the username is accepted:
   * white space only is "empty" (checked first); a trimmed length under two
   * UTF-16 code units is "too short".
   */
  function UsernameError(username: string): (e: Option<string>)
    ensures e == Some(EmptyUsernameError) <==> AllSpace(username)
    ensures e == Some(ShortUsernameError) <==> !AllSpace(username) && Utf16Length(Trim(username)) < 2
    ensures e.None? <==> Utf16Length(Trim(username)) >= 2
  {
    TrimEmptyIffBlank(username);
    if Trim(username) == "" then Some(EmptyUsernameError)
    else if Utf16Length(Trim(username)) < 2 then Some(ShortUsernameError)
    else None
  }

  class AuthForm {
    var username: string
    var error: string
    /** The route the form sent the router to, if any. */
    var route: Option<string>

    constructor ()
      ensures username == "" && error == "" && route == None
    {
      username := "";
      error := "";
      route := None;
    }

    /** The input's change handler. */
    method SetUsername(value: string)
      modifies this
      ensures username == value && error == old(error) && route == old(route)
    {
      username := value;
    }

    /**
     * `handleSubmit`: the earlier error is cleared; a rejected username shows
     * its message and nothing else happens; an accepted one logs in exactly
     * once with the untrimmed username and then goes to `/dashboard`.
     */
    method HandleSubmit(session: SessionStore, now: nat)
      modifies this, session, session.store
      ensures username == old(username)
      ensures error == UsernameError(username).GetOr("")
      ensures UsernameError(username).Some? ==>
                route == old(route) && unchanged(session) && unchanged(session.store)
      ensures UsernameError(username).None? ==>
                route == Some("/dashboard")
                && session.user == Some(User(UserIdFor(now), username))
                && session.loading == old(session.loading) && session.restorePending == old(session.restorePending)
                && session.store.entries
                   == old(session.store.entries)[UserKey := UserRecord(User(UserIdFor(now), username))]
    {
      error := "";
      if Trim(username) == "" {
        error := EmptyUsernameError;
        return;
      }
      if Utf16Length(Trim(username)) < 2 {
        error := ShortUsernameError;
        return;
      }
      var u := session.Login(username, now);
      route := Some("/dashboard");
    }
  }
}
