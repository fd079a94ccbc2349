/**
 * The sign-in state shared by the pages: the current user, whether they are signed in, whether the
 * stored session is still being read, and the session saved in browser storage under
 * `currentUserSession`. Reading that session back goes through `JSON.parse`, which is a parameter
 * (`None` for a thrown error); writing it goes through `JSON.stringify`, also a parameter.
 */
module Auth {
  import opened Wrappers
  import opened Text
  import opened Json
  import opened Types
  import ChatStore

  /** The JSON object `JSON.stringify` is given for a profile. */
  function ProfileJson(p: UserProfile): Json
  {
    JObject(map["id" := JString(p.id), "name" := JString(p.name)])
  }

  /**
   * The profile startup accepts from the stored session: there is a non-empty stored text, it
   * parses, and it has a non-empty `id` and a non-empty `name`.
   */
  function SessionProfile(stored: Option<string>, parse: string -> Option<Json>): (r: Option<UserProfile>)
    ensures r.Some? ==> r.value.id != [] && r.value.name != []
    ensures r.Some? ==> stored.Some? && stored.value != [] && parse(stored.value).Some?
    ensures r.Some? ==> StringField(parse(stored.value).value, "id") == Some(r.value.id)
    ensures r.Some? ==> StringField(parse(stored.value).value, "name") == Some(r.value.name)
    ensures (stored.Some? && stored.value != [] && parse(stored.value).Some?
             && Truthy(StringField(parse(stored.value).value, "id"))
             && Truthy(StringField(parse(stored.value).value, "name"))) ==> r.Some?
  {
    if stored.None? || stored.value == [] then None
    else
      match parse(stored.value)
      case None => None
      case Some(j) =>
        var id := StringField(j, "id");
        var name := StringField(j, "name");
        if Truthy(id) && Truthy(name) then Some(UserProfile(id.value, name.value)) else None
  }

  /** The profile `loginWithName` signs in with: the trimmed name as both id and name; none for a blank name. */
  function LoginProfile(name: string): (r: Option<UserProfile>)
    ensures r.None? <==> IsBlank(name)
    ensures r.Some? ==> r.value.id == r.value.name == Trim(name)
    ensures r.Some? ==> r.value.id != [] && IsTrimmed(r.value.id)
  {
    TrimEmptyIffBlank(name);
    TrimShape(name);
    if Trim(name) == [] then None else Some(UserProfile(Trim(name), Trim(name)))
  }

  /** A session written at sign-in is accepted by the next startup, provided parsing undoes stringifying. */
  lemma LoginSessionRestored(name: string, stringify: UserProfile -> string, parse: string -> Option<Json>)
    requires LoginProfile(name).Some?
    requires stringify(LoginProfile(name).value) != []
    requires parse(stringify(LoginProfile(name).value)) == Some(ProfileJson(LoginProfile(name).value))
    ensures SessionProfile(Some(stringify(LoginProfile(name).value)), parse) == LoginProfile(name)
  {
    var p := LoginProfile(name).value;
    assert StringField(ProfileJson(p), "id") == Some(p.id);
    assert StringField(ProfileJson(p), "name") == Some(p.name);
  }

  class AuthState {
    var user: Option<UserProfile>
    var isAuthenticated: bool
    var isLoading: bool
    /** The `currentUserSession` entry of browser storage. */
    var session: Option<string>

    /** Being signed in and having a user always go together. */
    ghost predicate Valid()
      reads this
    {
      isAuthenticated == user.Some? && (user.Some? ==> user.value.id != [] && user.value.name != [])
    }

    /** The provider as first rendered: nobody signed in, loading, with whatever storage holds. */
    constructor (stored: Option<string>)
      ensures user.None? && !isAuthenticated && isLoading && session == stored
      ensures Valid()
    {
      user := None;
      isAuthenticated := false;
      isLoading := true;
      session := stored;
    }

    /** The startup effect: signs in from an acceptable stored session, otherwise discards it. */
    method Startup(parse: string -> Option<Json>)
      requires Valid() && user.None?
      modifies this`user, this`isAuthenticated, this`isLoading, this`session
      ensures Valid() && !isLoading
      ensures user == SessionProfile(old(session), parse)
      ensures session == if user.Some? || old(session).None? || old(session).value == [] then old(session) else None
    {
      isLoading := true;
      var profile := SessionProfile(session, parse);
      if session.Some? && session.value != [] {
        if profile.Some? {
          user := profile;
          isAuthenticated := true;
        } else {
          session := None;
        }
      }
      isLoading := false;
    }

    /**
     * `loginWithName`: rejects a blank name and changes nothing else; otherwise signs in with the
     * trimmed name and saves the session.
     */
    method LoginWithName(name: string, stringify: UserProfile -> string) returns (ok: bool)
      requires Valid()
      modifies this`user, this`isAuthenticated, this`isLoading, this`session
      ensures Valid() && !isLoading
      ensures ok <==> !IsBlank(name)
      ensures !ok ==> user == old(user) && isAuthenticated == old(isAuthenticated) && session == old(session)
      ensures ok ==> user == LoginProfile(name) && isAuthenticated && session == Some(stringify(user.value))
    {
      isLoading := true;
      var profile := LoginProfile(name);
      if profile.None? {
        isLoading := false;
        return false;
      }
      user := profile;
      isAuthenticated := true;
      session := Some(stringify(profile.value));
      isLoading := false;
      ok := true;
    }

    /** `logout`: clears the signed-in user's chat histories, then signs out and forgets the session. */
    method Logout(store: ChatStore.ChatHistoryStore, clearFailed: bool)
      requires Valid() && store.Valid()
      modifies this`user, this`isAuthenticated, this`session, store`records
      ensures Valid() && store.Valid()
      ensures user.None? && !isAuthenticated && session.None?
      ensures store.records == if old(user).Some? && old(user).value.id != []
        then ChatStore.ClearedAll(old(store.records), old(user).value.id, clearFailed)
        else old(store.records)
    {
      if user.Some? && user.value.id != [] {
        store.ClearAllUserChatHistory(user.value.id, clearFailed);
      }
      user := None;
      isAuthenticated := false;
      session := None;
    }
  }
}
