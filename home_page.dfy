/**
 * The home page: feature cards that open a feature or an external site, and the name form that
 * signs a visitor in.
 */
module HomePage {
  import opened Wrappers
  import opened Text
  import opened Types
  import Auth

  const NameRequiredError: string := "Vui lòng nhập tên để tiếp tục."
  const EmptyNameError: string := "Tên không được để trống. Vui lòng nhập họ và tên của bạn."

  /** What clicking a card does. */
  datatype Click =
    | OpenExternal(url: string)   // a new browser window; the view does not change
    | Select(key: FeatureKey)     // `onSelectFeature(key)`
    | AskForName                  // the visitor is not signed in

  /** The outcome of clicking `feature`. */
  function ClickAction(feature: FeatureDetail, isAuthenticated: bool): (c: Click)
    ensures c.OpenExternal? <==> Truthy(feature.externalUrl)
    ensures c.OpenExternal? ==> c.url == feature.externalUrl.value
    ensures c.Select? <==> !Truthy(feature.externalUrl) && isAuthenticated
    ensures c.Select? ==> c.key == feature.key
  {
    if Truthy(feature.externalUrl) then OpenExternal(feature.externalUrl.value)
    else if isAuthenticated then Select(feature.key)
    else AskForName
  }

  /** `, name` after the welcome when the user has a name, nothing otherwise. */
  function Greeting(user: Option<UserProfile>): (g: string)
    ensures user.Some? && user.value.name != [] ==> g == ", " + user.value.name
    ensures user.None? || user.value.name == [] ==> g == []
  {
    if user.Some? && user.value.name != [] then ", " + user.value.name else []
  }

  /** Whoever signs in through the form is greeted by the trimmed name they typed. */
  lemma GreetingAfterLogin(name: string)
    requires !IsBlank(name)
    ensures Greeting(Auth.LoginProfile(name)) == ", " + Trim(name)
  {
  }

  class HomePageState {
    var name: string
    var inputError: Option<string>
    var isProcessingLogin: bool

    constructor ()
      ensures name == [] && inputError.None? && !isProcessingLogin
    {
      name := [];
      inputError := None;
      isProcessingLogin := false;
    }

    /** `handleFeatureClick`: the only state it touches is the error for a visitor who is not signed in. */
    method HandleFeatureClick(feature: FeatureDetail, isAuthenticated: bool) returns (c: Click)
      modifies this`inputError
      ensures c == ClickAction(feature, isAuthenticated)
      ensures inputError == if c.AskForName? then Some(NameRequiredError) else old(inputError)
    {
      if feature.externalUrl.Some? && feature.externalUrl.value != [] {
        return OpenExternal(feature.externalUrl.value);
      }
      if isAuthenticated {
        c := Select(feature.key);
      } else {
        inputError := Some(NameRequiredError);
        c := AskForName;
      }
    }

    /**
     * `handleAccess`: a blank name only sets an error; otherwise signs in. The sign-in cannot reject
     * a name that got past the blank check, so the "login failed" error is never shown.
     */
    method HandleAccess(auth: Auth.AuthState, stringify: UserProfile -> string)
      requires auth.Valid()
      modifies this`inputError, this`isProcessingLogin, auth`user, auth`isAuthenticated, auth`isLoading, auth`session
      ensures auth.Valid()
      ensures IsBlank(name) ==> inputError == Some(EmptyNameError) && isProcessingLogin == old(isProcessingLogin)
      ensures IsBlank(name) ==> auth.user == old(auth.user) && auth.isAuthenticated == old(auth.isAuthenticated)
      ensures IsBlank(name) ==> auth.session == old(auth.session) && auth.isLoading == old(auth.isLoading)
      ensures !IsBlank(name) ==> inputError.None? && !isProcessingLogin
      ensures !IsBlank(name) ==> auth.user == Auth.LoginProfile(name) && auth.isAuthenticated
      ensures !IsBlank(name) ==> auth.session == Some(stringify(auth.user.value)) && !auth.isLoading
    {
      // `!name.trim()`: the name trims to nothing exactly when it is blank.
      if IsBlank(name) {
        inputError := Some(EmptyNameError);
        return;
      }
      inputError := None;
      isProcessingLogin := true;
      var ok := auth.LoginWithName(name, stringify);
      if !ok {
        // The page would show its "login failed" error here; the sign-in never rejects a non-blank name.
        assert false;
      }
      isProcessingLogin := false;
    }
  }
}
