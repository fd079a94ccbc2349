/**
 * The application shell: the table of features, the current view, and which screen is shown for
 * the view and the sign-in state.
 */
module AppShell {
  import opened Wrappers
  import opened Types
  import ChatStore
  import Auth

  const LawLookupUrl: string := "https://aitracuuluat.vn/"

  /** The feature cards, in display order; only the law lookup lives on another site. */
  const AllFeatureDetails: seq<FeatureDetail> := [
    FeatureDetail(AnalyzeDocument, "Phân tích Văn bản", None),
    FeatureDetail(GenericDraft, "Soạn thảo Văn bản", None),
    FeatureDetail(ExtractMultimedia, "Trích xuất Đa phương tiện", None),
    FeatureDetail(NewsAI, "AI Tin tức", None),
    FeatureDetail(LiveTranscription, "Tốc ký âm thanh", None),
    FeatureDetail(AILawLookup, "AI Tra cứu Luật", Some(LawLookupUrl))
  ]

  /** Six cards with distinct keys and an external address exactly for the law lookup. */
  lemma FeatureTable()
    ensures |AllFeatureDetails| == 6
    ensures forall i, j :: 0 <= i < j < |AllFeatureDetails| ==> AllFeatureDetails[i].key != AllFeatureDetails[j].key
    ensures forall i :: 0 <= i < |AllFeatureDetails| ==>
      (AllFeatureDetails[i].externalUrl.Some? <==> AllFeatureDetails[i].key == AILawLookup)
  {
  }

  /** What the shell shows: the home page, or one feature. */
  datatype View = Home | Feature(key: FeatureKey)

  /** `Array.prototype.find` on the key: the first card with that key. */
  function FindFeature(details: seq<FeatureDetail>, key: FeatureKey): (r: Option<FeatureDetail>)
    ensures r.None? <==> forall i :: 0 <= i < |details| ==> details[i].key != key
    ensures r.Some? ==> r.value.key == key
    ensures r.Some? ==> exists i :: 0 <= i < |details| && details[i] == r.value && forall j :: 0 <= j < i ==> details[j].key != key
  {
    if details == [] then None
    else if details[0].key == key then Some(details[0])
    else
      var r := FindFeature(details[1..], key);
      assert forall i :: 1 <= i < |details| ==> details[1..][i - 1] == details[i];
      r
  }

  /** `currentFeatureDetail`: no card for home, otherwise the card of the view's feature. */
  function CurrentFeatureDetail(view: View): Option<FeatureDetail>
  {
    if view.Home? then None else FindFeature(AllFeatureDetails, view.key)
  }

  /** Every feature has a card, so every feature view finds it. */
  lemma EveryFeatureHasDetail(key: FeatureKey)
    ensures CurrentFeatureDetail(Feature(key)).Some?
    ensures CurrentFeatureDetail(Feature(key)).value.key == key
  {
    var i := match key
      case AnalyzeDocument => 0
      case GenericDraft => 1
      case ExtractMultimedia => 2
      case NewsAI => 3
      case LiveTranscription => 4
      case AILawLookup => 5;
    assert AllFeatureDetails[i].key == key;
  }

  /** The screens the shell can show. */
  datatype Screen = LoadingScreen | HomeScreen | FeatureScreen(detail: FeatureDetail) | MissingFeatureScreen

  /** The loading screen while the session is read and nobody is signed in; then home or the chosen feature. */
  function ShownScreen(view: View, isAuthLoading: bool, isAuthenticated: bool): (s: Screen)
    ensures s.LoadingScreen? <==> isAuthLoading && !isAuthenticated
    ensures s.HomeScreen? <==> !(isAuthLoading && !isAuthenticated) && (view.Home? || !isAuthenticated)
    ensures s.FeatureScreen? ==> isAuthenticated && view == Feature(s.detail.key)
  {
    if isAuthLoading && !isAuthenticated then LoadingScreen
    else if view.Home? || !isAuthenticated then HomeScreen
    else match CurrentFeatureDetail(view)
      case Some(d) => FeatureScreen(d)
      case None => MissingFeatureScreen
  }

  /** With this feature table the "feature not found" panel is never shown. */
  lemma NoMissingFeatureScreen(view: View, isAuthLoading: bool, isAuthenticated: bool)
    ensures !ShownScreen(view, isAuthLoading, isAuthenticated).MissingFeatureScreen?
  {
    if view.Feature? {
      EveryFeatureHasDetail(view.key);
    }
  }

  class App {
    var currentView: View

    constructor ()
      ensures currentView == Home
    {
      currentView := Home;
    }

    /** `handleFeatureSelect`: opens the feature for a signed-in user, otherwise goes home. */
    method HandleFeatureSelect(key: FeatureKey, isAuthenticated: bool)
      modifies this`currentView
      ensures currentView == if isAuthenticated then Feature(key) else Home
      ensures !isAuthenticated ==> ShownScreen(currentView, false, isAuthenticated).HomeScreen?
    {
      if isAuthenticated {
        currentView := Feature(key);
      } else {
        currentView := Home;
      }
    }

    /** `handleGoHome`. */
    method HandleGoHome()
      modifies this`currentView
      ensures currentView == Home
    {
      currentView := Home;
    }

    /** The sign-out button: signs out (clearing the user's histories), then goes home. */
    method HandleLogout(auth: Auth.AuthState, store: ChatStore.ChatHistoryStore, clearFailed: bool)
      requires auth.Valid() && store.Valid()
      modifies this`currentView, auth`user, auth`isAuthenticated, auth`session, store`records
      ensures auth.Valid() && store.Valid()
      ensures currentView == Home && auth.user.None? && !auth.isAuthenticated && auth.session.None?
      ensures store.records == if old(auth.user).Some? && old(auth.user).value.id != []
        then ChatStore.ClearedAll(old(store.records), old(auth.user).value.id, clearFailed)
        else old(store.records)
      ensures ShownScreen(currentView, auth.isLoading, auth.isAuthenticated) == if auth.isLoading then LoadingScreen else HomeScreen
    {
      auth.Logout(store, clearFailed);
      currentView := Home;
    }
  }
}
