/** The application store (`useAppStore`): the signed-in user, the selected
    store, the company and store list, the loading and error flags and the
    sidebar. Each call into the auth or data service is a parameter
    holding its outcome (`Err` for a thrown error); an action returns the
    state once its `finally` has run. The persisted slice is the part the
    `persist` middleware writes to the browser. */
module AppStore {
  import opened Common
  import opened Types

  datatype AppState = AppState(
    currentUser: Option<User>,
    currentStore: Option<Store>,
    company: Option<Company>,
    stores: seq<Store>,
    users: seq<User>,
    isLoading: bool,
    error: Option<string>,
    isInitialized: bool,
    sidebarOpen: bool)

  function InitialApp(): AppState {
    AppState(None, None, None, [], [], false, None, false, true)
  }

  // ---------------------------------------------------------------------------
  // initialize

  /** The remote outcomes `initialize` meets: the current session, then,
      for a signed-in user, the store list and the company. */
  datatype InitCalls = InitCalls(
    session: Result<Option<User>>, stores: Result<seq<Store>>, company: Result<Option<Company>>)

  /** Whether a call throws before `isInitialized` is set. */
  predicate InitThrows(calls: InitCalls) {
    || calls.session.Err?
    || (calls.session.value.Some? && (calls.stores.Err? || calls.company.Err?))
  }

  /** `currentStore?.id` as a condition. */
  predicate HasStoreId(store: Option<Store>) {
    store.Some? && store.value.id != ""
  }

  /** The store selection after a reload: the persisted store is replaced by
      the fresh object with its id, when the list has one. */
  function RestoreStore(current: Option<Store>, stores: seq<Store>): (r: Option<Store>)
    ensures !HasStoreId(current) ==> r == current
    ensures HasStoreId(current) && (forall i :: 0 <= i < |stores| ==> stores[i].id != current.value.id) ==> r == current
    ensures r != current ==> r.Some? && r.value in stores && r.value.id == current.value.id
  {
    if HasStoreId(current) then
      match Find(stores, (s: Store) => s.id == current.value.id)
      case Some(found) => Some(found)
      case None => current
    else current
  }

  function Initialize(s: AppState, calls: InitCalls): (r: AppState)
    ensures !r.isLoading
    ensures r.sidebarOpen == s.sidebarOpen && r.users == s.users
    ensures InitThrows(calls) ==> r.isInitialized == s.isInitialized && r.error.Some?
    ensures !InitThrows(calls) ==> r.isInitialized && r.error == s.error
    ensures calls.session.Ok? && calls.session.value.Some? ==> r.currentUser == calls.session.value
    ensures calls.session.Err? || (calls.session.Ok? && calls.session.value.None?) ==>
              r.(isLoading := s.isLoading, error := s.error, isInitialized := s.isInitialized) == s
    ensures !InitThrows(calls) && calls.session.value.Some? ==>
              && r.stores == calls.stores.value
              && r.company == calls.company.value
              && r.currentStore == RestoreStore(s.currentStore, calls.stores.value)
  {
    var loading := s.(isLoading := true);
    var t :=
      match calls.session
      case Err(m) => loading.(error := Some(m))
      case Ok(None) => loading.(isInitialized := true)
      case Ok(Some(user)) =>
        var signed := loading.(currentUser := Some(user));
        match calls.stores
        case Err(m) => signed.(error := Some(m))
        case Ok(stores) =>
          match calls.company
          case Err(m) => signed.(error := Some(m))
          case Ok(company) =>
            var loaded := signed.(stores := stores, company := company);
            loaded.(currentStore := RestoreStore(loaded.currentStore, stores), isInitialized := true);
    t.(isLoading := false)
  }

  /** A persisted store whose id is no longer in the list is kept as it was. */
  lemma StaleStoreSurvivesInitialize(s: AppState, calls: InitCalls)
    requires !InitThrows(calls) && calls.session.value.Some?
    requires HasStoreId(s.currentStore)
    requires forall i :: 0 <= i < |calls.stores.value| ==> calls.stores.value[i].id != s.currentStore.value.id
    ensures Initialize(s, calls).currentStore == s.currentStore
    ensures Initialize(s, calls).isInitialized
  {
  }

  /** A persisted store whose id is in the list is replaced by the first
      store with that id. */
  lemma {:induction false} FreshStoreReplacesPersisted(s: AppState, calls: InitCalls, k: nat)
    requires !InitThrows(calls) && calls.session.value.Some?
    requires HasStoreId(s.currentStore)
    requires k < |calls.stores.value| && calls.stores.value[k].id == s.currentStore.value.id
    requires forall j :: 0 <= j < k ==> calls.stores.value[j].id != s.currentStore.value.id
    ensures Initialize(s, calls).currentStore == Some(calls.stores.value[k])
  {
    var stores := calls.stores.value;
    var found := FindFirst(stores, (t: Store) => t.id == s.currentStore.value.id);
    assert found == Some(k);
  }

  // ---------------------------------------------------------------------------
  // login

  /** The remote outcomes `login` meets: `authService.login`'s answer (a
      user and an error message), then the store list and the company. */
  datatype LoginCalls = LoginCalls(
    auth: Result<(Option<User>, Option<string>)>, stores: Result<seq<Store>>, company: Result<Option<Company>>)

  function Login(s: AppState, calls: LoginCalls): (r: (AppState, bool))
    ensures !r.0.isLoading
    ensures r.0.sidebarOpen == s.sidebarOpen && r.0.isInitialized == s.isInitialized && r.0.users == s.users
    // the answer is true exactly when a user came back without an error and both loads worked
    ensures r.1 <==> calls.auth.Ok? && !TruthyStr(calls.auth.value.1) && calls.auth.value.0.Some?
                     && calls.stores.Ok? && calls.company.Ok?
    // an error answer: false, the message is shown, the session is untouched
    ensures calls.auth.Ok? && TruthyStr(calls.auth.value.1) ==>
              && !r.1 && r.0.error == calls.auth.value.1
              && r.0.currentUser == s.currentUser && r.0.currentStore == s.currentStore
    // a thrown login: false, its message is shown, the session is untouched
    ensures calls.auth.Err? ==>
              !r.1 && r.0.error == Some(calls.auth.message) && r.0.currentUser == s.currentUser
    // a user came back: it is signed in, even when a later load throws
    ensures calls.auth.Ok? && !TruthyStr(calls.auth.value.1) && calls.auth.value.0.Some? ==>
              r.0.currentUser == calls.auth.value.0
    ensures r.1 ==>
              && r.0.error.None?
              && r.0.stores == calls.stores.value && r.0.company == calls.company.value
              && r.0.currentStore == (if |calls.stores.value| > 0 then Some(calls.stores.value[0]) else s.currentStore)
  {
    var start := s.(isLoading := true, error := None);
    var t: (AppState, bool) :=
      match calls.auth
      case Err(m) => (start.(error := Some(m)), false)
      case Ok((user, error)) =>
        if TruthyStr(error) then (start.(error := error), false)
        else match user
          case None => (start, false)
          case Some(u) =>
            var signed := start.(currentUser := Some(u));
            match calls.stores
            case Err(m) => (signed.(error := Some(m)), false)
            case Ok(stores) =>
              match calls.company
              case Err(m) => (signed.(error := Some(m)), false)
              case Ok(company) =>
                var loaded := signed.(stores := stores, company := company);
                (if |stores| > 0 then loaded.(currentStore := Some(stores[0])) else loaded, true);
    (t.0.(isLoading := false), t.1)
  }

  /** A login whose store list fails answers false yet leaves the user
      signed in. */
  lemma FailedLoadStillSignsIn(s: AppState, u: User, message: string, company: Result<Option<Company>>)
    ensures var r := Login(s, LoginCalls(Ok((Some(u), None)), Err(message), company));
      !r.1 && r.0.currentUser == Some(u) && r.0.error == Some(message)
  {
  }

  /** A successful login selects the first store, whatever was selected. */
  lemma LoginOverridesSelection(s: AppState, u: User, stores: seq<Store>, company: Option<Company>)
    requires |stores| > 0
    ensures Login(s, LoginCalls(Ok((Some(u), None)), Ok(stores), Ok(company))).0.currentStore == Some(stores[0])
  {
  }

  // ---------------------------------------------------------------------------
  // logout and the small setters

  /** `logout`: when `authService.logout` throws, the promise rejects before
      anything is set. */
  function Logout(s: AppState, signedOut: Result<()>): (r: AppState)
    ensures signedOut.Err? ==> r == s
    ensures signedOut.Ok? ==> r.currentUser.None? && r.currentStore.None?
    ensures r.company == s.company && r.stores == s.stores && r.users == s.users
    ensures r.sidebarOpen == s.sidebarOpen && r.error == s.error
    ensures r.isLoading == s.isLoading && r.isInitialized == s.isInitialized
  {
    if signedOut.Ok? then s.(currentUser := None, currentStore := None) else s
  }

  function SetCurrentUser(s: AppState, user: Option<User>): (r: AppState)
    ensures r.currentUser == user && r.(currentUser := s.currentUser) == s
  {
    s.(currentUser := user)
  }

  function SetCurrentStore(s: AppState, store: Option<Store>): (r: AppState)
    ensures r.currentStore == store && r.(currentStore := s.currentStore) == s
  {
    s.(currentStore := store)
  }

  /** `loadStores` */
  function LoadStores(s: AppState, fetched: Result<seq<Store>>): (r: AppState)
    ensures !r.isLoading
    ensures fetched.Ok? ==> r == s.(stores := fetched.value, isLoading := false)
    ensures fetched.Err? ==> r == s.(error := Some(fetched.message), isLoading := false)
  {
    match fetched
    case Ok(stores) => s.(stores := stores, isLoading := false)
    case Err(m) => s.(error := Some(m), isLoading := false)
  }

  function ToggleSidebar(s: AppState): (r: AppState)
    ensures r.sidebarOpen != s.sidebarOpen && r.(sidebarOpen := s.sidebarOpen) == s
  {
    s.(sidebarOpen := !s.sidebarOpen)
  }

  function SetSidebarOpen(s: AppState, open: bool): (r: AppState)
    ensures r.sidebarOpen == open && r.(sidebarOpen := s.sidebarOpen) == s
  {
    s.(sidebarOpen := open)
  }

  function ClearError(s: AppState): (r: AppState)
    ensures r.error.None? && r.(error := s.error) == s
  {
    s.(error := None)
  }

  /** Toggling twice restores the state. */
  lemma ToggleTwice(s: AppState)
    ensures ToggleSidebar(ToggleSidebar(s)) == s
  {
  }

  // ---------------------------------------------------------------------------
  // Persistence

  /** `partialize`: only these two fields are written. */
  datatype Persisted = Persisted(sidebarOpen: bool, currentStore: Option<Store>)

  function Partialize(s: AppState): (p: Persisted)
    ensures p.sidebarOpen == s.sidebarOpen && p.currentStore == s.currentStore
  {
    Persisted(s.sidebarOpen, s.currentStore)
  }

  /** Rehydration merges the saved slice over the initial state. */
  function Rehydrate(p: Persisted): (s: AppState)
    ensures s.(sidebarOpen := true, currentStore := None) == InitialApp()
    ensures Partialize(s) == p
  {
    InitialApp().(sidebarOpen := p.sidebarOpen, currentStore := p.currentStore)
  }

  /** After a reload, only the sidebar and the selected store survive: the
      user, the company, the lists, the error and the flags start afresh. */
  lemma ReloadKeepsOnlySlice(s: AppState)
    ensures var t := Rehydrate(Partialize(s));
      && t.sidebarOpen == s.sidebarOpen && t.currentStore == s.currentStore
      && t.currentUser.None? && t.company.None? && t.stores == [] && t.users == []
      && !t.isInitialized && !t.isLoading && t.error.None?
  {
  }

  /** A logout is persisted as "no store selected"; the sidebar setting
      is kept. */
  lemma LogoutPersistsNoStore(s: AppState)
    ensures Partialize(Logout(s, Ok(()))) == Persisted(s.sidebarOpen, None)
  {
  }
}
