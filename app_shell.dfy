/**
 * The web client's shell: the state held by `App` (user id and onboarded
 * flag, initialised from and re-synchronised with local storage) and the
 * redirect guard and routes of `AppContent`.
 */
module AppShell {
  import opened Wrappers
  import opened Text

  /** JavaScript truthiness of a string that may be null: present and non-empty. */
  predicate Truthy(v: Option<string>) {
    v.Some? && v.value != ""
  }

  /** `localStorage.getItem(key)`: the stored string, or null. */
  function GetItem(storage: map<string, string>, key: string): Option<string> {
    if key in storage then Some(storage[key]) else None
  }

  // ---------------------------------------------------------------------
  // Routing guard
  // ---------------------------------------------------------------------

  datatype Page =
    | LoginPage | OnboardingPage | Recommendations | ProfilePage | SettingsPage
    | RestaurantInfoPage(id: string) | RecipeInfoPage(id: string) | TasteProfilePage | LegalPage

  /** What the `<Routes>` block renders: a page, or a nested `<Navigate>`. */
  datatype Content = Show(page: Page) | NavigateTo(target: string)

  /** The result of `AppContent`: an early redirect, or the layout with optional header and footer. */
  datatype View = Redirect(to: string) | Layout(header: bool, content: Content, footer: bool)

  /** The `:id` segment of `prefix + id`: non-empty and without a slash. */
  function Param(path: string, prefix: string): Option<string> {
    if StartsWith(path, prefix) && |path| > |prefix| && '/' !in path[|prefix|..]
    then Some(path[|prefix|..]) else None
  }

  /** The page of a protected route matching `path`, if any. */
  function ProtectedRoute(path: string): (r: Option<Page>)
    ensures r.Some? ==> IsProtected(r.value) && path != "/login" && path != "/onboarding"
  {
    ParamNotShort(path, "/restaurant/");
    ParamNotShort(path, "/recipe/");
    if path == "/" then Some(Recommendations)
    else if path == "/profile" then Some(ProfilePage)
    else if path == "/settings" then Some(SettingsPage)
    else if Param(path, "/restaurant/").Some? then Some(RestaurantInfoPage(Param(path, "/restaurant/").value))
    else if Param(path, "/recipe/").Some? then Some(RecipeInfoPage(Param(path, "/recipe/").value))
    else if path == "/taste-profile" then Some(TasteProfilePage)
    else if path == "/legal" then Some(LegalPage)
    else None
  }

  lemma ParamNotShort(path: string, prefix: string)
    requires |prefix| >= 2
    ensures Param(path, prefix).Some? ==> |path| > |prefix| && path[1] == prefix[1]
  {
    if Param(path, prefix).Some? {
      assert path[..|prefix|][1] == path[1];
    }
  }

  predicate IsProtected(p: Page) {
    !(p.LoginPage? || p.OnboardingPage?)
  }

  /** The `<Routes>` block; the protected routes exist only for an onboarded user. */
  function Route(path: string, userId: Option<string>, onboarded: bool): (c: Content)
    ensures c.Show? && IsProtected(c.page) ==> Truthy(userId) && onboarded
    ensures c.NavigateTo? ==> c.target == "/"
  {
    if path == "/login" then Show(LoginPage)
    else if path == "/onboarding" then Show(OnboardingPage)
    else if Truthy(userId) && onboarded && ProtectedRoute(path).Some? then Show(ProtectedRoute(path).value)
    else NavigateTo("/")
  }

  /** `AppContent` at `path`. */
  function Render(path: string, userId: Option<string>, onboarded: bool): (v: View)
    ensures v.Layout? ==> v.header == v.footer == (path != "/login")
  {
    if !Truthy(userId) && path != "/login" then Redirect("/login")
    else if Truthy(userId) && !onboarded && path != "/onboarding" then Redirect("/onboarding")
    else
      var chrome := path != "/login";
      Layout(chrome, Route(path, userId, onboarded), chrome)
  }

  /** Without a user id, every path except /login (the legal page too) redirects to /login. */
  lemma GuardWithoutUser(path: string, userId: Option<string>, onboarded: bool)
    requires !Truthy(userId)
    ensures Render(path, userId, onboarded).Redirect? <==> path != "/login"
    ensures path != "/login" ==> Render(path, userId, onboarded) == Redirect("/login")
    ensures Render("/legal", userId, onboarded) == Redirect("/login")
  {
  }

  /** With a user id but before onboarding, every path except /onboarding (/login too) redirects there. */
  lemma GuardBeforeOnboarding(path: string, userId: Option<string>)
    requires Truthy(userId)
    ensures Render(path, userId, false).Redirect? <==> path != "/onboarding"
    ensures path != "/onboarding" ==> Render(path, userId, false) == Redirect("/onboarding")
    ensures Render("/login", userId, false) == Redirect("/onboarding")
  {
  }

  /** A protected page is shown exactly when there is a user id, onboarding is done and a protected route matches. */
  lemma ProtectedNeedsOnboardedUser(path: string, userId: Option<string>, onboarded: bool)
    ensures (exists p :: IsProtected(p) && Render(path, userId, onboarded) == Layout(true, Show(p), true))
            <==> Truthy(userId) && onboarded && ProtectedRoute(path).Some?
  {
    if Truthy(userId) && onboarded && ProtectedRoute(path).Some? {
      var p := ProtectedRoute(path).value;
      assert IsProtected(p) && Render(path, userId, onboarded) == Layout(true, Show(p), true);
    }
  }

  /** For an onboarded user, a path that matches no route falls through to `<Navigate to="/">`. */
  lemma UnmatchedGoesHome(path: string, userId: Option<string>, onboarded: bool)
    requires Truthy(userId) && onboarded
    requires path != "/login" && path != "/onboarding" && ProtectedRoute(path).None?
    ensures Render(path, userId, onboarded) == Layout(true, NavigateTo("/"), true)
  {
  }

  /** Where a view sends the browser next, if anywhere. */
  function Next(v: View): Option<string> {
    match v
    case Redirect(to) => Some(to)
    case Layout(_, content, _) => if content.NavigateTo? then Some(content.target) else None
  }

  /** There are no redirect loops: from any path, at most one redirect leads to a shown page. */
  lemma AtMostOneRedirect(path: string, userId: Option<string>, onboarded: bool)
    ensures var v := Render(path, userId, onboarded);
      Next(v).Some? ==> Next(Render(Next(v).value, userId, onboarded)).None?
  {
  }

  // ---------------------------------------------------------------------
  // App state
  // ---------------------------------------------------------------------

  /** `localStorage.getItem('userId') || null`. */
  function StoredUserId(storage: map<string, string>): (u: Option<string>)
    ensures u.Some? <==> Truthy(GetItem(storage, "userId"))
    ensures u.Some? ==> u.value == storage["userId"]
  {
    if Truthy(GetItem(storage, "userId")) then GetItem(storage, "userId") else None
  }

  /** `localStorage.getItem('onboarded') === 'true'`. */
  function StoredOnboarded(storage: map<string, string>): bool {
    GetItem(storage, "onboarded") == Some("true")
  }

  /** The state after the `useEffect` re-check: a truthy stored id wins, the flag follows storage. */
  function Synced(userId: Option<string>, onboarded: bool, storage: map<string, string>): (s: (Option<string>, bool))
    ensures s.1 == StoredOnboarded(storage)
    ensures Truthy(GetItem(storage, "userId")) ==> s.0 == GetItem(storage, "userId")
    ensures !Truthy(GetItem(storage, "userId")) ==> s.0 == userId
  {
    var stored := GetItem(storage, "userId");
    var u := if Truthy(stored) && stored != userId then stored else userId;
    (u, StoredOnboarded(storage))
  }

  /** Re-checking twice is the same as re-checking once. */
  lemma SyncedIdempotent(userId: Option<string>, onboarded: bool, storage: map<string, string>)
    ensures var s := Synced(userId, onboarded, storage);
      Synced(s.0, s.1, storage) == s
  {
  }

  /** The state `App` starts with already agrees with storage: the first re-check changes nothing. */
  lemma InitialStateIsSynced(storage: map<string, string>)
    ensures Synced(StoredUserId(storage), StoredOnboarded(storage), storage)
            == (StoredUserId(storage), StoredOnboarded(storage))
  {
  }

  class App {
    var userId: Option<string>
    var onboarded: bool
    /** The browser's local storage. */
    var storage: map<string, string>

    /** `App`'s initial state, read from local storage. */
    constructor (stored: map<string, string>)
      ensures storage == stored
      ensures userId == StoredUserId(stored) && onboarded == StoredOnboarded(stored)
    {
      storage := stored;
      userId := StoredUserId(stored);
      onboarded := StoredOnboarded(stored);
    }

    /** `setOnboarded(value)`. */
    method SetOnboarded(value: bool)
      modifies this`onboarded
      ensures onboarded == value
    {
      onboarded := value;
    }

    /** `localStorage.setItem(key, value)`. */
    method SetItem(key: string, value: string)
      modifies this`storage
      ensures storage == old(storage)[key := value]
    {
      storage := storage[key := value];
    }

    /** The `useEffect` body that re-reads local storage. */
    method SyncFromStorage()
      modifies this`userId, this`onboarded
      ensures (userId, onboarded) == Synced(old(userId), old(onboarded), storage)
    {
      var storedUserId := GetItem(storage, "userId");
      if Truthy(storedUserId) && storedUserId != userId {
        userId := storedUserId;
      }
      var storedOnboarded := GetItem(storage, "onboarded") == Some("true");
      if storedOnboarded != onboarded {
        onboarded := storedOnboarded;
      }
    }
  }
}
