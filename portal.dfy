/**
 * The front end's global state and its event handlers: the page containers,
 * the session (`currentUser`), the theme, the active role tab and the login
 * form, the toast stack, and the navigations scheduled with a delay.
 */
module Portal {
  import opened Wrappers
  import Tables
  import opened Dom
  import opened Roles

  /** The session object handleLogin creates. */
  datatype User = User(identifier: string, role: Role)

  datatype ToastKind = SuccessToast | ErrorToast
  datatype Toast = Toast(title: string, description: string, kind: ToastKind)

  /**
   * A navigation scheduled with a fixed one-second delay. All of them wait
   * equally long, so they fire in the order they were scheduled, and none is
   * ever cancelled.
   */
  datatype Timer = ShowDashboard(page: string) | ReturnToLogin

  const LoginPage := "login-page"

  /** The id of a role's dashboard page. */
  function DashboardPage(r: Role): string
  {
    RoleKey(r) + "-dashboard"
  }

  /** The theme: the `dark` class of the root element, `currentTheme`, and the stored "theme" key. */
  datatype Theme = Theme(dark: bool, current: string, stored: Option<string>)

  function ThemeName(dark: bool): string
  {
    if dark then "dark" else "light"
  }

  /** The theme at start-up: the stored name, or "light" when the key is missing or empty. */
  function InitialTheme(stored: Option<string>): (t: Theme)
    ensures t.current == (if stored.Some? && stored.value != "" then stored.value else "light")
    ensures t.dark <==> stored == Some("dark")
    ensures t.stored == stored
  {
    var current := if stored.Some? && stored.value != "" then stored.value else "light";
    Theme(current == "dark", current, stored)
  }

  /**
   * toggleTheme: the `dark` class flips, and the new name is both the
   * current theme and the stored one.
   */
  function Toggle(t: Theme): (r: Theme)
    ensures r.dark == !t.dark
    ensures r.current == ThemeName(r.dark) && r.stored == Some(r.current)
  {
    if t.dark then Theme(false, "light", Some("light")) else Theme(true, "dark", Some("dark"))
  }

  /**
   * Toggling twice restores the `dark` class and stores the name that
   * matches it; when the current name already matched the class, the
   * current name is restored as well.
   */
  lemma ToggleTwice(t: Theme)
    ensures Toggle(Toggle(t)).dark == t.dark
    ensures Toggle(Toggle(t)).stored == Some(ThemeName(t.dark))
    ensures t.current == ThemeName(t.dark) ==> Toggle(Toggle(t)).current == t.current
  {
  }

  /** The theme a start-up with a stored "light" or "dark" shows its name consistently with the class. */
  lemma InitialThemeConsistent(stored: Option<string>)
    requires stored.None? || stored == Some("") || stored == Some("light") || stored == Some("dark")
    ensures InitialTheme(stored).current == ThemeName(InitialTheme(stored).dark)
  {
  }

  class App {
    /** The `.page-content` containers in document order, keyed by id. */
    var pages: array<Element>
    var currentUser: Option<User>
    /** Whether the root element carries the `dark` class. */
    var dark: bool
    var currentTheme: string
    /** The "theme" key of the browser's persistent storage. */
    var storedTheme: Option<string>
    /** The role whose tab carries `active` on the login page. */
    var activeRole: Role
    var loginView: LoginView
    /** The values of the login form's two fields. */
    var identifierInput: string
    var passwordInput: string
    var toasts: seq<Toast>
    /** Scheduled navigations, in firing order. */
    var timers: seq<Timer>

    function ThemeOf(): Theme
      reads this
    {
      Theme(dark, currentTheme, storedTheme)
    }

    /**
     * Start-up (initializeApp): the theme read from storage and applied, no
     * session, and the login page shown.
     */
    constructor (pages: seq<Element>, stored: Option<string>, role: Role, view: LoginView)
      ensures fresh(this.pages) && this.pages[..] == ShownPages(pages, LoginPage)
      ensures ThemeOf() == InitialTheme(stored)
      ensures currentUser == None && activeRole == role && loginView == view
      ensures identifierInput == "" && passwordInput == "" && toasts == [] && timers == []
    {
      this.pages := new Element[|pages|](k requires 0 <= k < |pages| => pages[k]);
      currentUser := None;
      var theme := if stored.Some? && stored.value != "" then stored.value else "light";
      currentTheme := theme;
      storedTheme := stored;
      dark := theme == "dark";
      activeRole := role;
      loginView := view;
      identifierInput, passwordInput := "", "";
      toasts, timers := [], [];
      new;
      assert this.pages[..] == pages;
      ShowPage(LoginPage);
    }

    /** toggleTheme. */
    method ToggleTheme()
      modifies this`dark, this`currentTheme, this`storedTheme
      ensures ThemeOf() == Toggle(old(ThemeOf()))
    {
      if dark {
        dark := false;
        currentTheme := "light";
      } else {
        dark := true;
        currentTheme := "dark";
      }
      storedTheme := Some(currentTheme);
    }

    /**
     * showPage: every page concealed, then the first page with the given id
     * made visible; the empty id finds no element.
     */
    method ShowPage(id: string)
      modifies pages
      ensures pages[..] == ShownPages(old(pages[..]), id)
    {
      var i := 0;
      while i < pages.Length
        invariant 0 <= i <= pages.Length
        invariant forall k :: 0 <= k < i ==> pages[k] == Conceal(old(pages[k]))
        invariant forall k :: i <= k < pages.Length ==> pages[k] == old(pages[k])
      {
        pages[i] := Conceal(pages[i]);
        i := i + 1;
      }
      if id != "" {
        var selected := Tables.IndexOfFirst(pages[..], KeyIs(id));
        if selected.Some? {
          pages[selected.value] := pages[selected.value].(active := true, hidden := false);
        }
      }
    }

    /** switchRole: the role's tab alone is active and the login form takes on the role's metadata. */
    method SwitchRole(r: Role)
      modifies this`activeRole, this`loginView
      ensures activeRole == r && loginView == Reconfigure(old(loginView), Details(r))
    {
      activeRole := r;
      var info := GetRoleDetails(RoleKey(r)).value;
      var shown := info.sampleCredentials != "";
      loginView := LoginView(info.icon, info.title, info.description, info.identifierLabel,
                             info.placeholder, info.inputType,
                             if shown then info.sampleCredentials else loginView.sampleText, shown);
    }

    /** The user typing into the login form (the browser's part, not the page's code). */
    method EnterCredentials(identifier: string, password: string)
      modifies this`identifierInput, this`passwordInput
      ensures identifierInput == identifier && passwordInput == password
    {
      identifierInput, passwordInput := identifier, password;
    }

    /**
     * handleLogin: with both fields non-empty, the user becomes the session
     * under the active role, a success toast is shown and the role's
     * dashboard is scheduled; otherwise the session stays as it was, an
     * error toast is shown and nothing is scheduled.
     */
    method HandleLogin()
      modifies this`currentUser, this`toasts, this`timers
      ensures identifierInput != "" && passwordInput != "" ==>
        && currentUser == Some(User(identifierInput, activeRole))
        && toasts == old(toasts) + [Toast("Login Successful", "Welcome to the " + RoleKey(activeRole) + " dashboard!", SuccessToast)]
        && timers == old(timers) + [ShowDashboard(DashboardPage(activeRole))]
      ensures identifierInput == "" || passwordInput == "" ==>
        && currentUser == old(currentUser)
        && toasts == old(toasts) + [Toast("Login Failed", "Please enter valid credentials", ErrorToast)]
        && timers == old(timers)
    {
      var identifier, password := identifierInput, passwordInput;
      if identifier != "" && password != "" {
        currentUser := Some(User(identifier, activeRole));
        toasts := toasts + [Toast("Login Successful", "Welcome to the " + RoleKey(activeRole) + " dashboard!", SuccessToast)];
        timers := timers + [ShowDashboard(RoleKey(activeRole) + "-dashboard")];
      } else {
        toasts := toasts + [Toast("Login Failed", "Please enter valid credentials", ErrorToast)];
      }
    }

    /** handleLogout: no session, a toast, and the return to the login page scheduled. */
    method HandleLogout()
      modifies this`currentUser, this`toasts, this`timers
      ensures currentUser == None
      ensures toasts == old(toasts) + [Toast("Logged Out", "You have been successfully logged out", SuccessToast)]
      ensures timers == old(timers) + [ReturnToLogin]
    {
      currentUser := None;
      toasts := toasts + [Toast("Logged Out", "You have been successfully logged out", SuccessToast)];
      timers := timers + [ReturnToLogin];
    }

    /**
     * The next scheduled navigation fires: a dashboard is shown, or the login
     * page is shown and the form's fields are emptied. The session is not
     * consulted, so a navigation scheduled before a logout still happens.
     */
    method RunTimer()
      modifies pages, this`timers, this`identifierInput, this`passwordInput
      ensures old(timers) == [] ==>
        && timers == [] && pages[..] == old(pages[..])
        && identifierInput == old(identifierInput) && passwordInput == old(passwordInput)
      ensures old(timers) != [] ==> timers == old(timers)[1..]
      ensures old(timers) != [] && old(timers)[0].ShowDashboard? ==>
        && pages[..] == ShownPages(old(pages[..]), old(timers)[0].page)
        && identifierInput == old(identifierInput) && passwordInput == old(passwordInput)
      ensures old(timers) != [] && old(timers)[0].ReturnToLogin? ==>
        pages[..] == ShownPages(old(pages[..]), LoginPage) && identifierInput == "" && passwordInput == ""
    {
      if timers != [] {
        var next := timers[0];
        timers := timers[1..];
        match next
        case ShowDashboard(page) =>
          ShowPage(page);
        case ReturnToLogin =>
          ShowPage(LoginPage);
          identifierInput, passwordInput := "", "";
      }
    }
  }
}
