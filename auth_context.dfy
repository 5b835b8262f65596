/**
 * The client's session state: who is signed in, whether the first session check is still
 * pending, and the welcome dialog, which opens at most once per signed-in session.
 */
module AuthContext {
  import opened Wrappers
  import opened UserRules

  /** The provider's `useState` fields. */
  datatype AuthState = AuthState(user: Option<User>, isLoading: bool, showWelcome: bool,
                                 isFirstTimeLogin: bool, welcomeShown: bool)

  /** What `GET /api/auth/me` gives: the user, a non-ok response, or a thrown error. */
  datatype CheckResult = SessionUser(user: User) | NotSignedIn | RequestFailed

  datatype AuthEvent =
    | Login(user: User, isFirstTime: bool)
    | Logout(apiFails: bool)
    | DismissWelcome
    | CheckAuthStatus(result: CheckResult)

  /** The state the provider starts in. */
  const Initial := AuthState(None, true, false, false, false)

  /** `isAuthenticated: !!user`. */
  function IsAuthenticated(s: AuthState): (r: bool)
    ensures r <==> s.user.Some?
  {
    s.user.Some?
  }

  /** The state after one transition. */
  function Next(s: AuthState, e: AuthEvent): (r: AuthState)
    ensures e.Login? ==>
              && r.user == Some(e.user) && r.isFirstTimeLogin == e.isFirstTime && r.welcomeShown
              && r.showWelcome == (s.showWelcome || !s.welcomeShown) && r.isLoading == s.isLoading
    ensures e.Logout? ==> r == AuthState(None, s.isLoading, false, false, false)
    ensures e.DismissWelcome? ==> r == s.(showWelcome := false)
    ensures e.CheckAuthStatus? && e.result.SessionUser? ==>
              r == s.(user := Some(e.result.user), welcomeShown := true, isLoading := false)
    ensures e.CheckAuthStatus? && !e.result.SessionUser? ==> r == s.(isLoading := false)
  {
    match e
    case Login(u, first) =>
      if !s.welcomeShown then s.(user := Some(u), isFirstTimeLogin := first, showWelcome := true, welcomeShown := true)
      else s.(user := Some(u), isFirstTimeLogin := first)
    case Logout(_) => s.(user := None, showWelcome := false, isFirstTimeLogin := false, welcomeShown := false)
    case DismissWelcome => s.(showWelcome := false)
    case CheckAuthStatus(SessionUser(u)) => s.(user := Some(u), welcomeShown := true, isLoading := false)
    case CheckAuthStatus(_) => s.(isLoading := false)
  }

  /** A login opens the welcome dialog exactly when it has not been shown in this session. */
  predicate OpensWelcome(s: AuthState, e: AuthEvent) {
    e.Login? && !s.welcomeShown
  }

  /** The state after a run of transitions. */
  function Run(s: AuthState, es: seq<AuthEvent>): AuthState
    decreases |es|
  {
    if es == [] then s else Run(Next(s, es[0]), es[1..])
  }

  /** How many transitions of a run open the welcome dialog. */
  function WelcomesOpened(s: AuthState, es: seq<AuthEvent>): nat
    decreases |es|
  {
    if es == [] then 0
    else (if OpensWelcome(s, es[0]) then 1 else 0) + WelcomesOpened(Next(s, es[0]), es[1..])
  }

  predicate NoLogout(es: seq<AuthEvent>) {
    forall i :: 0 <= i < |es| ==> !es[i].Logout?
  }

  /** Without a logout, `welcomeShown` never goes back to false. */
  lemma {:induction false} WelcomeShownStays(s: AuthState, es: seq<AuthEvent>)
    requires s.welcomeShown && NoLogout(es)
    ensures Run(s, es).welcomeShown && WelcomesOpened(s, es) == 0
    decreases |es|
  {
    if es != [] {
      assert !es[0].Logout?;
      assert NoLogout(es[1..]) by {
        forall i | 0 <= i < |es[1..]| ensures !es[1..][i].Logout? {
          assert es[1..][i] == es[i + 1];
        }
      }
      WelcomeShownStays(Next(s, es[0]), es[1..]);
    }
  }

  /**
   * Between two logouts the welcome dialog opens at most once, and not at all once a session
   * check or a login has already marked it shown.
   */
  lemma {:induction false} WelcomeAtMostOnce(s: AuthState, es: seq<AuthEvent>)
    requires NoLogout(es)
    ensures WelcomesOpened(s, es) <= (if s.welcomeShown then 0 else 1)
    decreases |es|
  {
    if s.welcomeShown {
      WelcomeShownStays(s, es);
    } else if es != [] {
      assert !es[0].Logout?;
      assert NoLogout(es[1..]) by {
        forall i | 0 <= i < |es[1..]| ensures !es[1..][i].Logout? {
          assert es[1..][i] == es[i + 1];
        }
      }
      WelcomeAtMostOnce(Next(s, es[0]), es[1..]);
    }
  }

  /** A second login with no logout in between does not show the welcome again. */
  lemma SecondLoginNoWelcome(s: AuthState, u1: User, f1: bool, between: seq<AuthEvent>, u2: User, f2: bool)
    requires NoLogout(between)
    ensures var afterFirst := Next(s, Login(u1, f1));
            !OpensWelcome(Run(afterFirst, between), Login(u2, f2))
            && Next(Run(afterFirst, between), Login(u2, f2)).showWelcome == Run(afterFirst, between).showWelcome
  {
    WelcomeShownStays(Next(s, Login(u1, f1)), between);
  }

  /** After a successful session check a later login shows no welcome. */
  lemma CheckedSessionNoWelcome(s: AuthState, u: User, between: seq<AuthEvent>, u2: User, f2: bool)
    requires NoLogout(between)
    ensures var checked := Next(s, CheckAuthStatus(SessionUser(u)));
            !OpensWelcome(Run(checked, between), Login(u2, f2))
  {
    WelcomeShownStays(Next(s, CheckAuthStatus(SessionUser(u))), between);
  }

  /** The provider component with its state hooks. */
  class AuthProvider {
    var user: Option<User>
    var isLoading: bool
    var showWelcome: bool
    var isFirstTimeLogin: bool
    var welcomeShown: bool

    function State(): AuthState
      reads this
    {
      AuthState(user, isLoading, showWelcome, isFirstTimeLogin, welcomeShown)
    }

    constructor ()
      ensures State() == Initial
    {
      user := None;
      isLoading := true;
      showWelcome := false;
      isFirstTimeLogin := false;
      welcomeShown := false;
    }

    /** `isAuthenticated`. */
    function IsSignedIn(): (r: bool)
      reads this
      ensures r <==> user.Some?
    {
      IsAuthenticated(State())
    }

    /** `login(userData, isFirstTime)`. */
    method Login(u: User, isFirstTime: bool)
      modifies this
      ensures State() == Next(old(State()), AuthEvent.Login(u, isFirstTime))
    {
      user := Some(u);
      isFirstTimeLogin := isFirstTime;
      if !welcomeShown {
        showWelcome := true;
        welcomeShown := true;
      }
    }

    /** `logout()`: the state is cleared before the request, so its failure changes nothing. */
    method Logout(apiFails: bool)
      modifies this
      ensures State() == Next(old(State()), AuthEvent.Logout(apiFails))
    {
      user := None;
      showWelcome := false;
      isFirstTimeLogin := false;
      welcomeShown := false;
    }

    /** `dismissWelcome()`. */
    method DismissWelcome()
      modifies this
      ensures State() == Next(old(State()), AuthEvent.DismissWelcome)
    {
      showWelcome := false;
    }

    /** `checkAuthStatus()`: loading ends on every path. */
    method CheckAuthStatus(result: CheckResult)
      modifies this
      ensures State() == Next(old(State()), AuthEvent.CheckAuthStatus(result))
      ensures !isLoading
    {
      if result.SessionUser? {
        user := Some(result.user);
        welcomeShown := true;
      }
      isLoading := false;
    }
  }
}
