/** The application shell: the user slice's reducer and action creators, and the
    decision taken when the sign-in widget reports success (where to navigate and
    what to store). */
module App {
  import opened Seqs
  import opened Text

  /** The signed-in user as the authentication SDK reports it: plain data, so the
      `JSON.parse(JSON.stringify(user))` copy is the same value. */
  datatype User = User(fields: map<string, string>)

  datatype UserState = UserState(user: Option<User>, isAuthenticated: bool)

  /** An action: its `type` and its `payload` (`None` for null). A `setUser` with an
      undefined payload would throw in `JSON.parse`; no call site passes one. */
  datatype Action = Action(kind: string, payload: Option<User>)

  const SetUserType := "user/setUser"
  const ClearUserType := "user/clearUser"

  const InitialState := UserState(None, false)

  function SetUser(payload: Option<User>): (a: Action)
    ensures a.kind == SetUserType && a.payload == payload
  {
    Action(SetUserType, payload)
  }

  function ClearUser(): (a: Action)
    ensures a.kind == ClearUserType
  {
    Action(ClearUserType, None)
  }

  /** `userReducer(state, action)`; `state` is `None` before the store has one, when
      the default parameter supplies the initial state. */
  function UserReducer(state: Option<UserState>, action: Action): (r: UserState)
    ensures action.kind == SetUserType ==> r.user == action.payload && (r.isAuthenticated <==> action.payload.Some?)
    ensures action.kind == ClearUserType ==> r == InitialState
    ensures action.kind != SetUserType && action.kind != ClearUserType ==>
              r == (if state.Some? then state.value else InitialState)
  {
    var current := if state.Some? then state.value else InitialState;
    if action.kind == SetUserType then current.(user := action.payload, isAuthenticated := action.payload.Some?)
    else if action.kind == ClearUserType then current.(user := None, isAuthenticated := false)
    else current
  }

  /** A user is stored exactly when the state says it is authenticated. */
  predicate Consistent(state: UserState)
  {
    state.isAuthenticated <==> state.user.Some?
  }

  /** The store starts consistent and every action keeps it so. */
  lemma ReducerKeepsConsistent(state: Option<UserState>, action: Action)
    requires state.Some? ==> Consistent(state.value)
    ensures Consistent(InitialState)
    ensures Consistent(UserReducer(state, action))
  {
  }

  /** Signing out after signing in returns to the initial state, and storing the same
      user twice is the same as storing it once. */
  lemma SetThenClear(state: Option<UserState>, payload: Option<User>)
    ensures UserReducer(Some(UserReducer(state, SetUser(payload))), ClearUser()) == InitialState
    ensures UserReducer(Some(UserReducer(state, SetUser(payload))), SetUser(payload)) == UserReducer(state, SetUser(payload))
  {
  }

  /** The path fragments that mark the sign-in pages. */
  const AuthPaths: seq<string> := ["/login", "/signup", "/callback", "/error", "/prompt-password", "/reset-password"]

  /** `isAuthPage`: the path (with its query) contains one of the sign-in fragments. */
  function IsAuthPage(currentPath: string): (r: bool)
    ensures r <==> exists fragment :: fragment in AuthPaths && Contains(currentPath, fragment)
  {
    var r :=
      Contains(currentPath, "/login") || Contains(currentPath, "/signup") ||
      Contains(currentPath, "/callback") || Contains(currentPath, "/error") ||
      Contains(currentPath, "/prompt-password") || Contains(currentPath, "/reset-password");
    assert r ==> exists fragment :: fragment in AuthPaths && Contains(currentPath, fragment) by {
      if Contains(currentPath, "/login") { assert AuthPaths[0] == "/login"; }
      else if Contains(currentPath, "/signup") { assert AuthPaths[1] == "/signup"; }
      else if Contains(currentPath, "/callback") { assert AuthPaths[2] == "/callback"; }
      else if Contains(currentPath, "/error") { assert AuthPaths[3] == "/error"; }
      else if Contains(currentPath, "/prompt-password") { assert AuthPaths[4] == "/prompt-password"; }
      else if Contains(currentPath, "/reset-password") { assert AuthPaths[5] == "/reset-password"; }
    }
    r
  }

  /** Matching is by substring: a page whose path merely mentions "/error" counts too. */
  lemma AuthPageBySubstring()
    ensures IsAuthPage("/login?redirect=/quiz")
    ensures IsAuthPage("/blog/error-handling")
    ensures !IsAuthPage("/quiz")
  {
    assert Contains("/login?redirect=/quiz", "/login") by {
      var login := "/login?redirect=/quiz";
      assert login[..6] == "/login";
    }
    assert Contains("/blog/error-handling", "/error") by {
      var blog := "/blog/error-handling";
      assert StartsWith(blog[5..], "/error");
      assert Contains(blog[4..], "/error");
      assert Contains(blog[3..], "/error");
      assert Contains(blog[2..], "/error");
      assert Contains(blog[1..], "/error");
    }
    assert forall fragment :: fragment in AuthPaths ==> !Contains("/quiz", fragment) by {
      forall fragment | fragment in AuthPaths
        ensures !Contains("/quiz", fragment)
      {
        ShorterDoesNotContain("/quiz", fragment);
      }
    }
  }

  /** What `onSuccess` does: where it navigates, and the action it dispatches. */
  datatype LoginOutcome = LoginOutcome(navigateTo: Option<string>, dispatched: Option<Action>)

  /** `onSuccess(user)` on the page `pathname` + `search`, whose `redirect` query
      parameter is `redirect`; an empty parameter is falsy, like a missing one. */
  function OnSuccess(pathname: string, search: string, redirect: Option<string>, user: Option<User>): (r: LoginOutcome)
    ensures user.None? ==> r == LoginOutcome(None, None)
    ensures user.Some? ==> r.dispatched == Some(SetUser(user))
    ensures user.Some? && redirect.Some? && redirect.value != "" ==> r.navigateTo == redirect
    ensures user.Some? && (redirect.None? || redirect.value == "") ==>
              r.navigateTo == (if IsAuthPage(pathname + search) then Some("/") else None)
  {
    if user.None? then LoginOutcome(None, None)
    else
      var navigateTo :=
        if redirect.Some? && redirect.value != "" then redirect
        else if IsAuthPage(pathname + search) then Some("/")
        else None;
      LoginOutcome(navigateTo, Some(SetUser(user)))
  }

  /** After a successful sign-in the store holds the user and is authenticated,
      whatever it held before. */
  lemma SignInAuthenticates(pathname: string, search: string, redirect: Option<string>,
                            user: User, state: Option<UserState>)
    ensures var outcome := OnSuccess(pathname, search, redirect, Some(user));
            outcome.dispatched.Some? &&
            UserReducer(state, outcome.dispatched.value) == UserState(Some(user), true)
  {
  }
}
