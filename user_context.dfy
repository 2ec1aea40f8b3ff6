/**
  The authentication state of the client (frontend/src/context/UserContext.jsx):
  `userReducer` over the four actions, the initial state, the action sequences
  the provider dispatches, and the display-name rule.
*/
module UserContext {
  import opened Wrappers

  /** The user object the client keeps; `name` is the display name it adds. */
  datatype ClientUser = ClientUser(firstName: string, lastName: string, email: string, name: string)

  datatype State = State(user: Option<ClientUser>, isAuthenticated: bool, isLoading: bool, error: Option<string>)

  /** A dispatched action; `Unknown` is any other action type. */
  datatype Action =
    | SetLoading(loading: bool)
    | SetUser(payload: Option<ClientUser>)
    | SetError(message: Option<string>)
    | Logout
    | Unknown

  const Initial := State(None, false, true, None)

  /** The invariant the reducer keeps: authenticated exactly when a user is present. */
  predicate Consistent(s: State)
  {
    s.isAuthenticated <==> s.user.Some?
  }

  /** `userReducer`. */
  function Reduce(s: State, a: Action): (r: State)
    ensures a.SetLoading? ==> r == s.(isLoading := a.loading)
    ensures a.SetUser? ==> r.user == a.payload && (r.isAuthenticated <==> a.payload.Some?) && !r.isLoading && r.error == None
    ensures a.SetError? ==> r.user == s.user && r.isAuthenticated == s.isAuthenticated && r.error == a.message && !r.isLoading
    ensures a.Logout? ==> r == State(None, false, false, None)
    ensures a.Unknown? ==> r == s
    ensures Consistent(s) ==> Consistent(r)
  {
    match a
    case SetLoading(loading) => s.(isLoading := loading)
    case SetUser(payload) => s.(user := payload, isAuthenticated := payload.Some?, isLoading := false, error := None)
    case SetError(message) => s.(error := message, isLoading := false)
    case Logout => s.(user := None, isAuthenticated := false, isLoading := false, error := None)
    case Unknown => s
  }

  /** The state after dispatching `actions` in order. */
  function Run(s: State, actions: seq<Action>): State
    decreases |actions|
  {
    if actions == [] then s else Run(Reduce(s, actions[0]), actions[1..])
  }

  /** Starting from the initial state, every sequence of dispatches keeps the invariant. */
  lemma {:induction false} RunKeepsConsistent(s: State, actions: seq<Action>)
    requires Consistent(s)
    ensures Consistent(Run(s, actions))
    decreases |actions|
  {
    if actions != [] {
      RunKeepsConsistent(Reduce(s, actions[0]), actions[1..]);
    }
  }

  lemma InitialConsistent()
    ensures Consistent(Initial) && Initial.user == None && !Initial.isAuthenticated && Initial.isLoading && Initial.error == None
  {
  }

  /** Dispatching two sequences one after the other is dispatching their concatenation. */
  lemma {:induction false} RunAppend(s: State, first: seq<Action>, second: seq<Action>)
    ensures Run(s, first + second) == Run(Run(s, first), second)
    decreases |first|
  {
    if first == [] {
      assert first + second == second;
    } else {
      assert (first + second)[1..] == first[1..] + second;
      RunAppend(Reduce(s, first[0]), first[1..], second);
    }
  }

  /** `user.firstName && user.lastName ? "first last" : user.email`. */
  function DisplayName(firstName: string, lastName: string, email: string): (n: string)
    ensures firstName != [] && lastName != [] ==> n == firstName + " " + lastName
    ensures firstName == [] || lastName == [] ==> n == email
  {
    if firstName != [] && lastName != [] then firstName + " " + lastName else email
  }

  /** The user as stored after login, register or the start-up check: with its display name. */
  function Named(u: ClientUser): (r: ClientUser)
    ensures r.firstName == u.firstName && r.lastName == u.lastName && r.email == u.email
    ensures r.name == DisplayName(u.firstName, u.lastName, u.email)
  {
    u.(name := DisplayName(u.firstName, u.lastName, u.email))
  }

  /** How a call to the server ends: the user it returns, or the server's message (None when it gave none). */
  datatype CallOutcome = Succeeded(user: ClientUser) | Failed(serverMessage: Option<string>)

  /** `login` and `register`: loading on, then the named user or the error message. */
  function SignInActions(outcome: CallOutcome, defaultMessage: string): (actions: seq<Action>)
    ensures |actions| == 2 && actions[0] == SetLoading(true)
  {
    match outcome
    case Succeeded(u) => [SetLoading(true), SetUser(Some(Named(u)))]
    case Failed(m) =>
      var message := if m.Some? && m.value != [] then m.value else defaultMessage;
      [SetLoading(true), SetError(Some(message))]
  }

  /** After a successful sign-in the user is present, authenticated, not loading and without error. */
  lemma SignInSucceeds(s: State, u: ClientUser, defaultMessage: string)
    ensures Run(s, SignInActions(Succeeded(u), defaultMessage)) == State(Some(Named(u)), true, false, None)
  {
    var actions := SignInActions(Succeeded(u), defaultMessage);
    var mid := Reduce(s, actions[0]);
    assert actions[1..] == [actions[1]] && [actions[1]][1..] == [];
    assert Run(s, actions) == Run(mid, [actions[1]]) == Reduce(mid, actions[1]);
  }

  /** After a failed sign-in the user is as before and the error is the server's message or the default. */
  lemma SignInFails(s: State, m: Option<string>, defaultMessage: string)
    ensures var r := Run(s, SignInActions(Failed(m), defaultMessage));
      && r.user == s.user && r.isAuthenticated == s.isAuthenticated && !r.isLoading
      && r.error == Some(if m.Some? && m.value != [] then m.value else defaultMessage)
  {
    var actions := SignInActions(Failed(m), defaultMessage);
    var mid := Reduce(s, actions[0]);
    assert actions[1..] == [actions[1]] && [actions[1]][1..] == [];
    assert Run(s, actions) == Run(mid, [actions[1]]) == Reduce(mid, actions[1]);
  }

  /** `logout` always ends signed out, whatever the server answered. */
  lemma LogoutSignsOut(s: State)
    ensures Run(s, [Logout]) == State(None, false, false, None)
  {
  }

  /**
    The start-up check: without a stored token only loading ends; with one, the
    current user (possibly none) is set, or the error "Authentication failed".
  */
  function CheckAuthActions(hasToken: bool, current: Result<Option<ClientUser>, ()>): (actions: seq<Action>)
    ensures !hasToken ==> actions == [SetLoading(false)]
  {
    if !hasToken then [SetLoading(false)]
    else
      match current
      case Ok(Some(u)) => [SetUser(Some(Named(u)))]
      case Ok(None) => [SetUser(None)]
      case Err(_) => [SetError(Some("Authentication failed"))]
  }

  /** The start-up check from the initial state always ends with loading off and the invariant kept. */
  lemma CheckAuthSettles(hasToken: bool, current: Result<Option<ClientUser>, ()>)
    ensures var r := Run(Initial, CheckAuthActions(hasToken, current));
      !r.isLoading && Consistent(r) && (r.isAuthenticated <==> hasToken && current.Ok? && current.value.Some?)
  {
  }
}
