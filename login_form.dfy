/**
 The login form component around the reducer: the dispatch sequence of a
 submit, with the external authentication call as a parameter, and the parts
 of the rendered view that depend on the state.
 */
module LoginForm {
  import opened LoginReducer

  datatype Option<T> = None | Some(value: T)

  /** The actions a submit dispatches once the authentication call has answered
      `authenticated`: login first, then exactly one of success and error. */
  function SubmitActions(authenticated: bool): (acts: seq<Action>)
    ensures |acts| == 2 && acts[0] == Login
    ensures acts[1] == Success <==> authenticated
    ensures acts[1] == Error <==> !authenticated
  {
    [Login, if authenticated then Success else Error]
  }

  /** A submit from state `s`: the authentication call `login` is asked about
      the credentials held in `s`, and its answer picks the closing action. */
  function HandleSubmit(s: LoginState, login: (string, string) -> bool): (r: LoginState)
    ensures !r.loading
    ensures r.signedIn == login(s.email, s.password)
    ensures r.error == if login(s.email, s.password) then "" else ERROR_MESSAGE
    ensures r.email == s.email && r.password == s.password
  {
    var acts := SubmitActions(login(s.email, s.password));
    RunPair(s, acts[0], acts[1]);
    Run(s, acts)
  }

  /** While the authentication call is outstanding, the form shows a pending
      submit with no error, and the credentials it sends are those it holds. */
  lemma SubmitPassesThroughLoading(s: LoginState, authenticated: bool)
    ensures var pending := Run(s, SubmitActions(authenticated)[..1]);
            && pending.loading && pending.error == ""
            && pending.email == s.email && pending.password == s.password
  {
  }

  /** A submit from any state ends in a consistent state. */
  lemma SubmitKeepsConsistent(s: LoginState, login: (string, string) -> bool)
    ensures Consistent(HandleSubmit(s, login))
  {
  }

  const LOADING_LABEL: string := "LOADING..."
  const SIGN_IN_LABEL: string := "SIGN IN"

  /** The submit control of the signed-out panel. */
  datatype Button = Button(caption: string, disabled: bool)

  /** What the form shows: the signed-in panel (welcome and sign-out) or the
      signed-out panel (inputs and submit), and under either the error text
      when there is one. */
  datatype View =
    | SignedInPanel(errorText: Option<string>)
    | SignedOutPanel(submit: Button, errorText: Option<string>)

  /** The view of state `s`. */
  function Render(s: LoginState): (v: View)
    ensures v.SignedInPanel? <==> s.signedIn
    ensures v.SignedOutPanel? ==> (v.submit.disabled <==> s.loading)
    ensures v.SignedOutPanel? ==> (v.submit.caption == LOADING_LABEL <==> s.loading)
    ensures v.SignedOutPanel? ==> (v.submit.caption == SIGN_IN_LABEL <==> !s.loading)
    ensures v.errorText.Some? <==> s.error != ""
    ensures v.errorText.Some? ==> v.errorText.value == s.error
  {
    var errorText := if s.error != "" then Some(s.error) else None;
    if s.signedIn then SignedInPanel(errorText)
    else SignedOutPanel(Button(if s.loading then LOADING_LABEL else SIGN_IN_LABEL, s.loading), errorText)
  }

  /** In every state a sequence of actions reaches from INITIAL, the signed-in
      panel shows no error text. */
  lemma SignedInPanelShowsNoError(acts: seq<Action>)
    ensures Render(Run(INITIAL, acts)).SignedInPanel? ==>
              Render(Run(INITIAL, acts)).errorText == None
  {
    ReachableIsConsistent(acts);
  }

  /** After a submit the authentication call rejected, the signed-out panel
      shows the error text and an enabled submit control. */
  lemma RejectedSubmitShowsError(s: LoginState, login: (string, string) -> bool)
    requires !login(s.email, s.password)
    ensures Render(HandleSubmit(s, login))
            == SignedOutPanel(Button(SIGN_IN_LABEL, false), Some(ERROR_MESSAGE))
  {
  }

  /** After a submit the authentication call accepted, the signed-in panel
      shows with no error text. */
  lemma AcceptedSubmitSignsIn(s: LoginState, login: (string, string) -> bool)
    requires login(s.email, s.password)
    ensures Render(HandleSubmit(s, login)) == SignedInPanel(None)
  {
  }
}
