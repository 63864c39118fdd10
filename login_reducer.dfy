/**
 The state store of the login form: the five-field record the form keeps, the
 actions the form dispatches, the pure reducer that maps a state and an action
 to the next state, and what the reducer guarantees over any run of actions
 that starts from the initial state.
 */
module LoginReducer {

  /** The form's whole state: the raw credentials typed so far, the error text
      shown under the form, whether the user is signed in, and whether a submit
      is waiting for the authentication result. */
  datatype LoginState = LoginState(
    email: string,
    password: string,
    error: string,
    signedIn: bool,
    loading: bool)

  /** The one error text the form ever shows. */
  const ERROR_MESSAGE: string := "incorrect email or password"

  /** The state the form starts in: everything empty, nothing pending. */
  const INITIAL: LoginState := LoginState("", "", "", false, false)

  /** The names of the two inputs whose changes are dispatched as field updates. */
  datatype InputName = Email | Password

  /** The actions the reducer understands; `Unknown` stands for any action whose
      type tag is none of the five, which the reducer ignores. */
  datatype Action =
    | Field(name: InputName, payload: string)
    | Login
    | Logout
    | Success
    | Error
    | Unknown(tag: string)

  /** What holds of every state a sequence of actions reaches from INITIAL:
      either no error is shown, or the one error text is shown while signed
      out and not loading. */
  predicate Consistent(s: LoginState) {
    s.error == "" || (s.error == ERROR_MESSAGE && !s.signedIn && !s.loading)
  }

  /** The reducer: one step of the form's state machine. */
  function Reduce(s: LoginState, a: Action): (r: LoginState)
    // every action keeps the invariant, and every status action establishes it outright
    ensures Consistent(s) ==> Consistent(r)
    ensures !a.Field? && !a.Unknown? ==> Consistent(r)
    // only field updates and sign-out touch the credentials
    ensures !a.Field? && !a.Logout? ==> r.email == s.email && r.password == s.password
    // only login, success, error and sign-out touch the status fields
    ensures a.Field? || a.Unknown? ==>
              r.error == s.error && r.signedIn == s.signedIn && r.loading == s.loading
  {
    match a
    case Field(Email, v) => s.(email := v)
    case Field(Password, v) => s.(password := v)
    case Login => s.(error := "", loading := true)
    case Logout => s.(email := "", password := "", error := "", signedIn := false, loading := false)
    case Success => s.(loading := false, signedIn := true, error := "")
    case Error => s.(loading := false, signedIn := false, error := ERROR_MESSAGE)
    case Unknown(_) => s
  }

  /** The state after dispatching the actions of `acts` in order, starting from `s`. */
  function Run(s: LoginState, acts: seq<Action>): LoginState
    decreases |acts|
  {
    if acts == [] then s else Run(Reduce(s, acts[0]), acts[1..])
  }

  // ---------------------------------------------------------------------------
  // The effect of each case of the reducer
  // ---------------------------------------------------------------------------

  /** A field update sets exactly the named input and leaves the other input
      and the three status fields as they were. */
  lemma FieldSetsOnlyNamedInput(s: LoginState, name: InputName, v: string)
    ensures var r := Reduce(s, Field(name, v));
            && r.error == s.error && r.signedIn == s.signedIn && r.loading == s.loading
            && r.email == (if name == Email then v else s.email)
            && r.password == (if name == Password then v else s.password)
  {
  }

  /** Login clears the error and marks a submit as pending, from any state,
      and touches nothing else. */
  lemma LoginStartsSubmit(s: LoginState)
    ensures var r := Reduce(s, Login);
            && r.error == "" && r.loading
            && r.email == s.email && r.password == s.password && r.signedIn == s.signedIn
  {
  }

  /** Sign-out leads to the initial state from any state. */
  lemma LogoutResets(s: LoginState)
    ensures Reduce(s, Logout) == INITIAL
  {
  }

  /** Signing out twice is the same as signing out once. */
  lemma LogoutIdempotent(s: LoginState)
    ensures Reduce(Reduce(s, Logout), Logout) == Reduce(s, Logout)
  {
  }

  /** A positive authentication result signs the user in, clears the error and
      ends the pending submit; the credentials stay. */
  lemma SuccessSignsIn(s: LoginState)
    ensures var r := Reduce(s, Success);
            && !r.loading && r.signedIn && r.error == ""
            && r.email == s.email && r.password == s.password
  {
  }

  /** A negative authentication result signs the user out, shows the error text
      and ends the pending submit; the credentials stay. */
  lemma ErrorRejects(s: LoginState)
    ensures var r := Reduce(s, Error);
            && !r.loading && !r.signedIn && r.error == ERROR_MESSAGE
            && r.email == s.email && r.password == s.password
  {
  }

  /** An action with an unrecognised type leaves the state as it is. */
  lemma UnknownIgnored(s: LoginState, tag: string)
    ensures Reduce(s, Unknown(tag)) == s
  {
  }

  // ---------------------------------------------------------------------------
  // Runs of actions
  // ---------------------------------------------------------------------------

  /** Running two sequences one after the other is running their concatenation. */
  lemma {:induction false} RunAppend(s: LoginState, xs: seq<Action>, ys: seq<Action>)
    ensures Run(s, xs + ys) == Run(Run(s, xs), ys)
    decreases |xs|
  {
    if xs == [] {
      assert xs + ys == ys;
    } else {
      assert (xs + ys)[1..] == xs[1..] + ys;
      RunAppend(Reduce(s, xs[0]), xs[1..], ys);
    }
  }

  /** Every run from a consistent state ends in a consistent state. */
  lemma {:induction false} RunPreservesConsistent(s: LoginState, acts: seq<Action>)
    requires Consistent(s)
    ensures Consistent(Run(s, acts))
    decreases |acts|
  {
    if acts != [] {
      RunPreservesConsistent(Reduce(s, acts[0]), acts[1..]);
    }
  }

  /** Every state reachable from the initial state is consistent; in particular
      an error is never shown while signed in. */
  lemma ReachableIsConsistent(acts: seq<Action>)
    ensures Consistent(Run(INITIAL, acts))
    ensures Run(INITIAL, acts).error != "" ==> !Run(INITIAL, acts).signedIn
  {
    RunPreservesConsistent(INITIAL, acts);
  }

  /** A run of actions that leads from the initial state to `s`. */
  function Witness(s: LoginState): seq<Action> {
    (if s.error != "" then [Login, Error] else [])
    + (if s.error == "" && s.signedIn then [Login, Success] else [])
    + (if s.error == "" && s.loading then [Login] else [])
    + [Field(Email, s.email), Field(Password, s.password)]
  }

  /** Running a two-action sequence is applying its two actions in turn. */
  lemma RunPair(s: LoginState, a: Action, b: Action)
    ensures Run(s, [a, b]) == Reduce(Reduce(s, a), b)
  {
    assert [a, b][1..] == [b];
    assert Run(Reduce(s, a), [b]) == Run(Reduce(Reduce(s, a), b), []);
  }

  /** The converse of ReachableIsConsistent: every consistent state is reached
      from the initial state by some run, so Consistent describes exactly the
      states some sequence of actions reaches. */
  lemma ConsistentIsReachable(s: LoginState)
    requires Consistent(s)
    ensures Run(INITIAL, Witness(s)) == s
  {
    var errorPart := if s.error != "" then [Login, Error] else [];
    var signInPart := if s.error == "" && s.signedIn then [Login, Success] else [];
    var loadPart := if s.error == "" && s.loading then [Login] else [];
    var editPart := [Field(Email, s.email), Field(Password, s.password)];
    assert Witness(s) == errorPart + signInPart + loadPart + editPart;
    RunAppend(INITIAL, errorPart + signInPart + loadPart, editPart);
    RunAppend(INITIAL, errorPart + signInPart, loadPart);
    RunAppend(INITIAL, errorPart, signInPart);
    var afterError := Run(INITIAL, errorPart);
    if s.error != "" {
      RunPair(INITIAL, Login, Error);
    }
    assert afterError.error == s.error && !afterError.signedIn && !afterError.loading;
    var afterSignIn := Run(afterError, signInPart);
    if s.error == "" && s.signedIn {
      RunPair(afterError, Login, Success);
    }
    assert afterSignIn.error == s.error && afterSignIn.signedIn == s.signedIn && !afterSignIn.loading;
    var afterLoad := Run(afterSignIn, loadPart);
    assert afterLoad.error == s.error && afterLoad.signedIn == s.signedIn && afterLoad.loading == s.loading;
    RunPair(afterLoad, Field(Email, s.email), Field(Password, s.password));
  }

  /** The value a run leaves in input `name`: the payload of the last field
      update of that input, or `current` when the run has none. */
  function LatestInput(acts: seq<Action>, name: InputName, current: string): string
    decreases |acts|
  {
    if acts == [] then current
    else if acts[|acts| - 1].Field? && acts[|acts| - 1].name == name then acts[|acts| - 1].payload
    else LatestInput(acts[..|acts| - 1], name, current)
  }

  /** A run without sign-out leaves each input holding the last value typed
      into it, or its old value when nothing was typed into it. */
  lemma {:induction false} RunKeepsLatestInput(s: LoginState, acts: seq<Action>)
    requires forall i :: 0 <= i < |acts| ==> !acts[i].Logout?
    ensures Run(s, acts).email == LatestInput(acts, Email, s.email)
    ensures Run(s, acts).password == LatestInput(acts, Password, s.password)
    decreases |acts|
  {
    if acts != [] {
      var init, last := acts[..|acts| - 1], acts[|acts| - 1];
      assert acts == init + [last];
      RunAppend(s, init, [last]);
      RunKeepsLatestInput(s, init);
    }
  }

  /** A run made only of field updates leaves the error, the signed-in flag and
      the loading flag as they were. */
  lemma {:induction false} EditsKeepStatus(s: LoginState, acts: seq<Action>)
    requires forall i :: 0 <= i < |acts| ==> acts[i].Field?
    ensures var r := Run(s, acts);
            r.error == s.error && r.signedIn == s.signedIn && r.loading == s.loading
    decreases |acts|
  {
    if acts != [] {
      EditsKeepStatus(Reduce(s, acts[0]), acts[1..]);
    }
  }

  // ---------------------------------------------------------------------------
  // The coarse state machine
  // ---------------------------------------------------------------------------

  /** The four coarse phases of the form. */
  datatype Phase = Idle | Submitting | SignedIn | Rejected

  /** The phase a state is in: a pending submit first, then signed in, then an
      error shown, otherwise idle. */
  function PhaseOf(s: LoginState): Phase {
    if s.loading then Submitting
    else if s.signedIn then SignedIn
    else if s.error != "" then Rejected
    else Idle
  }

  /** The coarse transition table: login submits, success signs in, error
      rejects, sign-out returns to idle, and field updates and unknown actions
      keep the phase. */
  function Step(p: Phase, a: Action): Phase {
    match a
    case Login => Submitting
    case Success => SignedIn
    case Error => Rejected
    case Logout => Idle
    case Field(_, _) => p
    case Unknown(_) => p
  }

  /** The reducer follows the coarse transition table: the phase after an
      action depends only on the phase before it and the action. */
  lemma ReduceFollowsStep(s: LoginState, a: Action)
    ensures PhaseOf(Reduce(s, a)) == Step(PhaseOf(s), a)
  {
  }
}
