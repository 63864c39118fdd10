# Login form state store

A model of the login form of `src/App.tsx`. The form keeps a five-field state:

- the typed `email` and `password`;
- an `error` text;
- a `signedIn` flag;
- a `loading` flag, set while a submit waits for the authentication result.

A pure reducer maps a state and an action to the next state. The actions are
a field update keyed by input name, `login`, `logout`, `success` and `error`;
any other action is ignored.

`login_reducer.dfy` holds module `LoginReducer`:

- the state record `LoginState`, the starting state `INITIAL` and the actions;
- the reducer `Reduce`;
- `Run`, which applies a sequence of actions in order, as `useReducer` applies
  dispatched actions one after another;
- the lemmas about single steps and whole runs.

Its main result is a both-ways description of the states that some sequence
of dispatched actions reaches from `INITIAL`: exactly the `Consistent` states.
In those, either no error is shown, or the one error text is shown while
signed out and not loading. The component's own event handlers dispatch only
some of those sequences, so they reach only part of that set. For example,
`[Login, Success, Login]` reaches a state that is both signed in and loading.
The component never reaches it: its only login dispatch is in the submit
handler, the submit control exists only in the signed-out panel, and the
signed-in panel's control dispatches sign-out.

`login_form.dfy` holds module `LoginForm`:

- the submit handler, with the external authentication call as a parameter;
- the parts of the rendered view that depend on the state: which panel shows,
  the submit control's caption and disabled flag, and the error text.

The field update is one action `Field(name, payload)`. Its `name` is one of the
two input names the form's inputs carry, `email` and `password`. The
unrecognised-action branch of the reducer is the action `Unknown(tag)`.

The source's `logout` case builds a fresh object. Here states are values, so
"equal to the initial state" is plain equality. Object identity does not exist
in the model.

## Model

| member | source | states |
|---|---|---|
| `LoginReducer.Reduce` | src/App.tsx:25-73 | Every action keeps the reachable-state invariant, and login, logout, success and error establish it from any state. Only the field update and sign-out change the credentials. Only login, logout, success and error change the error text and the two flags. |
| `LoginReducer.FieldSetsOnlyNamedInput` | src/App.tsx:28-33 | A field update sets the named input to the payload and leaves the other input, the error text and both flags unchanged. |
| `LoginReducer.LoginStartsSubmit` | src/App.tsx:35-41 | From any state, login clears the error text and sets `loading`. Email, password and `signedIn` stay as they were. |
| `LoginReducer.LogoutResets` | src/App.tsx:43-52 | From any state, sign-out yields exactly the initial state of src/App.tsx:17-23. |
| `LoginReducer.LogoutIdempotent` | src/App.tsx:43-52 | Signing out twice gives the same state as signing out once. |
| `LoginReducer.SuccessSignsIn` | src/App.tsx:54-60 | Success clears `loading`, sets `signedIn`, clears the error text and keeps the credentials. |
| `LoginReducer.ErrorRejects` | src/App.tsx:62-68 | Error clears `loading` and `signedIn`, sets the error text to "incorrect email or password" and keeps the credentials. |
| `LoginReducer.UnknownIgnored` | src/App.tsx:70-71 | An action whose type is none of the five returns the state unchanged. |
| `LoginReducer.RunAppend` | src/App.tsx:25-73 | Dispatching two action sequences one after the other equals dispatching their concatenation. |
| `LoginReducer.RunPair` | src/App.tsx:25-73 | Dispatching a two-action sequence applies the reducer twice, in order. |
| `LoginReducer.RunPreservesConsistent` | src/App.tsx:25-73 | Every sequence of actions from a consistent state ends in a consistent state. |
| `LoginReducer.ReachableIsConsistent` | src/App.tsx:17-73 | Every state that some sequence of dispatched actions reaches from the initial state is consistent. In particular an error text is never shown while signed in. |
| `LoginReducer.ConsistentIsReachable` | src/App.tsx:17-73 | Every consistent state is reached from the initial state by an explicit action sequence. So the consistent states are exactly those that some action sequence reaches. |
| `LoginReducer.RunKeepsLatestInput` | src/App.tsx:28-33 | After a sequence of actions without sign-out, each input holds the payload of the last field update to it. If there was none, it keeps its old value. |
| `LoginReducer.EditsKeepStatus` | src/App.tsx:28-33 | A sequence made only of field updates leaves the error text, `signedIn` and `loading` unchanged. |
| `LoginReducer.ReduceFollowsStep` | src/App.tsx:25-73 | The coarse phase (submitting, signed in, rejected, idle) after an action depends only on the phase before it and on the action. Login submits, success signs in, error rejects, sign-out returns to idle, and the other actions keep the phase. |
| `LoginForm.SubmitActions` | src/App.tsx:81-87 | A submit dispatches login and then exactly one of success or error: success when the call answered true, error when it answered false. |
| `LoginForm.HandleSubmit` | src/App.tsx:79-89 | A finished submit ends not loading. `signedIn` equals the authentication call's answer for the credentials held at submit time. The error text is empty on acceptance and "incorrect email or password" on rejection. The credentials are unchanged. |
| `LoginForm.SubmitPassesThroughLoading` | src/App.tsx:81-82 | While the authentication call is outstanding, the state is loading with no error text, and holds the credentials it sends. |
| `LoginForm.SubmitKeepsConsistent` | src/App.tsx:79-89 | A submit from any state ends in a consistent state. |
| `LoginForm.Render` | src/App.tsx:99-119 | The signed-in panel shows exactly when `signedIn`. The submit control is disabled exactly when `loading`. Its caption is "LOADING..." exactly when loading and "SIGN IN" otherwise. The error text shows exactly when non-empty. |
| `LoginForm.SignedInPanelShowsNoError` | src/App.tsx:100-119 | In every state that some action sequence reaches from the initial state, the signed-in panel shows no error text. |
| `LoginForm.RejectedSubmitShowsError` | src/App.tsx:83-87 | After a rejected submit, the signed-out panel shows the error text and an enabled "SIGN IN" control. |
| `LoginForm.AcceptedSubmitSignsIn` | src/App.tsx:83-87 | After an accepted submit, the signed-in panel shows with no error text. |

## Left out

- The external `login` function of `./utils` is not part of this model. It is a parameter of `HandleSubmit`, a total function from email and password to the boolean answer.
- A rejected or thrown authentication call is left out. The handler does not catch it, so no success or error action would follow login. The model only covers a call that answers true or false.
- `async`/`await` timing and the event objects (`preventDefault`, the change and submit events) are left out. The model takes a submit as login followed by its closing action, with nothing dispatched in between.
- Field updates keyed by any string other than `email` or `password` are left out. The source would then write an arbitrary key into the state object, including the status fields or new keys, without type checking. The two inputs only ever send these two names.
- The JSX markup, the stylesheet import and the `useReducer` wiring are left out beyond what `Render` and `Run` capture. Headings, placeholders and labels are not modelled.
- The SIGN OUT button's default submit behaviour is not modelled. The button at src/App.tsx:104 has no `type` and sits inside the form whose submit runs `handleSubmit` (src/App.tsx:98). So it is a submit button by default. Its click may then also run `handleSubmit` after the sign-out dispatch, with the stale signed-in credentials, depending on when React removes the button. Nothing was executed, so this is unconfirmed. The model takes a sign-out click as the sign-out action alone.
- Object identity of the states is not modelled; states are values.
