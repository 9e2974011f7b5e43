/**
 * Values and state of the device-credential bridge of MainActivity: the five
 * mutable fields of the activity, the platform confirmation request, the
 * replies sent back over the method channel, and the externally visible
 * effects (presenter launches, caller resolutions, receiver subscriptions)
 * that the handlers produce.
 */
module CredentialState {

  datatype Option<T> = None | Some(value: T)

  /** One method-channel call's reply slot (a `MethodChannel.Result`), named by a number. */
  type Caller = nat

  /** The confirmation request built by the keyguard service from a title and a description. */
  datatype Request = Request(title: string, description: string)

  /** What a caller receives: `result.success(value)` or `result.error(code, message, null)`. */
  datatype Reply = Success(value: bool) | Error(code: string, message: string)

  /** How the platform answers `credentialLauncher.launch(intent)`. */
  datatype LaunchOutcome = Started | Threw(message: Option<string>)

  datatype Effect =
    | Launch(attempt: Option<Caller>, request: Request)  // the presenter is asked to show `request`
    | Resolve(caller: Caller, reply: Reply)              // a caller's reply slot is completed
    | Subscribe                                          // the screen-off receiver is registered with the OS
    | Unsubscribe                                        // the OS is asked to unregister it

  /** The five fields of the activity. */
  datatype State = State(
    pendingResult: Option<Caller>,   // the attempt in flight, if any
    pendingIntent: Option<Request>,  // its request, while the launch is deferred
    resumed: bool,                   // the activity is in the foreground
    screenOff: bool,                 // the screen turned off since the last consume
    registered: bool)                // the screen-off receiver is registered

  /** The result of one handler: the new state and the effects it produced, in order. */
  datatype Outcome = Outcome(state: State, effects: seq<Effect>)

  const Initial: State := State(None, None, false, false, false)

  const DefaultTitle: string := "Authentification requise"
  const DefaultDescription: string := "Confirmez votre identité"

  const AlreadyInProgress: Reply :=
    Error("already_in_progress", "A device credential authentication is already in progress.")
  const NotAvailable: Reply :=
    Error("not_available", "Device credential intent is not available.")
  const LaunchFailedCode: string := "launch_failed"
  const LaunchFailedMessage: string := "Failed to launch credential intent."

  /** A deferred request always belongs to an attempt in flight. */
  predicate Inv(s: State) {
    s.pendingIntent.Some? ==> s.pendingResult.Some?
  }

  /** Where the attempt in flight stands. */
  datatype Phase = Idle | Deferred | Launched

  function PhaseOf(s: State): Phase {
    if s.pendingResult.None? then Idle
    else if s.pendingIntent.Some? then Deferred
    else Launched
  }

  /** Number of times `k`'s reply slot is completed in `fx`. */
  function Resolutions(fx: seq<Effect>, k: Caller): nat {
    if fx == [] then 0
    else (if fx[0].Resolve? && fx[0].caller == k then 1 else 0) + Resolutions(fx[1..], k)
  }

  /** Number of times the presenter is launched on behalf of attempt `k` in `fx`. */
  function Launches(fx: seq<Effect>, k: Caller): nat {
    if fx == [] then 0
    else (if fx[0].Launch? && fx[0].attempt == Some(k) then 1 else 0) + Launches(fx[1..], k)
  }

  /** Every presenter launch in `fx` names the attempt it is made for. */
  predicate Tagged(fx: seq<Effect>) {
    forall i :: 0 <= i < |fx| ==> fx[i].Launch? ==> fx[i].attempt.Some?
  }

  /** The receiver calls made to the OS in `fx`, `true` for a registration. */
  function ReceiverCalls(fx: seq<Effect>): seq<bool> {
    if fx == [] then []
    else (if fx[0].Subscribe? then [true] else if fx[0].Unsubscribe? then [false] else [])
         + ReceiverCalls(fx[1..])
  }

  lemma {:induction false} ResolutionsAppend(a: seq<Effect>, b: seq<Effect>, k: Caller)
    ensures Resolutions(a + b, k) == Resolutions(a, k) + Resolutions(b, k)
  {
    if a != [] {
      assert (a + b)[1..] == a[1..] + b;
      ResolutionsAppend(a[1..], b, k);
    } else {
      assert a + b == b;
    }
  }

  lemma {:induction false} LaunchesAppend(a: seq<Effect>, b: seq<Effect>, k: Caller)
    ensures Launches(a + b, k) == Launches(a, k) + Launches(b, k)
  {
    if a != [] {
      assert (a + b)[1..] == a[1..] + b;
      LaunchesAppend(a[1..], b, k);
    } else {
      assert a + b == b;
    }
  }

  lemma {:induction false} ReceiverCallsAppend(a: seq<Effect>, b: seq<Effect>)
    ensures ReceiverCalls(a + b) == ReceiverCalls(a) + ReceiverCalls(b)
  {
    if a != [] {
      assert (a + b)[1..] == a[1..] + b;
      ReceiverCallsAppend(a[1..], b);
    } else {
      assert a + b == b;
    }
  }
}
