# Device-credential bridge of AtaoQuiz's MainActivity, in Dafny

AtaoQuiz's Android activity lets the Flutter application ask the device to
confirm its credential (PIN, pattern, password or biometric fallback). The
answer is a single yes/no. The activity keeps five fields:

- `pendingCredentialResult`: the reply slot of the request in flight.
- `pendingCredentialIntent`: the confirmation request, while its launch waits for the foreground.
- `isActivityResumed`: the activity is in the foreground.
- `didScreenTurnOffSinceLastConsume`: a sticky flag set by screen-off broadcasts.
- `isScreenReceiverRegistered`: guards the screen-off receiver's registration.

This project models the handlers that update those fields. It proves the
promises they make: one request in flight at a time, a request made in the
background is launched when the activity resumes, every caller is answered
exactly once, the screen-off flag is read and cleared in one step, and the
receiver's registration is idempotent.

Files:

- `credential_state.dfy` (module `CredentialState`): the five fields as the `State` datatype, the
  replies and error codes, the invariant `Inv` (a deferred request always belongs to an attempt in
  flight), the phase of an attempt, and the externally visible effects. The effects are: the
  presenter launched for an attempt, a caller's reply slot completed, and the receiver registered or
  unregistered with the OS.
- `transitions.dfy` (module `Transitions`): each handler as a pure transition from a state to a new
  state plus the effects it produces, and `Step`, which dispatches one event.
- `main_activity.dfy` (module `Activity`): class `MainActivity`, holding the five fields and a ghost
  record of effects. Each handler is a method that reads and clears fields as the Kotlin code does.
  Each method is proved to move the fields and extend the record exactly as its transition says.
- `handler_properties.dfy` (module `HandlerProperties`): what each handler promises on its own.
- `traces.dfy` (module `Traces`): `Run` handles a whole event sequence, and the properties that hold
  across calls.
- `scenarios.dfy` (module `Scenarios`): three complete runs from a fresh activity.

Platform answers are parameters. `deviceSecure` is `KeyguardManager.isDeviceSecure`.
`intentAvailable` says whether `createConfirmDeviceCredentialIntent` returned a request.
`LaunchOutcome` (`Started` or `Threw(message)`) is how `credentialLauncher.launch` behaves.
`resultOk` is `resultCode == RESULT_OK` in the completion. `osThrows` says whether
`unregisterReceiver` throws `IllegalArgumentException`, the one exception the code catches. Each method-channel call's `MethodChannel.Result` is a number
(`Caller`). Every call brings its own number (`Traces.FreshCallers`).

Three details of the code that the model keeps as written:

- The reply slot stays occupied while the confirmation screen is shown. It is cleared only by the
  completion or by a failed launch, not when the screen is handed the request.
- The default texts are the French strings in the code: "Authentification requise" and
  "Confirmez votre identité".
- `onResume` replays a deferred request on every call, not once per foreground transition. It
  clears the stored request first, so a second call finds nothing to replay
  (`HandlerProperties.ResumeReplaysOnlyOnce`).

## Model

| member | source | states |
|---|---|---|
| `Transitions.ConfirmationRequest` | android/app/src/main/kotlin/com/example/atao_quiz/MainActivity.kt:139-143 | a missing title becomes "Authentification requise" and a missing description "Confirmez votre identité"; supplied values pass through unchanged |
| `Transitions.LaunchIntent` | android/app/src/main/kotlin/com/example/atao_quiz/MainActivity.kt:173-189 | the presenter is launched exactly once, with `intent`, on behalf of the attempt in flight; a successful launch changes no field and has no other effect; a launch that throws empties both slots and answers that attempt, once and right after the launch, with `launch_failed` carrying the exception's message or "Failed to launch credential intent." (with no attempt, nobody is answered); the three flags are untouched |
| `Transitions.Authenticate` | android/app/src/main/kotlin/com/example/atao_quiz/MainActivity.kt:120-171 | keeps the invariant and the three flags; leaves an attempt in flight untouched; the new caller is answered exactly when it does not end up holding the slot, and nobody else is answered |
| `Transitions.CredentialResult` | android/app/src/main/kotlin/com/example/atao_quiz/MainActivity.kt:36-49 | the completion empties both slots, answers the attempt in flight exactly once (nobody when there is none) and launches nothing |
| `Transitions.Resume` | android/app/src/main/kotlin/com/example/atao_quiz/MainActivity.kt:102-113 | sets the foreground flag, keeps the invariant, never leaves an attempt deferred; unless an attempt was deferred it has no effect and changes no field but the foreground flag |
| `Transitions.Step` | android/app/src/main/kotlin/com/example/atao_quiz/MainActivity.kt:26-216 | every handler keeps the invariant and launches the presenter only on behalf of an attempt; a launched attempt never goes back to deferred; only a resume launches a deferred attempt; a fresh caller or the attempt in flight is answered exactly when it does not hold the slot afterwards |
| `Traces.Run` | android/app/src/main/kotlin/com/example/atao_quiz/MainActivity.kt:20-24 | any sequence of handler calls keeps the invariant that a deferred request belongs to an attempt in flight |
| `Traces.CallersAnsweredExactlyOnce` | android/app/src/main/kotlin/com/example/atao_quiz/MainActivity.kt:36-189 | after any run, every caller has been answered exactly once except the attempt still in flight, which has not been answered; no one else has been answered |
| `Traces.LaunchesTagged` | android/app/src/main/kotlin/com/example/atao_quiz/MainActivity.kt:106-170 | in any run from any state, every presenter launch names the attempt it is made for: a request is launched only after it took the slot (lines 160-163) and a deferred one is replayed only while its slot is held (lines 106-111) |
| `Traces.AttemptsLaunchedAtMostOnce` | android/app/src/main/kotlin/com/example/atao_quiz/MainActivity.kt:102-189 | after any run, every attempt has reached the presenter at most once; a deferred attempt has not reached it yet and a launched one has reached it exactly once |
| `Traces.NoLaunchWhileBackgrounded` | android/app/src/main/kotlin/com/example/atao_quiz/MainActivity.kt:160-170 | from a paused activity, no sequence of calls without a resume launches the presenter at all (no `Launch` effect, whoever it would be for), and the activity stays paused |
| `Traces.ScreenOffFlagReportsBroadcasts` | android/app/src/main/kotlin/com/example/atao_quiz/MainActivity.kt:26-34 | after any run, the sticky flag is set exactly when a screen-off broadcast arrived after the last consume |
| `Traces.ConsumeAnswersBroadcasts` | android/app/src/main/kotlin/com/example/atao_quiz/MainActivity.kt:91-95 | a consume answers whether the screen went off since the previous consume (no broadcast lost, none reported twice) and leaves the flag clear |
| `Traces.ResumedFollowsLifecycle` | android/app/src/main/kotlin/com/example/atao_quiz/MainActivity.kt:102-118 | after any run, the foreground flag is set exactly when the last lifecycle call was a resume |
| `Traces.ReceiverCallsAlternate` | android/app/src/main/kotlin/com/example/atao_quiz/MainActivity.kt:195-216 | the OS sees registrations and unregistrations strictly alternating, starting with a registration, and the guard flag is set exactly when the last call was a registration |
| `HandlerProperties.SingleFlight` | android/app/src/main/kotlin/com/example/atao_quiz/MainActivity.kt:124-131 | while an attempt is in flight, a request is answered `already_in_progress` and the state (both slots, the foreground flag) is unchanged, with no launch |
| `HandlerProperties.InsecureDeviceAnswersFalse` | android/app/src/main/kotlin/com/example/atao_quiz/MainActivity.kt:133-137 | on an insecure device the caller is answered `false`, no attempt is taken and nothing is launched |
| `HandlerProperties.MissingRequestNotAvailable` | android/app/src/main/kotlin/com/example/atao_quiz/MainActivity.kt:145-158 | when no confirmation request can be built the caller is answered `not_available` and no attempt is taken |
| `HandlerProperties.LaunchOrDefer` | android/app/src/main/kotlin/com/example/atao_quiz/MainActivity.kt:160-170 | an accepted request takes the slot; in the foreground it is launched at once with the built request and nothing is stored; in the background it is stored and nothing is launched |
| `HandlerProperties.LaunchFailureFreesSlot` | android/app/src/main/kotlin/com/example/atao_quiz/MainActivity.kt:177-187 | a launch that throws answers `launch_failed` with the exception's message or the fixed one, frees the slot, and the next request is accepted |
| `HandlerProperties.ReplayOnResume` | android/app/src/main/kotlin/com/example/atao_quiz/MainActivity.kt:102-113 | resuming with a deferred attempt clears the stored request and launches it once; a successful launch leaves the attempt in flight, a launch that throws answers it `launch_failed` (exception message or the fixed one) and empties both slots |
| `HandlerProperties.ResumeReplaysOnlyOnce` | android/app/src/main/kotlin/com/example/atao_quiz/MainActivity.kt:106-112 | a second resume launches nothing and changes nothing |
| `HandlerProperties.PauseKeepsAttempt` | android/app/src/main/kotlin/com/example/atao_quiz/MainActivity.kt:115-118 | pausing clears only the foreground flag; the attempt in flight is untouched |
| `HandlerProperties.CompletionAnswersAttempt` | android/app/src/main/kotlin/com/example/atao_quiz/MainActivity.kt:36-49 | the completion empties both slots before answering, answers the attempt with whether the result was OK, and answers nobody when no attempt is in flight |
| `HandlerProperties.ScreenOffIdempotent` | android/app/src/main/kotlin/com/example/atao_quiz/MainActivity.kt:28-33 | a screen-off broadcast sets the flag, a second one changes nothing, and other broadcasts are ignored |
| `HandlerProperties.ConsumeTwice` | android/app/src/main/kotlin/com/example/atao_quiz/MainActivity.kt:91-95 | with the flag set, two consumes with no broadcast between them answer `true` then `false` |
| `HandlerProperties.RegisterIdempotent` | android/app/src/main/kotlin/com/example/atao_quiz/MainActivity.kt:195-202 | registering sets the guard; registering again calls nothing and changes nothing |
| `HandlerProperties.UnregisterIdempotent` | android/app/src/main/kotlin/com/example/atao_quiz/MainActivity.kt:204-216 | unregistering clears the guard whether or not the OS call throws `IllegalArgumentException`; unregistering again calls nothing |
| `Scenarios.ForegroundConfirmed` | android/app/src/main/kotlin/com/example/atao_quiz/MainActivity.kt:36-176 | created, resumed, asked with "T"/"D" on a secure device: the presenter shows "T"/"D" and a confirmed result answers the caller `true` |
| `Scenarios.BackgroundDeferredThenDeclined` | android/app/src/main/kotlin/com/example/atao_quiz/MainActivity.kt:102-170 | asked with no texts while paused: nothing is shown until resumed, then the default texts are shown once and a declined result answers `false` |
| `Scenarios.StopWithoutStart` | android/app/src/main/kotlin/com/example/atao_quiz/MainActivity.kt:56-59 | destroying an activity whose receiver was never registered calls nothing and changes nothing |
| `Activity.MainActivity.constructor` | android/app/src/main/kotlin/com/example/atao_quiz/MainActivity.kt:20-24 | both slots empty, all three flags false, nothing seen yet |
| `Activity.MainActivity.OnCreate` | android/app/src/main/kotlin/com/example/atao_quiz/MainActivity.kt:51-54 | follows `RegisterReceiver` and keeps the invariant |
| `Activity.MainActivity.OnDestroy` | android/app/src/main/kotlin/com/example/atao_quiz/MainActivity.kt:56-59 | follows `UnregisterReceiver` and keeps the invariant |
| `Activity.MainActivity.OnReceive` | android/app/src/main/kotlin/com/example/atao_quiz/MainActivity.kt:26-34 | the flag becomes its old value or'ed with "this is a screen-off broadcast"; nothing else changes |
| `Activity.MainActivity.OnCredentialResult` | android/app/src/main/kotlin/com/example/atao_quiz/MainActivity.kt:36-49 | follows `CredentialResult`: both slots empty afterwards |
| `Activity.MainActivity.OnResume` | android/app/src/main/kotlin/com/example/atao_quiz/MainActivity.kt:102-113 | follows `Resume`: resumed, and no request stored afterwards |
| `Activity.MainActivity.OnPause` | android/app/src/main/kotlin/com/example/atao_quiz/MainActivity.kt:115-118 | only the foreground flag changes, to false; no effect |
| `Activity.MainActivity.ConsumeScreenOffFlag` | android/app/src/main/kotlin/com/example/atao_quiz/MainActivity.kt:91-95 | returns the old flag, clears it, and answers the caller with it |
| `Activity.MainActivity.StartDeviceCredentialAuth` | android/app/src/main/kotlin/com/example/atao_quiz/MainActivity.kt:120-171 | follows `Authenticate` exactly and keeps the invariant |
| `Activity.MainActivity.LaunchCredentialIntent` | android/app/src/main/kotlin/com/example/atao_quiz/MainActivity.kt:173-189 | follows `LaunchIntent` exactly |
| `Activity.MainActivity.RegisterScreenOffReceiverIfNeeded` | android/app/src/main/kotlin/com/example/atao_quiz/MainActivity.kt:195-202 | the guard is set afterwards; the OS is asked to register only if it was clear |
| `Activity.MainActivity.UnregisterScreenOffReceiverIfNeeded` | android/app/src/main/kotlin/com/example/atao_quiz/MainActivity.kt:204-216 | the guard is clear afterwards whether or not the OS call throws `IllegalArgumentException`; the OS is asked only if it was set |

## Left out

- The Flutter `MethodChannel` transport and its dispatch (MainActivity.kt:61-100). Each operation is
  a method of its own, and the `notImplemented` answer to unknown method names is not modelled.
- `isDeviceCredentialAvailable` (MainActivity.kt:69-72). It only relays `KeyguardManager.isDeviceSecure`
  and touches no state. The model takes that answer as the `deviceSecure` parameter.
- `getDeviceAuthDebugInfo` (MainActivity.kt:78-89). It only reports build metadata.
- `KeyguardManager` and `createConfirmDeviceCredentialIntent`. They are platform calls, replaced by
  the `deviceSecure` and `intentAvailable` parameters. Of the intent, only its title and description
  are kept.
- `registerForActivityResult` and `credentialLauncher.launch`. A launch is recorded as a `Launch`
  effect, even when it throws, since the call was made. The completion is the method
  `OnCredentialResult`, whose `resultOk` stands for `resultCode == RESULT_OK`.
- The completion can arrive in the model while an attempt is only deferred, although the platform
  never sends one before a launch. The model then does what the code does: it answers the attempt.
- `runOnUiThread`. The launch is treated as synchronous on the single owner thread; concurrency is
  not modelled.
- The `registerReceiver` and `unregisterReceiver` OS calls. They are recorded as `Subscribe` and
  `Unsubscribe` effects. A `registerReceiver` that throws is not modelled; the code does not catch it.
- UnregisterReceiver: `osThrows` covers only `IllegalArgumentException`, which the code catches and
  logs. Any other exception from `unregisterReceiver` propagates out of `onDestroy` after the
  `finally` block has cleared the guard, so `super.onDestroy()` is skipped. That path is not modelled.
- Broadcasts can reach the model while the receiver is unregistered, although the platform delivers
  them only to a registered receiver. This over-approximates the inputs, so every property proved
  about the screen-off flag also holds for the deliveries the platform actually makes.
- `Log.*` calls, the `super.*` lifecycle calls and the broadcast's `Intent` beyond "is it a screen-off
  broadcast".
- No timeout. An attempt whose presenter never answers stays in flight, as in the code.
