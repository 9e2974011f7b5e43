/**
 * The handlers of MainActivity as pure transitions on its five fields. Each
 * function here is the specification that the corresponding method of the
 * `Activity.MainActivity` class is proved against; `Step` dispatches one
 * event to its handler.
 */
module Transitions {
  import opened CredentialState

  /** The events that reach the activity. Platform answers are carried as parameters. */
  datatype Event =
    | AuthenticateCall(caller: Caller, title: Option<string>, description: Option<string>,
                       deviceSecure: bool, intentAvailable: bool, launch: LaunchOutcome)
    | CredentialCompleted(resultOk: bool)
    | Resumed(launch: LaunchOutcome)
    | Paused
    | BroadcastReceived(isScreenOff: bool)
    | ConsumeCall(caller: Caller)
    | Created
    | Destroyed(unregisterThrows: bool)

  /** The reply slot that an event brings with it, if any. */
  function EventCaller(e: Event): Option<Caller> {
    match e
    case AuthenticateCall(c, _, _, _, _, _) => Some(c)
    case ConsumeCall(c) => Some(c)
    case _ => None
  }

  /** The foreground, screen-off and registration flags are the same in `s` and `t`. */
  predicate SameFlags(s: State, t: State) {
    t.resumed == s.resumed && t.screenOff == s.screenOff && t.registered == s.registered
  }

  /** Title and description of the confirmation request, with the built-in defaults. */
  function ConfirmationRequest(title: Option<string>, description: Option<string>): (r: Request)
    ensures title.Some? ==> r.title == title.value
    ensures title.None? ==> r.title == DefaultTitle
    ensures description.Some? ==> r.description == description.value
    ensures description.None? ==> r.description == DefaultDescription
  {
    Request(if title.Some? then title.value else DefaultTitle,
            if description.Some? then description.value else DefaultDescription)
  }

  /**
   * `launchCredentialIntent`: ask the presenter to show `intent` on behalf of
   * the attempt in flight; if the launch throws, free both slots and fail the
   * attempt with `launch_failed`.
   */
  function LaunchIntent(s: State, intent: Request, launch: LaunchOutcome): (o: Outcome)
    ensures SameFlags(s, o.state)
    ensures launch.Started? ==> o.state == s
    ensures launch.Threw? ==> PhaseOf(o.state) == Idle && o.state.pendingIntent.None?
    ensures forall k: Caller :: Launches(o.effects, k) == (if s.pendingResult == Some(k) then 1 else 0)
    ensures forall k: Caller :: Resolutions(o.effects, k) == (if launch.Threw? && s.pendingResult == Some(k) then 1 else 0)
    ensures launch.Started? ==> o.effects == [Launch(s.pendingResult, intent)]
    ensures launch.Threw? && s.pendingResult.Some? ==>
      o.effects == [Launch(s.pendingResult, intent),
                    Resolve(s.pendingResult.value,
                            Error(LaunchFailedCode, if launch.message.Some? then launch.message.value else LaunchFailedMessage))]
    ensures launch.Threw? && s.pendingResult.None? ==> o.effects == [Launch(None, intent)]
  {
    var launched := Launch(s.pendingResult, intent);
    match launch
    case Started => Outcome(s, [launched])
    case Threw(message) =>
      var reply := Error(LaunchFailedCode, if message.Some? then message.value else LaunchFailedMessage);
      var failed := s.(pendingResult := None, pendingIntent := None);
      match s.pendingResult
      case None => Outcome(failed, [launched])
      case Some(result) =>
        var fx := [launched] + [Resolve(result, reply)];
        assert forall k: Caller :: Launches(fx, k) == (if result == k then 1 else 0) == Resolutions(fx, k) by {
          forall k: Caller ensures Launches(fx, k) == (if result == k then 1 else 0) == Resolutions(fx, k) {
            LaunchesAppend([launched], [Resolve(result, reply)], k);
            ResolutionsAppend([launched], [Resolve(result, reply)], k);
          }
        }
        Outcome(failed, fx)
  }

  /**
   * `startDeviceCredentialAuth`: reject while an attempt is in flight, answer
   * `false` on an insecure device, `not_available` when no request can be
   * built; otherwise take the slot and launch now or defer until resumed.
   */
  function Authenticate(s: State, caller: Caller, title: Option<string>, description: Option<string>,
                        deviceSecure: bool, intentAvailable: bool, launch: LaunchOutcome): (o: Outcome)
    ensures Inv(s) ==> Inv(o.state)
    ensures SameFlags(s, o.state)
    ensures PhaseOf(s) != Idle ==> o.state == s
    ensures s.pendingResult != Some(caller) ==>
      forall k: Caller :: Resolutions(o.effects, k) == (if k == caller && o.state.pendingResult != Some(k) then 1 else 0)
  {
    if s.pendingResult.Some? then
      Outcome(s, [Resolve(caller, AlreadyInProgress)])
    else if !deviceSecure then
      Outcome(s, [Resolve(caller, Success(false))])
    else if !intentAvailable then
      Outcome(s, [Resolve(caller, NotAvailable)])
    else
      var intent := ConfirmationRequest(title, description);
      var accepted := s.(pendingResult := Some(caller));
      if s.resumed then LaunchIntent(accepted, intent, launch)
      else Outcome(accepted.(pendingIntent := Some(intent)), [])
  }

  /** The `credentialLauncher` completion: free both slots, then answer the attempt, if any. */
  function CredentialResult(s: State, resultOk: bool): (o: Outcome)
    ensures SameFlags(s, o.state)
    ensures PhaseOf(o.state) == Idle && o.state.pendingIntent.None?
    ensures forall k: Caller :: Resolutions(o.effects, k) == (if s.pendingResult == Some(k) then 1 else 0)
    ensures forall k: Caller :: Launches(o.effects, k) == 0
  {
    var cleared := s.(pendingResult := None, pendingIntent := None);
    match s.pendingResult
    case None => Outcome(cleared, [])
    case Some(result) => Outcome(cleared, [Resolve(result, Success(resultOk))])
  }

  /** `onResume`: mark the activity resumed and replay a deferred launch. */
  function Resume(s: State, launch: LaunchOutcome): (o: Outcome)
    ensures o.state.resumed
    ensures o.state.screenOff == s.screenOff && o.state.registered == s.registered
    ensures Inv(s) ==> Inv(o.state) && PhaseOf(o.state) != Deferred
    ensures PhaseOf(s) != Deferred ==> o.effects == []
    ensures PhaseOf(s) != Deferred ==> o.state == s.(resumed := true)
  {
    var r := s.(resumed := true);
    if s.pendingIntent.Some? && s.pendingResult.Some? then
      LaunchIntent(r.(pendingIntent := None), s.pendingIntent.value, launch)
    else
      Outcome(r, [])
  }

  /** `onPause`. */
  function Pause(s: State): State {
    s.(resumed := false)
  }

  /** `screenOffReceiver.onReceive`: only a screen-off broadcast sets the flag. */
  function ScreenBroadcast(s: State, isScreenOff: bool): State {
    if isScreenOff then s.(screenOff := true) else s
  }

  /** The `consumeScreenOffFlag` branch: answer the flag and clear it. */
  function ConsumeScreenOff(s: State, caller: Caller): Outcome {
    Outcome(s.(screenOff := false), [Resolve(caller, Success(s.screenOff))])
  }

  /** `registerScreenOffReceiverIfNeeded`. */
  function RegisterReceiver(s: State): Outcome {
    if s.registered then Outcome(s, [])
    else Outcome(s.(registered := true), [Subscribe])
  }

  /**
   * `unregisterScreenOffReceiverIfNeeded`: the flag is cleared in a `finally`
   * block, so whether the OS call throws `IllegalArgumentException`
   * (`osThrows`, caught and logged) makes no difference to the state.
   */
  function UnregisterReceiver(s: State, osThrows: bool): Outcome {
    if !s.registered then Outcome(s, [])
    else Outcome(s.(registered := false), [Unsubscribe])
  }

  /** One event handled by the activity. */
  function Step(s: State, e: Event): (o: Outcome)
    ensures Inv(s) ==> Inv(o.state)
    ensures Tagged(o.effects)
    ensures !(PhaseOf(s) == Launched && PhaseOf(o.state) == Deferred)
    ensures o.state.pendingResult.Some? ==>
      o.state.pendingResult == s.pendingResult || o.state.pendingResult == EventCaller(e)
    ensures PhaseOf(s) == Deferred && !e.Resumed? ==> forall k: Caller :: Launches(o.effects, k) == 0
    ensures Inv(s) && (EventCaller(e).Some? ==> EventCaller(e) != s.pendingResult) ==>
      forall k: Caller :: Resolutions(o.effects, k) ==
        (if (EventCaller(e) == Some(k) || s.pendingResult == Some(k)) && o.state.pendingResult != Some(k) then 1 else 0)
  {
    match e
    case AuthenticateCall(caller, title, description, deviceSecure, intentAvailable, launch) =>
      Authenticate(s, caller, title, description, deviceSecure, intentAvailable, launch)
    case CredentialCompleted(resultOk) => CredentialResult(s, resultOk)
    case Resumed(launch) => Resume(s, launch)
    case Paused => Outcome(Pause(s), [])
    case BroadcastReceived(isScreenOff) => Outcome(ScreenBroadcast(s, isScreenOff), [])
    case ConsumeCall(caller) => ConsumeScreenOff(s, caller)
    case Created => RegisterReceiver(s)
    case Destroyed(unregisterThrows) => UnregisterReceiver(s, unregisterThrows)
  }
}
