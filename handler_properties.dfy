/**
 * What each handler of the activity promises on its own, stated on the
 * transitions of module `Transitions` (which the methods of
 * `Activity.MainActivity` are proved to follow).
 */
module HandlerProperties {
  import opened CredentialState
  import opened Transitions

  /** Single flight: a second request is rejected and the attempt in flight is left alone. */
  lemma SingleFlight(s: State, caller: Caller, title: Option<string>, description: Option<string>,
                     deviceSecure: bool, intentAvailable: bool, launch: LaunchOutcome)
    requires s.pendingResult.Some?
    ensures Authenticate(s, caller, title, description, deviceSecure, intentAvailable, launch)
      == Outcome(s, [Resolve(caller, AlreadyInProgress)])
  {
  }

  /** An insecure device answers `false` at once: no attempt is taken and nothing is launched. */
  lemma InsecureDeviceAnswersFalse(s: State, caller: Caller, title: Option<string>,
                                   description: Option<string>, intentAvailable: bool, launch: LaunchOutcome)
    requires s.pendingResult.None?
    ensures Authenticate(s, caller, title, description, false, intentAvailable, launch)
      == Outcome(s, [Resolve(caller, Success(false))])
  {
  }

  /** When no confirmation request can be built, the caller gets `not_available` and no attempt is taken. */
  lemma MissingRequestNotAvailable(s: State, caller: Caller, title: Option<string>,
                                   description: Option<string>, launch: LaunchOutcome)
    requires s.pendingResult.None?
    ensures Authenticate(s, caller, title, description, true, false, launch)
      == Outcome(s, [Resolve(caller, NotAvailable)])
  {
  }

  /**
   * An accepted request takes the slot; in the foreground it is launched at
   * once with the request built from the (defaulted) title and description
   * and nothing is stored; in the background it is stored and nothing is
   * launched.
   */
  lemma LaunchOrDefer(s: State, caller: Caller, title: Option<string>, description: Option<string>,
                      launch: LaunchOutcome)
    requires Inv(s) && s.pendingResult.None?
    ensures var o := Authenticate(s, caller, title, description, true, true, launch);
      var request := ConfirmationRequest(title, description);
      (s.resumed ==>
         o.effects[0] == Launch(Some(caller), request) && o.state.pendingIntent.None? &&
         (launch.Started? ==> o == Outcome(s.(pendingResult := Some(caller)), [Launch(Some(caller), request)]))) &&
      (!s.resumed ==>
         o == Outcome(s.(pendingResult := Some(caller), pendingIntent := Some(request)), []))
  {
  }

  /**
   * A launch that throws answers the caller `launch_failed` (with the
   * exception's message, or a fixed one) and frees the slot, so the next
   * request is accepted.
   */
  lemma LaunchFailureFreesSlot(s: State, caller: Caller, title: Option<string>, description: Option<string>,
                               message: Option<string>, next: Caller)
    requires Inv(s) && s.pendingResult.None? && s.resumed
    ensures var o := Authenticate(s, caller, title, description, true, true, Threw(message));
      var reply := Error("launch_failed", if message.Some? then message.value else LaunchFailedMessage);
      o.effects == [Launch(Some(caller), ConfirmationRequest(title, description)), Resolve(caller, reply)] &&
      PhaseOf(o.state) == Idle &&
      Authenticate(o.state, next, title, description, true, true, Started).state.pendingResult == Some(next)
  {
  }

  /**
   * Resuming replays a deferred attempt: the stored request is cleared and
   * launched once; if that launch throws, the attempt is answered
   * `launch_failed` and both slots are freed.
   */
  lemma ReplayOnResume(s: State, launch: LaunchOutcome)
    requires PhaseOf(s) == Deferred
    ensures var o := Resume(s, launch);
      o.state.resumed && o.state.pendingIntent.None? &&
      o.effects[0] == Launch(s.pendingResult, s.pendingIntent.value) &&
      Launches(o.effects, s.pendingResult.value) == 1 &&
      (launch.Started? ==> o == Outcome(s.(resumed := true, pendingIntent := None), [Launch(s.pendingResult, s.pendingIntent.value)])) &&
      (launch.Threw? ==>
         var reply := Error("launch_failed", if launch.message.Some? then launch.message.value else LaunchFailedMessage);
         o == Outcome(s.(resumed := true, pendingResult := None, pendingIntent := None),
                      [Launch(s.pendingResult, s.pendingIntent.value), Resolve(s.pendingResult.value, reply)]))
  {
  }

  /** A second resume, or a resume with nothing deferred, launches nothing. */
  lemma ResumeReplaysOnlyOnce(s: State, first: LaunchOutcome, second: LaunchOutcome)
    requires Inv(s)
    ensures Resume(Resume(s, first).state, second) == Outcome(Resume(s, first).state, [])
  {
  }

  /** Pausing clears the foreground flag and leaves the attempt where it is. */
  lemma PauseKeepsAttempt(s: State)
    ensures !Pause(s).resumed
    ensures Pause(s).pendingResult == s.pendingResult && Pause(s).pendingIntent == s.pendingIntent
    ensures Pause(s).screenOff == s.screenOff && Pause(s).registered == s.registered
  {
  }

  /**
   * The completion clears both slots and answers the attempt in flight with
   * whether the user confirmed; with no attempt in flight it answers nobody.
   */
  lemma CompletionAnswersAttempt(s: State, resultOk: bool)
    ensures var o := CredentialResult(s, resultOk);
      o.state == s.(pendingResult := None, pendingIntent := None) &&
      o.effects == (if s.pendingResult.Some? then [Resolve(s.pendingResult.value, Success(resultOk))] else [])
  {
  }

  /** Screen-off broadcasts collapse: a second one changes nothing; other broadcasts are ignored. */
  lemma ScreenOffIdempotent(s: State)
    ensures ScreenBroadcast(s, true).screenOff
    ensures ScreenBroadcast(ScreenBroadcast(s, true), true) == ScreenBroadcast(s, true)
    ensures ScreenBroadcast(s, false) == s
  {
  }

  /** Two consumes with no broadcast between them answer `true` and then `false`. */
  lemma ConsumeTwice(s: State, first: Caller, second: Caller)
    requires s.screenOff
    ensures var o1 := ConsumeScreenOff(s, first);
      var o2 := ConsumeScreenOff(o1.state, second);
      o1.effects == [Resolve(first, Success(true))] &&
      o2.effects == [Resolve(second, Success(false))] &&
      !o2.state.screenOff
  {
  }

  /** Registering twice registers with the OS once. */
  lemma RegisterIdempotent(s: State)
    ensures RegisterReceiver(s).state.registered
    ensures RegisterReceiver(RegisterReceiver(s).state) == Outcome(RegisterReceiver(s).state, [])
  {
  }

  /**
   * Unregistering clears the guard whether or not the OS call throws
   * `IllegalArgumentException`;
   * unregistering when not registered does nothing and does not fail.
   */
  lemma UnregisterIdempotent(s: State, osThrows: bool, again: bool)
    ensures !UnregisterReceiver(s, osThrows).state.registered
    ensures UnregisterReceiver(s, osThrows) == UnregisterReceiver(s, !osThrows)
    ensures UnregisterReceiver(UnregisterReceiver(s, osThrows).state, again)
      == Outcome(UnregisterReceiver(s, osThrows).state, [])
  {
  }
}
