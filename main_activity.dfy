/**
 * The device-credential part of MainActivity as an object whose handlers
 * update its five fields in place. Each handler is proved to move the fields
 * exactly as the matching transition of module `Transitions` says, and to
 * append that transition's effects to the ghost record `effects` of what the
 * presenter, the callers and the OS have seen.
 */
module Activity {
  import opened CredentialState
  import opened Transitions

  class MainActivity {
    var pendingCredentialResult: Option<Caller>
    var pendingCredentialIntent: Option<Request>
    var isActivityResumed: bool
    var didScreenTurnOffSinceLastConsume: bool
    var isScreenReceiverRegistered: bool

    /** Presenter launches, caller resolutions and receiver calls, oldest first. */
    ghost var effects: seq<Effect>

    /** The five fields as one value. */
    function Snapshot(): State
      reads this
    {
      State(pendingCredentialResult, pendingCredentialIntent, isActivityResumed,
            didScreenTurnOffSinceLastConsume, isScreenReceiverRegistered)
    }

    ghost predicate Valid()
      reads this
    {
      Inv(Snapshot())
    }

    constructor ()
      ensures Valid() && Snapshot() == Initial && effects == []
    {
      pendingCredentialResult := None;
      pendingCredentialIntent := None;
      isActivityResumed := false;
      didScreenTurnOffSinceLastConsume := false;
      isScreenReceiverRegistered := false;
      effects := [];
    }

    /** `onCreate`: register the screen-off receiver. */
    method OnCreate()
      requires Valid()
      modifies this
      ensures Valid()
      ensures Snapshot() == RegisterReceiver(old(Snapshot())).state
      ensures effects == old(effects) + RegisterReceiver(old(Snapshot())).effects
    {
      RegisterScreenOffReceiverIfNeeded();
    }

    /** `onDestroy`: unregister the screen-off receiver; `osThrows` is `unregisterReceiver` throwing `IllegalArgumentException`. */
    method OnDestroy(osThrows: bool)
      requires Valid()
      modifies this
      ensures Valid()
      ensures Snapshot() == UnregisterReceiver(old(Snapshot()), osThrows).state
      ensures effects == old(effects) + UnregisterReceiver(old(Snapshot()), osThrows).effects
    {
      UnregisterScreenOffReceiverIfNeeded(osThrows);
    }

    /** `screenOffReceiver.onReceive`; `isScreenOff` says whether the broadcast is a screen-off one. */
    method OnReceive(isScreenOff: bool)
      requires Valid()
      modifies this
      ensures Valid()
      ensures Snapshot() == ScreenBroadcast(old(Snapshot()), isScreenOff)
      ensures didScreenTurnOffSinceLastConsume == (old(didScreenTurnOffSinceLastConsume) || isScreenOff)
      ensures effects == old(effects)
    {
      if isScreenOff {
        didScreenTurnOffSinceLastConsume := true;
      }
    }

    /** The completion of the confirmation activity; `resultOk` is `resultCode == RESULT_OK`. */
    method OnCredentialResult(resultOk: bool)
      requires Valid()
      modifies this
      ensures Valid()
      ensures Snapshot() == CredentialResult(old(Snapshot()), resultOk).state
      ensures effects == old(effects) + CredentialResult(old(Snapshot()), resultOk).effects
      ensures pendingCredentialResult.None? && pendingCredentialIntent.None?
    {
      var result := pendingCredentialResult;
      pendingCredentialResult := None;
      pendingCredentialIntent := None;
      if result.None? {
        return;
      }
      effects := effects + [Resolve(result.value, Success(resultOk))];
    }

    /** `onResume`: mark resumed and replay a deferred launch. */
    method OnResume(launch: LaunchOutcome)
      requires Valid()
      modifies this
      ensures Valid()
      ensures Snapshot() == Resume(old(Snapshot()), launch).state
      ensures effects == old(effects) + Resume(old(Snapshot()), launch).effects
      ensures isActivityResumed && pendingCredentialIntent.None?
    {
      isActivityResumed := true;
      var pendingIntent := pendingCredentialIntent;
      var pendingResult := pendingCredentialResult;
      if pendingIntent.Some? && pendingResult.Some? {
        pendingCredentialIntent := None;
        LaunchCredentialIntent(pendingIntent.value, launch);
      }
    }

    /** `onPause`: only the foreground flag changes. */
    method OnPause()
      requires Valid()
      modifies this
      ensures Valid()
      ensures Snapshot() == Pause(old(Snapshot()))
      ensures !isActivityResumed
      ensures pendingCredentialResult == old(pendingCredentialResult)
      ensures pendingCredentialIntent == old(pendingCredentialIntent)
      ensures effects == old(effects)
    {
      isActivityResumed := false;
    }

    /** The `consumeScreenOffFlag` call: answer the flag to `caller` and clear it. */
    method ConsumeScreenOffFlag(caller: Caller) returns (shouldLock: bool)
      requires Valid()
      modifies this
      ensures Valid()
      ensures shouldLock == old(didScreenTurnOffSinceLastConsume)
      ensures !didScreenTurnOffSinceLastConsume
      ensures Snapshot() == ConsumeScreenOff(old(Snapshot()), caller).state
      ensures effects == old(effects) + ConsumeScreenOff(old(Snapshot()), caller).effects
    {
      shouldLock := didScreenTurnOffSinceLastConsume;
      didScreenTurnOffSinceLastConsume := false;
      effects := effects + [Resolve(caller, Success(shouldLock))];
    }

    /**
     * `startDeviceCredentialAuth` for the call whose reply slot is `caller`.
     * `deviceSecure` is the keyguard's answer, `intentAvailable` whether it
     * built a confirmation request, `launch` how a launch would go.
     */
    method StartDeviceCredentialAuth(caller: Caller, title: Option<string>, description: Option<string>,
                                     deviceSecure: bool, intentAvailable: bool, launch: LaunchOutcome)
      requires Valid()
      modifies this
      ensures Valid()
      ensures Snapshot() ==
        Authenticate(old(Snapshot()), caller, title, description, deviceSecure, intentAvailable, launch).state
      ensures effects == old(effects) +
        Authenticate(old(Snapshot()), caller, title, description, deviceSecure, intentAvailable, launch).effects
    {
      if pendingCredentialResult.Some? {
        effects := effects + [Resolve(caller, AlreadyInProgress)];
        return;
      }
      if !deviceSecure {
        effects := effects + [Resolve(caller, Success(false))];
        return;
      }
      var intent := ConfirmationRequest(title, description);
      if !intentAvailable {
        effects := effects + [Resolve(caller, NotAvailable)];
        return;
      }
      pendingCredentialResult := Some(caller);
      if isActivityResumed {
        LaunchCredentialIntent(intent, launch);
      } else {
        pendingCredentialIntent := Some(intent);
      }
    }

    /** `launchCredentialIntent`: a launch that throws frees both slots and fails the attempt. */
    method LaunchCredentialIntent(intent: Request, launch: LaunchOutcome)
      modifies this
      ensures Snapshot() == LaunchIntent(old(Snapshot()), intent, launch).state
      ensures effects == old(effects) + LaunchIntent(old(Snapshot()), intent, launch).effects
    {
      effects := effects + [Launch(pendingCredentialResult, intent)];
      match launch
      case Started =>
      case Threw(message) =>
        var result := pendingCredentialResult;
        pendingCredentialResult := None;
        pendingCredentialIntent := None;
        if result.Some? {
          var reply := Error(LaunchFailedCode, if message.Some? then message.value else LaunchFailedMessage);
          effects := effects + [Resolve(result.value, reply)];
        }
    }

    /** `registerScreenOffReceiverIfNeeded`. */
    method RegisterScreenOffReceiverIfNeeded()
      modifies this
      ensures isScreenReceiverRegistered
      ensures Snapshot() == RegisterReceiver(old(Snapshot())).state
      ensures effects == old(effects) + RegisterReceiver(old(Snapshot())).effects
    {
      if isScreenReceiverRegistered {
        return;
      }
      effects := effects + [Subscribe];
      isScreenReceiverRegistered := true;
    }

    /** `unregisterScreenOffReceiverIfNeeded`: the flag is cleared even when the OS call throws `IllegalArgumentException`. */
    method UnregisterScreenOffReceiverIfNeeded(osThrows: bool)
      modifies this
      ensures !isScreenReceiverRegistered
      ensures Snapshot() == UnregisterReceiver(old(Snapshot()), osThrows).state
      ensures effects == old(effects) + UnregisterReceiver(old(Snapshot()), osThrows).effects
    {
      if !isScreenReceiverRegistered {
        return;
      }
      effects := effects + [Unsubscribe];
      isScreenReceiverRegistered := false;
    }
  }
}
