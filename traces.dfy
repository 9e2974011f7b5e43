/**
 * Runs of the activity over whole event sequences, and the properties the
 * bridge promises across calls: every caller is answered exactly once, every
 * attempt reaches the presenter at most once, the screen-off flag reports
 * exactly the broadcasts since the last consume, and the OS never sees two
 * registrations or two unregistrations in a row.
 */
module Traces {
  import opened CredentialState
  import opened Transitions

  /** The state and the effects after handling `evs` in order, starting from `s`. */
  function Run(s: State, evs: seq<Event>): (o: Outcome)
    ensures Inv(s) ==> Inv(o.state)
    decreases |evs|
  {
    if evs == [] then Outcome(s, [])
    else
      var before := Run(s, evs[..|evs| - 1]);
      var last := Step(before.state, evs[|evs| - 1]);
      Outcome(last.state, before.effects + last.effects)
  }

  /** Handling one more event extends the run by one step. */
  lemma RunSnoc(s: State, evs: seq<Event>, e: Event)
    ensures var before := Run(s, evs);
      var last := Step(before.state, e);
      Run(s, evs + [e]) == Outcome(last.state, before.effects + last.effects)
  {
    assert (evs + [e])[..|evs|] == evs;
  }

  /** The reply slots brought by the events of `evs`. */
  function Callers(evs: seq<Event>): set<Caller>
    decreases |evs|
  {
    if evs == [] then {}
    else
      var earlier := Callers(evs[..|evs| - 1]);
      match EventCaller(evs[|evs| - 1])
      case None => earlier
      case Some(c) => earlier + {c}
  }

  /** Every method-channel call comes with a reply slot of its own. */
  predicate FreshCallers(evs: seq<Event>)
    decreases |evs|
  {
    evs == [] ||
    (FreshCallers(evs[..|evs| - 1]) &&
     match EventCaller(evs[|evs| - 1])
     case None => true
     case Some(c) => c !in Callers(evs[..|evs| - 1]))
  }

  /**
   * Exactly-once resolution: after any run, every caller has been answered
   * exactly once, except the attempt still in flight, which has not been
   * answered at all; nobody else has been answered.
   */
  lemma {:induction false} CallersAnsweredExactlyOnce(evs: seq<Event>)
    requires FreshCallers(evs)
    ensures var o := Run(Initial, evs);
      (o.state.pendingResult.Some? ==> o.state.pendingResult.value in Callers(evs)) &&
      forall k: Caller :: Resolutions(o.effects, k) ==
        (if k in Callers(evs) && o.state.pendingResult != Some(k) then 1 else 0)
  {
    if evs != [] {
      var init, e := evs[..|evs| - 1], evs[|evs| - 1];
      CallersAnsweredExactlyOnce(init);
      var before := Run(Initial, init);
      var last := Step(before.state, e);
      forall k: Caller
        ensures Resolutions(before.effects + last.effects, k) ==
          (if k in Callers(evs) && last.state.pendingResult != Some(k) then 1 else 0)
      {
        ResolutionsAppend(before.effects, last.effects, k);
      }
    }
  }

  /** What one step does to the presenter launches of attempt `k`. */
  lemma StepLaunches(s: State, e: Event, k: Caller)
    requires Inv(s)
    ensures var o := Step(s, e);
      Launches(o.effects, k) <= 1 &&
      (Launches(o.effects, k) == 1 ==>
         (EventCaller(e) == Some(k) && PhaseOf(s) == Idle) ||
         (s.pendingResult == Some(k) && PhaseOf(s) == Deferred)) &&
      (o.state.pendingResult == Some(k) && PhaseOf(o.state) == Launched ==>
         Launches(o.effects, k) == 1 || (s.pendingResult == Some(k) && PhaseOf(s) == Launched)) &&
      (o.state.pendingResult == Some(k) && PhaseOf(o.state) == Deferred ==>
         Launches(o.effects, k) == 0 &&
         ((s.pendingResult == Some(k) && PhaseOf(s) == Deferred) ||
          (EventCaller(e) == Some(k) && PhaseOf(s) == Idle)))
  {
  }

  /** Every presenter launch, in any run from any state, is made on behalf of an attempt. */
  lemma {:induction false} LaunchesTagged(s: State, evs: seq<Event>)
    ensures Tagged(Run(s, evs).effects)
  {
    if evs != [] {
      var init, e := evs[..|evs| - 1], evs[|evs| - 1];
      LaunchesTagged(s, init);
      var before := Run(s, init);
      var last := Step(before.state, e);
      assert Run(s, evs).effects == before.effects + last.effects;
    }
  }

  /**
   * At-most-once launch: an attempt reaches the presenter at most once; a
   * deferred attempt has not reached it yet and a launched one has, once.
   */
  lemma {:induction false} AttemptsLaunchedAtMostOnce(evs: seq<Event>)
    requires FreshCallers(evs)
    ensures var o := Run(Initial, evs);
      (forall k: Caller :: Launches(o.effects, k) <= 1) &&
      (forall k: Caller :: k !in Callers(evs) ==> Launches(o.effects, k) == 0) &&
      (PhaseOf(o.state) == Deferred ==> Launches(o.effects, o.state.pendingResult.value) == 0) &&
      (PhaseOf(o.state) == Launched ==> Launches(o.effects, o.state.pendingResult.value) == 1)
  {
    if evs != [] {
      var init, e := evs[..|evs| - 1], evs[|evs| - 1];
      AttemptsLaunchedAtMostOnce(init);
      CallersAnsweredExactlyOnce(init);
      var before := Run(Initial, init);
      var last := Step(before.state, e);
      forall k: Caller
        ensures Launches(before.effects + last.effects, k) <= 1
        ensures k !in Callers(evs) ==> Launches(before.effects + last.effects, k) == 0
        ensures last.state.pendingResult == Some(k) && PhaseOf(last.state) == Deferred ==>
          Launches(before.effects + last.effects, k) == 0
        ensures last.state.pendingResult == Some(k) && PhaseOf(last.state) == Launched ==>
          Launches(before.effects + last.effects, k) == 1
      {
        LaunchesAppend(before.effects, last.effects, k);
        StepLaunches(before.state, e, k);
      }
    }
  }

  /** While the activity is not resumed and no resume arrives, the presenter is never launched. */
  lemma {:induction false} NoLaunchWhileBackgrounded(s: State, evs: seq<Event>)
    requires !s.resumed
    requires forall i :: 0 <= i < |evs| ==> !evs[i].Resumed?
    ensures var o := Run(s, evs);
      !o.state.resumed && forall i :: 0 <= i < |o.effects| ==> !o.effects[i].Launch?
  {
    if evs != [] {
      var init, e := evs[..|evs| - 1], evs[|evs| - 1];
      NoLaunchWhileBackgrounded(s, init);
      var before := Run(s, init);
      var last := Step(before.state, e);
      assert forall i :: 0 <= i < |last.effects| ==> !last.effects[i].Launch?;
      assert Run(s, evs).effects == before.effects + last.effects;
    }
  }

  /** Whether a screen-off broadcast arrived after the last consume of the flag. */
  function ScreenOffSinceConsume(evs: seq<Event>): bool
    decreases |evs|
  {
    if evs == [] then false
    else
      match evs[|evs| - 1]
      case BroadcastReceived(isScreenOff) => isScreenOff || ScreenOffSinceConsume(evs[..|evs| - 1])
      case ConsumeCall(_) => false
      case _ => ScreenOffSinceConsume(evs[..|evs| - 1])
  }

  /** The sticky flag holds exactly when a screen-off broadcast arrived since the last consume. */
  lemma {:induction false} ScreenOffFlagReportsBroadcasts(evs: seq<Event>)
    ensures Run(Initial, evs).state.screenOff == ScreenOffSinceConsume(evs)
  {
    if evs != [] {
      ScreenOffFlagReportsBroadcasts(evs[..|evs| - 1]);
    }
  }

  /**
   * A consume answers whether the screen went off since the previous consume
   * (no broadcast is lost, none is reported twice) and leaves the flag clear.
   */
  lemma ConsumeAnswersBroadcasts(evs: seq<Event>, c: Caller)
    ensures var o := Run(Initial, evs + [ConsumeCall(c)]);
      o.effects == Run(Initial, evs).effects + [Resolve(c, Success(ScreenOffSinceConsume(evs)))] &&
      !o.state.screenOff
  {
    assert (evs + [ConsumeCall(c)])[..|evs|] == evs;
    ScreenOffFlagReportsBroadcasts(evs);
  }

  /** Whether the last lifecycle transition in `evs` was a resume. */
  function ResumedAfter(evs: seq<Event>): bool
    decreases |evs|
  {
    if evs == [] then false
    else
      match evs[|evs| - 1]
      case Resumed(_) => true
      case Paused => false
      case _ => ResumedAfter(evs[..|evs| - 1])
  }

  /** The foreground flag follows the host lifecycle and nothing else. */
  lemma {:induction false} ResumedFollowsLifecycle(evs: seq<Event>)
    ensures Run(Initial, evs).state.resumed == ResumedAfter(evs)
  {
    if evs != [] {
      ResumedFollowsLifecycle(evs[..|evs| - 1]);
    }
  }

  /** One step registers only when unregistered, and unregisters only when registered. */
  lemma StepReceiverCalls(s: State, e: Event)
    ensures var o := Step(s, e);
      ReceiverCalls(o.effects) ==
        (if e.Created? && !s.registered then [true]
         else if e.Destroyed? && s.registered then [false] else []) &&
      o.state.registered == (if e.Created? then true else if e.Destroyed? then false else s.registered)
  {
    var o := Step(s, e);
    if !e.Created? && !e.Destroyed? {
      NoReceiverCalls(o.effects);
    }
  }

  /** Effects that neither register nor unregister make no receiver calls. */
  lemma {:induction false} NoReceiverCalls(fx: seq<Effect>)
    requires forall i :: 0 <= i < |fx| ==> !fx[i].Subscribe? && !fx[i].Unsubscribe?
    ensures ReceiverCalls(fx) == []
  {
    if fx != [] {
      NoReceiverCalls(fx[1..]);
    }
  }

  /** Registrations (`true`) and unregistrations alternate, starting with a registration. */
  predicate Alternating(calls: seq<bool>) {
    forall i :: 0 <= i < |calls| ==> calls[i] == (i % 2 == 0)
  }

  /**
   * The OS sees registrations and unregistrations of the screen-off receiver
   * strictly alternating, starting with a registration, and the guard flag
   * says which one came last.
   */
  lemma {:induction false} ReceiverCallsAlternate(evs: seq<Event>)
    ensures var o := Run(Initial, evs);
      Alternating(ReceiverCalls(o.effects)) &&
      o.state.registered == (|ReceiverCalls(o.effects)| % 2 == 1)
  {
    if evs != [] {
      var init, e := evs[..|evs| - 1], evs[|evs| - 1];
      ReceiverCallsAlternate(init);
      var before := Run(Initial, init);
      var last := Step(before.state, e);
      assert Run(Initial, evs) == Outcome(last.state, before.effects + last.effects);
      ReceiverCallsAppend(before.effects, last.effects);
      StepReceiverCalls(before.state, e);
      AlternationStep(ReceiverCalls(before.effects), ReceiverCalls(last.effects),
                      before.state.registered, last.state.registered);
    }
  }

  /** Appending one step's receiver calls keeps them alternating and in step with the guard. */
  lemma AlternationStep(calls: seq<bool>, added: seq<bool>, wasRegistered: bool, isRegistered: bool)
    requires Alternating(calls) && wasRegistered == (|calls| % 2 == 1)
    requires (added == [] && isRegistered == wasRegistered) ||
             (added == [true] && !wasRegistered && isRegistered) ||
             (added == [false] && wasRegistered && !isRegistered)
    ensures Alternating(calls + added) && isRegistered == (|calls + added| % 2 == 1)
  {
    if added == [] {
      assert calls + added == calls;
    } else {
      AlternatingExtend(calls, added[0]);
    }
  }

  lemma AlternatingExtend(calls: seq<bool>, next: bool)
    requires Alternating(calls) && next == (|calls| % 2 == 0)
    ensures Alternating(calls + [next])
  {
  }
}
