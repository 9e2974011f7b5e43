/**
 * Whole runs of the activity from a fresh start, worked out end to end.
 */
module Scenarios {
  import opened CredentialState
  import opened Transitions
  import opened Traces

  /**
   * In the foreground on a secure device, a request with a title and a
   * description is shown with exactly those, and a confirmed result answers
   * the caller `true`.
   */
  lemma ForegroundConfirmed()
    ensures var evs := [Created, Resumed(Started),
                        AuthenticateCall(1, Some("T"), Some("D"), true, true, Started),
                        CredentialCompleted(true)];
      var o := Run(Initial, evs);
      o.effects == [Subscribe, Launch(Some(1), Request("T", "D")), Resolve(1, Success(true))] &&
      o.state.pendingResult.None?
  {
    var e1, e2, e3, e4 := Created, Resumed(Started),
                          AuthenticateCall(1, Some("T"), Some("D"), true, true, Started),
                          CredentialCompleted(true);
    RunSnoc(Initial, [], e1);
    assert [] + [e1] == [e1];
    var o1 := Run(Initial, [e1]);
    assert o1 == Outcome(Initial.(registered := true), [Subscribe]);
    RunSnoc(Initial, [e1], e2);
    assert [e1] + [e2] == [e1, e2];
    var o2 := Run(Initial, [e1, e2]);
    assert o2 == Outcome(o1.state.(resumed := true), [Subscribe]);
    RunSnoc(Initial, [e1, e2], e3);
    assert [e1, e2] + [e3] == [e1, e2, e3];
    var o3 := Run(Initial, [e1, e2, e3]);
    assert o3 == Outcome(o2.state.(pendingResult := Some(1)), [Subscribe, Launch(Some(1), Request("T", "D"))]);
    RunSnoc(Initial, [e1, e2, e3], e4);
    assert [e1, e2, e3] + [e4] == [e1, e2, e3, e4];
  }

  /**
   * In the background, a request without title or description is not shown
   * until the activity resumes; it is then shown once with the default
   * texts, and a declined result answers the caller `false`.
   */
  lemma BackgroundDeferredThenDeclined()
    ensures var request := AuthenticateCall(7, None, None, true, true, Started);
      Run(Initial, [request]).effects == [] &&
      Run(Initial, [request, Resumed(Started), CredentialCompleted(false)]).effects ==
        [Launch(Some(7), Request(DefaultTitle, DefaultDescription)), Resolve(7, Success(false))]
  {
    var request := AuthenticateCall(7, None, None, true, true, Started);
    var shown := Request(DefaultTitle, DefaultDescription);
    RunSnoc(Initial, [], request);
    assert [] + [request] == [request];
    var o1 := Run(Initial, [request]);
    assert o1 == Outcome(Initial.(pendingResult := Some(7), pendingIntent := Some(shown)), []);
    RunSnoc(Initial, [request], Resumed(Started));
    assert [request] + [Resumed(Started)] == [request, Resumed(Started)];
    var o2 := Run(Initial, [request, Resumed(Started)]);
    assert o2 == Outcome(Initial.(pendingResult := Some(7), resumed := true), [Launch(Some(7), shown)]);
    RunSnoc(Initial, [request, Resumed(Started)], CredentialCompleted(false));
    assert [request, Resumed(Started)] + [CredentialCompleted(false)] == [request, Resumed(Started), CredentialCompleted(false)];
  }

  /** Stopping the receiver that was never started does nothing and raises nothing. */
  lemma StopWithoutStart(osThrows: bool)
    ensures Run(Initial, [Destroyed(osThrows)]) == Outcome(Initial, [])
  {
    RunSnoc(Initial, [], Destroyed(osThrows));
    assert [] + [Destroyed(osThrows)] == [Destroyed(osThrows)];
  }
}
