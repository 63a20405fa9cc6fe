/** Which steps move a controller from state to state, in every run: the transition table seen from outside
    (internal/daemon/controller/statemachine.go). */
module StateChanges {
  import opened StateMachines
  import opened Protocol
  import opened ProtocolProofs

  predicate Issues(s: State, a: Act, from: StateName) {
    a.Issue? && s.pc.Issuing? && s.sh.state == from
  }

  predicate Loads(s: State, a: Act, from: StateName) {
    a.CommandReady? && s.sh.state == from
  }

  /** The step brings the controller from another state into this one. */
  ghost predicate Enters(s: State, a: Act, to: StateName) {
    match to
    case Created => false
    case Started => Issues(s, a, ReadyForTest) && s.pc.call.Tear?
    case Ready => Loads(s, a, Started)
    case SettingUpTest => Issues(s, a, Ready) && s.pc.call.Setup?
    case ReadyForTest => Loads(s, a, SettingUpTest) || (a.Complete? && s.sh.state == RunningTest)
    case ExecutingTest => Issues(s, a, ReadyForTest) && s.pc.call.Execute?
    case RunningTest => Loads(s, a, ExecutingTest)
    case Unknown => MayLoseHealth(s, a) || EndsNoTest(s, a)
  }

  /** In any interleaving, cancelled or not, each state is entered by exactly these steps. */
  lemma EnteredOnlyBy(states: seq<State>, acts: seq<Act>, k: nat, to: StateName)
    requires Run(states, acts) && k < |acts| && states[k].sh.state != to
    ensures states[k + 1].sh.state == to <==> Enters(states[k], acts[k], to)
  {
    AnyInvAlways(states, acts, k);
    if EnvEnabled(states[k].sh, acts[k]) {
      EntersByEnv(states[k], acts[k], to);
    } else {
      EntersByClient(states[k], acts[k], to);
    }
  }

  lemma EntersByEnv(s: State, a: Act, to: StateName)
    requires CallInv(s) && EnvEnabled(s.sh, a) && s.sh.state != to
    ensures EnvApply(s.sh, a).state == to <==> Enters(s, a, to)
  {
    hide AfterCheck;
    assert a.CheckEvents? ==> AfterCheck(s.sh).state == s.sh.state by { AfterCheckKeepsState(s.sh); }
  }

  lemma AfterCheckKeepsState(sh: Shared)
    ensures AfterCheck(sh).state == sh.state
  {
  }

  lemma EntersByClient(s: State, a: Act, to: StateName)
    requires CallInv(s) && ClientEnabled(s, a) && s.sh.state != to
    ensures ClientApply(s, a).sh.state == to <==> Enters(s, a, to)
  {
  }

  // ---------------------------------------------------------------- one session after the other

  ghost predicate LoadedBetween(states: seq<State>, acts: seq<Act>, i: nat, k: nat, from: StateName)
    requires k <= |acts| < |states|
  {
    exists j :: i < j < k && Loads(states[j], acts[j], from)
  }

  lemma {:induction false} NotReadyUnlessLoaded(states: seq<State>, acts: seq<Act>, i: nat, k: nat)
    requires Run(states, acts) && i < k <= |acts| && states[i + 1].sh.state != Ready
    ensures states[k].sh.state == Ready ==> LoadedBetween(states, acts, i, k, Started)
  {
    hide Enabled, Apply;
    if i + 1 < k {
      NotReadyUnlessLoaded(states, acts, i, k - 1);
      if states[k - 1].sh.state != Ready && states[k].sh.state == Ready {
        EnteredOnlyBy(states, acts, k - 1, Ready);
      }
    }
  }

  /** After the command of a Teardown no SetupTest passes its wait before the log reader has issued pipeline-ready
      for the pipelines that are left. */
  lemma SetupWaitsForTeardown(states: seq<State>, acts: seq<Act>, i: nat, k: nat)
    requires Run(states, acts) && i < k < |acts|
    requires acts[i].Issue? && states[i].pc.Issuing? && states[i].pc.call.Tear?
    requires acts[k] == EndWait(Reached) && states[k].pc.InWait? && states[k].pc.call.Setup?
    ensures LoadedBetween(states, acts, i, k, Started)
  {
    AnyInvAlways(states, acts, i);
    IssuedTear(states[i], acts[i]);
    NotReadyUnlessLoaded(states, acts, i, k);
  }

  lemma IssuedTear(s: State, a: Act)
    requires AnyInv(s) && Enabled(s, a) && a.Issue? && s.pc.Issuing? && s.pc.call.Tear?
    ensures Apply(s, a).sh.state in {Started, Unknown}
  {
  }

  // ---------------------------------------------------------------- the course of a test

  ghost predicate CompletedBetween(states: seq<State>, acts: seq<Act>, i: nat, k: nat)
    requires k <= |acts| < |states|
  {
    exists j :: i < j < k && acts[j].Complete? && states[j].sh.state == RunningTest
                && LoadedBetween(states, acts, i, j, ExecutingTest)
  }

  lemma {:induction false} CourseOfTest(states: seq<State>, acts: seq<Act>, i: nat, k: nat)
    requires Run(states, acts) && i < k <= |acts| && states[i + 1].sh.state in {ExecutingTest, Unknown}
    ensures || states[k].sh.state in {ExecutingTest, Unknown}
            || (states[k].sh.state == RunningTest && LoadedBetween(states, acts, i, k, ExecutingTest))
            || CompletedBetween(states, acts, i, k)
  {
    hide Enabled, Apply;
    if i + 1 < k {
      CourseOfTest(states, acts, i, k - 1);
      var s, s' := states[k - 1], states[k];
      if s.sh.state != s'.sh.state {
        EnteredOnlyBy(states, acts, k - 1, s'.sh.state);
      }
      if CompletedBetween(states, acts, i, k - 1) {
        var j :| i < j < k - 1 && acts[j].Complete? && states[j].sh.state == RunningTest
                 && LoadedBetween(states, acts, i, j, ExecutingTest);
        assert CompletedBetween(states, acts, i, k);
      } else if LoadedBetween(states, acts, i, k - 1, ExecutingTest) {
        var j :| i < j < k - 1 && Loads(states[j], acts[j], ExecutingTest);
        assert LoadedBetween(states, acts, i, k, ExecutingTest);
      }
    }
  }

  /** After the command of an ExecuteTest neither GetResults nor the next call passes its wait before the pipelines of
      the test were loaded, and after that a completion has ended the test. */
  lemma ResultsWaitForTest(states: seq<State>, acts: seq<Act>, i: nat, k: nat)
    requires Run(states, acts) && i < k < |acts|
    requires acts[i].Issue? && states[i].pc.Issuing? && states[i].pc.call.Execute?
    requires acts[k] == EndWait(Reached) && (states[k].pc.InWait? || states[k].pc.AwaitingResults?)
    ensures CompletedBetween(states, acts, i, k)
  {
    AnyInvAlways(states, acts, i);
    IssuedExecute(states[i], acts[i]);
    CourseOfTest(states, acts, i, k);
    AnyInvAlways(states, acts, k);
  }

  lemma IssuedExecute(s: State, a: Act)
    requires AnyInv(s) && Enabled(s, a) && a.Issue? && s.pc.Issuing? && s.pc.call.Execute?
    ensures Apply(s, a).sh.state in {ExecutingTest, Unknown}
  {
  }

  // ---------------------------------------------------------------- the context

  lemma ContextStep(s: State, a: Act)
    requires Enabled(s, a)
    ensures Apply(s, a).sh.ctxDone <==> s.sh.ctxDone || a.Cancel?
  {
    if a.CheckEvents? || a.CheckNoEvents? {
      assert AfterCheck(s.sh).ctxDone == s.sh.ctxDone;
    }
  }

  /** No wait ends with "shutdown in progress" unless the context was cancelled before. */
  lemma {:induction false} ContextDoneIffCancelled(states: seq<State>, acts: seq<Act>, k: nat)
    requires Run(states, acts) && k <= |acts|
    ensures states[k].sh.ctxDone <==> exists i :: 0 <= i < k && acts[i].Cancel?
    ensures k < |acts| && (acts[k] == EndWait(ShutDown) || (acts[k].EndCompletionWait? && acts[k].gEnd.ShutDown?)) ==>
              exists i :: 0 <= i < k && acts[i].Cancel?
  {
    hide Apply;
    if k > 0 {
      hide Enabled;
      ContextDoneIffCancelled(states, acts, k - 1);
      ContextStep(states[k - 1], acts[k - 1]);
    }
    if k < |acts| {
      if acts[k] == EndWait(ShutDown) || (acts[k].EndCompletionWait? && acts[k].gEnd.ShutDown?) {
        ShutDownEnd(states[k], acts[k]);
      }
    }
  }

  lemma ShutDownEnd(s: State, a: Act)
    requires Enabled(s, a) && (a == EndWait(ShutDown) || (a.EndCompletionWait? && a.gEnd.ShutDown?))
    ensures s.sh.ctxDone
  {
  }
}
