/** The race of ReceiveEvent with the resets of SetupTest and Teardown: when exactly it makes a later
    GetResults return too early (internal/daemon/controller/controller.go). */
module StrayCompletions {
  import opened EventLogs
  import opened StateMachines
  import opened Protocol
  import opened ProtocolProofs
  import ReadyMaps

  /** Which calls the client may begin: any, none, or only those of one session at a certain point. */
  datatype Scope = AnyCall | NoCall | SetupCall | TestCalls

  predicate InScope(scope: Scope, s: State, a: Act) {
    match scope
    case AnyCall => true
    case NoCall => !a.Handover? && !a.Begin?
    case SetupCall => !a.Handover? && (a.Begin? ==> a.call.Setup? && s.pc == Idle(Nothing))
    case TestCalls => !a.Handover? && (a.Begin? ==> a.call.Execute? || a.call.Results?)
  }

  ghost predicate QuietPath(scope: Scope, states: seq<State>, acts: seq<Act>) {
    && |states| == |acts| + 1
    && forall k :: 0 <= k < |acts| ==>
         && Enabled(states[k], acts[k]) && Quiet(states[k], acts[k]) && InScope(scope, states[k], acts[k])
         && states[k + 1] == Apply(states[k], acts[k])
  }

  /** Quiet steps lead from s to s'. */
  ghost predicate Leads(scope: Scope, s: State, s': State) {
    exists states, acts :: QuietPath(scope, states, acts) && states[0] == s && states[|acts|] == s'
  }

  /** What GetResults promises. */
  predicate Complete(pc: ClientPc) {
    pc.Idle? && pc.last.Got? && pc.last.ok ==> |pc.last.results| >= pc.last.test.expected
  }

  lemma {:induction false} InvOnPath(scope: Scope, states: seq<State>, acts: seq<Act>, k: nat)
    requires QuietPath(scope, states, acts) && k <= |acts| && Inv(states[0])
    ensures Inv(states[k])
  {
    if k > 0 {
      InvOnPath(scope, states, acts, k - 1);
      InvStep(states[k - 1], acts[k - 1]);
    }
  }

  /** A reset of SetupTest or Teardown on a healthy controller. */
  predicate IsReset(s: State) {
    && s.pc.ResettingEvents? && (s.pc.call.Setup? || s.pc.call.Tear?)
    && s.sh.state in if s.pc.call.Setup? then {SettingUpTest, ReadyForTest} else {Started, Ready}
  }

  /** In a run that was quiet so far. */
  ghost predicate AtReset(s: State) {
    Leads(AnyCall, INITIAL, s) && IsReset(s)
  }

  /** The test-complete of a completion has no entry in the table, on a controller that is healthy and not
      cancelled. */
  ghost predicate MissesTable(s: State, a: Act) {
    Enabled(s, a) && EndsNoTest(s, a) && s.sh.state != Unknown && !s.sh.ctxDone
  }

  /** Such a reset is safe, whatever follows, if and only if the scanner is not between its append and its check:
      all results that follow are complete, and no two completions are ever pending. Otherwise some test gets no
      event and no error, for any number of expected events, and two completions can be pending. */
  lemma ResetIsSafeIffQuiet(s: State, expected: int)
    requires AtReset(s) && expected >= 1
    ensures s.sh.stdout.Scanning? <==> forall s' | Leads(AnyCall, Apply(s, ResetEvents), s') :: Complete(s'.pc)
    ensures s.sh.stdout.Scanning? <==> forall s' | Leads(AnyCall, Apply(s, ResetEvents), s') :: |s'.sh.pending| <= 1
    ensures s.sh.stdout.Appended? ==>
              exists s' :: Leads(AnyCall, Apply(s, ResetEvents), s') && GotNothing(s'.pc, expected)
  {
    var next := Apply(s, ResetEvents);
    InvLaunched();
    InvLeads(AnyCall, INITIAL, s);
    if s.sh.stdout.Scanning? {
      InvStep(s, ResetEvents);
      forall s' | Leads(AnyCall, next, s')
        ensures Complete(s'.pc) && |s'.sh.pending| <= 1
      {
        InvLeads(AnyCall, next, s');
      }
    } else {
      var stray := Stray(s);
      var s' := TestEndsEarly(AnyCall, next, stray, expected);
      assert !Complete(s'.pc);
      var s'' := TwoArePending(AnyCall, next, stray);
    }
  }

  /** The same condition decides about health: a test-complete that misses its entry in the table, on a controller
      that was not cancelled, follows such a reset if and only if the scanner was between its append and its
      check. */
  lemma ResetKeepsHealthIffQuiet(s: State)
    requires AtReset(s) && !s.sh.ctxDone
    ensures s.sh.stdout.Scanning? <==>
            forall s', a | Leads(AnyCall, Apply(s, ResetEvents), s') :: !MissesTable(s', a)
  {
    var next := Apply(s, ResetEvents);
    InvLaunched();
    InvLeads(AnyCall, INITIAL, s);
    if s.sh.stdout.Scanning? {
      InvStep(s, ResetEvents);
      forall s', a | Leads(AnyCall, next, s')
        ensures !MissesTable(s', a)
      {
        InvLeads(AnyCall, next, s');
        CompletesARunningTest(s', a);
      }
    } else {
      var stray := Stray(s);
      var s' := SecondMisses(AnyCall, next, stray);
    }
  }

  lemma CompletesARunningTest(s: State, a: Act)
    requires Inv(s)
    ensures !MissesTable(s, a)
  {
  }

  predicate GotNothing(pc: ClientPc, expected: int) {
    pc.Idle? && pc.last.Got? && pc.last.ok && pc.last.results == [] && pc.last.test.expected == expected
  }

  lemma InvLeads(scope: Scope, s: State, s': State)
    requires Inv(s) && Leads(scope, s, s')
    ensures Inv(s')
  {
    var states, acts :| QuietPath(scope, states, acts) && states[0] == s && states[|acts|] == s';
    InvOnPath(scope, states, acts, |acts|);
  }

  // ---------------------------------------------------------------- the run that goes wrong

  /** The completion that starts right after the reset is still pending when the next test is to be executed. */
  lemma Stray(s: State) returns (s': State)
    requires Inv(s) && IsReset(s) && s.sh.stdout.Appended?
    ensures Leads(AnyCall, Apply(s, ResetEvents), s') && IsStray(s') && s'.sh.state == ReadyForTest
    ensures s'.sh.ctxDone == s.sh.ctxDone
  {
    var next := Apply(s, ResetEvents);
    s' := AfterStrayReset(AnyCall, s);
    if s'.sh.state == Started {
      s' := BecomeReady(AnyCall, next, s');
    }
    if s'.sh.state == Ready {
      s' := UpToReset(AnyCall, next, s', Setup([]));
      s' := AfterReset(AnyCall, next, s');
    }
    if s'.sh.state == SettingUpTest {
      s' := BecomeReady(AnyCall, next, s');
    }
  }

  /** The first event of a test that expects one starts a second completion. */
  lemma TwoArePending(scope: Scope, from: State, s: State) returns (s': State)
    requires Leads(scope, from, s) && IsStray(s) && s.sh.state == ReadyForTest && scope in {AnyCall, TestCalls}
    ensures Leads(scope, from, s') && s'.sh.state == RunningTest && s'.sh.ctxDone == s.sh.ctxDone
    ensures |s'.sh.pending| == 2 && s'.sh.pending[0].AwaitsRunning? && s'.sh.pending[1].AwaitsRunning?
  {
    s' := UpToReset(scope, from, s, Execute([], 1));
    s' := AfterReset(scope, from, s');
    s' := BecomeReady(scope, from, s');
    s' := Step(scope, from, s', Append("{}"));
    s' := Step(scope, from, s', CheckEvents);
  }

  /** Both find the test running; when the first has ended it, there is none for the second. */
  lemma SecondMisses(scope: Scope, from: State, s: State) returns (s': State)
    requires Leads(scope, from, s) && IsStray(s) && s.sh.state == ReadyForTest && scope in {AnyCall, TestCalls}
    requires !s.sh.ctxDone
    ensures Leads(scope, from, s') && MissesTable(s', Protocol.Act.Complete(0))
  {
    s' := TwoArePending(scope, from, s);
    s' := Step(scope, from, s', EndCompletionWait(0, WaitEnd.Reached));
    s' := Step(scope, from, s', EndCompletionWait(1, WaitEnd.Reached));
    s' := Step(scope, from, s', Protocol.Act.Complete(0));
  }

  /** It ends that test. */
  lemma TestEndsEarly(scope: Scope, from: State, s: State, expected: int) returns (s': State)
    requires Leads(scope, from, s) && IsStray(s) && s.sh.state == ReadyForTest && expected >= 1
    requires scope in {AnyCall, TestCalls}
    ensures Leads(scope, from, s') && GotNothing(s'.pc, expected)
  {
    s' := UpToReset(scope, from, s, Execute([], expected));
    s' := AfterReset(scope, from, s');
    s' := BecomeReady(scope, from, s');
    s' := EndTest(scope, from, s');
    s' := GetReleased(scope, from, s');
  }

  /** One completion is pending, outside a test. */
  ghost predicate IsStray(s: State) {
    s.pc.Idle? && |s.sh.pending| == 1 && s.sh.pending[0].AwaitsRunning? && s.sh.stdout.Scanning?
  }

  lemma AfterStrayReset(scope: Scope, s: State) returns (s': State)
    requires Inv(s) && IsReset(s) && s.sh.stdout.Appended?
    ensures Leads(scope, Apply(s, ResetEvents), s') && IsStray(s') && s'.sh.state == s.sh.state
    ensures s' == State(s'.sh.(ctxDone := s.sh.ctxDone),
                        Idle(if s.pc.call.Setup? then SetUp else TornDown))
  {
    var next := Apply(s, ResetEvents);
    assert QuietPath(scope, [next], []);
    s' := Step(scope, next, next, CheckEvents);
    s' := AfterReset(scope, next, s');
  }

  lemma Stay(scope: Scope, s: State)
    ensures Leads(scope, s, s)
  {
    assert QuietPath(scope, [s], []);
  }

  lemma Step(scope: Scope, from: State, s: State, a: Act) returns (s': State)
    requires Leads(scope, from, s) && Enabled(s, a) && Quiet(s, a) && InScope(scope, s, a)
    ensures s' == Apply(s, a) && Leads(scope, from, s')
  {
    hide Enabled, Apply, Quiet, InScope;
    s' := Apply(s, a);
    var states, acts :| QuietPath(scope, states, acts) && states[0] == from && states[|acts|] == s;
    assert QuietPath(scope, states + [s'], acts + [a]);
  }

  /** Nothing but the part of the log reader has changed. */
  ghost predicate SameButReader(s: State, s': State) {
    s' == s.(sh := s.sh.(state := s'.sh.state, ready := s'.sh.ready, reader := s'.sh.reader))
  }

  /** The log reader can always come to issue pipeline-ready. */
  lemma BecomeReady(scope: Scope, from: State, s: State) returns (s': State)
    requires Leads(scope, from, s)
    ensures Leads(scope, from, s') && SameButReader(s, s') && s'.sh.state == Next(s.sh.state, PipelineReady)
  {
    s' := s;
    if s'.sh.reader.Testing? {
      s' := Step(scope, from, s', TestReady);
    }
    if s'.sh.reader.Tailing? {
      s' := ReportAll(scope, from, s');
    }
    s' := Step(scope, from, s', CommandReady);
  }

  lemma ReportAll(scope: Scope, from: State, s: State) returns (s': State)
    requires Leads(scope, from, s) && s.sh.reader.Tailing?
    ensures Leads(scope, from, s') && SameButReader(s, s') && s'.sh.state == s.sh.state && s'.sh.reader.Commanding?
  {
    var names := Listing(s.sh.ready.Keys);
    s' := Step(scope, from, s, MarkReady(names));
    s' := Step(scope, from, s', TestReady);
  }

  lemma {:induction false} Listing(keys: set<string>) returns (names: seq<string>)
    ensures forall k :: k in names <==> k in keys
    decreases keys
  {
    names := [];
    if keys != {} {
      var k :| k in keys;
      var rest := Listing(keys - {k});
      names := [k] + rest;
    }
  }

  /** A client call that finds its target state, up to and including the reset of the event log. */
  lemma UpToReset(scope: Scope, from: State, s: State, c: Call) returns (s': State)
    requires Leads(scope, from, s) && s.pc.Idle? && !c.Results? && s.sh.state == Target(c) && s.sh.stdout.Scanning?
    requires InScope(scope, s, Begin(c))
    ensures Leads(scope, from, s')
    ensures s' == State(s.sh.(state := Next(s.sh.state, CommandOf(c)), log := EventLog([], ExpectedBy(c), false),
                              epoch := s.sh.epoch + 1, resetAt := s.sh.arrivals, inTest := c.Execute?),
                        ResettingPipelines(c, Test(ExpectedBy(c), s.sh.epoch + 1, s.sh.arrivals)))
  {
    hide Leads;
    s' := Step(scope, from, s, Begin(c));
    assert s' == s.(pc := InWait(c));
    s' := Step(scope, from, s', EndWait(WaitEnd.Reached));
    assert s' == s.(pc := Issuing(c));
    s' := IssueAndWrite(scope, from, s');
    s' := Step(scope, from, s', ResetEvents);
  }

  lemma IssueAndWrite(scope: Scope, from: State, s: State) returns (s': State)
    requires Leads(scope, from, s) && s.pc.Issuing? && !s.pc.call.Results?
    ensures Leads(scope, from, s')
    ensures s' == State(s.sh.(state := Next(s.sh.state, CommandOf(s.pc.call))), ResettingEvents(s.pc.call))
  {
    s' := Step(scope, from, s, Issue);
    s' := Step(scope, from, s', Write(true));
  }

  lemma AfterReset(scope: Scope, from: State, s: State) returns (s': State)
    requires Leads(scope, from, s) && s.pc.ResettingPipelines? && !s.pc.call.Results?
    ensures Leads(scope, from, s')
    ensures s' == State(s.sh.(ready := ReadyMaps.Unmarked(NamesOf(s.pc.call))), s'.pc)
    ensures s'.pc == Idle(match s.pc.call case Setup(_) => SetUp case Tear => TornDown case _ => Executed(s.pc.test))
  {
    s' := Step(scope, from, s, ResetPipelines);
    s' := Step(scope, from, s', Reload(true));
  }

  lemma EndTest(scope: Scope, from: State, s: State) returns (s': State)
    requires Leads(scope, from, s) && s.sh.state == RunningTest && |s.sh.pending| == 1 && s.sh.pending[0].AwaitsRunning?
    ensures Leads(scope, from, s')
    ensures s' == s.(sh := s.sh.(state := ReadyForTest, pending := [], doneBy := s.sh.pending[0].epoch))
  {
    s' := Step(scope, from, s, EndCompletionWait(0, WaitEnd.Reached));
    assert s'.sh.pending == [Completes(s.sh.pending[0].epoch)];
    s' := Step(scope, from, s', Protocol.Act.Complete(0));
  }

  lemma GetReleased(scope: Scope, from: State, s: State) returns (s': State)
    requires Leads(scope, from, s) && s.pc.Idle? && s.pc.last.Executed? && s.sh.state == ReadyForTest
    requires InScope(scope, s, Begin(Results))
    requires !Fires(s.sh.log)
    ensures Leads(scope, from, s')
    ensures s' == s.(pc := Idle(Got(s.pc.last.test, true, s.sh.log.events)))
  {
    s' := Step(scope, from, s, Begin(Results));
    assert s' == s.(pc := Checking(s.pc.last.test));
    s' := Step(scope, from, s', CheckNoEvents);
    assert s' == s.(pc := AwaitingResults(s.pc.last.test));
    s' := FetchReleased(scope, from, s');
  }

  lemma FetchReleased(scope: Scope, from: State, s: State) returns (s': State)
    requires Leads(scope, from, s) && s.pc.AwaitingResults? && s.sh.state == ReadyForTest
    ensures Leads(scope, from, s')
    ensures s' == s.(pc := Idle(Got(s.pc.test, true, s.sh.log.events)))
  {
    s' := Step(scope, from, s, EndWait(WaitEnd.Reached));
    s' := Step(scope, from, s', Fetch);
  }

  // ---------------------------------------------------------------- it can happen

  /** An event arrives while the first test is set up: the reset of SetupTest lands between the append and the
      check. */
  lemma UnsafeResetIsReachable() returns (s: State)
    ensures AtReset(s) && s.pc.call.Setup? && s.sh.stdout.Appended? && !s.sh.ctxDone
  {
    s := EventDuringSetup(AnyCall);
  }

  lemma EventDuringSetup(scope: Scope) returns (s: State)
    requires scope in {AnyCall, SetupCall}
    ensures Leads(scope, INITIAL, s) && IsReset(s) && s.pc.call.Setup? && s.sh.stdout.Appended? && !s.sh.ctxDone
  {
    s := INITIAL;
    assert QuietPath(scope, [s], []);
    s := BecomeReady(scope, INITIAL, s);
    s := Step(scope, INITIAL, s, Begin(Setup([])));
    assert s.pc == InWait(Setup([]));
    s := Step(scope, INITIAL, s, EndWait(WaitEnd.Reached));
    s := Step(scope, INITIAL, s, Append("{}"));
    s := IssueAndWrite(scope, INITIAL, s);
  }
}
