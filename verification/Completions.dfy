/** The goroutines that announce a completed test: every one that is started issues its command, and the check of
    GetResults starts the one of a test that expects nothing (internal/daemon/controller/controller.go). */
module Completions {
  import opened StateMachines
  import opened Protocol
  import opened ProtocolProofs
  import opened StrayCompletions

  // ---------------------------------------------------------------- every completion ends in its command

  function Epochs(pending: seq<Completion>): multiset<nat> {
    if pending == [] then multiset{} else Epochs(pending[..|pending| - 1]) + multiset{pending[|pending| - 1].epoch}
  }

  /** The epoch of the completion that the step starts, and that of the one that issues test-complete in it. */
  ghost function StartedBy(s: State, a: Act): multiset<nat> {
    if StartsCompletion(s, a) then multiset{s.sh.epoch} else multiset{}
  }

  function AnnouncedBy(s: State, a: Act): multiset<nat> {
    if a.Complete? && a.j < |s.sh.pending| then multiset{s.sh.pending[a.j].epoch} else multiset{}
  }

  ghost function Started(states: seq<State>, acts: seq<Act>, k: nat): multiset<nat>
    requires k <= |acts| < |states|
  {
    if k == 0 then multiset{} else Started(states, acts, k - 1) + StartedBy(states[k - 1], acts[k - 1])
  }

  function Announced(states: seq<State>, acts: seq<Act>, k: nat): multiset<nat>
    requires k <= |acts| < |states|
  {
    if k == 0 then multiset{} else Announced(states, acts, k - 1) + AnnouncedBy(states[k - 1], acts[k - 1])
  }

  lemma {:induction false} EpochsOfConcat(p: seq<Completion>, q: seq<Completion>)
    ensures Epochs(p + q) == Epochs(p) + Epochs(q)
  {
    if q == [] {
      assert p + q == p;
    } else {
      var n := |q| - 1;
      assert (p + q)[..|p + q| - 1] == p + q[..n];
      EpochsOfConcat(p, q[..n]);
    }
  }

  lemma EpochOfOne(c: Completion)
    ensures Epochs([c]) == multiset{c.epoch}
  {
  }

  lemma EpochsAround(pending: seq<Completion>, i: nat)
    requires i < |pending|
    ensures Epochs(pending) == Epochs(pending[..i]) + multiset{pending[i].epoch} + Epochs(pending[i + 1..])
  {
    hide Epochs;
    assert pending == pending[..i] + ([pending[i]] + pending[i + 1..]);
    EpochOfOne(pending[i]);
    EpochsOfConcat(pending[..i], [pending[i]] + pending[i + 1..]);
    EpochsOfConcat([pending[i]], pending[i + 1..]);
  }

  lemma EpochsOfUpdate(pending: seq<Completion>, i: nat, c: Completion)
    requires i < |pending| && c.epoch == pending[i].epoch
    ensures Epochs(pending[i := c]) == Epochs(pending)
  {
    hide Epochs;
    EpochsAround(pending, i);
    EpochsAround(pending[i := c], i);
    assert pending[i := c][..i] == pending[..i] && pending[i := c][i + 1..] == pending[i + 1..];
  }

  lemma EpochsOfWithout(pending: seq<Completion>, i: nat)
    requires i < |pending|
    ensures Epochs(Without(pending, i)) + multiset{pending[i].epoch} == Epochs(pending)
  {
    hide Epochs;
    EpochsAround(pending, i);
    EpochsOfConcat(pending[..i], pending[i + 1..]);
  }

  lemma EpochsStep(s: State, a: Act)
    requires Enabled(s, a)
    ensures Epochs(Apply(s, a).sh.pending) + AnnouncedBy(s, a) == Epochs(s.sh.pending) + StartedBy(s, a)
  {
    hide Epochs;
    PendingStep(s, a);
    if a.Complete? {
      EpochsOfWithout(s.sh.pending, a.j);
    } else if a.EndCompletionWait? {
      EpochsOfUpdate(s.sh.pending, a.i, Completes(s.sh.pending[a.i].epoch));
    } else if StartsCompletion(s, a) {
      EpochsOfConcat(s.sh.pending, [AwaitsRunning(s.sh.epoch)]);
      EpochOfOne(AwaitsRunning(s.sh.epoch));
    }
  }

  lemma PendingStep(s: State, a: Act)
    requires Enabled(s, a)
    ensures a.Complete? ==> a.j < |s.sh.pending|
    ensures a.EndCompletionWait? ==> a.i < |s.sh.pending|
    ensures Apply(s, a).sh.pending
            == if a.Complete? then Without(s.sh.pending, a.j)
               else if a.EndCompletionWait? then s.sh.pending[a.i := Completes(s.sh.pending[a.i].epoch)]
               else if StartsCompletion(s, a) then s.sh.pending + [AwaitsRunning(s.sh.epoch)]
               else s.sh.pending
  {
  }

  lemma Balance(started: multiset<nat>, announced: multiset<nat>, pending: multiset<nat>, more: multiset<nat>,
                done: multiset<nat>, pending': multiset<nat>)
    requires started == announced + pending && pending' + done == pending + more
    ensures started + more == announced + done + pending'
  {
    calc {
      started + more;
      announced + (pending + more);
      announced + (pending' + done);
      announced + done + pending';
    }
  }

  /** In every run: a completion that was started is still pending, or it has issued test-complete exactly once,
      however its wait has ended. */
  lemma {:induction false} CompletionsAreConserved(states: seq<State>, acts: seq<Act>, k: nat)
    requires Run(states, acts) && k <= |acts|
    ensures Started(states, acts, k) == Announced(states, acts, k) + Epochs(states[k].sh.pending)
  {
    hide Enabled, Apply, StartedBy, AnnouncedBy;
    if k == 0 {
      assert Epochs(states[0].sh.pending) == multiset{};
    } else {
      hide Epochs;
      CompletionsAreConserved(states, acts, k - 1);
      var s, a := states[k - 1], acts[k - 1];
      EpochsStep(s, a);
      Balance(Started(states, acts, k - 1), Announced(states, acts, k - 1), Epochs(s.sh.pending), StartedBy(s, a),
              AnnouncedBy(s, a), Epochs(states[k].sh.pending));
    }
  }

  // ---------------------------------------------------------------- tests that expect no event

  /** The check that GetResults makes right away starts a completion exactly if all expected events have arrived and
      none was started. */
  lemma ResultsCheckIff(states: seq<State>, acts: seq<Act>, k: nat)
    requires Run(states, acts) && k <= |acts| && states[k].pc.Checking?
    ensures var s := states[k];
            StartsCompletion(s, Act.CheckNoEvents)
            <==> s.pc.test.expected == |s.sh.log.events| && !s.sh.log.completeFirstTime
  {
    AnyInvAlways(states, acts, k);
  }

  /** The test that the client waits for, or has the results of. */
  function Awaited(pc: ClientPc): seq<Test> {
    match pc
    case AwaitingResults(t) => [t]
    case Fetching(t, _) => [t]
    case Idle(Got(t, _, _)) => [t]
    case _ => []
  }

  ghost predicate EmptyIsChecked(s: State) {
    forall t | t in Awaited(s.pc) ::
      t.expected == 0 && s.sh.log.events == [] ==> s.sh.log.completeFirstTime
  }

  lemma EmptyEnvStep(s: State, a: Act)
    requires EmptyIsChecked(s) && EnvEnabled(s.sh, a)
    ensures EmptyIsChecked(s.(sh := EnvApply(s.sh, a)))
  {
  }

  lemma EmptyClientStep(s: State, a: Act)
    requires AnyInv(s) && EmptyIsChecked(s) && ClientEnabled(s, a)
    ensures EmptyIsChecked(ClientApply(s, a))
  {
  }

  lemma {:induction false} EmptyAlways(states: seq<State>, acts: seq<Act>, k: nat)
    requires Run(states, acts) && k <= |acts|
    ensures EmptyIsChecked(states[k])
  {
    hide EnvEnabled, EnvApply, ClientEnabled, ClientApply, EmptyIsChecked;
    if k == 0 {
      NobodyWaits();
    } else {
      EmptyAlways(states, acts, k - 1);
      AnyInvAlways(states, acts, k - 1);
      if EnvEnabled(states[k - 1].sh, acts[k - 1]) {
        EmptyEnvStep(states[k - 1], acts[k - 1]);
      } else {
        EmptyClientStep(states[k - 1], acts[k - 1]);
      }
    }
  }

  lemma NobodyWaits()
    ensures EmptyIsChecked(INITIAL)
  {
  }

  /** The latch says that a completion was started in this epoch. */
  lemma {:induction false} LatchMeansStarted(states: seq<State>, acts: seq<Act>, k: nat)
    requires Run(states, acts) && k <= |acts| && states[k].sh.log.completeFirstTime
    ensures states[k].sh.epoch in Started(states, acts, k)
  {
    if k > 0 {
      var s, a := states[k - 1], acts[k - 1];
      LatchSource(s, a);
      if s.sh.log.completeFirstTime {
        hide Enabled, Apply, StartsCompletion;
        LatchMeansStarted(states, acts, k - 1);
      }
    }
  }

  lemma LatchSource(s: State, a: Act)
    requires Enabled(s, a) && Apply(s, a).sh.log.completeFirstTime
    ensures Apply(s, a).sh.epoch == s.sh.epoch
    ensures s.sh.log.completeFirstTime || StartsCompletion(s, a)
  {
  }

  /** In every run: a client that waits for the results of a test that expects no event, and to which none has come,
      waits for a completion that is pending or has issued its command. */
  lemma EmptyTestIsReleased(states: seq<State>, acts: seq<Act>, k: nat, t: Test)
    requires Run(states, acts) && k <= |acts| && t in Awaited(states[k].pc)
    requires t.expected == 0 && states[k].sh.log.events == []
    ensures t.epoch in Epochs(states[k].sh.pending) || t.epoch in Announced(states, acts, k)
  {
    EmptyAlways(states, acts, k);
    AnyInvAlways(states, acts, k);
    LatchMeansStarted(states, acts, k);
    CompletionsAreConserved(states, acts, k);
  }

  /** A test that expects nothing, and to which nothing comes, ends without error. */
  lemma EmptyTestSucceeds() returns (s: State)
    ensures Leads(AnyCall, INITIAL, s)
    ensures s.pc.Idle? && s.pc.last.Got? && s.pc.last.ok && s.pc.last.results == [] && s.pc.last.test.expected == 0
  {
    hide Leads;
    s := FirstTestRuns(0);
    s := Step(AnyCall, INITIAL, s, Begin(Results));
    s := Step(AnyCall, INITIAL, s, Act.CheckNoEvents);
    s := EndTest(AnyCall, INITIAL, s);
    s := FetchReleased(AnyCall, INITIAL, s);
  }

  lemma FirstTestRuns(expected: nat) returns (s: State)
    ensures Leads(AnyCall, INITIAL, s)
    ensures s.sh.state == RunningTest && s.sh.pending == [] && s.sh.log.events == [] && !s.sh.log.completeFirstTime
    ensures s.sh.log.expected == expected && s.sh.stdout.Scanning?
    ensures s.pc.Idle? && s.pc.last.Executed? && s.pc.last.test.expected == expected
  {
    hide Leads;
    s := FirstSetupDone();
    s := UpToReset(AnyCall, INITIAL, s, Execute([], expected));
    s := AfterReset(AnyCall, INITIAL, s);
    s := BecomeReady(AnyCall, INITIAL, s);
  }

  lemma FirstSetupDone() returns (s: State)
    ensures Leads(AnyCall, INITIAL, s)
    ensures s.sh.state == ReadyForTest && s.sh.pending == [] && s.sh.stdout.Scanning? && s.pc.Idle?
  {
    hide Leads;
    s := INITIAL;
    Stay(AnyCall, s);
    s := BecomeReady(AnyCall, INITIAL, s);
    s := UpToReset(AnyCall, INITIAL, s, Setup([]));
    s := AfterReset(AnyCall, INITIAL, s);
    s := BecomeReady(AnyCall, INITIAL, s);
  }
}
