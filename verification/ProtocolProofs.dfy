/** What every interleaving of one controller's threads keeps. */
module ProtocolProofs {
  import opened EventLogs
  import opened StateMachines
  import opened Protocol

  // ---------------------------------------------------------------- invariants of all runs

  /** The log holds exactly the events that arrived since the last reset, in order. */
  ghost predicate LogInv(sh: Shared) {
    && sh.resetAt + |sh.log.events| == sh.arrivals
    && forall i :: 0 <= i < |sh.log.events| ==> sh.log.events[i].arrival == sh.resetAt + i
  }

  /** One scanner: while it has not yet checked an event of an earlier epoch, nothing has arrived. */
  ghost predicate StdoutInv(sh: Shared) {
    sh.stdout.Appended? ==>
      && sh.stdout.epoch <= sh.epoch
      && (sh.stdout.epoch == sh.epoch ==> sh.log.events != [])
      && (sh.stdout.epoch < sh.epoch ==> sh.log.events == [])
  }

  /** The expected-th event is not yet checked. */
  ghost predicate CheckIsDue(sh: Shared) {
    sh.stdout == Appended(sh.epoch) && |sh.log.events| == sh.log.expected
  }

  ghost predicate LatchInv(sh: Shared) {
    && (sh.log.completeFirstTime ==> |sh.log.events| >= sh.log.expected)
    && (1 <= sh.log.expected <= |sh.log.events| && !CheckIsDue(sh) ==> sh.log.completeFirstTime)
    && (!sh.inTest ==> sh.log.expected == 0)
  }

  /** The test the client has in hand is the one of the current epoch. */
  ghost predicate Owns(sh: Shared, t: Test) {
    sh.inTest && t == Test(sh.log.expected, sh.epoch, sh.resetAt)
  }

  ghost predicate TestInv(s: State) {
    match s.pc
    case Checking(t) => Owns(s.sh, t)
    case AwaitingResults(t) => Owns(s.sh, t)
    case Fetching(t, _) => Owns(s.sh, t)
    case ResettingPipelines(c, t) => c.Execute? ==> Owns(s.sh, t)
    case Reloading(c, t) => c.Execute? ==> Owns(s.sh, t)
    case Idle(Executed(t)) => Owns(s.sh, t)
    case Idle(Got(t, _, results)) =>
      && Owns(s.sh, t)
      && |results| <= |s.sh.log.events| && results == s.sh.log.events[..|results|]
    case _ => true
  }

  ghost predicate StaleInv(sh: Shared) {
    !sh.inTest && sh.stdout.Appended? && sh.stdout.epoch < sh.epoch ==> !sh.log.completeFirstTime
  }

  /** A client that is about to issue its command has seen the state in which the table has an entry for it;
      since then the state may only have become Unknown. */
  ghost predicate CallInv(s: State) {
    && s.sh.state != Created
    && match s.pc
       case InWait(c) => !c.Results?
       case Issuing(c) => !c.Results? && s.sh.state in {Target(c), Unknown}
       case Writing(c) => !c.Results?
       case ResettingEvents(c) => !c.Results?
       case ResettingPipelines(c, _) => !c.Results?
       case Reloading(c, _) => !c.Results?
       case _ => true
  }

  ghost predicate AnyInv(s: State) {
    LogInv(s.sh) && StdoutInv(s.sh) && LatchInv(s.sh) && TestInv(s) && StaleInv(s.sh) && CallInv(s)
  }

  lemma AnyInvEnvStep(s: State, a: Act)
    requires AnyInv(s) && EnvEnabled(s.sh, a)
    ensures AnyInv(s.(sh := EnvApply(s.sh, a)))
  {
  }

  lemma AnyInvClientStep(s: State, a: Act)
    requires AnyInv(s) && ClientEnabled(s, a)
    ensures AnyInv(ClientApply(s, a))
  {
  }

  lemma AnyInvStep(s: State, a: Act)
    requires AnyInv(s) && Enabled(s, a)
    ensures AnyInv(Apply(s, a))
  {
    if EnvEnabled(s.sh, a) {
      AnyInvEnvStep(s, a);
    } else {
      AnyInvClientStep(s, a);
    }
  }

  // ---------------------------------------------------------------- invariants of quiet runs

  /** Outside a test no completion can have fired, and none can fire. */
  ghost predicate QuietInv(sh: Shared) {
    !sh.inTest ==>
      && !sh.log.completeFirstTime
      && (sh.stdout.Appended? ==> sh.stdout.epoch == sh.epoch)
  }

  predicate BetweenTests(state: StateName) {
    state in {Started, Ready, SettingUpTest, ReadyForTest}
  }

  /** The test of the current epoch, if any, is complete and its completion was its own. */
  ghost predicate Settled(sh: Shared) {
    && sh.pending == []
    && (sh.inTest ==> sh.log.completeFirstTime)
  }

  ghost predicate PendingInv(sh: Shared) {
    && |sh.pending| <= 1
    && (sh.pending != [] ==>
          && sh.pending[0].epoch == sh.epoch
          && sh.log.completeFirstTime
          && (sh.pending[0].Completes? && !sh.ctxDone ==> sh.state in {RunningTest, Unknown}))
    && (BetweenTests(sh.state) ==> Settled(sh) && (sh.inTest ==> sh.doneBy == sh.epoch))
  }

  ghost predicate ClientInv(s: State) {
    match s.pc
    case Issuing(_) => Settled(s.sh)
    case Writing(c) => InCall(s.sh, c)
    case ResettingEvents(c) => InCall(s.sh, c)
    case Fetching(_, ok) => ok ==> Released(s.sh)
    case Idle(Got(t, ok, results)) => ok ==> Released(s.sh) && |results| >= t.expected
    case _ => true
  }

  ghost predicate InCall(sh: Shared, c: Call) {
    Settled(sh) && (c.Execute? ==> sh.state in {ExecutingTest, RunningTest, Unknown})
  }

  ghost predicate Released(sh: Shared) {
    sh.log.completeFirstTime && sh.doneBy == sh.epoch
  }

  ghost predicate Inv(s: State) {
    AnyInv(s) && QuietInv(s.sh) && PendingInv(s.sh) && ClientInv(s)
  }

  lemma InvEnvStep(s: State, a: Act)
    requires Inv(s) && EnvEnabled(s.sh, a)
    ensures Inv(s.(sh := EnvApply(s.sh, a)))
  {
    AnyInvEnvStep(s, a);
  }

  lemma InvClientStep(s: State, a: Act)
    requires Inv(s) && ClientEnabled(s, a) && Quiet(s, a)
    ensures Inv(ClientApply(s, a))
  {
    AnyInvClientStep(s, a);
  }

  lemma InvStep(s: State, a: Act)
    requires Inv(s) && Enabled(s, a) && Quiet(s, a)
    ensures Inv(Apply(s, a))
  {
    hide Inv;
    if EnvEnabled(s.sh, a) {
      InvEnvStep(s, a);
    } else {
      InvClientStep(s, a);
    }
  }

  lemma InvLaunched()
    ensures Inv(INITIAL)
  {
  }

  lemma {:induction false} AnyInvAlways(states: seq<State>, acts: seq<Act>, k: nat)
    requires Run(states, acts) && k <= |acts|
    ensures AnyInv(states[k])
  {
    hide Enabled, Apply;
    if k > 0 {
      AnyInvAlways(states, acts, k - 1);
      AnyInvStep(states[k - 1], acts[k - 1]);
    }
  }

  lemma {:induction false} InvAlways(states: seq<State>, acts: seq<Act>, k: nat)
    requires QuietRun(states, acts) && k <= |acts|
    ensures Inv(states[k])
  {
    hide Enabled, Apply, Quiet;
    if k == 0 {
      InvLaunched();
    } else {
      InvAlways(states, acts, k - 1);
      InvStep(states[k - 1], acts[k - 1]);
    }
  }

  // ---------------------------------------------------------------- results

  /** The events of a test are the consecutive arrivals that follow its own reset. */
  ghost predicate OwnEvents(t: Test, results: seq<Event>) {
    forall i :: 0 <= i < |results| ==> results[i].arrival == t.start + i
  }

  /** Whatever GetResults returns, with or without an error, in any interleaving: exactly the events
      that arrived since the reset of the client's own test, none missing in between. */
  lemma ResultsAreOwn(states: seq<State>, acts: seq<Act>, k: nat)
    requires Run(states, acts) && k <= |acts|
    requires states[k].pc.Idle? && states[k].pc.last.Got?
    ensures OwnEvents(states[k].pc.last.test, states[k].pc.last.results)
  {
    AnyInvAlways(states, acts, k);
  }

  /** When GetResults returns without error it holds at least the expected number of events, and the
      goroutine that let it return was started by the test itself. */
  lemma ResultsAreComplete(states: seq<State>, acts: seq<Act>, k: nat)
    requires QuietRun(states, acts) && k <= |acts|
    requires states[k].pc.Idle? && states[k].pc.last.Got? && states[k].pc.last.ok
    ensures var got := states[k].pc.last;
            && |got.results| >= got.test.expected
            && OwnEvents(got.test, got.results)
            && states[k].sh.doneBy == got.test.epoch
  {
    InvAlways(states, acts, k);
  }

  /** No completion of an earlier test survives, and never are two of them pending. */
  lemma AtMostOneCompletionPending(states: seq<State>, acts: seq<Act>, k: nat)
    requires QuietRun(states, acts) && k <= |acts|
    ensures |states[k].sh.pending| <= 1
    ensures forall g | g in states[k].sh.pending :: g.epoch == states[k].sh.epoch && states[k].sh.inTest
  {
    InvAlways(states, acts, k);
  }

  // ---------------------------------------------------------------- the latch

  ghost predicate StartsCompletion(s: State, a: Act) {
    Enabled(s, a) && |Apply(s, a).sh.pending| > |s.sh.pending|
  }

  /** The latch is reset by a new epoch only. */
  ghost predicate LatchKept(before: Shared, after: Shared) {
    && before.epoch <= after.epoch
    && (before.epoch == after.epoch && before.log.completeFirstTime ==> after.log.completeFirstTime)
  }

  lemma LatchChain(a: Shared, b: Shared, c: Shared)
    requires LatchKept(a, b) && LatchKept(b, c)
    ensures LatchKept(a, c)
  {
  }

  lemma {:induction false} LatchStays(states: seq<State>, i: nat, k: nat)
    requires i <= k < |states|
    requires forall j :: i <= j < k ==> LatchKept(states[j].sh, states[j + 1].sh)
    ensures LatchKept(states[i].sh, states[k].sh)
  {
    if i < k {
      LatchStays(states, i, k - 1);
      LatchChain(states[i].sh, states[k - 1].sh, states[k].sh);
    }
  }

  /** In any interleaving two completions are started only with a reset between them. */
  lemma CompletionFiresOncePerReset(states: seq<State>, acts: seq<Act>, i: nat, j: nat)
    requires Run(states, acts) && i < j < |acts|
    requires StartsCompletion(states[i], acts[i]) && StartsCompletion(states[j], acts[j])
    ensures states[i].sh.epoch < states[j].sh.epoch
  {
    StartSetsLatch(states[i], acts[i]);
    StartSetsLatch(states[j], acts[j]);
    forall k | 0 <= k < |acts|
      ensures LatchKept(states[k].sh, states[k + 1].sh)
    {
      LatchStep(states, acts, k);
    }
    LatchStays(states, i + 1, j);
  }

  /** With one scanner and at least one expected event the latch is set once the expected-th event has been
      appended and ReceiveEvent has returned; before that many events have arrived it never is. */
  lemma CompletionHasFired(states: seq<State>, acts: seq<Act>, k: nat)
    requires Run(states, acts) && k <= |acts|
    requires states[k].sh.log.expected >= 1 && states[k].sh.stdout.Scanning?
    ensures states[k].sh.log.completeFirstTime <==> |states[k].sh.log.events| >= states[k].sh.log.expected
  {
    AnyInvAlways(states, acts, k);
  }

  lemma StartSetsLatch(s: State, a: Act)
    requires StartsCompletion(s, a)
    ensures !s.sh.log.completeFirstTime
    ensures Apply(s, a).sh.log.completeFirstTime && Apply(s, a).sh.epoch == s.sh.epoch
  {
  }

  lemma LatchStep(states: seq<State>, acts: seq<Act>, k: nat)
    requires Run(states, acts) && k < |acts|
    ensures LatchKept(states[k].sh, states[k + 1].sh)
  {
  }

  // ---------------------------------------------------------------- health

  /** Unknown is absorbing over every step of every thread. */
  lemma UnknownIsAbsorbing(s: State, a: Act)
    requires Enabled(s, a) && s.sh.state == Unknown
    ensures Apply(s, a).sh.state == Unknown
  {
  }

  lemma {:induction false} UnknownStays(states: seq<State>, i: nat, k: nat)
    requires i <= k < |states|
    requires forall j :: i <= j < k ==> (states[j].sh.state == Unknown ==> states[j + 1].sh.state == Unknown)
    requires states[i].sh.state == Unknown
    ensures states[k].sh.state == Unknown
  {
    if i < k {
      UnknownStays(states, i, k - 1);
    }
  }

  /** What is healthy now has always been. */
  lemma HealthIsMonotone(states: seq<State>, acts: seq<Act>, i: nat, k: nat)
    requires Run(states, acts) && i <= k <= |acts|
    requires states[k].sh.state != Unknown
    ensures states[i].sh.state != Unknown
  {
    forall j | i <= j < k
      ensures states[j].sh.state == Unknown ==> states[j + 1].sh.state == Unknown
    {
      if states[j].sh.state == Unknown {
        UnknownIsAbsorbing(states[j], acts[j]);
      }
    }
    if states[i].sh.state == Unknown {
      UnknownStays(states, i, k);
    }
  }

  ghost predicate MayLoseHealth(s: State, a: Act) {
    || (a.EndWait? && a.end.TimedOut?)
    || (a.EndCompletionWait? && a.gEnd.TimedOut?)
    || a.CrashSignal?
    || (a.CommandReady? && s.sh.state == ReadyForTest)
  }

  /** The goroutine of a completed test finds no running test: only after a cancelled wait, or when the goroutine
      is a stray one. */
  ghost predicate EndsNoTest(s: State, a: Act) {
    a.Complete? && s.sh.state != RunningTest
  }

  lemma EnvHealthStep(s: State, a: Act)
    requires CallInv(s) && EnvEnabled(s.sh, a) && s.sh.state != Unknown
    ensures EnvApply(s.sh, a).state == Unknown <==> MayLoseHealth(s, a) || EndsNoTest(s, a)
  {
  }

  lemma ClientHealthStep(s: State, a: Act)
    requires CallInv(s) && ClientEnabled(s, a) && s.sh.state != Unknown
    ensures ClientApply(s, a).sh.state == Unknown <==> MayLoseHealth(s, a)
  {
  }

  /** In any interleaving, cancelled or not, a known state becomes Unknown exactly by a timed-out wait, a crash, a
      pipeline-ready that lands in ready_for_test, or a test-complete outside a running test. So the commands of
      the client always find a table entry, or Unknown. */
  lemma HealthIsLostOnlyBy(states: seq<State>, acts: seq<Act>, k: nat)
    requires Run(states, acts) && k < |acts| && states[k].sh.state != Unknown
    ensures states[k + 1].sh.state == Unknown
            <==> MayLoseHealth(states[k], acts[k]) || EndsNoTest(states[k], acts[k])
  {
    AnyInvAlways(states, acts, k);
    if EnvEnabled(states[k].sh, acts[k]) {
      EnvHealthStep(states[k], acts[k]);
    } else {
      ClientHealthStep(states[k], acts[k]);
    }
  }

  /** In a quiet run, and before the context is cancelled, the test-complete finds its table entry as well. */
  lemma QuietHealthIsLostOnlyBy(states: seq<State>, acts: seq<Act>, k: nat)
    requires QuietRun(states, acts) && k < |acts| && states[k].sh.state != Unknown && !states[k].sh.ctxDone
    ensures states[k + 1].sh.state == Unknown <==> MayLoseHealth(states[k], acts[k])
  {
    InvAlways(states, acts, k);
    HealthIsLostOnlyBy(states, acts, k);
  }

  // ---------------------------------------------------------------- the race of ReceiveEvent

  /** Outside a test, the check of ReceiveEvent starts a completion if and only if a reset landed
      between its append and the check. */
  lemma StrayCompletionIffResetBetween(states: seq<State>, acts: seq<Act>, k: nat)
    requires Run(states, acts) && k <= |acts|
    requires !states[k].sh.inTest && states[k].sh.stdout.Appended?
    ensures StartsCompletion(states[k], CheckEvents) <==> states[k].sh.stdout.epoch < states[k].sh.epoch
  {
    AnyInvAlways(states, acts, k);
  }
}
