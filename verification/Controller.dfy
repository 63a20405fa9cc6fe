/** The methods a session calls on a Logstash controller, run against arbitrary interference of the
    controller's other threads (internal/daemon/controller/controller.go). */
module Controllers {
  import opened EventLogs
  import opened StateMachines
  import opened Protocol
  import opened ProtocolProofs
  import opened ReadyMaps

  predicate IsClientAct(a: Act) {
    a.Begin? || a.EndWait? || a.Issue? || a.Write? || a.ResetEvents? || a.ResetPipelines? || a.Reload?
    || a.CheckNoEvents? || a.Fetch? || a.Handover?
  }

  /** The steps that the client itself has made. */
  function ClientActs(acts: seq<Act>): seq<Act> {
    if acts == [] then []
    else ClientActs(acts[..|acts| - 1])
         + if IsClientAct(acts[|acts| - 1]) then [acts[|acts| - 1]] else []
  }

  /** The steps of SetupTest, ExecuteTest and Teardown, in order; a step that fails ends the call. */
  predicate AreStepsOf(steps: seq<Act>, call: Call, ok: bool) {
    var begun := [Begin(call), EndWait(WaitEnd.Reached), Issue];
    var reset := begun + [Write(true), Act.ResetEvents, Act.ResetPipelines];
    if ok then steps == reset + [Reload(true)]
    else
      || (|steps| == 2 && steps[0] == Begin(call) && steps[1].EndWait? && !steps[1].end.Reached?)
      || steps == begun + [Write(false)]
      || steps == reset + [Reload(false)]
  }

  lemma RunStarts()
    ensures Run([INITIAL], []) && ClientActs([]) == [] && AnyInv(INITIAL)
  {
    InvLaunched();
  }

  lemma ResetOfEvents(s: State)
    requires s.pc.ResettingEvents? && !s.pc.call.Results?
    ensures ClientEnabled(s, Act.ResetEvents)
    ensures var c, sh := s.pc.call, s.sh;
            ClientApply(s, Act.ResetEvents)
            == State(sh.(log := EventLog([], ExpectedBy(c), false), epoch := sh.epoch + 1, resetAt := sh.arrivals,
                         inTest := c.Execute?),
                     ResettingPipelines(c, Test(ExpectedBy(c), sh.epoch + 1, sh.arrivals)))
  {
  }

  lemma RunGoesOn(states: seq<State>, acts: seq<Act>, a: Act, next: State)
    requires Run(states, acts) && Enabled(states[|acts|], a)
    requires next == Apply(states[|acts|], a)
    ensures Run(states + [next], acts + [a]) && |states| == |acts| + 1
  {
    hide Enabled, Apply;
  }

  lemma ClientActsGoOn(acts: seq<Act>, a: Act)
    ensures ClientActs(acts + [a]) == ClientActs(acts) + if IsClientAct(a) then [a] else []
  {
    assert (acts + [a])[..|acts|] == acts;
  }

  class Controller {
    const stateMachine: StateMachine
    const receivedEvents: Events
    const pipelines: Pipelines

    // Positions and history of the threads, see Protocol.Shared.
    var stdout: StdoutPc
    var reader: ReaderPc
    var pending: seq<Completion>
    var arrivals: nat
    var epoch: nat
    var resetAt: nat
    var inTest: bool
    var doneBy: int
    var pc: ClientPc

    // The run of Protocol that the calls have made so far.
    ghost var states: seq<State>
    ghost var acts: seq<Act>
    ghost var mine: seq<Act>  // the steps of the client itself

    ghost function Objects(): set<object> {
      {this, stateMachine, receivedEvents, pipelines}
    }

    function Sh(): Shared
      reads Objects()
    {
      Shared(stateMachine.currentState, stateMachine.ctxDone, receivedEvents.Log(), pipelines.pipelines,
             stdout, reader, pending, arrivals, epoch, resetAt, inTest, doneBy)
    }

    function Now(): State
      reads Objects()
    {
      State(Sh(), pc)
    }

    /** The history is a run of Protocol, and it ends in the present state. */
    ghost predicate Valid()
      reads Objects()
    {
      AnyInv(Now()) && Run(states, acts) && states[|acts|] == Now() && mine == ClientActs(acts)
    }

    /** After the fields have changed as the step a says. */
    ghost method Record(a: Act)
      requires Run(states, acts) && mine == ClientActs(acts)
      requires Enabled(states[|acts|], a)
      requires AnyInv(Now()) && Now() == Apply(states[|acts|], a)
      modifies this`states, this`acts, this`mine
      ensures Valid() && Now() == old(Now()) && acts == old(acts) + [a]
      ensures mine == old(mine) + if IsClientAct(a) then [a] else []
    {
      hide AnyInv, Run, ClientActs, Apply, Enabled;
      RunGoesOn(states, acts, a, Now());
      ClientActsGoOn(acts, a);
      states, acts, mine := states + [Now()], acts + [a], mine + if IsClientAct(a) then [a] else [];
    }

    /** The same for a step of the client. */
    ghost method RecordClient(a: Act)
      requires Run(states, acts) && mine == ClientActs(acts)
      requires ClientEnabled(states[|acts|], a)
      requires AnyInv(Now()) && Now() == ClientApply(states[|acts|], a)
      modifies this`states, this`acts, this`mine
      ensures Valid() && Now() == old(Now()) && mine == old(mine) + [a]
    {
      hide AnyInv, Run, ClientActs;
      Record(a);
    }

    /** NewController and Launch. */
    constructor ()
      ensures Valid() && Now() == INITIAL && acts == []
      ensures fresh(Objects())
    {
      stateMachine := new StateMachine();
      receivedEvents := new Events();
      pipelines := new Pipelines();
      stdout, reader, pending, arrivals := Scanning, Tailing, [], 0;
      epoch, resetAt, inTest, doneBy, pc := 0, 0, false, -1, Idle(Nothing);
      new;
      hide AnyInv, Run, ClientActs;
      pipelines.Reset(["stdin", "output"]);
      stateMachine.ExecuteCommand(Start);
      states, acts, mine := [INITIAL], [], [];
      RunStarts();
    }

    // -------------------------------------------------------------- the other threads

    /** checkComplete. */
    method CheckComplete()
      modifies receivedEvents, this`pending
      ensures Sh() == AfterCheck(old(Sh()))
    {
      var first := receivedEvents.IsCompleteFirstTime();
      if first {
        pending := pending + [AwaitsRunning(epoch)];
      }
    }

    /** One critical section of the scanner, the log reader or a completion goroutine. */
    method EnvStep(a: Act)
      requires EnvEnabled(Sh(), a)
      modifies Objects()
      ensures Sh() == EnvApply(old(Sh()), a) && pc == old(pc)
      ensures states == old(states) && acts == old(acts) && mine == old(mine)
    {
      match a
      case Append(text) =>
        receivedEvents.Append(Event(text, arrivals));
        arrivals, stdout := arrivals + 1, Appended(epoch);
      case CheckEvents =>
        CheckComplete();
        stdout := Scanning;
      case CrashSignal =>
        stateMachine.ExecuteCommand(Crash);
      case Cancel =>
        Kill();
      case EndCompletionWait(_, _) => CompletionStep(a);
      case Complete(_) => CompletionStep(a);
      case MarkReady(_) => ReaderStep(a);
      case TestReady => ReaderStep(a);
      case CommandReady => ReaderStep(a);
    }

    method ReaderStep(a: Act)
      requires EnvEnabled(Sh(), a) && (a.MarkReady? || a.TestReady? || a.CommandReady?)
      modifies Objects()
      ensures Sh() == EnvApply(old(Sh()), a) && pc == old(pc)
      ensures states == old(states) && acts == old(acts) && mine == old(mine)
    {
      match a
      case MarkReady(names) =>
        pipelines.SetReady(names);
        reader := Testing;
      case TestReady =>
        var ready := pipelines.IsReady();
        reader := if ready then Commanding else Tailing;
      case CommandReady =>
        stateMachine.ExecuteCommand(PipelineReady);
        reader := Tailing;
    }

    method CompletionStep(a: Act)
      requires EnvEnabled(Sh(), a) && (a.EndCompletionWait? || a.Complete?)
      modifies Objects()
      ensures Sh() == EnvApply(old(Sh()), a) && pc == old(pc)
      ensures states == old(states) && acts == old(acts) && mine == old(mine)
    {
      match a
      case EndCompletionWait(i, end) =>
        if end.TimedOut? {
          stateMachine.currentState := Unknown;
        }
        pending := pending[i := Completes(pending[i].epoch)];
      case Complete(j) =>
        if stateMachine.currentState == RunningTest {
          doneBy := pending[j].epoch;
        }
        stateMachine.ExecuteCommand(TestComplete);
        pending := Without(pending, j);
    }

    method OtherStep(a: Act)
      requires Valid() && EnvEnabled(Sh(), a)
      modifies Objects()
      ensures Valid() && pc == old(pc) && mine == old(mine)
      ensures Now() == Apply(old(Now()), a)
    {
      AnyInvEnvStep(Now(), a);
      EnvStep(a);
      Record(a);
    }

    /** The other threads take any number of steps. */
    method Yield()
      requires Valid()
      modifies Objects()
      ensures Valid() && pc == old(pc) && mine == old(mine)
    {
      hide Valid;
      var steps: nat := *;
      while steps > 0
        invariant Valid() && pc == old(pc) && mine == old(mine)
      {
        var a: Act := *;
        if EnvEnabled(Sh(), a) {
          OtherStep(a);
        }
        steps := steps - 1;
      }
    }

    method Kill()
      modifies stateMachine
      ensures Sh() == old(Sh()).(ctxDone := true)
    {
      stateMachine.ctxDone := true;
    }

    method IsHealthy() returns (healthy: bool)
      ensures healthy <==> Sh().state != Unknown
    {
      var state := stateMachine.GetState();
      healthy := state != Unknown;
    }

    // -------------------------------------------------------------- the client

    method BeginCall(call: Call)
      requires Valid() && pc.Idle? && (call.Results? ==> pc.last.Executed? || pc.last.Got?)
      modifies Objects()
      ensures Valid() && pc == if call.Results? then Checking(old(pc).last.test) else InWait(call)
      ensures mine == old(mine) + [Begin(call)]
    {
      hide AnyInv, Run;
      AnyInvClientStep(Now(), Begin(call));
      pc := if call.Results? then Checking(pc.last.test) else InWait(call);
      RecordClient(Begin(call));
    }

    /** One pass through the head of waitForState's loop. */
    method CheckWait(target: StateName, timerFired: bool) returns (ended: bool, end: WaitEnd)
      requires Valid() && (pc.InWait? || pc.AwaitingResults?)
      requires target == if pc.InWait? then Target(pc.call) else ReadyForTest
      modifies Objects()
      ensures Valid()
      ensures timerFired ==> ended
      ensures !ended ==> pc == old(pc) && mine == old(mine)
      ensures ended ==> pc == AfterWaiting(old(pc), end) && mine == old(mine) + [EndWait(end)]
    {
      hide AnyInv, Run;
      ghost var before := Now();
      ended, end := stateMachine.CheckWait(target, timerFired);
      if ended {
        AnyInvClientStep(before, EndWait(end));
        pc := AfterWaiting(pc, end);
        RecordClient(EndWait(end));
      }
    }

    static function AfterWaiting(pc: ClientPc, end: WaitEnd): ClientPc
      requires pc.InWait? || pc.AwaitingResults?
    {
      if pc.AwaitingResults? then Fetching(pc.test, end.Reached?)
      else if end.Reached? then Issuing(pc.call)
      else Idle(Failed)
    }

    /** waitForState. Before its timer fires the caller is woken any finite number of times; whenever it
        sleeps, the other threads run. */
    method WaitForState(target: StateName) returns (end: WaitEnd)
      requires Valid() && (pc.InWait? || pc.AwaitingResults?)
      requires target == if pc.InWait? then Target(pc.call) else ReadyForTest
      modifies Objects()
      ensures Valid() && pc == AfterWaiting(old(pc), end)
      ensures mine == old(mine) + [EndWait(end)]
    {
      hide Valid;
      var wakeups: nat := *;
      while true
        invariant Valid() && pc == old(pc) && mine == old(mine)
        decreases wakeups
      {
        var ended: bool;
        ended, end := CheckWait(target, wakeups == 0);
        if ended {
          return;
        }
        Yield();
        wakeups := wakeups - 1;
      }
    }

    method ExecuteCommand(cmd: Command)
      requires Valid() && pc.Issuing? && cmd == CommandOf(pc.call)
      modifies Objects()
      ensures Valid() && pc == Writing(old(pc).call)
      ensures mine == old(mine) + [Issue]
    {
      hide Run;
      AnyInvClientStep(Now(), Issue);
      stateMachine.ExecuteCommand(cmd);
      pc := Writing(pc.call);
      RecordClient(Issue);
    }

    /** The file system decides whether pipelines.yml can be written. */
    method WritePipelines() returns (ok: bool)
      requires Valid() && pc.Writing?
      modifies Objects()
      ensures Valid() && pc == if ok then ResettingEvents(old(pc).call) else Idle(Failed)
      ensures mine == old(mine) + [Write(ok)]
    {
      hide Run;
      ok := *;
      AnyInvClientStep(Now(), Write(ok));
      pc := if ok then ResettingEvents(pc.call) else Idle(Failed);
      RecordClient(Write(ok));
    }

    method ResetEvents(expectedEvents: int)
      requires Valid() && pc.ResettingEvents? && expectedEvents == ExpectedBy(pc.call)
      modifies Objects()
      ensures Valid() && pc.ResettingPipelines? && pc.call == old(pc).call && pc.test.expected == expectedEvents
      ensures mine == old(mine) + [Act.ResetEvents]
    {
      assert !pc.call.Results?;
      hide AnyInv, Run, ClientActs, ClientEnabled, ClientApply;
      ghost var before := Now();
      ResetOfEvents(before);
      AnyInvClientStep(Now(), Act.ResetEvents);
      receivedEvents.Reset(expectedEvents);
      epoch, resetAt, inTest := epoch + 1, arrivals, pc.call.Execute?;
      pc := ResettingPipelines(pc.call, Test(expectedEvents, epoch, resetAt));
      assert Now() == ClientApply(before, Act.ResetEvents);
      RecordClient(Act.ResetEvents);
    }

    method ResetPipelines(names: seq<string>)
      requires Valid() && pc.ResettingPipelines? && names == NamesOf(pc.call)
      modifies Objects()
      ensures Valid() && pc == Reloading(old(pc).call, old(pc).test)
      ensures mine == old(mine) + [Act.ResetPipelines]
    {
      hide Run;
      AnyInvClientStep(Now(), Act.ResetPipelines);
      pipelines.Reset(names);
      pc := Reloading(pc.call, pc.test);
      RecordClient(Act.ResetPipelines);
    }

    /** The process may or may not take the signal. */
    method ConfigReload() returns (ok: bool)
      requires Valid() && pc.Reloading?
      modifies Objects()
      ensures Valid() && pc == Idle(if ok then SucceededCall(old(pc).call, old(pc).test) else Failed)
      ensures mine == old(mine) + [Reload(ok)]
    {
      hide Run;
      ok := *;
      AnyInvClientStep(Now(), Reload(ok));
      pc := Idle(if ok then SucceededCall(pc.call, pc.test) else Failed);
      RecordClient(Reload(ok));
    }

    static function SucceededCall(c: Call, t: Test): Outcome {
      match c
      case Execute(_, _) => Executed(t)
      case Setup(_) => SetUp
      case _ => TornDown
    }

    method ReloadConfig(names: seq<string>, expectedEvents: int) returns (ok: bool)
      requires Valid() && pc.Writing? && names == NamesOf(pc.call) && expectedEvents == ExpectedBy(pc.call)
      modifies Objects()
      ensures Valid() && pc.Idle?
      ensures if ok then exists t: Test :: t.expected == expectedEvents && pc.last == SucceededCall(old(pc).call, t)
              else pc.last == Failed
      ensures || mine == old(mine) + [Write(true), Act.ResetEvents, Act.ResetPipelines, Reload(ok)]
              || (!ok && mine == old(mine) + [Write(false)])
    {
      hide Valid;
      ok := WritePipelines();
      if !ok {
        return;
      }
      Yield();
      ResetEvents(expectedEvents);
      Yield();
      ResetPipelines(names);
      Yield();
      ok := ConfigReload();
    }

    /** The common course of SetupTest, ExecuteTest and Teardown: wait, command, reload. */
    ghost predicate Made(call: Call, ok: bool, before: seq<Act>)
      reads this
    {
      before <= mine && AreStepsOf(mine[|before|..], call, ok)
    }

    method SetupTest(names: seq<string>) returns (ok: bool)
      requires Valid() && pc.Idle?
      modifies Objects()
      ensures Valid() && pc == Idle(if ok then SetUp else Failed)
      ensures Made(Setup(names), ok, old(mine))
    {
      hide Valid;
      BeginCall(Setup(names));
      var end := WaitForState(Ready);
      if !end.Reached? {
        return false;
      }
      Yield();
      ExecuteCommand(Command.SetupTest);
      Yield();
      ok := ReloadConfig(names, 0);
    }

    method ExecuteTest(names: seq<string>, expectedEvents: int) returns (ok: bool)
      requires Valid() && pc.Idle?
      modifies Objects()
      ensures Valid() && pc.Idle?
      ensures ok ==> pc.last.Executed? && pc.last.test.expected == expectedEvents
      ensures !ok ==> pc.last == Failed
      ensures Made(Execute(names, expectedEvents), ok, old(mine))
    {
      hide Valid;
      BeginCall(Execute(names, expectedEvents));
      var end := WaitForState(ReadyForTest);
      if !end.Reached? {
        return false;
      }
      Yield();
      ExecuteCommand(Command.ExecuteTest);
      Yield();
      ok := ReloadConfig(names, expectedEvents);
    }

    /** Under any interference: the events that arrived since the reset of the client's own test. Without an error,
        and if no reset of SetupTest or Teardown fell between an append and its check: at least as many as the
        test expects, released by the test's own completion. */
    method GetResults() returns (results: seq<Event>, ok: bool)
      requires Valid() && pc.Idle? && (pc.last.Executed? || pc.last.Got?)
      modifies Objects()
      ensures Valid() && pc == Idle(Got(old(pc).last.test, ok, results))
      ensures OwnEvents(old(pc).last.test, results)
      ensures ok && QuietRun(states, acts) ==>
                |results| >= old(pc).last.test.expected && doneBy == old(pc).last.test.epoch
      ensures exists end: WaitEnd :: ok == end.Reached?
                && mine
                   == old(mine) + [Begin(Results), Act.CheckNoEvents, EndWait(end), Act.Fetch]
    {
      hide Valid;
      BeginCall(Results);
      Yield();
      CheckNoEvents();
      Yield();
      var end := WaitForState(ReadyForTest);
      // late arrivals
      Yield();
      ok := end.Reached?;
      results := Fetch();
    }

    method CheckNoEvents()
      requires Valid() && pc.Checking?
      modifies Objects()
      ensures Valid() && pc == AwaitingResults(old(pc).test)
      ensures mine == old(mine) + [Act.CheckNoEvents]
    {
      hide AnyInv, Run;
      AnyInvClientStep(Now(), Act.CheckNoEvents);
      CheckComplete();
      pc := AwaitingResults(pc.test);
      RecordClient(Act.CheckNoEvents);
    }

    method Fetch() returns (results: seq<Event>)
      requires Valid() && pc.Fetching?
      modifies Objects()
      ensures Valid() && pc == Idle(Got(old(pc).test, old(pc).ok, results))
      ensures OwnEvents(old(pc).test, results)
      ensures old(pc).ok && QuietRun(states, acts) ==>
                |results| >= old(pc).test.expected && doneBy == old(pc).test.epoch
      ensures mine == old(mine) + [Act.Fetch]
    {
      AnyInvClientStep(Now(), Act.Fetch);
      results := receivedEvents.Get();
      pc := Idle(Got(pc.test, pc.ok, results));
      RecordClient(Act.Fetch);
      if QuietRun(states, acts) {
        InvAlways(states, acts, |acts|);
      }
    }

    method Teardown() returns (ok: bool)
      requires Valid() && pc.Idle?
      modifies Objects()
      ensures Valid() && pc == Idle(if ok then TornDown else Failed)
      ensures Made(Tear, ok, old(mine))
    {
      hide Valid;
      BeginCall(Tear);
      var end := WaitForState(ReadyForTest);
      if !end.Reached? {
        return false;
      }
      Yield();
      ExecuteCommand(Command.Teardown);
      Yield();
      ok := ReloadConfig([], 0);
    }
  }
}
