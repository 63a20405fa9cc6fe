/** All interleavings of the threads that share one Logstash controller
    (internal/daemon/controller/controller.go): its client, the stdout scanner, the log reader and
    the goroutines that announce a completed test. One step is one critical section.

    The state holds, besides the fields of the controller, the position of every thread and five
    history variables: `arrivals`, `epoch`, `resetAt`, `inTest` and `doneBy`. */
module Protocol {
  import opened EventLogs
  import opened StateMachines
  import ReadyMaps

  /** ReceiveEvent appends, then checks; in between the scanner remembers the epoch it appended in. */
  datatype StdoutPc = Scanning | Appended(epoch: nat)

  /** PipelinesReady marks names, tests the map, then perhaps issues pipeline-ready. */
  datatype ReaderPc = Tailing | Testing | Commanding

  /** A goroutine started by checkComplete in the given epoch. */
  datatype Completion = AwaitsRunning(epoch: nat) | Completes(epoch: nat)

  datatype Shared = Shared(
    state: StateName,
    ctxDone: bool,
    log: EventLog,
    ready: map<string, bool>,
    stdout: StdoutPc,
    reader: ReaderPc,
    pending: seq<Completion>,
    arrivals: nat,        // events received so far
    epoch: nat,           // resets of the event log so far
    resetAt: nat,         // `arrivals` at the last reset
    inTest: bool,         // the last reset was that of ExecuteTest
    doneBy: int           // epoch of the goroutine that last ended a running test, -1 at first
  )

  /** A call of the controller's client. */
  datatype Call =
    | Setup(names: seq<string>)
    | Execute(names: seq<string>, expected: int)
    | Tear
    | Results

  /** What the client knows about the test it started: its expectation and its own reset. */
  datatype Test = Test(expected: int, epoch: nat, start: nat)

  datatype Outcome =
    | Nothing | Failed | SetUp | TornDown
    | Executed(test: Test)
    | Got(test: Test, ok: bool, results: seq<Event>)

  datatype ClientPc =
    | Idle(last: Outcome)
    | InWait(call: Call)
    | Issuing(call: Call)
    | Writing(call: Call)
    | ResettingEvents(call: Call)
    | ResettingPipelines(call: Call, test: Test)
    | Reloading(call: Call, test: Test)
    | Checking(test: Test)
    | AwaitingResults(test: Test)
    | Fetching(test: Test, ok: bool)

  datatype State = State(sh: Shared, pc: ClientPc)

  datatype Act =
    // stdout scanner
    | Append(text: string) | CheckEvents
    // log reader
    | MarkReady(names: seq<string>) | TestReady | CommandReady
    // completion goroutines
    | EndCompletionWait(i: nat, gEnd: WaitEnd) | Complete(j: nat)
    // crash of the process, cancelled context
    | CrashSignal | Cancel
    // client
    | Begin(call: Call) | EndWait(end: WaitEnd) | Issue | Write(written: bool) | ResetEvents
    | ResetPipelines | Reload(signalled: bool) | CheckNoEvents | Fetch
    // the next session starts to use the controller
    | Handover

  function Target(c: Call): StateName {
    if c.Setup? then Ready else ReadyForTest
  }

  function CommandOf(c: Call): Command
    requires !c.Results?
  {
    match c
    case Setup(_) => SetupTest
    case Execute(_, _) => ExecuteTest
    case Tear => Teardown
  }

  function NamesOf(c: Call): seq<string>
    requires !c.Results?
  {
    if c.Tear? then [] else c.names
  }

  function ExpectedBy(c: Call): int {
    if c.Execute? then c.expected else 0
  }

  function Without<T>(s: seq<T>, i: nat): seq<T>
    requires i < |s|
  {
    s[..i] + s[i + 1..]
  }

  /** checkComplete: a successful check starts a goroutine. */
  function AfterCheck(sh: Shared): Shared {
    if Fires(sh.log)
    then sh.(log := Checked(sh.log), pending := sh.pending + [AwaitsRunning(sh.epoch)])
    else sh
  }

  predicate EnvEnabled(sh: Shared, a: Act) {
    match a
    case Append(_) => sh.stdout.Scanning?
    case CheckEvents => sh.stdout.Appended?
    case MarkReady(_) => sh.reader.Tailing?
    case TestReady => sh.reader.Testing?
    case CommandReady => sh.reader.Commanding?
    case EndCompletionWait(i, end) =>
      i < |sh.pending| && sh.pending[i].AwaitsRunning? && MayEnd(sh.state, RunningTest, sh.ctxDone, end)
    case Complete(j) => j < |sh.pending| && sh.pending[j].Completes?
    case CrashSignal => true
    case Cancel => true
    case _ => false
  }

  /** A step of any thread but the client. */
  function EnvApply(sh: Shared, a: Act): Shared
    requires EnvEnabled(sh, a)
  {
    match a
    case Append(text) =>
      sh.(log := sh.log.(events := sh.log.events + [Event(text, sh.arrivals)]),
          arrivals := sh.arrivals + 1,
          stdout := Appended(sh.epoch))
    case CheckEvents => AfterCheck(sh).(stdout := Scanning)
    case MarkReady(names) => sh.(ready := ReadyMaps.Marked(sh.ready, names), reader := Testing)
    case TestReady => sh.(reader := if ReadyMaps.AllReady(sh.ready) then Commanding else Tailing)
    case CommandReady => sh.(state := Next(sh.state, PipelineReady), reader := Tailing)
    case EndCompletionWait(i, end) =>
      // the error of the wait is ignored
      sh.(state := AfterWait(sh.state, end), pending := sh.pending[i := Completes(sh.pending[i].epoch)])
    case Complete(j) =>
      sh.(state := Next(sh.state, TestComplete),
          pending := Without(sh.pending, j),
          doneBy := if sh.state == RunningTest then sh.pending[j].epoch else sh.doneBy)
    case CrashSignal => sh.(state := Next(sh.state, Crash))
    case Cancel => sh.(ctxDone := true)
  }

  predicate ClientEnabled(s: State, a: Act) {
    match (a, s.pc)
    // GetResults only follows a successful ExecuteTest
    case (Begin(c), Idle(last)) => c.Results? ==> last.Executed? || last.Got?
    case (EndWait(end), InWait(c)) => MayEnd(s.sh.state, Target(c), s.sh.ctxDone, end)
    case (EndWait(end), AwaitingResults(_)) => MayEnd(s.sh.state, ReadyForTest, s.sh.ctxDone, end)
    case (Issue, Issuing(c)) => !c.Results?
    case (Write(_), Writing(c)) => !c.Results?
    case (ResetEvents, ResettingEvents(c)) => !c.Results?
    case (ResetPipelines, ResettingPipelines(c, _)) => !c.Results?
    case (Reload(_), Reloading(c, _)) => !c.Results?
    case (CheckNoEvents, Checking(_)) => true
    case (Fetch, Fetching(_, _)) => true
    case (Handover, Idle(_)) => true
    case _ => false
  }

  function ClientApply(s: State, a: Act): State
    requires ClientEnabled(s, a)
  {
    var sh := s.sh;
    match (a, s.pc)
    case (Begin(c), Idle(last)) => State(sh, if c.Results? then Checking(last.test) else InWait(c))
    case (EndWait(end), InWait(c)) =>
      State(sh.(state := AfterWait(sh.state, end)), if end.Reached? then Issuing(c) else Idle(Failed))
    case (EndWait(end), AwaitingResults(t)) =>
      State(sh.(state := AfterWait(sh.state, end)), Fetching(t, end.Reached?))
    case (Issue, Issuing(c)) => State(sh.(state := Next(sh.state, CommandOf(c))), Writing(c))
    case (Write(written), Writing(c)) => State(sh, if written then ResettingEvents(c) else Idle(Failed))
    case (ResetEvents, ResettingEvents(c)) =>
      State(sh.(log := EventLog([], ExpectedBy(c), false),
                epoch := sh.epoch + 1, resetAt := sh.arrivals, inTest := c.Execute?),
            ResettingPipelines(c, Test(ExpectedBy(c), sh.epoch + 1, sh.arrivals)))
    case (ResetPipelines, ResettingPipelines(c, t)) =>
      State(sh.(ready := ReadyMaps.Unmarked(NamesOf(c))), Reloading(c, t))
    case (Reload(signalled), Reloading(c, t)) =>
      State(sh, Idle(if !signalled then Failed
                     else match c case Setup(_) => SetUp case Execute(_, _) => Executed(t) case Tear => TornDown))
    case (CheckNoEvents, Checking(t)) => State(AfterCheck(sh), AwaitingResults(t))
    case (Fetch, Fetching(t, ok)) => State(sh, Idle(Got(t, ok, sh.log.events)))
    case (Handover, Idle(_)) => State(sh, Idle(Nothing))
  }

  predicate Enabled(s: State, a: Act) {
    EnvEnabled(s.sh, a) || ClientEnabled(s, a)
  }

  function Apply(s: State, a: Act): State
    requires Enabled(s, a)
  {
    if EnvEnabled(s.sh, a) then s.(sh := EnvApply(s.sh, a)) else ClientApply(s, a)
  }

  /** After NewController and Launch. */
  const LAUNCHED := Shared(Started, false, EMPTY_LOG, ReadyMaps.Unmarked(["stdin", "output"]),
                           Scanning, Tailing, [], 0, 0, 0, false, -1)

  const INITIAL := State(LAUNCHED, Idle(Nothing))

  /** SetupTest and Teardown reset the event log (to "none expected") only while the stdout scanner
      is not between its append and its check. */
  predicate Quiet(s: State, a: Act) {
    a.ResetEvents? && s.pc.ResettingEvents? && !s.pc.call.Execute? ==> s.sh.stdout.Scanning?
  }

  /** A run: states[k + 1] results from states[k] by acts[k]. */
  ghost predicate Run(states: seq<State>, acts: seq<Act>) {
    && |states| == |acts| + 1
    && states[0] == INITIAL
    && forall k :: 0 <= k < |acts| ==> Enabled(states[k], acts[k]) && states[k + 1] == Apply(states[k], acts[k])
  }

  ghost predicate QuietRun(states: seq<State>, acts: seq<Act>) {
    && Run(states, acts)
    && forall k :: 0 <= k < |acts| ==> Quiet(states[k], acts[k])
  }
}
