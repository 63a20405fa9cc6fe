/** The state machine of one Logstash controller (internal/daemon/controller/statemachine.go). */
module StateMachines {
  import opened Options

  datatype StateName =
    | Unknown | Created | Started | Ready | SettingUpTest | ReadyForTest | ExecutingTest | RunningTest

  datatype Command =
    | Start | PipelineReady | SetupTest | ExecuteTest | TestComplete | Teardown | Crash

  /** The transition table; most pairs have no entry. */
  function Transition(state: StateName, cmd: Command): Option<StateName> {
    match (state, cmd)
    case (Created, Start) => Some(Started)
    case (Started, PipelineReady) => Some(Ready)
    case (Ready, PipelineReady) => Some(Ready)
    case (Ready, SetupTest) => Some(SettingUpTest)
    case (SettingUpTest, PipelineReady) => Some(ReadyForTest)
    case (ReadyForTest, ExecuteTest) => Some(ExecutingTest)
    case (ReadyForTest, Teardown) => Some(Started)
    case (ExecutingTest, PipelineReady) => Some(RunningTest)
    case (RunningTest, PipelineReady) => Some(RunningTest)
    case (RunningTest, TestComplete) => Some(ReadyForTest)
    case _ => None
  }

  /** What a command does in each state; a pair without an entry leads to Unknown. */
  function Next(state: StateName, cmd: Command): StateName {
    var entry := Transition(state, cmd);
    if entry.Some? then entry.value else Unknown
  }

  /** How a call of waitForState returns: without error, or with one of its three errors. */
  datatype WaitEnd = Reached | ShutDown | TimedOut | Hopeless

  /** The head of the wait loop may end the wait this way. When the context is done and the timer
      has fired, either of the two errors may be returned. */
  predicate MayEnd(state: StateName, target: StateName, ctxDone: bool, end: WaitEnd) {
    match end
    case Reached => state == target
    case ShutDown => state != target && ctxDone
    case TimedOut => state != target
    case Hopeless => state != target && state == Unknown && !ctxDone
  }

  function AfterWait(state: StateName, end: WaitEnd): StateName {
    if end.TimedOut? then Unknown else state
  }

  class StateMachine {
    var currentState: StateName
    var ctxDone: bool

    constructor ()
      ensures currentState == Created && !ctxDone
    {
      currentState, ctxDone := Created, false;
    }

    method ExecuteCommand(cmd: Command)
      modifies this`currentState
      ensures currentState == Next(old(currentState), cmd)
    {
      var newState := Unknown;
      var entry := Transition(currentState, cmd);
      if entry.Some? {
        newState := entry.value;
      }
      currentState := newState;
    }

    /** One pass through the loop head of waitForState, under the mutex: the wait ends, or the
        caller goes to sleep on the condition variable (`ended` is false). */
    method CheckWait(target: StateName, timerFired: bool) returns (ended: bool, end: WaitEnd)
      modifies this`currentState
      ensures ended ==> MayEnd(old(currentState), target, ctxDone, end)
                        && currentState == AfterWait(old(currentState), end)
      ensures ended ==> match end
                        case Reached => old(currentState) == target
                        case ShutDown => ctxDone && old(currentState) != target
                        case TimedOut => timerFired && currentState == Unknown && old(currentState) != target
                        case Hopeless => old(currentState) == Unknown != target && !ctxDone && !timerFired
      ensures !(ended && end.TimedOut?) ==> currentState == old(currentState)
      ensures ended <==> old(currentState) == target || ctxDone || timerFired || old(currentState) == Unknown
    {
      if currentState == target {
        return true, Reached;
      }
      var pickTimer: bool := *;
      if ctxDone && !(timerFired && pickTimer) {
        return true, ShutDown;
      }
      if timerFired {
        currentState := Unknown;
        return true, TimedOut;
      }
      if currentState == Unknown {
        return true, Hopeless;
      }
      return false, Reached;
    }

    method GetState() returns (state: StateName)
      ensures state == currentState
    {
      state := currentState;
    }
  }
}
