/** All interleavings of the daemon's session calls with the housekeeping of its pool and with
    everything that happens inside the controllers (internal/daemon/session/controller.go,
    internal/daemon/pool/pool.go, internal/app/daemon/daemon.go).

    Create and DestroyByID hold the mutex of the session controller from their start to their end, except
    while they sleep on the condition variable. The pool has its own mutex, so one step is one critical
    section of the pool, one update under the session mutex, or one step of a controller (Protocol). */
module Daemon {
  import opened Options
  import opened Protocol
  import opened Pools
  import opened StateMachines

  datatype Session = Session(ctl: nat, pc: ClientPc)

  /** Who holds the session mutex, and how far it is. `resumed` marks a Create that was woken. */
  datatype Holder =
    | Free
    | AtGate(t: nat, resumed: bool)
    | Getting(t: nat, resumed: bool)
    | Holding(t: nat, resumed: bool, c: nat)
    | Inserted(sid: nat)
    | SettingUp(sid: nat)
    | Tearing(sid: nat)
    | Returning(sid: nat, clean: bool)
    | Returned(sid: nat)
    | Deleted

  datatype DaemonState = DaemonState(
    maxControllers: nat,
    pool: PoolValue<nat>,
    retired: set<nat>,        // controllers the pool has dropped
    made: nat,                // controllers made so far, numbered from 0
    ctl: map<nat, Shared>,
    sessions: map<nat, Session>,
    nextSid: nat,
    wg: int,
    finished: bool,
    closing: bool,            // the goroutine of WaitFinish waits for the wait group
    closed: bool,
    holder: Holder,
    blocked: set<nat>,        // Creates asleep on the condition variable, not notified
    notified: set<nat>,       // notified, but not yet back from Wait
    lost: nat,                // woken Creates that returned without a session
    factoryFailures: nat,     // Creates whose factory call failed
    panicked: bool
  )

  datatype DaemonAct =
    | Enter(t: nat) | Resume(t: nat) | Gate | CallGet(factoryOk: bool) | Insert | AddWg | SetupDone
    | BeginDestroy(sid: nat) | TeardownDone(removed: bool) | CallReturn | Delete(wake: Option<nat>) | DoneWg
    | Housekeep(factoryOk: bool)
    | Env(c: nat, act: Protocol.Act)
    | Client(sid: nat, act: Protocol.Act)
    | Finish | Broadcast | Close

  function Healthy(s: DaemonState): set<nat> {
    set c | c in s.ctl && s.ctl[c].state != Unknown
  }

  /** What the pool drops when it goes from `before` to `after`. */
  function Dropped(before: PoolValue<nat>, after: PoolValue<nat>): set<nat> {
    set c | c in Members(before) && c !in Members(after)
  }

  /** A sweep changed the pool: what it dropped is killed. A new controller may have been launched. */
  function WithPool(s: DaemonState, after: PoolValue<nat>, launched: bool): DaemonState {
    var swept := Dropped(s.pool, after);
    var killed := map c | c in s.ctl :: if c in swept then s.ctl[c].(ctxDone := true) else s.ctl[c];
    s.(pool := after,
       retired := s.retired + swept,
       ctl := if launched then killed[s.made := LAUNCHED] else killed,
       made := if launched then s.made + 1 else s.made)
  }

  function SessionPc(s: DaemonState, sid: nat): ClientPc
    requires sid in s.sessions
  {
    s.sessions[sid].pc
  }

  function ViewOf(s: DaemonState, sid: nat): Protocol.State
    requires sid in s.sessions && s.sessions[sid].ctl in s.ctl
  {
    Protocol.State(s.ctl[s.sessions[sid].ctl], s.sessions[sid].pc)
  }

  function WithView(s: DaemonState, sid: nat, next: Protocol.State): DaemonState
    requires sid in s.sessions
  {
    s.(ctl := s.ctl[s.sessions[sid].ctl := next.sh],
       sessions := s.sessions[sid := s.sessions[sid].(pc := next.pc)])
  }

  /** setupTest runs inside Create and teardown inside DestroyByID; the handler of ExecuteTest makes its
      calls, one at a time, while neither is running for the session. */
  predicate MayBegin(s: DaemonState, sid: nat, call: Call)
    requires sid in s.sessions
  {
    match call
    case Setup(_) => s.holder == SettingUp(sid) && SessionPc(s, sid) == Idle(Nothing)
    case Tear => false
    case _ => !Busy(s.holder, sid)
  }

  predicate Busy(h: Holder, sid: nat) {
    (h.Inserted? || h.SettingUp? || h.Tearing? || h.Returning? || h.Returned?) && h.sid == sid
  }

  predicate Enabled(s: DaemonState, a: DaemonAct) {
    !s.panicked &&
    match a
    case Enter(t) => s.holder.Free? && t !in s.blocked && t !in s.notified
    case Resume(t) => s.holder.Free? && t in s.notified
    case Gate => s.holder.AtGate?
    case CallGet(_) => s.holder.Getting?
    case Insert => s.holder.Holding?
    case AddWg => s.holder.Inserted?
    case SetupDone => s.holder.SettingUp? && s.holder.sid in s.sessions && SessionPc(s, s.holder.sid).Idle?
    case BeginDestroy(sid) => s.holder.Free? && sid in s.sessions && SessionPc(s, sid).Idle?
    case TeardownDone(_) => s.holder.Tearing? && s.holder.sid in s.sessions && SessionPc(s, s.holder.sid).Idle?
    case CallReturn => s.holder.Returning? && s.holder.sid in s.sessions
    case Delete(wake) => s.holder.Returned? && if wake.Some? then wake.value in s.blocked else s.blocked == {}
    case DoneWg => s.holder.Deleted?
    case Housekeep(_) => true
    case Env(c, act) => c in s.ctl && EnvEnabled(s.ctl[c], act)
    case Client(sid, act) =>
      && sid in s.sessions && s.sessions[sid].ctl in s.ctl
      && ClientEnabled(ViewOf(s, sid), act)
      && !act.Handover?
      && (act.Begin? ==> MayBegin(s, sid, act.call))
    case Finish => s.holder.Free?
    case Broadcast => s.finished
    case Close => s.closing && s.wg == 0
  }

  function Apply(s: DaemonState, a: DaemonAct): DaemonState
    requires Enabled(s, a)
  {
    match a
    case Enter(t) => s.(holder := AtGate(t, false))
    case Resume(t) =>
      var awake := s.(notified := s.notified - {t});
      if s.finished then awake.(lost := s.lost + 1) else awake.(holder := AtGate(t, true))
    case Gate =>
      if |s.sessions| > 1 then s.(blocked := s.blocked + {s.holder.t}, holder := Free)
      else s.(holder := Getting(s.holder.t, s.holder.resumed))
    case CallGet(factoryOk) => ApplyGet(s, factoryOk)
    case Insert =>
      s.(sessions := s.sessions[s.nextSid := Session(s.holder.c, Idle(Nothing))],
         nextSid := s.nextSid + 1,
         holder := Inserted(s.nextSid))
    case AddWg => s.(wg := s.wg + 1, holder := SettingUp(s.holder.sid))
    case SetupDone => s.(holder := Free)  // with or without an error: the session stays in the map
    case BeginDestroy(sid) =>
      s.(sessions := s.sessions[sid := s.sessions[sid].(pc := InWait(Tear))], holder := Tearing(sid))
    case TeardownDone(removed) =>
      s.(holder := Returning(s.holder.sid, removed && SessionPc(s, s.holder.sid) == Idle(TornDown)))
    case CallReturn => ApplyReturn(s)
    case Delete(wake) => ApplyDelete(s, if wake.Some? then {wake.value} else {})
    case DoneWg => s.(wg := s.wg - 1, holder := Free)
    case Housekeep(factoryOk) => ApplyHousekeep(s, factoryOk)
    case Env(c, act) => s.(ctl := s.ctl[c := EnvApply(s.ctl[c], act)])
    case Client(sid, act) =>
      WithView(s, sid, ClientApply(ViewOf(s, sid), act))
    case Finish => s.(finished := true)
    case Broadcast => s.(notified := s.notified + s.blocked, blocked := {}, closing := true)
    case Close => s.(closed := true)
  }

  /** Pool.Get inside Create; a Create that gets no controller returns its error. */
  function ApplyGet(s: DaemonState, factoryOk: bool): DaemonState
    requires s.holder.Getting?
  {
    var (after, r) := GetPool(s.pool, Healthy(s), s.maxControllers, if factoryOk then Some(s.made) else None);
    AfterGet(s, after, r)
  }

  function AfterGet(s: DaemonState, after: PoolValue<nat>, r: GetResult<nat>): DaemonState
    requires s.holder.Getting?
  {
    if r.Panicked? then s.(panicked := true) else
    var s' := WithPool(s, after, r == Handed(s.made));
    if r.Handed? then s'.(holder := Holding(s.holder.t, s.holder.resumed, r.c))
    else s'.(holder := Free,
             lost := s.lost + (if s.holder.resumed then 1 else 0),
             factoryFailures := s.factoryFailures + (if r.FactoryFailed? then 1 else 0))
  }

  function ApplyDelete(s: DaemonState, woken: set<nat>): DaemonState
    requires s.holder.Returned?
  {
    s.(sessions := s.sessions - {s.holder.sid},
       blocked := s.blocked - woken, notified := s.notified + woken,
       holder := Deleted)
  }

  function ApplyReturn(s: DaemonState): DaemonState
    requires s.holder.Returning? && s.holder.sid in s.sessions
  {
    var after := ReturnPool(s.pool, s.sessions[s.holder.sid].ctl, s.holder.clean);
    s.(pool := after, retired := s.retired + Dropped(s.pool, after), holder := Returned(s.holder.sid))
  }

  function ApplyHousekeep(s: DaemonState, factoryOk: bool): DaemonState {
    var after := HousekeepPool(s.pool, Healthy(s), if factoryOk then Some(s.made) else None);
    if after.None? then s.(panicked := true)
    else WithPool(s, after.value, Instance(s.made) in after.value.available)
  }

  /** After pool.New has made its first controller and the session controller is built. */
  function Initial(maxControllers: nat): DaemonState {
    DaemonState(maxControllers, PoolValue([Instance(0)], []), {}, 1, map[0 := LAUNCHED],
          map[], 0, 0, false, false, false, Free, {}, {}, 0, 0, false)
  }

  ghost predicate Run(states: seq<DaemonState>, acts: seq<DaemonAct>) {
    && |states| == |acts| + 1
    && states[0].maxControllers >= 1 && states[0] == Initial(states[0].maxControllers)
    && forall k :: 0 <= k < |acts| ==> Enabled(states[k], acts[k]) && states[k + 1] == Apply(states[k], acts[k])
  }

  /** The assumption on the stdout scanners, see Protocol.Quiet. */
  predicate Quiet(s: DaemonState, a: DaemonAct) {
    a.Client? && a.sid in s.sessions && s.sessions[a.sid].ctl in s.ctl ==> Protocol.Quiet(ViewOf(s, a.sid), a.act)
  }

  ghost predicate QuietRun(states: seq<DaemonState>, acts: seq<DaemonAct>) {
    Run(states, acts) && forall k :: 0 <= k < |acts| ==> Quiet(states[k], acts[k])
  }
}
