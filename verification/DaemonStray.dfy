/** The race of ReceiveEvent with a reset, in the whole daemon: when exactly it makes the results of some session
    incomplete (internal/daemon/session/controller.go, internal/daemon/controller/controller.go). */
module DaemonStrays {
  import opened Options
  import opened Daemon
  import opened Pools
  import opened StateMachines
  import opened DaemonProofs
  import opened DaemonSessions
  import opened DaemonTheorems
  import opened DaemonAssigned
  import opened DaemonWitnesses
  import Protocol
  import P = ProtocolProofs
  import S = StrayCompletions

  // ---------------------------------------------------------------- a session is a client of the protocol

  predicate ScopeFits(h: Holder, sid: nat, scope: S.Scope) {
    match scope
    case AnyCall => false
    case NoCall => true
    case SetupCall => h == SettingUp(sid)
    case TestCalls => !Busy(h, sid)
  }

  lemma StepOfView(from: DaemonState, s: DaemonState, sid: nat, scope: S.Scope, a: Protocol.Act)
    returns (s': DaemonState)
    requires Leads(from, s) && !s.panicked && sid in s.sessions && s.sessions[sid].ctl in s.ctl
    requires ScopeFits(s.holder, sid, scope) && S.InScope(scope, ViewOf(s, sid), a)
    requires Protocol.Enabled(ViewOf(s, sid), a) && Protocol.Quiet(ViewOf(s, sid), a)
    ensures Leads(from, s') && s' == WithView(s, sid, Protocol.Apply(ViewOf(s, sid), a))
  {
    hide Leads;
    var c := s.sessions[sid].ctl;
    if Protocol.EnvEnabled(s.ctl[c], a) {
      s' := Step(from, s, Env(c, a));
      assert s.sessions[sid := s.sessions[sid]] == s.sessions;
    } else {
      s' := Step(from, s, Client(sid, a));
    }
  }

  lemma {:induction false} PathOfView(from: DaemonState, s: DaemonState, sid: nat, scope: S.Scope,
                                      states: seq<Protocol.State>, acts: seq<Protocol.Act>, n: nat)
    returns (s': DaemonState)
    requires Leads(from, s) && !s.panicked && sid in s.sessions && s.sessions[sid].ctl in s.ctl
    requires ScopeFits(s.holder, sid, scope) && S.QuietPath(scope, states, acts) && n <= |acts|
    requires states[0] == ViewOf(s, sid)
    ensures Leads(from, s') && s' == WithView(s, sid, states[n])
  {
    hide Leads, Protocol.Enabled, Protocol.Apply, Protocol.Quiet, S.InScope;
    if n == 0 {
      s' := s;
      assert s.ctl[s.sessions[sid].ctl := s.ctl[s.sessions[sid].ctl]] == s.ctl;
      assert s.sessions[sid := s.sessions[sid]] == s.sessions;
    } else {
      s' := PathOfView(from, s, sid, scope, states, acts, n - 1);
      s' := StepOfView(from, s', sid, scope, acts[n - 1]);
    }
  }

  /** What the protocol allows a client with the calls in scope, a session can do. */
  lemma Follow(from: DaemonState, s: DaemonState, sid: nat, scope: S.Scope, next: Protocol.State)
    returns (s': DaemonState)
    requires Leads(from, s) && !s.panicked && sid in s.sessions && s.sessions[sid].ctl in s.ctl
    requires ScopeFits(s.holder, sid, scope) && S.Leads(scope, ViewOf(s, sid), next)
    ensures Leads(from, s') && s' == WithView(s, sid, next)
  {
    hide Leads, Protocol.Enabled, Protocol.Apply, Protocol.Quiet, S.InScope;
    var states, acts :| S.QuietPath(scope, states, acts) && states[0] == ViewOf(s, sid) && states[|acts|] == next;
    s' := PathOfView(from, s, sid, scope, states, acts, |acts|);
  }

  // ---------------------------------------------------------------- the invariants

  predicate Fits(h: Holder, sid: nat, call: Protocol.Call) {
    match call
    case Setup(_) => h == SettingUp(sid)
    case Tear => h == Tearing(sid)
    case _ => true
  }

  predicate During(h: Holder, sid: nat, pc: Protocol.ClientPc) {
    match pc
    case InWait(call) => Fits(h, sid, call)
    case Issuing(call) => Fits(h, sid, call)
    case Writing(call) => Fits(h, sid, call)
    case ResettingEvents(call) => Fits(h, sid, call)
    case ResettingPipelines(call, _) => Fits(h, sid, call)
    case Reloading(call, _) => Fits(h, sid, call)
    case _ => true
  }

  /** SetupTest runs inside Create only, and Teardown inside DestroyByID. */
  ghost predicate CallInv(s: DaemonState) {
    forall i | i in s.sessions :: During(s.holder, i, s.sessions[i].pc)
  }

  lemma CallInvStep(s: DaemonState, a: DaemonAct)
    requires GateInv(s) && CallInv(s) && Enabled(s, a)
    ensures CallInv(Apply(s, a))
  {
    if a.Client? || a.BeginDestroy? || a.Insert? {
      CallInvSession(s, a);
    } else if ChangesMaps(a) {
      CallInvPool(s, a);
    } else {
      CallInvOther(s, a);
    }
  }

  lemma CallInvSession(s: DaemonState, a: DaemonAct)
    requires GateInv(s) && CallInv(s) && Enabled(s, a) && (a.Client? || a.BeginDestroy? || a.Insert?)
    ensures CallInv(Apply(s, a))
  {
    var s' := Apply(s, a);
    forall i | i in s'.sessions
      ensures During(s'.holder, i, s'.sessions[i].pc)
    {
      assert i in s.sessions ==> During(s.holder, i, s.sessions[i].pc);
    }
  }

  lemma CallInvPool(s: DaemonState, a: DaemonAct)
    requires CallInv(s) && Enabled(s, a) && (a.CallGet? || a.Housekeep? || a.CallReturn? || a.Delete?)
    ensures CallInv(Apply(s, a))
  {
    hide Enabled, Apply;
    PoolStepsKeepSessions(s, a);
    var s' := Apply(s, a);
    assert forall i | i in s'.sessions :: s'.sessions[i] == s.sessions[i] && During(s.holder, i, s.sessions[i].pc);
  }

  lemma PoolStepsKeepSessions(s: DaemonState, a: DaemonAct)
    requires Enabled(s, a) && (a.CallGet? || a.Housekeep? || a.CallReturn? || a.Delete?)
    ensures var s' := Apply(s, a);
            && s'.sessions == s.sessions - (if a.Delete? then {s.holder.sid} else {})
            && (s'.holder == s.holder || !(s.holder.SettingUp? || s.holder.Tearing?))
  {
    assert s.sessions - {} == s.sessions;
  }

  /** The mutex passes on only when the client of its session is idle. */
  lemma CallInvOther(s: DaemonState, a: DaemonAct)
    requires CallInv(s) && Enabled(s, a) && !ChangesMaps(a)
    ensures CallInv(Apply(s, a))
  {
    var s' := Apply(s, a);
    assert s'.sessions == s.sessions;
    forall i | i in s'.sessions
      ensures During(s'.holder, i, s'.sessions[i].pc)
    {
      assert During(s.holder, i, s.sessions[i].pc);
    }
  }

  ghost predicate Sound(s: DaemonState) {
    DaemonInv(s) && ViewInv(true, s) && AssignedInv(s) && CallInv(s)
  }

  lemma SoundStep(s: DaemonState, a: DaemonAct)
    requires Sound(s) && Enabled(s, a) && Quiet(s, a)
    ensures Sound(Apply(s, a))
  {
    hide Enabled, Apply, Quiet;
    DaemonInvStep(s, a);
    ViewInvStep(true, s, a);
    AssignedStep(s, a);
    CallInvStep(s, a);
  }

  lemma {:induction false} SoundOnPath(states: seq<DaemonState>, acts: seq<DaemonAct>, k: nat)
    requires QuietPath(states, acts) && k <= |acts| && Sound(states[0])
    ensures Sound(states[k])
  {
    hide Enabled, Apply, Quiet, Sound;
    if k > 0 {
      SoundOnPath(states, acts, k - 1);
      SoundStep(states[k - 1], acts[k - 1]);
    }
  }

  lemma SoundLeads(s: DaemonState, s': DaemonState)
    requires Sound(s) && Leads(s, s')
    ensures Sound(s')
  {
    hide Enabled, Apply, Quiet, Sound;
    var states, acts :| QuietPath(states, acts) && states[0] == s && states[|acts|] == s';
    SoundOnPath(states, acts, |acts|);
  }

  lemma SoundInitially(maxControllers: nat)
    requires maxControllers >= 1
    ensures Sound(Initial(maxControllers))
  {
    hide DaemonInv, ViewInv, AssignedInv;
    DaemonInvInitially(maxControllers);
    NothingAssigned(maxControllers);
  }

  // ---------------------------------------------------------------- the theorem

  /** The call that sets a session up, or tears it down, is about to reset the event log of its healthy controller;
      the run was quiet so far. */
  ghost predicate AtReset(s: DaemonState, sid: nat) {
    && s.maxControllers >= 1 && Leads(Initial(s.maxControllers), s)
    && !s.panicked && sid in s.sessions && s.sessions[sid].ctl in s.ctl
    && S.IsReset(ViewOf(s, sid))
  }

  function AfterResetOf(s: DaemonState, sid: nat): DaemonState
    requires AtReset(s, sid)
  {
    Apply(s, Client(sid, Protocol.ResetEvents))
  }

  predicate AllComplete(s: DaemonState) {
    forall i | i in s.sessions :: S.Complete(s.sessions[i].pc)
  }

  ghost predicate SomeGotNothing(s: DaemonState, expected: int) {
    exists i :: i in s.sessions && S.GotNothing(s.sessions[i].pc, expected)
  }

  /** Such a reset is safe for all sessions, whatever follows, if and only if the scanner of the controller is not
      between its append and its check. Otherwise some session gets no event and no error, for any number of expected
      events: the same session, or after a teardown one that is given the same controller. */
  lemma ResetIsSafeIffQuiet(s: DaemonState, sid: nat, expected: int)
    requires AtReset(s, sid) && expected >= 1
    ensures ViewOf(s, sid).sh.stdout.Scanning? <==>
            forall s' | Leads(AfterResetOf(s, sid), s') :: AllComplete(s')
    ensures ViewOf(s, sid).sh.stdout.Appended? ==>
              exists s' :: Leads(AfterResetOf(s, sid), s') && SomeGotNothing(s', expected)
  {
    hide Leads, Sound, AllComplete;
    SoundAtReset(s, sid);
    if ViewOf(s, sid).sh.stdout.Scanning? {
      QuietResetIsSafe(s, sid);
    } else {
      var s' := GoesWrong(s, sid, expected);
      NotAllComplete(s', expected);
    }
  }

  lemma SoundAtReset(s: DaemonState, sid: nat)
    requires AtReset(s, sid)
    ensures Sound(s)
  {
    hide Leads, Sound;
    SoundInitially(s.maxControllers);
    SoundLeads(Initial(s.maxControllers), s);
  }

  lemma QuietResetIsSafe(s: DaemonState, sid: nat)
    requires Sound(s) && AtReset(s, sid) && ViewOf(s, sid).sh.stdout.Scanning?
    ensures forall s' | Leads(AfterResetOf(s, sid), s') :: AllComplete(s')
  {
    hide Leads, Sound, AllComplete;
    SoundStep(s, Client(sid, Protocol.ResetEvents));
    forall s' | Leads(AfterResetOf(s, sid), s')
      ensures AllComplete(s')
    {
      SoundLeads(AfterResetOf(s, sid), s');
      SoundIsComplete(s');
    }
  }

  lemma NotAllComplete(s: DaemonState, expected: int)
    requires SomeGotNothing(s, expected) && expected >= 1
    ensures !AllComplete(s)
  {
    var i :| i in s.sessions && S.GotNothing(s.sessions[i].pc, expected);
    assert !S.Complete(s.sessions[i].pc);
  }

  lemma SoundIsComplete(s: DaemonState)
    requires Sound(s)
    ensures AllComplete(s)
  {
    forall i | i in s.sessions
      ensures S.Complete(s.sessions[i].pc)
    {
      assert Keeps(true, s.ctl[s.sessions[i].ctl], s.sessions[i].pc);
    }
  }

  // ---------------------------------------------------------------- the run that goes wrong

  lemma GoesWrong(s: DaemonState, sid: nat, expected: int) returns (s': DaemonState)
    requires Sound(s) && AtReset(s, sid) && ViewOf(s, sid).sh.stdout.Appended? && expected >= 1
    ensures Leads(AfterResetOf(s, sid), s') && SomeGotNothing(s', expected)
  {
    hide Leads, Sound, P.Inv;
    ResetOfView(s, sid);
    var from := AfterResetOf(s, sid);
    s' := StrayIsPending(s, sid);
    if s.sessions[sid].pc.call.Setup? {
      s' := Step(from, s', SetupDone);
      s' := TestGetsNothing(from, s', sid, expected);
    } else {
      var id;
      s', id := GivenToAnother(s, s', sid);
      s' := TestGetsNothing(from, s', id, expected);
    }
  }

  /** The completion is pending that the check after the reset has started. */
  lemma StrayIsPending(s: DaemonState, sid: nat) returns (s': DaemonState)
    requires Sound(s) && AtReset(s, sid) && ViewOf(s, sid).sh.stdout.Appended?
    ensures Leads(AfterResetOf(s, sid), s') && sid in s'.sessions
    ensures s'.sessions[sid].ctl in s'.ctl && s' == WithView(s, sid, ViewOf(s', sid))
    ensures var v := ViewOf(s', sid);
            && S.IsStray(v) && v.sh.state == ViewOf(s, sid).sh.state
            && v.pc == Protocol.Idle(if s.sessions[sid].pc.call.Setup? then Protocol.SetUp else Protocol.TornDown)
  {
    hide Leads, Sound, S.Leads, AtReset;
    ResetOfView(s, sid);
    var from := AfterResetOf(s, sid);
    var next := S.AfterStrayReset(S.NoCall, ViewOf(s, sid));
    Stay(from);
    s' := Follow(from, from, sid, S.NoCall, next);
    assert s'.sessions == s.sessions[sid := s.sessions[sid].(pc := next.pc)];
  }

  lemma ResetOfView(s: DaemonState, sid: nat)
    requires Sound(s) && AtReset(s, sid)
    ensures !s.panicked && sid in s.sessions && s.sessions[sid].ctl in s.ctl
    ensures S.IsReset(ViewOf(s, sid)) && P.Inv(ViewOf(s, sid))
    ensures s.holder == if s.sessions[sid].pc.call.Setup? then SettingUp(sid) else Tearing(sid)
    ensures AfterResetOf(s, sid) == WithView(s, sid, Protocol.Apply(ViewOf(s, sid), Protocol.ResetEvents))
  {
    hide Leads, P.Inv, P.AnyInv, DaemonInv, AssignedInv;
    assert Keeps(true, s.ctl[s.sessions[sid].ctl], s.sessions[sid].pc);
  }

  /** With a stray completion, and set up, the session's test gets nothing. */
  lemma TestGetsNothing(from: DaemonState, s: DaemonState, sid: nat, expected: int) returns (s': DaemonState)
    requires Leads(from, s) && !s.panicked && sid in s.sessions && s.sessions[sid].ctl in s.ctl
    requires !Busy(s.holder, sid) && expected >= 1
    requires S.IsStray(ViewOf(s, sid)) && ViewOf(s, sid).sh.state in {SettingUpTest, ReadyForTest}
    ensures Leads(from, s') && SomeGotNothing(s', expected)
  {
    hide Leads;
    var v := ViewOf(s, sid);
    S.Stay(S.TestCalls, v);
    var w := v;
    if v.sh.state == SettingUpTest {
      w := S.BecomeReady(S.TestCalls, v, v);
    }
    w := S.TestEndsEarly(S.TestCalls, v, w, expected);
    s' := Follow(from, s, sid, S.TestCalls, w);
    assert sid in s'.sessions && s'.sessions[sid].pc == w.pc;
  }

  // ---------------------------------------------------------------- the controller of a torn-down session

  /** The session is torn down, every other controller crashes, and the next session gets this one. */
  lemma GivenToAnother(s: DaemonState, s1: DaemonState, sid: nat) returns (s': DaemonState, id: nat)
    requires Sound(s) && AtReset(s, sid) && s.sessions[sid].pc.call.Tear?
    requires Leads(AfterResetOf(s, sid), s1) && sid in s1.sessions
    requires s1.sessions[sid].ctl in s1.ctl && s1 == WithView(s, sid, ViewOf(s1, sid))
    requires S.IsStray(ViewOf(s1, sid)) && ViewOf(s1, sid).pc == Protocol.Idle(Protocol.TornDown)
    requires ViewOf(s1, sid).sh.state in {Started, Ready}
    ensures Leads(AfterResetOf(s, sid), s') && !s'.panicked && id in s'.sessions && s'.sessions[id].ctl in s'.ctl
    ensures !Busy(s'.holder, id)
    ensures S.IsStray(ViewOf(s', id)) && ViewOf(s', id).sh.state == SettingUpTest
  {
    hide Leads, Sound, AtReset, S.IsReset, P.Inv;
    ResetOfView(s, sid);
    var from, c := AfterResetOf(s, sid), s.sessions[sid].ctl;
    ListedOnce(s, sid);
    s' := ReturnsClean(from, s1, sid);
    s' := CrashAll(from, s', s'.ctl.Keys - {c});
    s', id := CreateTakesOnlyHealthy(from, s', c);
    s' := SetsUpStray(from, s', id);
  }

  /** The healthy controller of the session is listed once, as assigned. */
  lemma ListedOnce(s: DaemonState, sid: nat)
    requires Sound(s) && sid in s.sessions && s.sessions[sid].ctl in s.ctl && s.holder == Tearing(sid)
    requires S.IsReset(ViewOf(s, sid))
    ensures var c := s.sessions[sid].ctl;
            && c in s.pool.handedOut && Instance(c) !in s.pool.available && Nil !in s.pool.available
            && c < s.made && |s.sessions| <= 2
  {
    var c := s.sessions[sid].ctl;
    assert Holds(s, sid, c);
    assert InHand(s, c);
    assert c in Healthy(s);
  }

  lemma ReturnsClean(from: DaemonState, s: DaemonState, sid: nat) returns (s': DaemonState)
    requires Leads(from, s) && !s.panicked && s.holder == Tearing(sid) && sid in s.sessions
    requires s.sessions[sid].pc == Protocol.Idle(Protocol.TornDown) && s.sessions[sid].ctl in s.pool.handedOut
    ensures Leads(from, s') && !s'.panicked && s'.holder.Free? && s'.sessions == s.sessions - {sid}
    ensures s'.ctl == s.ctl && s'.made == s.made && s'.maxControllers == s.maxControllers
    ensures s'.pool.available == s.pool.available + [Instance(s.sessions[sid].ctl)]
  {
    hide Leads;
    s' := BackInPool(from, s, sid);
    s' := Leaves(from, s', sid);
  }

  lemma BackInPool(from: DaemonState, s: DaemonState, sid: nat) returns (s': DaemonState)
    requires Leads(from, s) && !s.panicked && s.holder == Tearing(sid) && sid in s.sessions
    requires s.sessions[sid].pc == Protocol.Idle(Protocol.TornDown) && s.sessions[sid].ctl in s.pool.handedOut
    ensures Leads(from, s') && s' == s.(pool := s'.pool, retired := s'.retired, holder := Returned(sid))
    ensures s'.pool.available == s.pool.available + [Instance(s.sessions[sid].ctl)]
  {
    hide Leads;
    s' := Step(from, s, TeardownDone(true));
    s' := Step(from, s', CallReturn);
  }

  /** The session leaves the map; a sleeping Create is woken, if there is one. */
  lemma Leaves(from: DaemonState, s: DaemonState, sid: nat) returns (s': DaemonState)
    requires Leads(from, s) && !s.panicked && s.holder == Returned(sid)
    ensures Leads(from, s') && s'.holder.Free? && s'.sessions == s.sessions - {sid}
    ensures s' == s.(sessions := s'.sessions, wg := s'.wg, blocked := s'.blocked, notified := s'.notified,
                     holder := Free)
  {
    hide Leads;
    if s.blocked == {} {
      s' := Step(from, s, Delete(None));
    } else {
      var t :| t in s.blocked;
      s' := Step(from, s, Delete(Some(t)));
    }
    s' := Step(from, s', DoneWg);
  }

  lemma {:induction false} CrashAll(from: DaemonState, s: DaemonState, cs: set<nat>) returns (s': DaemonState)
    requires Leads(from, s) && !s.panicked && cs <= s.ctl.Keys
    ensures Leads(from, s') && s' == s.(ctl := s'.ctl) && s'.ctl.Keys == s.ctl.Keys
    ensures forall c | c in s.ctl :: if c in cs then s'.ctl[c].state == Unknown else s'.ctl[c] == s.ctl[c]
    decreases cs
  {
    hide Leads;
    s' := s;
    if cs != {} {
      var c :| c in cs;
      s' := CrashAll(from, s, cs - {c});
      s' := CrashOne(from, s', c);
    }
  }

  lemma CrashOne(from: DaemonState, s: DaemonState, c: nat) returns (s': DaemonState)
    requires Leads(from, s) && !s.panicked && c in s.ctl
    ensures Leads(from, s') && s' == s.(ctl := s.ctl[c := s.ctl[c].(state := Unknown)])
  {
    hide Leads;
    s' := Step(from, s, Env(c, Protocol.CrashSignal));
  }

  /** If only one controller is healthy and it is available, Create takes it. */
  lemma CreateTakesOnlyHealthy(from: DaemonState, s: DaemonState, c: nat) returns (s': DaemonState, id: nat)
    requires Leads(from, s) && s.holder.Free? && !s.panicked && |s.sessions| <= 1
    requires c in s.ctl && c < s.made && Healthy(s) == {c}
    requires Nil !in s.pool.available && multiset(s.pool.available)[Instance(c)] == 1
    ensures Leads(from, s') && !s'.panicked && s'.holder == SettingUp(id)
    ensures id in s'.sessions && s'.sessions[id] == Session(c, NOBODY) && c in s'.ctl && s'.ctl[c] == s.ctl[c]
  {
    hide Leads, WithPool;
    var t := Fresh(s.blocked + s.notified);
    var after := PoolValue([], s.pool.handedOut + [c]);
    GetOfOnlyHealthy(s.pool, c, s.maxControllers, Some(s.made));
    id := s.nextSid;
    s' := CreateInserts(from, s, t, true, after, c);
    WithPoolKeeps(s, after, c);
    s' := Step(from, s', AddWg);
  }

  lemma WithPoolKeeps(s: DaemonState, after: PoolValue<nat>, c: nat)
    requires c in s.ctl && c in Members(after)
    ensures var s' := WithPool(s, after, false);
            && c in s'.ctl && s'.ctl[c] == s.ctl[c] && s'.panicked == s.panicked
  {
  }

  lemma {:induction false} Fresh(used: set<nat>) returns (t: nat)
    ensures forall x | x in used :: x < t
    decreases used
  {
    t := 0;
    if used != {} {
      var x :| x in used;
      var rest := Fresh(used - {x});
      t := if x < rest then rest else x + 1;
      forall y | y in used
        ensures y < t
      {
        assert y == x || y in used - {x};
      }
    }
  }

  lemma GetOfOnlyHealthy(p: PoolValue<nat>, c: nat, max: nat, made: Option<nat>)
    requires Nil !in p.available && multiset(p.available)[Instance(c)] == 1
    ensures GetPool(p, {c}, max, made) == (PoolValue([], p.handedOut + [c]), Handed(c))
  {
    var swept := SweptAvailable(p, {c});
    SweptAvailableCounts(p, {c});
    CopiesOfOne(swept, Instance(c));
    assert multiset(swept)[Instance(c)] == 1;
    assert swept == [Instance(c)] && swept[1..] == [];
  }

  lemma {:induction false} CopiesOfOne<T>(s: seq<T>, x: T)
    requires forall y | y in s :: y == x
    ensures multiset(s)[x] == |s|
  {
    if s != [] {
      assert s == [s[0]] + s[1..] && s[0] in s;
      assert forall y | y in s[1..] :: y in s;
      CopiesOfOne(s[1..], x);
    }
  }

  /** Setting up the next session leaves the stray completion alone. */
  lemma SetsUpStray(from: DaemonState, s: DaemonState, id: nat) returns (s': DaemonState)
    requires Leads(from, s) && !s.panicked && s.holder == SettingUp(id) && id in s.sessions
    requires s.sessions[id].ctl in s.ctl && s.sessions[id].pc == NOBODY
    requires S.IsStray(ViewOf(s, id)) && ViewOf(s, id).sh.state in {Started, Ready}
    ensures Leads(from, s') && !s'.panicked && id in s'.sessions && s'.sessions[id].ctl in s'.ctl
    ensures !Busy(s'.holder, id)
    ensures S.IsStray(ViewOf(s', id)) && ViewOf(s', id).sh.state == SettingUpTest
  {
    hide Leads, S.Leads;
    var v := ViewOf(s, id);
    S.Stay(S.SetupCall, v);
    var w := v;
    if v.sh.state == Started {
      w := S.BecomeReady(S.SetupCall, v, v);
    }
    w := S.UpToReset(S.SetupCall, v, w, Protocol.Setup([]));
    w := S.AfterReset(S.SetupCall, v, w);
    s' := Follow(from, s, id, S.SetupCall, w);
    s' := Step(from, s', SetupDone);
  }

  // ---------------------------------------------------------------- it can happen

  /** An event arrives while the first session is set up. */
  lemma UnsafeResetIsReachable() returns (s: DaemonState)
    ensures AtReset(s, 0) && s.sessions[0].pc.call.Setup? && ViewOf(s, 0).sh.stdout.Appended?
  {
    hide Leads, S.Leads;
    s := FirstSetup(2);
    assert ViewOf(s, 0) == Protocol.INITIAL;
    var v := S.EventDuringSetup(S.SetupCall);
    s := Follow(Initial(2), s, 0, S.SetupCall, v);
  }
}
