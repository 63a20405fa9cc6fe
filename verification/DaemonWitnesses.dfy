/** Runs of the daemon in which a side condition of a main result fails: the condition is needed. */
module DaemonWitnesses {
  import opened Options
  import opened Daemon
  import opened Pools
  import opened StateMachines
  import opened DaemonProofs
  import opened DaemonSessions
  import opened DaemonTheorems
  import Protocol

  ghost predicate QuietPath(states: seq<DaemonState>, acts: seq<DaemonAct>) {
    && |states| == |acts| + 1
    && forall k :: 0 <= k < |acts| ==>
         Enabled(states[k], acts[k]) && Quiet(states[k], acts[k]) && states[k + 1] == Apply(states[k], acts[k])
  }

  /** Quiet steps lead from one state to another. */
  ghost predicate Leads(s: DaemonState, s': DaemonState) {
    exists states, acts :: QuietPath(states, acts) && states[0] == s && states[|acts|] == s'
  }

  lemma Stay(s: DaemonState)
    ensures Leads(s, s)
  {
    assert QuietPath([s], []);
  }

  lemma Step(from: DaemonState, s: DaemonState, a: DaemonAct) returns (s': DaemonState)
    requires Leads(from, s) && Enabled(s, a) && Quiet(s, a)
    ensures s' == Apply(s, a) && Leads(from, s')
  {
    hide Enabled, Apply, Quiet;
    s' := Apply(s, a);
    var states, acts :| QuietPath(states, acts) && states[0] == from && states[|acts|] == s;
    assert QuietPath(states + [s'], acts + [a]);
  }

  // ---------------------------------------------------------------- calls that run from start to end

  predicate MayEnter(s: DaemonState, t: nat) {
    s.holder.Free? && t !in s.blocked && t !in s.notified && !s.panicked
  }

  /** Pool.Get inside Create answers with c. */
  predicate Hands(s: DaemonState, factoryOk: bool, after: PoolValue<nat>, c: nat) {
    GetPool(s.pool, Healthy(s), s.maxControllers, if factoryOk then Some(s.made) else None) == (after, Handed(c))
  }

  lemma PassesGate(from: DaemonState, s: DaemonState, t: nat) returns (s': DaemonState)
    requires Leads(from, s) && MayEnter(s, t) && |s.sessions| <= 1
    ensures Leads(from, s') && s' == s.(holder := Getting(t, false))
  {
    hide Leads;
    s' := Step(from, s, Enter(t));
    s' := Step(from, s', Gate);
  }

  /** A Create that finds the gate open, up to the insertion of its session. */
  lemma CreateInserts(from: DaemonState, s: DaemonState, t: nat, factoryOk: bool, after: PoolValue<nat>, c: nat)
    returns (s': DaemonState)
    requires Leads(from, s) && MayEnter(s, t) && |s.sessions| <= 1 && Hands(s, factoryOk, after, c)
    ensures Leads(from, s')
    ensures s' == WithPool(s, after, c == s.made).(sessions := s.sessions[s.nextSid := Session(c, NOBODY)],
                                                   nextSid := s.nextSid + 1, holder := Inserted(s.nextSid))
  {
    hide Leads;
    s' := PassesGate(from, s, t);
    assert Healthy(s') == Healthy(s);
    s' := Step(from, s', CallGet(factoryOk));
    assert s' == WithPool(s, after, c == s.made).(holder := Holding(t, false, c));
    s' := Step(from, s', Insert);
  }

  lemma CreateSucceeds(from: DaemonState, s: DaemonState, t: nat, factoryOk: bool, after: PoolValue<nat>, c: nat)
    returns (s': DaemonState)
    requires Leads(from, s) && MayEnter(s, t) && |s.sessions| <= 1 && Hands(s, factoryOk, after, c)
    ensures Leads(from, s')
    ensures s' == WithPool(s, after, c == s.made).(sessions := s.sessions[s.nextSid := Session(c, NOBODY)],
                                                   nextSid := s.nextSid + 1, wg := s.wg + 1, holder := Free)
  {
    hide Leads, Hands;
    s' := CreateInserts(from, s, t, factoryOk, after, c);
    s' := Step(from, s', AddWg);
    s' := Step(from, s', SetupDone);
  }

  lemma CreateBlocks(from: DaemonState, s: DaemonState, t: nat) returns (s': DaemonState)
    requires Leads(from, s) && MayEnter(s, t) && |s.sessions| > 1
    ensures Leads(from, s') && s' == s.(blocked := s.blocked + {t})
  {
    hide Leads;
    s' := Step(from, s, Enter(t));
    s' := Step(from, s', Gate);
  }

  /** The teardown of an idle session times out: its controller is returned unclean. */
  lemma DestroyFails(from: DaemonState, s: DaemonState, sid: nat, wake: Option<nat>) returns (s': DaemonState)
    requires Leads(from, s) && s.holder.Free? && !s.panicked
    requires sid in s.sessions && s.sessions[sid].pc == NOBODY && s.sessions[sid].ctl in s.ctl
    requires s.ctl[s.sessions[sid].ctl].state == Started
    requires if wake.Some? then wake.value in s.blocked else s.blocked == {}
    ensures Leads(from, s')
    ensures var c := s.sessions[sid].ctl;
            var after := ReturnPool(s.pool, c, false);
            var woken := if wake.Some? then {wake.value} else {};
            s' == s.(ctl := s.ctl[c := s.ctl[c].(state := Unknown)],
                     pool := after, retired := s.retired + Dropped(s.pool, after),
                     sessions := s.sessions - {sid}, wg := s.wg - 1,
                     blocked := s.blocked - woken, notified := s.notified + woken)
  {
    hide Leads;
    s' := ReturnsUnclean(from, s, sid);
    s' := Step(from, s', Delete(wake));
    s' := Step(from, s', DoneWg);
    assert s'.sessions == s.sessions - {sid};
  }

  lemma ReturnsUnclean(from: DaemonState, s: DaemonState, sid: nat) returns (s': DaemonState)
    requires Leads(from, s) && s.holder.Free? && !s.panicked
    requires sid in s.sessions && s.sessions[sid].pc == NOBODY && s.sessions[sid].ctl in s.ctl
    requires s.ctl[s.sessions[sid].ctl].state == Started
    ensures Leads(from, s')
    ensures var c := s.sessions[sid].ctl;
            var after := ReturnPool(s.pool, c, false);
            s' == s.(ctl := s.ctl[c := s.ctl[c].(state := Unknown)],
                     pool := after, retired := s.retired + Dropped(s.pool, after),
                     sessions := s.sessions[sid := Session(c, Protocol.Idle(Protocol.Failed))], holder := Returned(sid))
  {
    hide Leads;
    s' := TeardownTimesOut(from, s, sid);
    s' := Step(from, s', TeardownDone(false));
    s' := Step(from, s', CallReturn);
  }

  lemma TeardownTimesOut(from: DaemonState, s: DaemonState, sid: nat) returns (s': DaemonState)
    requires Leads(from, s) && s.holder.Free? && !s.panicked
    requires sid in s.sessions && s.sessions[sid].pc == NOBODY && s.sessions[sid].ctl in s.ctl
    requires s.ctl[s.sessions[sid].ctl].state == Started
    ensures Leads(from, s')
    ensures var c := s.sessions[sid].ctl;
            s' == s.(ctl := s.ctl[c := s.ctl[c].(state := Unknown)],
                     sessions := s.sessions[sid := Session(c, Protocol.Idle(Protocol.Failed))], holder := Tearing(sid))
  {
    hide Leads;
    s' := Step(from, s, BeginDestroy(sid));
    s' := Step(from, s', Client(sid, Protocol.EndWait(TimedOut)));
  }

  /** A Create that was woken finds no controller, and its factory fails. */
  lemma ResumeFails(from: DaemonState, s: DaemonState, t: nat) returns (s': DaemonState)
    requires Leads(from, s) && s.holder.Free? && !s.panicked && !s.finished
    requires t in s.notified && |s.sessions| <= 1 && s.pool.available == [] && |s.pool.handedOut| < s.maxControllers
    ensures Leads(from, s') && s'.holder.Free? && s'.notified == s.notified - {t}
    ensures s'.sessions == s.sessions && s'.blocked == s.blocked && s'.finished == s.finished
    ensures s'.lost == s.lost + 1 && s'.maxControllers == s.maxControllers
  {
    hide Leads;
    s' := Step(from, s, Resume(t));
    s' := Step(from, s', Gate);
    GetOfEmpty(s'.pool.handedOut, Healthy(s'), s'.maxControllers, None);
    s' := Step(from, s', CallGet(false));
  }

  lemma GetOfEmpty(handedOut: seq<nat>, healthy: set<nat>, max: nat, made: Option<nat>)
    requires |handedOut| < max
    ensures GetPool(PoolValue([], handedOut), healthy, max, made)
            == match made
               case Some(c) => (PoolValue([], handedOut + [c]), Handed(c))
               case None => (PoolValue([], handedOut), FactoryFailed)
  {
  }

  lemma GetOfFirst(healthy: set<nat>, max: nat, made: Option<nat>)
    requires 0 in healthy
    ensures GetPool(PoolValue([Instance(0)], []), healthy, max, made) == (PoolValue([], [0]), Handed(0))
  {
    var p := PoolValue([Instance(0)], []);
    assert Instance(0) in Slots(healthy);
    assert SweptAvailable(p, healthy) == [Instance(0)];
    assert [Instance(0)][1..] == [] && [] + [0] == [0];
  }

  lemma WithPoolNoDrop(s: DaemonState, after: PoolValue<nat>, launched: bool)
    requires Dropped(s.pool, after) == {}
    ensures WithPool(s, after, launched)
            == if launched then s.(pool := after, ctl := s.ctl[s.made := Protocol.LAUNCHED], made := s.made + 1)
               else s.(pool := after)
  {
    assert (map c | c in s.ctl :: s.ctl[c]) == s.ctl;
    assert s.retired + {} == s.retired;
  }

  lemma FirstCreate(from: DaemonState, s: DaemonState) returns (s': DaemonState)
    requires Leads(from, s)
    requires s == Initial(s.maxControllers).(finished := s.finished, closing := s.closing, closed := s.closed)
    ensures Leads(from, s')
    ensures s' == s.(pool := PoolValue([], [0]), sessions := map[0 := Session(0, NOBODY)], nextSid := 1,
                     holder := Inserted(0))
  {
    hide Leads, WithPool, Apply, Enabled;
    GetOfFirst(Healthy(s), s.maxControllers, Some(s.made));
    var after := PoolValue([], [0]);
    s' := CreateInserts(from, s, 0, true, after, 0);
    WithPoolNoDrop(s, after, false);
  }

  /** The first session is about to be set up. */
  lemma FirstSetup(max: nat) returns (s: DaemonState)
    requires max >= 1
    ensures Leads(Initial(max), s)
    ensures s == Initial(max).(pool := PoolValue([], [0]), sessions := map[0 := Session(0, NOBODY)], nextSid := 1,
                               wg := 1, holder := SettingUp(0))
  {
    hide Leads;
    s := Initial(max);
    Stay(s);
    s := FirstCreate(s, s);
    s := Step(Initial(max), s, AddWg);
  }

  /** One session is live. */
  lemma OneSession(max: nat) returns (s: DaemonState)
    requires max >= 1
    ensures Leads(Initial(max), s)
    ensures s == Initial(max).(pool := PoolValue([], [0]), sessions := map[0 := Session(0, NOBODY)], nextSid := 1,
                               wg := 1, holder := Free)
  {
    hide Leads;
    s := FirstSetup(max);
    s := Step(Initial(max), s, SetupDone);
  }

  /** Two sessions are live, on two controllers. */
  lemma TwoSessions() returns (s: DaemonState)
    ensures Leads(Initial(2), s) && s.holder.Free? && !s.panicked && !s.finished && s.maxControllers == 2
    ensures s.sessions == map[0 := Session(0, NOBODY), 1 := Session(1, NOBODY)]
    ensures s.pool == PoolValue([], [0, 1]) && s.ctl == map[0 := Protocol.LAUNCHED, 1 := Protocol.LAUNCHED]
    ensures s.blocked == {} && s.notified == {} && s.lost == 0
  {
    hide Leads, WithPool, Apply, Enabled;
    var first := OneSession(2);
    GetOfEmpty([0], Healthy(first), first.maxControllers, Some(first.made));
    var after := PoolValue([], [0, 1]);
    assert [0] + [1] == [0, 1];
    assert Hands(first, true, after, 1);
    s := CreateSucceeds(Initial(2), first, 1, true, after, 1);
    WithPoolNoDrop(first, after, true);
  }

  // ---------------------------------------------------------------- the runs

  /** With room for one controller the gate admits a second session all the same, and Get has nothing for it. */
  lemma PoolOfOneIsExhausted() returns (s: DaemonState)
    ensures Leads(Initial(1), s) && s.maxControllers == 1
    ensures s.holder.Getting? && AnswerOfGet(s, true).Exhausted? && AnswerOfGet(s, false).Exhausted?
  {
    hide Leads;
    s := OneSession(1);
    s := Step(Initial(1), s, Enter(1));
    s := Step(Initial(1), s, Gate);
  }

  /** In any run, quiet or not. */
  ghost predicate Reaches(maxControllers: nat, s: DaemonState) {
    exists states, acts :: Run(states, acts) && states[0] == Initial(maxControllers) && states[|acts|] == s
  }

  lemma LedIsReached(maxControllers: nat, s: DaemonState)
    requires Leads(Initial(maxControllers), s) && maxControllers >= 1
    ensures Reaches(maxControllers, s)
  {
    hide Enabled, Apply, Quiet;
    var states, acts :| QuietPath(states, acts) && states[0] == Initial(maxControllers) && states[|acts|] == s;
    assert Run(states, acts);
  }

  ghost predicate MayBeExhausted(maxControllers: nat, s: DaemonState) {
    && Reaches(maxControllers, s) && s.maxControllers == maxControllers && s.holder.Getting?
    && (AnswerOfGet(s, true).Exhausted? || AnswerOfGet(s, false).Exhausted?)
  }

  /** So the pool needs room for exactly as many controllers as the gate admits sessions: two. */
  lemma ExhaustedIffPoolOfOne(maxControllers: nat)
    requires maxControllers >= 1
    ensures (exists s :: MayBeExhausted(maxControllers, s)) <==> maxControllers == 1
  {
    if maxControllers == 1 {
      var s := PoolOfOneIsExhausted();
      LedIsReached(1, s);
      assert MayBeExhausted(1, s);
    } else {
      forall s | Reaches(maxControllers, s) && s.maxControllers == maxControllers && s.holder.Getting?
        ensures !AnswerOfGet(s, true).Exhausted? && !AnswerOfGet(s, false).Exhausted?
      {
        var states, acts :| Run(states, acts) && states[|acts|] == s;
        GetIsNeverExhausted(states, acts, |acts|, true);
        GetIsNeverExhausted(states, acts, |acts|, false);
      }
    }
  }

  /** The channel of WaitFinish can close while a Create has inserted its session and not yet counted it. */
  lemma ChannelMayCloseEarly() returns (s: DaemonState)
    ensures Leads(Initial(1), s) && Enabled(s, Close)
    ensures s.sessions != map[] && s.holder.Inserted?
  {
    hide Leads;
    s := ShutDown();
    s := FirstCreate(Initial(1), s);
    assert 0 in s.sessions;
  }

  lemma ShutDown() returns (s: DaemonState)
    ensures Leads(Initial(1), s) && s == Initial(1).(finished := true, closing := true)
  {
    hide Leads;
    s := Initial(1);
    Stay(s);
    s := Step(Initial(1), s, Finish);
    s := Step(Initial(1), s, Broadcast);
  }

  /** A failing factory can lose a wakeup: the Create that was woken returns its error, another one stays asleep
      although a second session would be admitted, and nobody is on the way to wake it. */
  lemma FactoryFailureLosesWakeup() returns (s: DaemonState)
    ensures Leads(Initial(2), s) && s.maxControllers == 2 && !s.finished && s.holder.Free?
    ensures s.blocked != {} && |s.sessions| + InFlight(s) == 1 && s.lost == 1
  {
    hide Leads, Apply, Enabled;
    s := OneOfTwoDestroyed();
    s := ResumeFails(Initial(2), s, 2);
    assert s.notified == {} && 3 in s.blocked;
  }

  lemma OneOfTwoDestroyed() returns (s: DaemonState)
    ensures Leads(Initial(2), s) && s.holder.Free? && !s.panicked && !s.finished && s.maxControllers == 2
    ensures s.sessions == map[1 := Session(1, NOBODY)] && s.pool == PoolValue([], [1])
    ensures s.blocked == {3} && s.notified == {2} && s.lost == 0
  {
    hide Leads, Apply, Enabled;
    var two := TwoSessionsAndSleepers();
    assert IndexOf([0, 1], 0) == 0;
    assert ReturnPool(two.pool, 0, false) == PoolValue([], [1]);
    s := DestroyFails(Initial(2), two, 0, Some(2));
    assert s.sessions == map[1 := Session(1, NOBODY)];
  }

  lemma TwoSessionsAndSleepers() returns (s: DaemonState)
    ensures Leads(Initial(2), s) && s.holder.Free? && !s.panicked && !s.finished && s.maxControllers == 2
    ensures s.sessions == map[0 := Session(0, NOBODY), 1 := Session(1, NOBODY)]
    ensures s.pool == PoolValue([], [0, 1]) && s.ctl == map[0 := Protocol.LAUNCHED, 1 := Protocol.LAUNCHED]
    ensures s.blocked == {2, 3} && s.notified == {} && s.lost == 0
  {
    hide Leads, Apply, Enabled;
    s := TwoSessions();
    s := CreateBlocks(Initial(2), s, 2);
    s := CreateBlocks(Initial(2), s, 3);
  }

  /** The only controller crashes, the factory fails: housekeeping leaves a nil, and its next round panics. */
  lemma NilPanics() returns (s: DaemonState)
    ensures Leads(Initial(2), s) && s.panicked
  {
    hide Leads;
    s := NilIsLeft();
    s := Step(Initial(2), s, Housekeep(false));
  }

  lemma NilIsLeft() returns (s: DaemonState)
    ensures Leads(Initial(2), s) && s.pool == PoolValue([Nil], []) && !s.panicked
  {
    hide Leads;
    s := OnlyOneCrashes();
    assert Healthy(s) == {};
    HousekeepsToNil(Healthy(s));
    s := Step(Initial(2), s, Housekeep(false));
  }

  lemma OnlyOneCrashes() returns (s: DaemonState)
    ensures Leads(Initial(2), s)
    ensures s == Initial(2).(ctl := map[0 := Protocol.LAUNCHED.(state := Unknown)])
  {
    hide Leads;
    s := Initial(2);
    Stay(s);
    s := Step(Initial(2), s, Env(0, Protocol.CrashSignal));
  }

  lemma HousekeepsToNil(healthy: set<nat>)
    requires healthy == {}
    ensures HousekeepPool(PoolValue([Instance(0)], []), healthy, None) == Some(PoolValue([Nil], []))
  {
    SweepOfUnhealthy([Instance(0)], Slots(healthy));
  }

  /** A controller that is returned unclean is retired without being cancelled. */
  lemma UncleanReturnLeaks() returns (s: DaemonState)
    ensures Leads(Initial(2), s) && 0 in s.retired && 0 in s.ctl && !s.ctl[0].ctxDone
  {
    hide Leads, Apply, Enabled;
    s := OneSession(2);
    var before := s.pool;
    s := DestroyFails(Initial(2), s, 0, None);
    assert IndexOf([0], 0) == 0;
    assert s.pool == PoolValue([], []);
    assert 0 in Dropped(before, s.pool);
  }
}
