/** What the shutdown means for the Creates of the daemon (WaitFinish and the loop of Create in
    internal/daemon/session/controller.go). */
module DaemonShutdown {
  import opened Options
  import opened Daemon
  import opened Pools
  import opened DaemonSessions
  import opened DaemonWitnesses
  import Protocol

  predicate Sleeps(s: DaemonState, t: nat) {
    t in s.blocked || t in s.notified
  }

  /** The Create of t holds the mutex and is not yet through. */
  predicate Proceeds(s: DaemonState, t: nat) {
    match s.holder
    case AtGate(u, _) => u == t
    case Getting(u, _) => u == t
    case Holding(u, _, _) => u == t
    case _ => false
  }

  ghost predicate SleepInv(s: DaemonState) {
    s.blocked !! s.notified && forall t: nat | Proceeds(s, t) :: !Sleeps(s, t)
  }

  /** What a step does to the sleepers and to the Create at the mutex. */
  lemma SleepStep(s: DaemonState, a: DaemonAct)
    requires Enabled(s, a)
    ensures var s' := Apply(s, a);
            && (s.finished ==> s'.finished)
            && (s'.blocked, s'.notified)
               == (match a
                   case Gate => (if |s.sessions| > 1 then s.blocked + {s.holder.t} else s.blocked, s.notified)
                   case Resume(t) => (s.blocked, s.notified - {t})
                   case Delete(Some(t)) => (s.blocked - {t}, s.notified + {t})
                   case Broadcast => ({}, s.notified + s.blocked)
                   case _ => (s.blocked, s.notified))
  {
    assert s.blocked - {} == s.blocked && s.notified + {} == s.notified;
    if a.CallGet? {
      SleepByGet(s, a.factoryOk);
    } else if a.Housekeep? {
      SleepByHousekeep(s, a.factoryOk);
    }
  }

  lemma SleepByGet(s: DaemonState, factoryOk: bool)
    requires s.holder.Getting?
    ensures var s' := ApplyGet(s, factoryOk);
            s'.blocked == s.blocked && s'.notified == s.notified && s'.finished == s.finished
  {
    var g := GetPool(s.pool, Healthy(s), s.maxControllers, if factoryOk then Some(s.made) else None);
    SleepAfterGet(s, g.0, g.1);
  }

  lemma SleepAfterGet(s: DaemonState, after: PoolValue<nat>, r: GetResult<nat>)
    requires s.holder.Getting?
    ensures var s' := AfterGet(s, after, r);
            s'.blocked == s.blocked && s'.notified == s.notified && s'.finished == s.finished
  {
  }

  lemma SleepByHousekeep(s: DaemonState, factoryOk: bool)
    ensures var s' := ApplyHousekeep(s, factoryOk);
            s'.blocked == s.blocked && s'.notified == s.notified && s'.finished == s.finished
  {
  }

  /** Who may come to hold the mutex in a Create. */
  lemma ProceedStep(s: DaemonState, a: DaemonAct, t: nat)
    requires Enabled(s, a) && Proceeds(Apply(s, a), t)
    ensures Proceeds(s, t) || (a == Enter(t) && !Sleeps(s, t)) || (a == Resume(t) && t in s.notified && !s.finished)
    ensures a.Gate? ==> |s.sessions| <= 1
  {
  }

  lemma SleepInvStep(s: DaemonState, a: DaemonAct)
    requires SleepInv(s) && Enabled(s, a)
    ensures SleepInv(Apply(s, a))
  {
    SleepStep(s, a);
    var s' := Apply(s, a);
    assert a.Gate? ==> Proceeds(s, s.holder.t);
    forall t: nat | Proceeds(s', t)
      ensures !Sleeps(s', t)
    {
      ProceedStep(s, a, t);
      hide Apply;
    }
  }

  lemma {:induction false} SleepInvAlways(states: seq<DaemonState>, acts: seq<DaemonAct>, k: nat)
    requires Run(states, acts) && k <= |acts|
    ensures SleepInv(states[k])
  {
    hide Enabled, Apply;
    if k > 0 {
      SleepInvAlways(states, acts, k - 1);
      SleepInvStep(states[k - 1], acts[k - 1]);
    }
  }

  /** A Create that sleeps when the shutdown is marked gets no session, whenever it is woken: it never passes the gate
      again. */
  lemma {:induction false} SleepersGiveUpAfterShutdown(states: seq<DaemonState>, acts: seq<DaemonAct>, i: nat, k: nat,
                                                       t: nat)
    requires Run(states, acts) && i <= k <= |acts|
    requires states[i].finished && Sleeps(states[i], t)
    requires forall j | i <= j < k :: acts[j] != Enter(t)
    ensures states[k].finished && !Proceeds(states[k], t)
  {
    hide Enabled, Apply;
    if i == k {
      SleepInvAlways(states, acts, k);
    } else {
      SleepersGiveUpAfterShutdown(states, acts, i, k - 1, t);
      SleepStep(states[k - 1], acts[k - 1]);
      if Proceeds(states[k], t) {
        ProceedStep(states[k - 1], acts[k - 1], t);
      }
    }
  }

  /** The broadcast of the shutdown reaches every Create that sleeps: it stays awake until it resumes. */
  lemma {:induction false} BroadcastWakesAll(states: seq<DaemonState>, acts: seq<DaemonAct>, i: nat, k: nat, t: nat)
    requires Run(states, acts) && i < k <= |acts| && acts[i].Broadcast? && t in states[i].blocked
    requires forall j | i < j < k :: acts[j] != Resume(t)
    ensures t in states[k].notified
  {
    hide Enabled, Apply;
    if i + 1 < k {
      BroadcastWakesAll(states, acts, i, k - 1, t);
    }
    SleepStep(states[k - 1], acts[k - 1]);
  }

  ghost predicate FellAsleep(states: seq<DaemonState>, acts: seq<DaemonAct>, j: nat, t: nat)
    requires j < |acts| < |states|
  {
    acts[j].Gate? && states[j].holder.AtGate? && states[j].holder.t == t && |states[j].sessions| > 1
  }

  /** So who sleeps un-notified afterwards came to the gate later, and found it closed. */
  lemma {:induction false} SleepersCameLater(states: seq<DaemonState>, acts: seq<DaemonAct>, i: nat, k: nat, t: nat)
    requires Run(states, acts) && i < k <= |acts| && acts[i].Broadcast? && t in states[k].blocked
    ensures exists j :: i < j < k && FellAsleep(states, acts, j, t)
  {
    SleepStep(states[k - 1], acts[k - 1]);
    if i + 1 < k {
      if t in states[k - 1].blocked {
        hide Enabled, Apply;
        SleepersCameLater(states, acts, i, k - 1, t);
        var j :| i < j < k - 1 && FellAsleep(states, acts, j, t);
        assert i < j < k && FellAsleep(states, acts, j, t);
      } else {
        assert FellAsleep(states, acts, k - 1, t);
      }
    }
  }

  lemma CloseStep(s: DaemonState, a: DaemonAct)
    requires Enabled(s, a)
    ensures Apply(s, a).closing <==> s.closing || a.Broadcast?
    ensures Apply(s, a).closed <==> s.closed || a.Close?
    ensures (a.Close? ==> s.closing && s.wg == 0) && (a.Broadcast? ==> s.finished)
  {
    if a.CallGet? {
      var g := GetPool(s.pool, Healthy(s), s.maxControllers, if a.factoryOk then Some(s.made) else None);
      CloseAfterGet(s, g.0, g.1);
    }
  }

  lemma CloseAfterGet(s: DaemonState, after: PoolValue<nat>, r: GetResult<nat>)
    requires s.holder.Getting?
    ensures AfterGet(s, after, r).closing == s.closing && AfterGet(s, after, r).closed == s.closed
  {
  }

  /** The channel closes only after the broadcast of a shutdown, and only while the wait group is at zero. */
  lemma {:induction false} ClosesAfterBroadcast(states: seq<DaemonState>, acts: seq<DaemonAct>, k: nat)
    requires Run(states, acts) && k <= |acts|
    ensures states[k].closing <==> exists i :: 0 <= i < k && acts[i].Broadcast?
    ensures states[k].closed <==> exists i :: 0 <= i < k && acts[i].Close?
    ensures k < |acts| && acts[k].Close? ==>
              states[k].wg == 0 && exists i :: 0 <= i < k && acts[i].Broadcast? && states[i].finished
  {
    hide Enabled, Apply;
    if k > 0 {
      ClosesAfterBroadcast(states, acts, k - 1);
      CloseStep(states[k - 1], acts[k - 1]);
    }
    if k < |acts| {
      CloseStep(states[k], acts[k]);
      if i :| 0 <= i < k && acts[i].Broadcast? {
        CloseStep(states[i], acts[i]);
      }
    }
  }

  // ---------------------------------------------------------------- what the shutdown does not prevent

  /** A Create that finds the gate open does not look at the mark: it gets its session even after the channel of
      WaitFinish was closed. */
  lemma CreatedAfterClose() returns (s: DaemonState)
    ensures Leads(Initial(1), s) && s.finished && s.closed && s.sessions != map[]
  {
    hide Leads;
    s := ShutDown();
    s := Step(Initial(1), s, Close);
    s := FirstCreate(Initial(1), s);
    assert 0 in s.sessions;
  }

  /** Three Creates come after the broadcast while two sessions are live. Each of the two wakes one of them; the third
      sleeps on when no session is left to wake it. */
  lemma ShutdownStrandsSleeper() returns (s: DaemonState)
    ensures Leads(Initial(2), s) && s.finished && s.holder.Free?
    ensures s.sessions == map[] && s.blocked == {4} && s.notified == {3}
  {
    hide Leads, Apply, Enabled;
    s := ThreeSleepAfterBroadcast();
    s := DestroyFails(Initial(2), s, 0, Some(2));
    assert s.sessions == map[1 := Session(1, NOBODY)];
    s := GivesUp(s, 2);
    s := DestroyFails(Initial(2), s, 1, Some(3));
    assert s.sessions == map[];
  }

  lemma ThreeSleepAfterBroadcast() returns (s: DaemonState)
    ensures Leads(Initial(2), s) && s.holder.Free? && !s.panicked && s.finished
    ensures s.sessions == map[0 := Session(0, NOBODY), 1 := Session(1, NOBODY)]
    ensures s.ctl == map[0 := Protocol.LAUNCHED, 1 := Protocol.LAUNCHED]
    ensures s.blocked == {2, 3, 4} && s.notified == {}
  {
    hide Leads, Apply, Enabled;
    s := TwoSessions();
    s := FinishAndBroadcast(s);
    s := CreateBlocks(Initial(2), s, 2);
    s := CreateBlocks(Initial(2), s, 3);
    s := CreateBlocks(Initial(2), s, 4);
  }

  lemma FinishAndBroadcast(s: DaemonState) returns (s': DaemonState)
    requires Leads(Initial(2), s) && s.holder.Free? && !s.panicked && s.blocked == {}
    ensures Leads(Initial(2), s') && s' == s.(finished := true, closing := true)
  {
    hide Leads;
    s' := Step(Initial(2), s, Finish);
    s' := Step(Initial(2), s', Broadcast);
    assert s.notified + {} == s.notified;
  }

  lemma GivesUp(s: DaemonState, t: nat) returns (s': DaemonState)
    requires Leads(Initial(2), s) && s.holder.Free? && !s.panicked && s.finished && t in s.notified
    ensures Leads(Initial(2), s') && s' == s.(notified := s.notified - {t}, lost := s.lost + 1)
  {
    hide Leads;
    s' := Step(Initial(2), s, Resume(t));
  }
}
