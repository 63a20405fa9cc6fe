/** A controller that a session uses is in the assigned list of the pool for as long as it is healthy, and when it is
    available again after its return. */
module DaemonAssigned {
  import opened Options
  import opened Daemon
  import opened Pools
  import opened StateMachines
  import opened DaemonProofs
  import opened DaemonTheorems
  import Protocol

  ghost predicate AssignedInv(s: DaemonState) {
    forall c: nat | InHand(s, c) && c in Healthy(s) :: c in s.pool.handedOut
  }

  /** Whoever lists a controller in use lists it as assigned. */
  lemma ListedMeansAssigned(s: DaemonState, c: nat)
    requires HoldInv(s) && InHand(s, c) && Count(s.pool, c) >= 1
    ensures c in s.pool.handedOut
  {
  }

  lemma AssignedByGet(s: DaemonState, factoryOk: bool, c: nat)
    requires PoolInv(s) && HoldInv(s) && AssignedInv(s) && s.holder.Getting?
    requires InHand(ApplyGet(s, factoryOk), c) && (c in s.ctl ==> c in Healthy(s))
    ensures c in ApplyGet(s, factoryOk).pool.handedOut
  {
    if Nil !in s.pool.available {
      var after, r := GetOutcome(s, factoryOk);
      AssignedAfterGet(s, after, r, c);
    } else {
      var sid :| Holds(s.(panicked := true), sid, c);
      assert Holds(s, sid, c);
      assert InHand(s, c);
      InHandIsMade(s, c);
    }
  }

  lemma AssignedAfterGet(s: DaemonState, after: PoolValue<nat>, r: GetResult<nat>, c: nat)
    requires AssignedInv(s) && s.holder.Getting? && !r.Panicked?
    requires PoolInv(s) && HoldInv(s)
    requires after.handedOut == s.pool.handedOut + if r.Handed? then [r.c] else []
    requires InHand(AfterGet(s, after, r), c) && (c in s.ctl ==> c in Healthy(s))
    ensures c in AfterGet(s, after, r).pool.handedOut
  {
    if !(r.Handed? && r.c == c) {
      var sid :| Holds(AfterGet(s, after, r), sid, c);
      assert Holds(s, sid, c);
      assert InHand(s, c);
      InHandIsMade(s, c);
    }
  }

  lemma AssignedByHousekeep(s: DaemonState, factoryOk: bool, c: nat)
    requires PoolInv(s) && HoldInv(s) && AssignedInv(s)
    requires InHand(ApplyHousekeep(s, factoryOk), c) && (c in s.ctl ==> c in Healthy(s))
    ensures c in ApplyHousekeep(s, factoryOk).pool.handedOut
  {
    var s' := ApplyHousekeep(s, factoryOk);
    assert s'.holder == s.holder && s'.sessions == s.sessions;
    assert InHand(s, c) by {
      assert forall sid :: Holds(s', sid, c) <==> Holds(s, sid, c);
    }
    InHandIsMade(s, c);
    HoldInvHousekeep(s, factoryOk);
    if Nil !in s.pool.available {
      HealthyStayListed(s, factoryOk, c);
      ListedMeansAssigned(s', c);
    }
  }

  lemma HealthyStayListed(s: DaemonState, factoryOk: bool, c: nat)
    requires PoolInv(s) && Nil !in s.pool.available && c in s.pool.handedOut && c in Healthy(s)
    ensures Count(ApplyHousekeep(s, factoryOk).pool, c) >= 1
  {
    MadeIsNew(s);
    HousekeepCounts(s.pool, Healthy(s), if factoryOk then Some(s.made) else None, c);
    MembersAreCounted(s.pool, c);
  }

  lemma InHandIsMade(s: DaemonState, c: nat)
    requires PoolInv(s) && HoldInv(s) && InHand(s, c)
    ensures c in s.ctl
  {
  }

  lemma AssignedByReturn(s: DaemonState, c: nat)
    requires PoolInv(s) && HoldInv(s) && AssignedInv(s) && s.holder.Returning? && s.holder.sid in s.sessions
    requires InHand(ApplyReturn(s), c) && (c in s.ctl ==> c in Healthy(s))
    ensures c in ApplyReturn(s).pool.handedOut
  {
    var s', mine := ApplyReturn(s), s.sessions[s.holder.sid].ctl;
    HoldInvReturn(s);
    var sid :| Holds(s', sid, c);
    assert Holds(s, sid, c) && c != mine;
    assert InHand(s, c);
    InHandIsMade(s, c);
    ReturnCounts(s.pool, mine, s.holder.clean, c);
    MembersAreCounted(s.pool, c);
    ListedMeansAssigned(s', c);
  }

  /** The other steps leave the pool alone, and nobody gets hold of a controller by them. */
  lemma AssignedByMaps(s: DaemonState, a: DaemonAct, c: nat)
    requires Enabled(s, a) && GateInv(s) && (a.Insert? || a.Delete? || a.Client? || a.BeginDestroy?)
    requires InHand(Apply(s, a), c)
    ensures InHand(s, c) && Apply(s, a).pool == s.pool
  {
    var s' := Apply(s, a);
    if !(s'.holder.Holding? && s'.holder.c == c) {
      var sid :| Holds(s', sid, c);
      assert Holds(s, sid, c) || (a.Insert? && s.holder.c == c);
    }
  }

  lemma AssignedByOthers(s: DaemonState, s': DaemonState, c: nat)
    requires SameMaps(s, s') && InHand(s', c)
    ensures InHand(s, c)
  {
    if !(s'.holder.Holding? && s'.holder.c == c) {
      var sid :| Holds(s', sid, c);
      assert Holds(s, sid, c);
    }
  }

  lemma AssignedStep(s: DaemonState, a: DaemonAct)
    requires DaemonInv(s) && AssignedInv(s) && Enabled(s, a)
    ensures AssignedInv(Apply(s, a))
  {
    var s' := Apply(s, a);
    forall c: nat | InHand(s', c) && c in Healthy(s')
      ensures c in s'.pool.handedOut
    {
      AssignedAfter(s, a, c);
    }
  }

  lemma AssignedAfter(s: DaemonState, a: DaemonAct, c: nat)
    requires DaemonInv(s) && AssignedInv(s) && Enabled(s, a)
    requires InHand(Apply(s, a), c) && c in Healthy(Apply(s, a))
    ensures c in Apply(s, a).pool.handedOut
  {
    if c in s.ctl && s.ctl[c].state == Unknown {
      HealthStep(s, a, c);
    }
    if a.CallGet? {
      AssignedByGet(s, a.factoryOk, c);
    } else if a.Housekeep? {
      AssignedByHousekeep(s, a.factoryOk, c);
    } else if a.CallReturn? {
      AssignedByReturn(s, c);
    } else if !ChangesMaps(a) {
      OthersKeepMaps(s, a);
      AssignedByOthers(s, Apply(s, a), c);
      InHandIsMade(s, c);
    } else {
      AssignedByMaps(s, a, c);
      InHandIsMade(s, c);
    }
  }

  /** In every run: a session's controller, until it is returned, is healthy only if it is listed as assigned. */
  lemma {:induction false} HealthyStayAssigned(states: seq<DaemonState>, acts: seq<DaemonAct>, k: nat)
    requires Run(states, acts) && k <= |acts|
    ensures AssignedInv(states[k])
  {
    hide Enabled, Apply;
    if k == 0 {
      hide AssignedInv;
      NothingAssigned(states[0].maxControllers);
    } else {
      HealthyStayAssigned(states, acts, k - 1);
      DaemonInvAlways(states, acts, k - 1);
      AssignedStep(states[k - 1], acts[k - 1]);
    }
  }

  lemma NothingAssigned(maxControllers: nat)
    ensures AssignedInv(Initial(maxControllers))
  {
  }

  // ---------------------------------------------------------------- the return after a teardown

  /** At j the session was torn down, with this result, and since then nobody else has held the mutex. */
  ghost predicate TornDownAt(states: seq<DaemonState>, acts: seq<DaemonAct>, j: nat, k: nat)
    requires k <= |acts| < |states|
  {
    && j < k && states[k].holder.Returning? && acts[j].TeardownDone?
    && var sid := states[k].holder.sid;
       && states[j].holder == Tearing(sid) && sid in states[j].sessions
       && (states[k].holder.clean <==> acts[j].removed && SessionPc(states[j], sid) == Protocol.Idle(Protocol.TornDown))
       && forall i | j < i <= k :: states[i].holder == states[k].holder
  }

  lemma {:induction false} ReturningWasTornDown(states: seq<DaemonState>, acts: seq<DaemonAct>, k: nat)
    requires Run(states, acts) && k <= |acts| && states[k].holder.Returning?
    ensures exists j :: TornDownAt(states, acts, j, k)
  {
    hide Enabled, Apply;
    BeginsToReturn(states[k - 1], acts[k - 1]);
    if acts[k - 1].TeardownDone? {
      assert TornDownAt(states, acts, k - 1, k);
    } else {
      ReturningWasTornDown(states, acts, k - 1);
      var j :| TornDownAt(states, acts, j, k - 1);
      assert TornDownAt(states, acts, j, k);
    }
  }

  lemma BeginsToReturn(s: DaemonState, a: DaemonAct)
    requires Enabled(s, a) && Apply(s, a).holder.Returning?
    ensures if a.TeardownDone? then
              s.holder.Tearing? && s.holder.sid in s.sessions && Apply(s, a).holder.sid == s.holder.sid
              && (Apply(s, a).holder.clean
                  <==> a.removed && SessionPc(s, s.holder.sid) == Protocol.Idle(Protocol.TornDown))
            else Apply(s, a).holder == s.holder
  {
    if a.CallGet? {
      HolderAfterGet(s, a.factoryOk);
    }
  }

  lemma HolderAfterGet(s: DaemonState, factoryOk: bool)
    requires s.holder.Getting?
    ensures !ApplyGet(s, factoryOk).holder.Returning?
  {
  }

  /** Pool.Return makes a controller available exactly if it is still assigned, its Teardown has succeeded and the
      directory of its session was removed; the controller of a session that is torn down is not available before. */
  lemma AvailableAgainIff(states: seq<DaemonState>, acts: seq<DaemonAct>, k: nat) returns (j: nat)
    requires Run(states, acts) && k < |acts| && acts[k].CallReturn?
    ensures TornDownAt(states, acts, j, k) && states[k].holder.sid in states[k].sessions
    ensures var c := states[k].sessions[states[k].holder.sid].ctl;
            && Instance(c) !in states[k].pool.available && c !in states[k + 1].pool.handedOut
            && (Instance(c) in states[k + 1].pool.available <==>
                c in states[k].pool.handedOut && acts[j].removed
                && SessionPc(states[j], states[k].holder.sid) == Protocol.Idle(Protocol.TornDown))
  {
    CallReturnStep(states, acts, k);
    ReturningWasTornDown(states, acts, k);
    j :| TornDownAt(states, acts, j, k);
    DaemonInvAlways(states, acts, k);
    AvailableAfterReturn(states[k]);
  }

  lemma CallReturnStep(states: seq<DaemonState>, acts: seq<DaemonAct>, k: nat)
    requires Run(states, acts) && k < |acts| && acts[k].CallReturn?
    ensures states[k].holder.Returning? && states[k].holder.sid in states[k].sessions
    ensures states[k + 1] == ApplyReturn(states[k])
  {
    hide ApplyReturn;
  }

  lemma AvailableAfterReturn(s: DaemonState)
    requires DaemonInv(s) && s.holder.Returning? && s.holder.sid in s.sessions
    ensures var c := s.sessions[s.holder.sid].ctl;
            && Instance(c) !in s.pool.available && c !in ApplyReturn(s).pool.handedOut
            && (Instance(c) in ApplyReturn(s).pool.available <==> c in s.pool.handedOut && s.holder.clean)
  {
    var c := s.sessions[s.holder.sid].ctl;
    assert Holds(s, s.holder.sid, c);
    assert InHand(s, c);
    assert Places(s.pool, s.retired, c) <= 1;
    ReturnLists(s.pool, c, s.holder.clean);
  }
}
