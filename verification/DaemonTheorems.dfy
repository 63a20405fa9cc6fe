/** The main results about the daemon: statements about every state of every run. */
module DaemonTheorems {
  import opened Options
  import opened Daemon
  import opened Pools
  import opened StateMachines
  import opened DaemonProofs
  import opened DaemonSessions
  import Protocol
  import P = ProtocolProofs

  ghost predicate DaemonInv(s: DaemonState) {
    PoolInv(s) && HoldInv(s) && GateInv(s) && WakeInv(s) && LostInv(s)
  }

  lemma DaemonInvStep(s: DaemonState, a: DaemonAct)
    requires DaemonInv(s) && Enabled(s, a)
    ensures DaemonInv(Apply(s, a))
  {
    PoolInvStep(s, a);
    HoldInvStep(s, a);
    GateInvStep(s, a);
    WakeInvStep(s, a);
    LostInvStep(s, a);
  }

  lemma DaemonInvInitially(maxControllers: nat)
    requires maxControllers >= 1
    ensures DaemonInv(Initial(maxControllers)) && ViewInv(true, Initial(maxControllers))
  {
    var s := Initial(maxControllers);
    forall c: nat
      ensures Places(s.pool, s.retired, c) == if c < s.made then 1 else 0
    {
      assert Instance(c) in s.pool.available <==> c == 0;
    }
    P.InvLaunched();
  }

  lemma {:induction false} DaemonInvAlways(states: seq<DaemonState>, acts: seq<DaemonAct>, k: nat)
    requires Run(states, acts) && k <= |acts|
    ensures DaemonInv(states[k])
  {
    hide Enabled, Apply;
    if k == 0 {
      DaemonInvInitially(states[0].maxControllers);
    } else {
      DaemonInvAlways(states, acts, k - 1);
      DaemonInvStep(states[k - 1], acts[k - 1]);
    }
  }

  lemma {:induction false} ViewInvAlways(quiet: bool, states: seq<DaemonState>, acts: seq<DaemonAct>, k: nat)
    requires Run(states, acts) && k <= |acts| && (quiet ==> QuietRun(states, acts))
    ensures ViewInv(quiet, states[k])
  {
    hide Enabled, Apply, Quiet;
    if k == 0 {
      DaemonInvInitially(states[0].maxControllers);
    } else {
      ViewInvAlways(quiet, states, acts, k - 1);
      DaemonInvAlways(states, acts, k - 1);
      ViewInvStep(quiet, states[k - 1], acts[k - 1]);
    }
  }

  // ---------------------------------------------------------------- exclusive use of controllers

  /** No two sessions ever hold the same controller, and the controller of a session is not available to
      others, except between Pool.Return and the deletion of the session by the same DestroyByID. */
  lemma SessionsNeverShare(states: seq<DaemonState>, acts: seq<DaemonAct>, k: nat, i: nat, j: nat)
    requires Run(states, acts) && k <= |acts|
    requires i in states[k].sessions && j in states[k].sessions && i != j
    ensures states[k].sessions[i].ctl != states[k].sessions[j].ctl
    ensures states[k].holder != Returned(i) ==> Instance(states[k].sessions[i].ctl) !in states[k].pool.available
  {
    DaemonInvAlways(states, acts, k);
    if states[k].holder != Returned(i) {
      assert Holds(states[k], i, states[k].sessions[i].ctl);
      assert InHand(states[k], states[k].sessions[i].ctl);
    }
  }

  /** Every controller ever made is in exactly one place; the pool never lists more than maxControllers. */
  lemma ControllersAreConserved(states: seq<DaemonState>, acts: seq<DaemonAct>, k: nat, c: nat)
    requires Run(states, acts) && k <= |acts|
    ensures var s := states[k];
            && multiset(s.pool.available)[Instance(c)] + multiset(s.pool.handedOut)[c]
               + (if c in s.retired then 1 else 0)
               == (if c < s.made then 1 else 0)
            && |s.pool.available| + |s.pool.handedOut| <= s.maxControllers
  {
    DaemonInvAlways(states, acts, k);
    assert Places(states[k].pool, states[k].retired, c) == if c < states[k].made then 1 else 0;
  }

  lemma RetiredByGet(s: DaemonState, factoryOk: bool)
    requires s.holder.Getting?
    ensures s.retired <= ApplyGet(s, factoryOk).retired
  {
    var g := GetPool(s.pool, Healthy(s), s.maxControllers, if factoryOk then Some(s.made) else None);
    assert s.retired <= AfterGet(s, g.0, g.1).retired;
  }

  lemma RetiredByHousekeep(s: DaemonState, factoryOk: bool)
    ensures s.retired <= ApplyHousekeep(s, factoryOk).retired
  {
  }

  lemma RetiredByReturn(s: DaemonState)
    requires s.holder.Returning? && s.holder.sid in s.sessions
    ensures s.retired <= ApplyReturn(s).retired
  {
  }

  lemma RetiredStep(s: DaemonState, a: DaemonAct)
    requires Enabled(s, a)
    ensures s.retired <= Apply(s, a).retired
  {
    if a.CallGet? {
      RetiredByGet(s, a.factoryOk);
    } else if a.Housekeep? {
      RetiredByHousekeep(s, a.factoryOk);
    } else if a.CallReturn? {
      RetiredByReturn(s);
    } else if !ChangesMaps(a) {
      OthersKeepMaps(s, a);
    }
  }

  lemma {:induction false} RetiredGrow(states: seq<DaemonState>, i: nat, k: nat)
    requires i <= k < |states|
    requires forall j :: i <= j < k ==> states[j].retired <= states[j + 1].retired
    ensures states[i].retired <= states[k].retired
  {
    if i < k {
      RetiredGrow(states, i, k - 1);
    }
  }

  /** A controller that the pool dropped never comes back. */
  lemma RetiredStayRetired(states: seq<DaemonState>, acts: seq<DaemonAct>, i: nat, k: nat, c: nat)
    requires Run(states, acts) && i <= k <= |acts|
    requires c in states[i].retired
    ensures c in states[k].retired && c !in Members(states[k].pool)
  {
    forall j | i <= j < k
      ensures states[j].retired <= states[j + 1].retired
    {
      RetiredStep(states[j], acts[j]);
    }
    RetiredGrow(states, i, k);
    DaemonInvAlways(states, acts, k);
    RetiredAreNotMembers(states[k], c);
  }

  lemma RetiredAreNotMembers(s: DaemonState, c: nat)
    requires PoolInv(s) && c in s.retired
    ensures c !in Members(s.pool)
  {
    MembersAreCounted(s.pool, c);
    assert Places(s.pool, s.retired, c) <= 1;
  }

  /** A controller is retired by a sweep, as unhealthy, and then its context is cancelled; or by Pool.Return after a
      failed teardown, and then it is left as it is, healthy or not, cancelled or not. */
  lemma RetiredAreSweptOrReturned(states: seq<DaemonState>, acts: seq<DaemonAct>, k: nat, c: nat)
    requires Run(states, acts) && k < |acts|
    requires c !in states[k].retired && c in states[k + 1].retired
    ensures c in states[k].ctl && c in states[k + 1].ctl
    ensures if acts[k].CallReturn? then
              states[k + 1].ctl == states[k].ctl && states[k].holder.Returning? && !states[k].holder.clean
              && c == states[k].sessions[states[k].holder.sid].ctl
            else
              (acts[k].CallGet? || acts[k].Housekeep?)
              && states[k].ctl[c].state == Unknown && states[k + 1].ctl[c].ctxDone
  {
    hide Enabled, Apply;
    DaemonInvAlways(states, acts, k);
    NewlyRetired(states[k], acts[k], c);
  }

  lemma DroppedBySweep(s: DaemonState, after: PoolValue<nat>, launched: bool, c: nat)
    requires PoolInv(s) && c in Dropped(s.pool, after)
    requires c in Healthy(s) ==> Count(after, c) >= 1
    ensures c in s.ctl && s.ctl[c].state == Unknown
    ensures c in WithPool(s, after, launched).ctl && WithPool(s, after, launched).ctl[c].ctxDone
  {
    MembersAreCounted(s.pool, c);
    MembersAreCounted(after, c);
    assert Places(s.pool, s.retired, c) >= 1;
  }

  lemma NewlyRetiredByGet(s: DaemonState, factoryOk: bool, c: nat)
    requires PoolInv(s) && s.holder.Getting? && c !in s.retired && c in ApplyGet(s, factoryOk).retired
    ensures c in s.ctl && s.ctl[c].state == Unknown
    ensures c in ApplyGet(s, factoryOk).ctl && ApplyGet(s, factoryOk).ctl[c].ctxDone
  {
    var made := if factoryOk then Some(s.made) else None;
    var g := GetPool(s.pool, Healthy(s), s.maxControllers, made);
    AfterGetDrops(s, g.0, g.1);
    if !g.1.Panicked? {
      hide GetPool, AfterGet, WithPool;
      MadeIsNew(s);
      if c in Healthy(s) {
        GetDropsUnhealthy(s.pool, Healthy(s), s.maxControllers, made, c);
      }
      DroppedBySweep(s, g.0, g.1 == Handed(s.made), c);
    }
  }

  lemma AfterGetDrops(s: DaemonState, after: PoolValue<nat>, r: GetResult<nat>)
    requires s.holder.Getting?
    ensures var s' := AfterGet(s, after, r);
            if r.Panicked? then s'.retired == s.retired
            else s'.retired == s.retired + Dropped(s.pool, after)
                 && s'.ctl == WithPool(s, after, r == Handed(s.made)).ctl
  {
  }

  lemma GetDropsUnhealthy(p: PoolValue<nat>, healthy: set<nat>, max: nat, made: Option<nat>, c: nat)
    requires Nil !in p.available && c in Members(p) && c in healthy
    ensures Count(GetPool(p, healthy, max, made).0, c) >= 1
  {
    GetCounts(p, healthy, max, made, c);
    MembersAreCounted(p, c);
  }

  lemma NewlyRetiredByHousekeep(s: DaemonState, factoryOk: bool, c: nat)
    requires PoolInv(s) && c !in s.retired && c in ApplyHousekeep(s, factoryOk).retired
    ensures c in s.ctl && s.ctl[c].state == Unknown
    ensures c in ApplyHousekeep(s, factoryOk).ctl && ApplyHousekeep(s, factoryOk).ctl[c].ctxDone
  {
    var made := if factoryOk then Some(s.made) else None;
    var after := HousekeepPool(s.pool, Healthy(s), made);
    if after.Some? {
      MadeIsNew(s);
      HousekeepCounts(s.pool, Healthy(s), made, c);
      MembersAreCounted(s.pool, c);
      DroppedBySweep(s, after.value, Instance(s.made) in after.value.available, c);
    }
  }

  lemma NewlyRetiredByReturn(s: DaemonState, c: nat)
    requires PoolInv(s) && s.holder.Returning? && s.holder.sid in s.sessions
    requires c !in s.retired && c in ApplyReturn(s).retired
    ensures c in s.ctl && ApplyReturn(s).ctl == s.ctl
    ensures !s.holder.clean && c == s.sessions[s.holder.sid].ctl
  {
    var d := s.sessions[s.holder.sid].ctl;
    var after := ReturnPool(s.pool, d, s.holder.clean);
    assert c in Dropped(s.pool, after);
    MembersAreCounted(s.pool, c);
    MembersAreCounted(after, c);
    ReturnCounts(s.pool, d, s.holder.clean, c);
    assert Places(s.pool, s.retired, c) >= 1;
  }

  lemma NewlyRetired(s: DaemonState, a: DaemonAct, c: nat)
    requires DaemonInv(s) && Enabled(s, a) && c !in s.retired && c in Apply(s, a).retired
    ensures var s' := Apply(s, a);
            && c in s.ctl && c in s'.ctl
            && if a.CallReturn? then
                 s'.ctl == s.ctl && s.holder.Returning? && !s.holder.clean && c == s.sessions[s.holder.sid].ctl
               else
                 (a.CallGet? || a.Housekeep?) && s.ctl[c].state == Unknown && s'.ctl[c].ctxDone
  {
    if a.CallGet? {
      NewlyRetiredByGet(s, a.factoryOk, c);
    } else if a.Housekeep? {
      NewlyRetiredByHousekeep(s, a.factoryOk, c);
    } else if a.CallReturn? {
      NewlyRetiredByReturn(s, c);
    } else if !ChangesMaps(a) {
      hide Apply;
      OthersKeepMaps(s, a);
    }
  }

  // ---------------------------------------------------------------- Pool.Get inside Create

  function AnswerOfGet(s: DaemonState, factoryOk: bool): GetResult<nat> {
    GetPool(s.pool, Healthy(s), s.maxControllers, if factoryOk then Some(s.made) else None).1
  }

  /** With room for two controllers, a Create that has passed its gate is never told that no instance is
      available, whatever housekeeping and lost health did before. */
  lemma GetIsNeverExhausted(states: seq<DaemonState>, acts: seq<DaemonAct>, k: nat, factoryOk: bool)
    requires Run(states, acts) && k <= |acts|
    requires states[k].holder.Getting? && states[k].maxControllers >= 2
    ensures !AnswerOfGet(states[k], factoryOk).Exhausted?
  {
    DaemonInvAlways(states, acts, k);
    if Nil !in states[k].pool.available {
      AtMostOneHandedOut(states[k]);
      var after, r := GetOutcome(states[k], factoryOk);
    }
  }

  // ---------------------------------------------------------------- health

  lemma HealthOfSwept(s: DaemonState, after: PoolValue<nat>, launched: bool, c: nat)
    requires PoolInv(s) && c in s.ctl
    ensures var s' := WithPool(s, after, launched); c in s'.ctl && s'.ctl[c].state == s.ctl[c].state
  {
  }

  lemma HealthAfterGet(s: DaemonState, factoryOk: bool, c: nat)
    requires PoolInv(s) && s.holder.Getting? && c in s.ctl
    ensures c in ApplyGet(s, factoryOk).ctl && ApplyGet(s, factoryOk).ctl[c].state == s.ctl[c].state
  {
    var g := GetPool(s.pool, Healthy(s), s.maxControllers, if factoryOk then Some(s.made) else None);
    HealthOfSwept(s, g.0, g.1 == Handed(s.made), c);
  }

  lemma HealthAfterHousekeep(s: DaemonState, factoryOk: bool, c: nat)
    requires PoolInv(s) && c in s.ctl
    ensures c in ApplyHousekeep(s, factoryOk).ctl && ApplyHousekeep(s, factoryOk).ctl[c].state == s.ctl[c].state
  {
    var after := HousekeepPool(s.pool, Healthy(s), if factoryOk then Some(s.made) else None);
    if after.Some? {
      HealthOfSwept(s, after.value, Instance(s.made) in after.value.available, c);
    }
  }

  lemma HealthAfterCall(s: DaemonState, sid: nat, act: Protocol.Act, c: nat)
    requires Enabled(s, Client(sid, act)) && c in s.ctl && s.ctl[c].state == Unknown
    ensures c in Apply(s, Client(sid, act)).ctl && Apply(s, Client(sid, act)).ctl[c].state == Unknown
  {
  }

  lemma HealthAfterEnv(s: DaemonState, d: nat, act: Protocol.Act, c: nat)
    requires Enabled(s, Env(d, act)) && c in s.ctl && s.ctl[c].state == Unknown
    ensures c in Apply(s, Env(d, act)).ctl && Apply(s, Env(d, act)).ctl[c].state == Unknown
  {
  }

  lemma HealthStep(s: DaemonState, a: DaemonAct, c: nat)
    requires PoolInv(s) && Enabled(s, a) && c in s.ctl && s.ctl[c].state == Unknown
    ensures c in Apply(s, a).ctl && Apply(s, a).ctl[c].state == Unknown
  {
    if a.Env? {
      HealthAfterEnv(s, a.c, a.act, c);
    } else if a.Client? {
      HealthAfterCall(s, a.sid, a.act, c);
    } else if a.CallGet? {
      HealthAfterGet(s, a.factoryOk, c);
    } else if a.Housekeep? {
      HealthAfterHousekeep(s, a.factoryOk, c);
    } else if !ChangesMaps(a) {
      OthersKeepMaps(s, a);
    }
  }

  lemma {:induction false} LostHealthStaysLost(states: seq<DaemonState>, acts: seq<DaemonAct>, i: nat, k: nat, c: nat)
    requires Run(states, acts) && i <= k <= |acts|
    requires c in states[i].ctl && states[i].ctl[c].state == Unknown
    ensures c in states[k].ctl && states[k].ctl[c].state == Unknown
  {
    if i < k {
      LostHealthStaysLost(states, acts, i, k - 1, c);
      DaemonInvAlways(states, acts, k - 1);
      HealthStep(states[k - 1], acts[k - 1], c);
    }
  }

  /** The controller that Get hands to a session has never been unhealthy before. */
  lemma HandedOutWasAlwaysHealthy(states: seq<DaemonState>, acts: seq<DaemonAct>, i: nat, k: nat, factoryOk: bool)
    requires Run(states, acts) && i <= k <= |acts|
    requires states[k].holder.Getting? && AnswerOfGet(states[k], factoryOk).Handed?
    ensures var c := AnswerOfGet(states[k], factoryOk).c;
            c in states[i].ctl ==> states[i].ctl[c].state != Unknown
  {
    DaemonInvAlways(states, acts, k);
    var after, r := GetOutcome(states[k], factoryOk);
    if r.c in states[i].ctl && states[i].ctl[r.c].state == Unknown {
      LostHealthStaysLost(states, acts, i, k, r.c);
    }
  }

  // ---------------------------------------------------------------- the wait group

  /** The wait group counts the sessions in the map, but for the instant between the insertion of a session
      and its Add, and between the deletion of one and its Done. */
  lemma WaitGroupCountsSessions(states: seq<DaemonState>, acts: seq<DaemonAct>, k: nat)
    requires Run(states, acts) && k <= |acts|
    ensures 0 <= states[k].wg <= 2 && |states[k].sessions| <= 2
    ensures !states[k].holder.Inserted? && !states[k].holder.Deleted? ==> states[k].wg == |states[k].sessions|
  {
    DaemonInvAlways(states, acts, k);
    var s := states[k];
    if s.holder.Inserted? {
      assert s.holder.sid in s.sessions.Keys && |s.sessions| == |s.sessions.Keys|;
    }
  }

  /** The channel of WaitFinish closes only when no session is in the map, unless a Create has inserted its
      session and not yet counted it. */
  lemma ChannelClosesWithoutSessions(states: seq<DaemonState>, acts: seq<DaemonAct>, k: nat)
    requires Run(states, acts) && k < |acts| && acts[k].Close?
    ensures states[k].sessions == map[] <==> !states[k].holder.Inserted?
  {
    DaemonInvAlways(states, acts, k);
  }

  // ---------------------------------------------------------------- wakeups

  /** A Create that sleeps un-notified is never forgotten: live sessions, wakeups in flight and woken Creates
      that returned an error are at least two, in every run. */
  lemma NoWakeupIsLost(states: seq<DaemonState>, acts: seq<DaemonAct>, k: nat)
    requires Run(states, acts) && k <= |acts| && states[k].blocked != {}
    ensures var s := states[k];
            && |s.sessions| + InFlight(s) + s.lost >= 2
            && (!s.finished && s.maxControllers >= 2 && s.factoryFailures == 0 ==> |s.sessions| + InFlight(s) >= 2)
            && (|s.sessions| + InFlight(s) < 2 ==> s.lost > 0)
  {
    DaemonInvAlways(states, acts, k);
  }

  /** A Create sleeps although there is room for its session, and nobody is on the way to wake it. */
  ghost predicate Starved(s: DaemonState) {
    s.blocked != {} && |s.sessions| + InFlight(s) < 2
  }

  /** A woken Create returns an error: it does not pass its wakeup on. */
  predicate Drops(s: DaemonState, a: DaemonAct) {
    || (a.Resume? && s.finished)
    || (a.CallGet? && s.holder.Getting? && s.holder.resumed
        && var r := AnswerOfGet(s, a.factoryOk); !r.Handed? && !r.Panicked?)
  }

  ghost predicate StarvesBy(s: DaemonState, dropped: bool, s': DaemonState) {
    Starved(s') <==> dropped && s.blocked != {} && |s.sessions| + InFlight(s) == 2
  }

  /** The exact step at which a wakeup is lost: the last one in flight is dropped while another Create sleeps. */
  lemma WakeupIsLostOnlyBy(states: seq<DaemonState>, acts: seq<DaemonAct>, k: nat)
    requires Run(states, acts) && k < |acts| && !Starved(states[k])
    ensures Starved(states[k + 1]) <==>
            Drops(states[k], acts[k]) && states[k].blocked != {} && |states[k].sessions| + InFlight(states[k]) == 2
  {
    hide Enabled, Apply, Drops;
    DaemonInvAlways(states, acts, k);
    StarveStep(states[k], acts[k]);
  }

  lemma StarveStep(s: DaemonState, a: DaemonAct)
    requires DaemonInv(s) && Enabled(s, a) && !Starved(s)
    ensures StarvesBy(s, Drops(s, a), Apply(s, a))
  {
    hide Starved, DaemonInv, StarvesBy;
    if a.CallGet? {
      StarveByGet(s, a.factoryOk);
    } else if a.Housekeep? {
      StarveByHousekeep(s, a.factoryOk);
    } else if a.CallReturn? || a.Client? || a.BeginDestroy? {
      StarveBySession(s, a);
    } else if a.Insert? || a.Delete? {
      StarveByMaps(s, a);
    } else {
      StarveByOthers(s, a);
    }
  }

  lemma StarveByGet(s: DaemonState, factoryOk: bool)
    requires s.holder.Getting? && !Starved(s)
    ensures StarvesBy(s, Drops(s, CallGet(factoryOk)), ApplyGet(s, factoryOk))
  {
    var g := GetPool(s.pool, Healthy(s), s.maxControllers, if factoryOk then Some(s.made) else None);
    StarveByAnswer(s, g.0, g.1);
  }

  lemma StarveByAnswer(s: DaemonState, after: PoolValue<nat>, r: GetResult<nat>)
    requires s.holder.Getting? && !Starved(s)
    ensures StarvesBy(s, s.holder.resumed && !r.Handed? && !r.Panicked?, AfterGet(s, after, r))
  {
  }

  lemma StarveByHousekeep(s: DaemonState, factoryOk: bool)
    requires !Starved(s)
    ensures StarvesBy(s, false, ApplyHousekeep(s, factoryOk))
  {
  }

  lemma StarveBySession(s: DaemonState, a: DaemonAct)
    requires Enabled(s, a) && !Starved(s) && (a.CallReturn? || a.Client? || a.BeginDestroy?)
    ensures StarvesBy(s, false, Apply(s, a))
  {
  }

  lemma StarveByMaps(s: DaemonState, a: DaemonAct)
    requires DaemonInv(s) && Enabled(s, a) && !Starved(s) && (a.Insert? || a.Delete?)
    ensures StarvesBy(s, false, Apply(s, a))
  {
    if a.Delete? {
      WakeInvDelete(s, a.wake);
    } else {
      WakeInvInsert(s);
    }
  }

  lemma StarveByOthers(s: DaemonState, a: DaemonAct)
    requires DaemonInv(s) && Enabled(s, a) && !Starved(s) && !ChangesMaps(a)
    ensures StarvesBy(s, a.Resume? && s.finished, Apply(s, a))
  {
  }

  // ---------------------------------------------------------------- the nil instance

  /** A nil enters the pool exactly when housekeeping finds no healthy controller and its factory fails. */
  lemma NilEntersOnlyBy(states: seq<DaemonState>, acts: seq<DaemonAct>, k: nat)
    requires Run(states, acts) && k < |acts| && Nil !in states[k].pool.available
    ensures Nil in states[k + 1].pool.available <==>
            acts[k] == Housekeep(false) && Members(states[k].pool) !! Healthy(states[k])
  {
    hide Enabled, Apply;
    DaemonInvAlways(states, acts, k);
    NilStep(states[k], acts[k]);
  }

  /** It stays until the next sweep, of Get or of housekeeping, and that sweep panics; nothing else does. */
  lemma NilIsFatal(states: seq<DaemonState>, acts: seq<DaemonAct>, k: nat)
    requires Run(states, acts) && k < |acts|
    ensures states[k + 1].panicked <==> Nil in states[k].pool.available && (acts[k].CallGet? || acts[k].Housekeep?)
    ensures Nil in states[k].pool.available ==> Nil in states[k + 1].pool.available
  {
    hide Enabled, Apply;
    DaemonInvAlways(states, acts, k);
    NilStep(states[k], acts[k]);
  }

  lemma NilStep(s: DaemonState, a: DaemonAct)
    requires DaemonInv(s) && Enabled(s, a)
    ensures var s', hasNil := Apply(s, a), Nil in s.pool.available;
            && (s'.panicked <==> hasNil && (a.CallGet? || a.Housekeep?))
            && (hasNil ==> Nil in s'.pool.available)
            && (!hasNil ==> (Nil in s'.pool.available <==> a == Housekeep(false) && Members(s.pool) !! Healthy(s)))
  {
    match a
    case CallGet(factoryOk) => NilByGet(s, factoryOk);
    case Housekeep(factoryOk) => NilByHousekeep(s, factoryOk);
    case _ => NilByOthers(s, a);
  }

  lemma NilByGet(s: DaemonState, factoryOk: bool)
    requires DaemonInv(s) && s.holder.Getting? && !s.panicked
    ensures var s', hasNil := ApplyGet(s, factoryOk), Nil in s.pool.available;
            && s'.panicked == hasNil && (Nil in s'.pool.available <==> hasNil)
  {
    if Nil !in s.pool.available {
      var after, r := GetOutcome(s, factoryOk);
    }
  }

  lemma NilByHousekeep(s: DaemonState, factoryOk: bool)
    requires PoolInv(s) && !s.panicked
    ensures var s', hasNil := ApplyHousekeep(s, factoryOk), Nil in s.pool.available;
            && s'.panicked == hasNil
            && (Nil in s'.pool.available <==> hasNil || (!factoryOk && Members(s.pool) !! Healthy(s)))
  {
    MadeIsNew(s);
    if Nil !in s.pool.available {
      HousekeepLeavesNil(s.pool, Healthy(s), if factoryOk then Some(s.made) else None);
    }
  }

  lemma NilByOthers(s: DaemonState, a: DaemonAct)
    requires Enabled(s, a) && !a.CallGet? && !a.Housekeep?
    ensures !Apply(s, a).panicked && (Nil in Apply(s, a).pool.available <==> Nil in s.pool.available)
  {
    if !ChangesMaps(a) {
      hide Apply;
      OthersKeepMaps(s, a);
    }
  }

  // ---------------------------------------------------------------- what a session gets

  /** In the whole daemon, in every run: the results that a session receives, with or without an error, are the
      consecutive arrivals since the reset of the session's own test. */
  lemma SessionsGetTheirOwnResults(states: seq<DaemonState>, acts: seq<DaemonAct>, k: nat, sid: nat)
    requires Run(states, acts) && k <= |acts| && sid in states[k].sessions
    requires states[k].sessions[sid].pc.Idle? && states[k].sessions[sid].pc.last.Got?
    ensures var got := states[k].sessions[sid].pc.last; P.OwnEvents(got.test, got.results)
  {
    ViewInvAlways(false, states, acts, k);
    var s := states[k];
    assert Keeps(false, s.ctl[s.sessions[sid].ctl], s.sessions[sid].pc);
  }

  /** In quiet runs: without an error they are at least as many as expected, and the completion that released them
      is that of this test. */
  lemma SessionsGetCompleteResults(states: seq<DaemonState>, acts: seq<DaemonAct>, k: nat, sid: nat)
    requires QuietRun(states, acts) && k <= |acts| && sid in states[k].sessions
    requires states[k].sessions[sid].pc.Idle? && states[k].sessions[sid].pc.last.Got?
    requires states[k].sessions[sid].pc.last.ok
    ensures var s := states[k];
            var session, got := s.sessions[sid], s.sessions[sid].pc.last;
            && |got.results| >= got.test.expected
            && session.ctl in s.ctl && s.ctl[session.ctl].doneBy == got.test.epoch
  {
    ViewInvAlways(true, states, acts, k);
    var s := states[k];
    assert Keeps(true, s.ctl[s.sessions[sid].ctl], s.sessions[sid].pc);
  }
}
