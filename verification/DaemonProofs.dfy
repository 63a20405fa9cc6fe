/** What every interleaving of sessions, pool and controllers keeps. */
module DaemonProofs {
  import opened Options
  import opened Daemon
  import opened Pools

  predicate ChangesMaps(a: DaemonAct) {
    a.CallGet? || a.Housekeep? || a.CallReturn? || a.Insert? || a.Delete? || a.Client? || a.BeginDestroy?
  }

  ghost predicate Passive(h: Holder) {
    !h.Holding? && !h.Returned?
  }

  /** What a step that changes no map leaves as it is. */
  ghost predicate SameMaps(s: DaemonState, s': DaemonState) {
    && s'.sessions == s.sessions && s'.pool == s.pool && s'.retired == s.retired && s'.made == s.made
    && s'.maxControllers == s.maxControllers && s'.nextSid == s.nextSid
    && s'.panicked == s.panicked && s'.factoryFailures == s.factoryFailures
    && (!s'.finished ==> !s.finished && s'.lost == s.lost)
    && (s'.holder == s.holder || (Passive(s.holder) && Passive(s'.holder)))
  }

  predicate IsOutsideMutex(a: DaemonAct) {
    a.Env? || a.Finish? || a.Broadcast? || a.Close?
  }

  lemma CallsKeepMaps(s: DaemonState, a: DaemonAct)
    requires Enabled(s, a) && !ChangesMaps(a) && !IsOutsideMutex(a)
    ensures SameMaps(s, Apply(s, a)) && Apply(s, a).ctl == s.ctl
  {
  }

  lemma OutsideMutexKeepsMaps(s: DaemonState, a: DaemonAct)
    requires Enabled(s, a) && IsOutsideMutex(a)
    ensures SameMaps(s, Apply(s, a)) && (!a.Env? ==> Apply(s, a).ctl == s.ctl)
  {
  }

  lemma OthersKeepMaps(s: DaemonState, a: DaemonAct)
    requires Enabled(s, a) && !ChangesMaps(a)
    ensures SameMaps(s, Apply(s, a)) && (!a.Env? ==> Apply(s, a).ctl == s.ctl)
  {
    hide Enabled, Apply;
    if IsOutsideMutex(a) {
      OutsideMutexKeepsMaps(s, a);
    } else {
      CallsKeepMaps(s, a);
    }
  }

  // ---------------------------------------------------------------- where the controllers are

  /** How many of the three places a controller is in, counted with multiplicity. */
  ghost function Places(pool: PoolValue<nat>, retired: set<nat>, c: nat): nat {
    Count(pool, c) + if c in retired then 1 else 0
  }

  /** Every controller made so far is in exactly one place, and no other number is anywhere. */
  ghost predicate Conserved(pool: PoolValue<nat>, retired: set<nat>, made: nat) {
    forall c: nat :: Places(pool, retired, c) == if c < made then 1 else 0
  }

  ghost predicate PoolInv(s: DaemonState) {
    && Conserved(s.pool, s.retired, s.made)
    && (forall c: nat :: c in s.ctl <==> c < s.made)
    && (Nil in s.pool.available ==> s.pool == PoolValue([Nil], []))
    && |s.pool.available| + |s.pool.handedOut| <= s.maxControllers
    && 1 <= s.maxControllers
  }

  lemma ConservedByChange(pool: PoolValue<nat>, after: PoolValue<nat>, retired: set<nat>, made: nat, launched: bool)
    requires Conserved(pool, retired, made)
    requires forall c: nat :: Count(after, c) <= Count(pool, c) + if launched && c == made then 1 else 0
    requires launched ==> Count(after, made) == 1
    ensures Conserved(after, retired + Dropped(pool, after), if launched then made + 1 else made)
  {
    forall c: nat
      ensures Places(after, retired + Dropped(pool, after), c)
              == if c < (if launched then made + 1 else made) then 1 else 0
    {
      assert Places(pool, retired, c) == if c < made then 1 else 0;
      MembersAreCounted(pool, c);
      MembersAreCounted(after, c);
    }
  }

  lemma MadeIsNew(s: DaemonState)
    requires PoolInv(s)
    ensures Count(s.pool, s.made) == 0 && s.made !in Members(s.pool)
    ensures s.made !in Healthy(s)
  {
    assert Places(s.pool, s.retired, s.made) == 0;
    MembersAreCounted(s.pool, s.made);
  }

  lemma ConservedByGet(pool: PoolValue<nat>, retired: set<nat>, next: nat, healthy: set<nat>, max: nat,
                       made: Option<nat>)
    requires Conserved(pool, retired, next) && Nil !in pool.available
    requires made == Some(next) || made == None
    requires next !in healthy
    ensures var (after, r) := GetPool(pool, healthy, max, made);
            Conserved(after, retired + Dropped(pool, after), if r == Handed(next) then next + 1 else next)
  {
    var (after, r) := GetPool(pool, healthy, max, made);
    assert Places(pool, retired, next) == 0;
    GetHandsOut(pool, healthy, max, made);
    forall c: nat
      ensures Count(after, c) <= Count(pool, c) + if r == Handed(next) && c == next then 1 else 0
    {
      GetCounts(pool, healthy, max, made, c);
    }
    if r == Handed(next) {
      GetCounts(pool, healthy, max, made, next);
    }
    ConservedByChange(pool, after, retired, next, r == Handed(next));
  }

  lemma ConservedByHousekeep(pool: PoolValue<nat>, retired: set<nat>, next: nat, healthy: set<nat>, made: Option<nat>)
    requires Conserved(pool, retired, next) && Nil !in pool.available
    requires made == Some(next) || made == None
    ensures var after := HousekeepPool(pool, healthy, made).value;
            Conserved(after, retired + Dropped(pool, after),
                      if Instance(next) in after.available then next + 1 else next)
  {
    var after := HousekeepPool(pool, healthy, made).value;
    var launched := Instance(next) in after.available;
    assert Places(pool, retired, next) == 0;
    MembersAreCounted(pool, next);
    HousekeepLists(pool, healthy, made);
    forall c: nat
      ensures Count(after, c) <= Count(pool, c) + if launched && c == next then 1 else 0
    {
      HousekeepCounts(pool, healthy, made, c);
      MembersAreCounted(pool, c);
    }
    HousekeepCounts(pool, healthy, made, next);
    ConservedByChange(pool, after, retired, next, launched);
  }

  lemma PoolInvWithPool(s: DaemonState, after: PoolValue<nat>, launched: bool)
    requires PoolInv(s)
    requires Conserved(after, s.retired + Dropped(s.pool, after), if launched then s.made + 1 else s.made)
    requires Nil in after.available ==> after == PoolValue([Nil], [])
    requires |after.available| + |after.handedOut| <= s.maxControllers
    ensures PoolInv(WithPool(s, after, launched))
  {
  }

  /** What Get does to the pool of the daemon, without looking at how. */
  lemma GetOutcome(s: DaemonState, factoryOk: bool) returns (after: PoolValue<nat>, r: GetResult<nat>)
    requires PoolInv(s) && Nil !in s.pool.available
    ensures (after, r) == GetPool(s.pool, Healthy(s), s.maxControllers, if factoryOk then Some(s.made) else None)
    ensures !r.Panicked? && Nil !in after.available
    ensures after.handedOut == s.pool.handedOut + if r.Handed? then [r.c] else []
    ensures r.Handed? ==> r.c == s.made || (Instance(r.c) in s.pool.available && r.c in Healthy(s))
    ensures forall x | x in after.available :: x in s.pool.available
    ensures r.Exhausted? ==> |s.pool.handedOut| >= s.maxControllers
    ensures r.FactoryFailed? ==> !factoryOk
    ensures PoolInv(WithPool(s, after, r == Handed(s.made)))
  {
    var made := if factoryOk then Some(s.made) else None;
    var result := GetPool(s.pool, Healthy(s), s.maxControllers, made);
    after, r := result.0, result.1;
    MadeIsNew(s);
    GetHandsOut(s.pool, Healthy(s), s.maxControllers, made);
    ConservedByGet(s.pool, s.retired, s.made, Healthy(s), s.maxControllers, made);
    PoolInvWithPool(s, after, r == Handed(s.made));
  }

  lemma HandedOutOnce(s: DaemonState, factoryOk: bool)
    requires PoolInv(s) && Nil !in s.pool.available
    ensures var (after, r) := GetPool(s.pool, Healthy(s), s.maxControllers, if factoryOk then Some(s.made) else None);
            r.Handed? ==> Instance(r.c) !in after.available && r.c !in s.pool.handedOut
  {
    MadeIsNew(s);
    forall c | c in Members(s.pool)
      ensures Count(s.pool, c) == 1
    {
      MembersAreCounted(s.pool, c);
      assert Places(s.pool, s.retired, c) <= 1;
    }
    GetHandsOutOnce(s.pool, Healthy(s), s.maxControllers, if factoryOk then Some(s.made) else None);
  }

  lemma PoolInvGet(s: DaemonState, factoryOk: bool)
    requires PoolInv(s) && s.holder.Getting?
    ensures PoolInv(ApplyGet(s, factoryOk))
  {
    if Nil !in s.pool.available {
      var after, r := GetOutcome(s, factoryOk);
    }
  }

  lemma PoolInvHousekeep(s: DaemonState, factoryOk: bool)
    requires PoolInv(s)
    ensures PoolInv(ApplyHousekeep(s, factoryOk))
  {
    if Nil !in s.pool.available {
      var made := if factoryOk then Some(s.made) else None;
      MadeIsNew(s);
      HousekeepLists(s.pool, Healthy(s), made);
      ConservedByHousekeep(s.pool, s.retired, s.made, Healthy(s), made);
      var after := HousekeepPool(s.pool, Healthy(s), made).value;
      PoolInvWithPool(s, after, Instance(s.made) in after.available);
    }
  }

  lemma PoolInvReturn(s: DaemonState)
    requires PoolInv(s) && s.holder.Returning? && s.holder.sid in s.sessions
    ensures PoolInv(ApplyReturn(s))
  {
    var instance := s.sessions[s.holder.sid].ctl;
    var after := ReturnPool(s.pool, instance, s.holder.clean);
    forall c: nat
      ensures Count(after, c) <= Count(s.pool, c)
    {
      ReturnCounts(s.pool, instance, s.holder.clean, c);
    }
    ConservedByChange(s.pool, after, s.retired, s.made, false);
  }

  lemma PoolInvStep(s: DaemonState, a: DaemonAct)
    requires PoolInv(s) && Enabled(s, a)
    ensures PoolInv(Apply(s, a))
  {
    match a
    case CallGet(factoryOk) => PoolInvGet(s, factoryOk);
    case Housekeep(factoryOk) => PoolInvHousekeep(s, factoryOk);
    case CallReturn => PoolInvReturn(s);
    case _ =>
  }

  // ---------------------------------------------------------------- who holds a controller

  /** The session holds the controller, and has not given it back. */
  ghost predicate Holds(s: DaemonState, sid: nat, c: nat) {
    sid in s.sessions && s.sessions[sid].ctl == c && s.holder != Returned(sid)
  }

  ghost predicate InHand(s: DaemonState, c: nat) {
    (s.holder.Holding? && s.holder.c == c) || exists sid :: Holds(s, sid, c)
  }

  ghost predicate Exclusive(s: DaemonState) {
    && (forall i, j | i in s.sessions && j in s.sessions && i != j :: s.sessions[i].ctl != s.sessions[j].ctl)
    && (s.holder.Holding? ==> forall i | i in s.sessions :: s.sessions[i].ctl != s.holder.c)
  }

  ghost predicate HoldInv(s: DaemonState) {
    && Exclusive(s)
    && (forall i | i in s.sessions :: s.sessions[i].ctl < s.made)
    && (s.holder.Holding? ==> s.holder.c < s.made)
    && (forall c: nat | InHand(s, c) :: Instance(c) !in s.pool.available)
    && (forall c: nat | c in s.pool.handedOut :: InHand(s, c))
  }

  /** A step that leaves sessions alone, hands out nothing and adds only new controllers to the list. */
  lemma HoldInvPassiveStep(s: DaemonState, s': DaemonState)
    requires HoldInv(s)
    requires s'.sessions == s.sessions && s.made <= s'.made
    requires s'.holder == s.holder || (Passive(s.holder) && Passive(s'.holder))
    requires forall c: nat | Instance(c) in s'.pool.available :: Instance(c) in s.pool.available || c >= s.made
    requires forall c: nat | c in s'.pool.handedOut :: c in s.pool.handedOut
    ensures HoldInv(s')
  {
    forall c: nat
      ensures InHand(s', c) <==> InHand(s, c)
    {
      assert forall sid :: Holds(s', sid, c) <==> Holds(s, sid, c);
    }
  }

  lemma HoldInvHanding(s: DaemonState, s': DaemonState, c: nat)
    requires HoldInv(s) && s.holder.Getting?
    requires s'.sessions == s.sessions && s'.holder.Holding? && s'.holder.c == c && c < s'.made && s.made <= s'.made
    requires Instance(c) in s.pool.available || c >= s.made
    requires forall x | x in s'.pool.available :: x in s.pool.available && x != Instance(c)
    requires s'.pool.handedOut == s.pool.handedOut + [c]
    ensures HoldInv(s')
  {
    assert forall sid, x :: Holds(s', sid, x) <==> Holds(s, sid, x);
    forall i | i in s.sessions
      ensures s.sessions[i].ctl != c
    {
      assert Holds(s, i, s.sessions[i].ctl);
      assert InHand(s, s.sessions[i].ctl);
    }
    forall x: nat
      ensures InHand(s', x) <==> InHand(s, x) || x == c
    {
    }
  }

  lemma HoldInvAfterGet(s: DaemonState, after: PoolValue<nat>, r: GetResult<nat>)
    requires PoolInv(s) && HoldInv(s) && s.holder.Getting? && !r.Panicked?
    requires after.handedOut == s.pool.handedOut + if r.Handed? then [r.c] else []
    requires r.Handed? ==> r.c == s.made || Instance(r.c) in s.pool.available
    requires forall x | x in after.available :: x in s.pool.available
    requires r.Handed? ==> Instance(r.c) !in after.available
    ensures HoldInv(AfterGet(s, after, r))
  {
    if r.Handed? {
      InstanceWasMade(s, r.c);
      HoldInvHanding(s, AfterGet(s, after, r), r.c);
    } else {
      HoldInvPassiveStep(s, AfterGet(s, after, r));
    }
  }

  lemma HoldInvGet(s: DaemonState, factoryOk: bool)
    requires PoolInv(s) && HoldInv(s) && s.holder.Getting?
    ensures HoldInv(ApplyGet(s, factoryOk))
  {
    if Nil !in s.pool.available {
      var after, r := GetOutcome(s, factoryOk);
      HandedOutOnce(s, factoryOk);
      HoldInvAfterGet(s, after, r);
    } else {
      HoldInvPassiveStep(s, s.(panicked := true));
    }
  }

  lemma InstanceWasMade(s: DaemonState, c: nat)
    requires PoolInv(s)
    ensures c in Members(s.pool) ==> c < s.made
  {
    MembersAreCounted(s.pool, c);
    assert Places(s.pool, s.retired, c) == if c < s.made then 1 else 0;
  }

  lemma HoldInvHousekeep(s: DaemonState, factoryOk: bool)
    requires PoolInv(s) && HoldInv(s)
    ensures HoldInv(ApplyHousekeep(s, factoryOk))
  {
    if Nil !in s.pool.available {
      MadeIsNew(s);
      HousekeepLists(s.pool, Healthy(s), if factoryOk then Some(s.made) else None);
    }
    HoldInvPassiveStep(s, ApplyHousekeep(s, factoryOk));
  }

  lemma HoldInvReturn(s: DaemonState)
    requires PoolInv(s) && HoldInv(s) && s.holder.Returning? && s.holder.sid in s.sessions
    ensures HoldInv(ApplyReturn(s))
  {
    var s' := ApplyReturn(s);
    var mine, instance := s.holder.sid, s.sessions[s.holder.sid].ctl;
    assert Places(s.pool, s.retired, instance) <= 1;
    ReturnLists(s.pool, instance, s.holder.clean);
    forall sid, c
      ensures Holds(s', sid, c) <==> Holds(s, sid, c) && sid != mine
    {
    }
    forall c: nat | InHand(s', c)
      ensures Instance(c) !in s'.pool.available
    {
      assert InHand(s, c);
    }
    forall c: nat | c in s'.pool.handedOut
      ensures InHand(s', c)
    {
      assert InHand(s, c);
    }
  }

  lemma ReturnLists(p: PoolValue<nat>, c: nat, clean: bool)
    requires Count(p, c) <= 1
    ensures var after := ReturnPool(p, c, clean);
            && (forall x | x in after.available :: x in p.available || x == Instance(c))
            && (forall x | x in after.handedOut :: x in p.handedOut && x != c)
  {
    if c in p.handedOut {
      var after := ReturnPool(p, c, clean);
      SwapDeleteRemovesOne(p.handedOut, IndexOf(p.handedOut, c));
      assert c in multiset(p.handedOut);
      forall x | x in after.handedOut
        ensures x in p.handedOut && x != c
      {
        assert x in multiset(after.handedOut);
      }
    }
  }

  lemma HoldInvInsert(s: DaemonState)
    requires HoldInv(s) && GateInv(s) && Enabled(s, Insert)
    ensures HoldInv(Apply(s, Insert))
  {
    var s' := Apply(s, Insert);
    assert forall sid, c :: Holds(s', sid, c) <==> Holds(s, sid, c) || (sid == s.nextSid && c == s.holder.c);
    assert Holds(s', s.nextSid, s.holder.c);
    forall c: nat
      ensures InHand(s', c) <==> InHand(s, c)
    {
    }
  }

  lemma HoldInvDelete(s: DaemonState, wake: Option<nat>)
    requires HoldInv(s) && Enabled(s, Delete(wake))
    ensures HoldInv(Apply(s, Delete(wake)))
  {
    var s' := Apply(s, Delete(wake));
    assert forall sid, c :: Holds(s', sid, c) <==> Holds(s, sid, c);
    forall c: nat
      ensures InHand(s', c) <==> InHand(s, c)
    {
    }
  }

  /** A session's position changes, its controller does not. */
  lemma HoldInvSamePlaces(s: DaemonState, s': DaemonState)
    requires HoldInv(s)
    requires s'.pool == s.pool && s'.made == s.made
    requires s'.holder == s.holder || (Passive(s.holder) && Passive(s'.holder))
    requires s'.sessions.Keys == s.sessions.Keys
    requires forall i | i in s.sessions :: s'.sessions[i].ctl == s.sessions[i].ctl
    ensures HoldInv(s')
  {
    assert forall sid, c :: Holds(s', sid, c) <==> Holds(s, sid, c);
    forall c: nat
      ensures InHand(s', c) <==> InHand(s, c)
    {
    }
  }

  lemma HoldInvStep(s: DaemonState, a: DaemonAct)
    requires PoolInv(s) && HoldInv(s) && GateInv(s) && Enabled(s, a)
    ensures HoldInv(Apply(s, a))
  {
    match a
    case CallGet(factoryOk) => HoldInvGet(s, factoryOk);
    case Housekeep(factoryOk) => HoldInvHousekeep(s, factoryOk);
    case CallReturn => HoldInvReturn(s);
    case Insert => HoldInvInsert(s);
    case Delete(wake) => HoldInvDelete(s, wake);
    case Client(_, _) => HoldInvSession(s, a);
    case BeginDestroy(_) => HoldInvSession(s, a);
    case _ => HoldInvOther(s, a);
  }

  lemma HoldInvSession(s: DaemonState, a: DaemonAct)
    requires HoldInv(s) && Enabled(s, a) && (a.Client? || a.BeginDestroy?)
    ensures HoldInv(Apply(s, a))
  {
    HoldInvSamePlaces(s, Apply(s, a));
  }

  lemma HoldInvOther(s: DaemonState, a: DaemonAct)
    requires HoldInv(s) && Enabled(s, a) && !ChangesMaps(a)
    ensures HoldInv(Apply(s, a))
  {
    hide Enabled, Apply;
    OthersKeepMaps(s, a);
    HoldInvSamePlaces(s, Apply(s, a));
  }

  // ---------------------------------------------------------------- the gate and the wait group

  ghost predicate GateInv(s: DaemonState) {
    && (forall i | i in s.sessions :: i < s.nextSid)
    && |s.sessions| <= 2
    && (s.holder.Getting? || s.holder.Holding? || s.holder.Deleted? ==> |s.sessions| <= 1)
    && s.wg == |s.sessions| - (if s.holder.Inserted? then 1 else 0) + (if s.holder.Deleted? then 1 else 0)
    && (s.holder.Inserted? || s.holder.SettingUp? || s.holder.Tearing? || s.holder.Returning? || s.holder.Returned?
        ==> s.holder.sid in s.sessions)
  }

  lemma GateInvDelete(s: DaemonState, wake: Option<nat>)
    requires GateInv(s) && Enabled(s, Delete(wake))
    ensures GateInv(Apply(s, Delete(wake)))
  {
  }

  lemma GateInvGet(s: DaemonState, factoryOk: bool)
    requires GateInv(s) && s.holder.Getting?
    ensures GateInv(ApplyGet(s, factoryOk))
  {
    var r := GetPool(s.pool, Healthy(s), s.maxControllers, if factoryOk then Some(s.made) else None);
    GateInvAfterGet(s, r.0, r.1);
  }

  lemma GateInvAfterGet(s: DaemonState, after: PoolValue<nat>, r: GetResult<nat>)
    requires GateInv(s) && s.holder.Getting?
    ensures GateInv(AfterGet(s, after, r))
  {
  }

  lemma GateInvSession(s: DaemonState, a: DaemonAct)
    requires GateInv(s) && Enabled(s, a) && (a.Client? || a.BeginDestroy?)
    ensures GateInv(Apply(s, a))
  {
  }

  lemma GateInvWithPool(s: DaemonState, after: PoolValue<nat>, launched: bool)
    requires GateInv(s)
    ensures GateInv(WithPool(s, after, launched))
  {
  }

  lemma GateInvHousekeep(s: DaemonState, factoryOk: bool)
    requires GateInv(s)
    ensures GateInv(ApplyHousekeep(s, factoryOk))
  {
    var after := HousekeepPool(s.pool, Healthy(s), if factoryOk then Some(s.made) else None);
    if after.Some? {
      GateInvWithPool(s, after.value, Instance(s.made) in after.value.available);
    }
  }

  lemma GateInvReturn(s: DaemonState)
    requires GateInv(s) && s.holder.Returning? && s.holder.sid in s.sessions
    ensures GateInv(ApplyReturn(s))
  {
  }

  lemma GateInvInsert(s: DaemonState)
    requires GateInv(s) && Enabled(s, Insert)
    ensures GateInv(Apply(s, Insert))
  {
  }

  lemma GateInvOther(s: DaemonState, a: DaemonAct)
    requires GateInv(s) && Enabled(s, a) && !ChangesMaps(a)
    ensures GateInv(Apply(s, a))
  {
  }

  lemma GateInvStep(s: DaemonState, a: DaemonAct)
    requires GateInv(s) && Enabled(s, a)
    ensures GateInv(Apply(s, a))
  {
    match a
    case CallGet(factoryOk) => GateInvGet(s, factoryOk);
    case Delete(wake) => GateInvDelete(s, wake);
    case Insert => GateInvInsert(s);
    case Client(_, _) => GateInvSession(s, a);
    case BeginDestroy(_) => GateInvSession(s, a);
    case Housekeep(factoryOk) => GateInvHousekeep(s, factoryOk);
    case CallReturn => GateInvReturn(s);
    case _ => GateInvOther(s, a);
  }

  lemma TwoHandedOutAreTwoSessions(s: DaemonState)
    requires PoolInv(s) && HoldInv(s) && !s.holder.Holding? && |s.pool.handedOut| >= 2
    ensures |s.sessions| >= 2
  {
    var c, d := s.pool.handedOut[0], s.pool.handedOut[1];
    assert s.pool.handedOut == [c, d] + s.pool.handedOut[2..];
    assert multiset(s.pool.handedOut)[c] >= if c == d then 2 else 1;
    assert Places(s.pool, s.retired, c) <= 1;
    assert InHand(s, c) && InHand(s, d);
    var i :| Holds(s, i, c);
    var j :| Holds(s, j, d);
    assert |s.sessions| == |s.sessions.Keys| == |s.sessions.Keys - {i, j}| + |{i, j}|;
  }

  /** At the gate: every controller handed out belongs to a session, and there is at most one. */
  lemma AtMostOneHandedOut(s: DaemonState)
    requires PoolInv(s) && HoldInv(s) && GateInv(s) && s.holder.Getting?
    ensures |s.pool.handedOut| <= 1
  {
    if |s.pool.handedOut| >= 2 {
      TwoHandedOutAreTwoSessions(s);
    }
  }

  // ---------------------------------------------------------------- wakeups

  ghost function InFlight(s: DaemonState): nat {
    |s.notified| + if (s.holder.AtGate? || s.holder.Getting? || s.holder.Holding?) && s.holder.resumed then 1 else 0
  }

  ghost predicate WakeInv(s: DaemonState) {
    && s.blocked !! s.notified
    && (s.holder.AtGate? || s.holder.Getting? || s.holder.Holding? ==>
          s.holder.t !in s.blocked && s.holder.t !in s.notified)
    && (s.blocked != {} ==> |s.sessions| + InFlight(s) + s.lost >= 2)
  }

  lemma WakeInvDelete(s: DaemonState, wake: Option<nat>)
    requires WakeInv(s) && GateInv(s) && Enabled(s, Delete(wake))
    ensures WakeInv(Apply(s, Delete(wake)))
  {
  }

  lemma WakeInvAfterGet(s: DaemonState, after: PoolValue<nat>, r: GetResult<nat>)
    requires WakeInv(s) && s.holder.Getting?
    ensures WakeInv(AfterGet(s, after, r))
  {
  }

  lemma WakeInvGet(s: DaemonState, factoryOk: bool)
    requires WakeInv(s) && s.holder.Getting?
    ensures WakeInv(ApplyGet(s, factoryOk))
  {
    var r := GetPool(s.pool, Healthy(s), s.maxControllers, if factoryOk then Some(s.made) else None);
    WakeInvAfterGet(s, r.0, r.1);
  }

  lemma WakeInvWithPool(s: DaemonState, after: PoolValue<nat>, launched: bool)
    requires WakeInv(s)
    ensures WakeInv(WithPool(s, after, launched))
  {
  }

  lemma WakeInvHousekeep(s: DaemonState, factoryOk: bool)
    requires WakeInv(s)
    ensures WakeInv(ApplyHousekeep(s, factoryOk))
  {
    var after := HousekeepPool(s.pool, Healthy(s), if factoryOk then Some(s.made) else None);
    if after.Some? {
      WakeInvWithPool(s, after.value, Instance(s.made) in after.value.available);
    }
  }

  lemma WakeInvReturn(s: DaemonState)
    requires WakeInv(s) && s.holder.Returning? && s.holder.sid in s.sessions
    ensures WakeInv(ApplyReturn(s))
  {
  }

  lemma WakeInvSession(s: DaemonState, a: DaemonAct)
    requires WakeInv(s) && Enabled(s, a) && (a.Client? || a.BeginDestroy?)
    ensures WakeInv(Apply(s, a))
  {
  }

  lemma WakeInvInsert(s: DaemonState)
    requires WakeInv(s) && GateInv(s) && Enabled(s, Insert)
    ensures WakeInv(Apply(s, Insert))
  {
  }

  lemma WakeInvOther(s: DaemonState, a: DaemonAct)
    requires WakeInv(s) && Enabled(s, a) && !ChangesMaps(a)
    ensures WakeInv(Apply(s, a))
  {
  }

  lemma WakeInvStep(s: DaemonState, a: DaemonAct)
    requires WakeInv(s) && GateInv(s) && Enabled(s, a)
    ensures WakeInv(Apply(s, a))
  {
    match a
    case CallGet(factoryOk) => WakeInvGet(s, factoryOk);
    case Delete(wake) => WakeInvDelete(s, wake);
    case Insert => WakeInvInsert(s);
    case Client(_, _) => WakeInvSession(s, a);
    case BeginDestroy(_) => WakeInvSession(s, a);
    case Housekeep(factoryOk) => WakeInvHousekeep(s, factoryOk);
    case CallReturn => WakeInvReturn(s);
    case _ => WakeInvOther(s, a);
  }

  /** While no shutdown has begun and the pool has room for two, only a failing factory loses a wakeup. */
  ghost predicate LostInv(s: DaemonState) {
    s.maxControllers >= 2 && !s.finished ==> s.lost <= s.factoryFailures
  }

  lemma LostInvGet(s: DaemonState, factoryOk: bool)
    requires LostInv(s) && PoolInv(s) && HoldInv(s) && GateInv(s) && s.holder.Getting?
    ensures LostInv(ApplyGet(s, factoryOk))
  {
    if Nil !in s.pool.available {
      AtMostOneHandedOut(s);
      var after, r := GetOutcome(s, factoryOk);
      assert s.maxControllers >= 2 ==> !r.Exhausted?;
      assert LostInv(AfterGet(s, after, r));
    }
  }

  lemma LostInvMaps(s: DaemonState, a: DaemonAct)
    requires LostInv(s) && Enabled(s, a) && ChangesMaps(a) && !a.CallGet? && !a.Housekeep?
    ensures LostInv(Apply(s, a))
  {
  }

  lemma LostInvHousekeep(s: DaemonState, factoryOk: bool)
    requires LostInv(s)
    ensures LostInv(ApplyHousekeep(s, factoryOk))
  {
  }

  lemma LostInvStep(s: DaemonState, a: DaemonAct)
    requires LostInv(s) && PoolInv(s) && HoldInv(s) && GateInv(s) && Enabled(s, a)
    ensures LostInv(Apply(s, a))
  {
    if a.CallGet? {
      LostInvGet(s, a.factoryOk);
    } else if a.Housekeep? {
      LostInvHousekeep(s, a.factoryOk);
    } else {
      hide Enabled, Apply;
      if ChangesMaps(a) {
        LostInvMaps(s, a);
      } else {
        OthersKeepMaps(s, a);
      }
    }
  }
}
