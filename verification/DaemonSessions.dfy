/** The protocol of one controller, seen from the sessions of the daemon: because no two sessions share a
    controller, each session may rely on what Protocol proves for a single client. */
module DaemonSessions {
  import opened Options
  import opened Daemon
  import opened Pools
  import opened DaemonProofs
  import Protocol
  import P = ProtocolProofs

  const NOBODY := Protocol.Idle(Protocol.Nothing)

  /** What Protocol proves for the client, of all runs or of quiet runs. */
  ghost predicate KeepsView(quiet: bool, s: Protocol.State) {
    P.AnyInv(s) && (quiet ==> P.Inv(s))
  }

  ghost predicate Keeps(quiet: bool, sh: Protocol.Shared, pc: Protocol.ClientPc) {
    KeepsView(quiet, Protocol.State(sh, pc))
  }

  lemma KeepsEnvStep(quiet: bool, s: Protocol.State, act: Protocol.Act)
    requires KeepsView(quiet, s) && Protocol.EnvEnabled(s.sh, act)
    ensures KeepsView(quiet, s.(sh := Protocol.EnvApply(s.sh, act)))
  {
    P.AnyInvEnvStep(s, act);
    if quiet {
      P.InvEnvStep(s, act);
    }
  }

  lemma KeepsClientStep(quiet: bool, s: Protocol.State, act: Protocol.Act)
    requires KeepsView(quiet, s) && Protocol.ClientEnabled(s, act) && (quiet ==> Protocol.Quiet(s, act))
    ensures KeepsView(quiet, Protocol.ClientApply(s, act))
  {
    P.AnyInvClientStep(s, act);
    if quiet {
      P.InvClientStep(s, act);
    }
  }

  ghost predicate ViewInv(quiet: bool, s: DaemonState) {
    && (forall c | c in s.ctl :: Keeps(quiet, s.ctl[c], NOBODY))
    && (forall i | i in s.sessions ::
          s.sessions[i].ctl in s.ctl && Keeps(quiet, s.ctl[s.sessions[i].ctl], s.sessions[i].pc))
  }

  lemma KeepsCancelled(quiet: bool, sh: Protocol.Shared, pc: Protocol.ClientPc)
    requires Keeps(quiet, sh, pc)
    ensures Keeps(quiet, sh.(ctxDone := true), pc)
  {
  }

  lemma ViewInvWithPool(quiet: bool, s: DaemonState, after: PoolValue<nat>, launched: bool)
    requires ViewInv(quiet, s) && PoolInv(s)
    ensures ViewInv(quiet, WithPool(s, after, launched))
  {
    var s' := WithPool(s, after, launched);
    P.InvLaunched();
    forall c | c in s'.ctl
      ensures Keeps(quiet, s'.ctl[c], NOBODY)
    {
      if c in s.ctl {
        KeepsCancelled(quiet, s.ctl[c], NOBODY);
      }
    }
    forall i | i in s'.sessions
      ensures Keeps(quiet, s'.ctl[s'.sessions[i].ctl], s'.sessions[i].pc)
    {
      KeepsCancelled(quiet, s.ctl[s.sessions[i].ctl], s.sessions[i].pc);
    }
  }

  lemma ViewInvAfterGet(quiet: bool, s: DaemonState, after: PoolValue<nat>, r: GetResult<nat>)
    requires ViewInv(quiet, s) && PoolInv(s) && s.holder.Getting?
    ensures ViewInv(quiet, AfterGet(s, after, r))
  {
    ViewInvWithPool(quiet, s, after, r == Handed(s.made));
  }

  lemma ViewInvGet(quiet: bool, s: DaemonState, factoryOk: bool)
    requires ViewInv(quiet, s) && PoolInv(s) && s.holder.Getting?
    ensures ViewInv(quiet, ApplyGet(s, factoryOk))
  {
    var r := GetPool(s.pool, Healthy(s), s.maxControllers, if factoryOk then Some(s.made) else None);
    ViewInvAfterGet(quiet, s, r.0, r.1);
  }

  lemma ViewInvHousekeep(quiet: bool, s: DaemonState, factoryOk: bool)
    requires ViewInv(quiet, s) && PoolInv(s)
    ensures ViewInv(quiet, ApplyHousekeep(s, factoryOk))
  {
    var after := HousekeepPool(s.pool, Healthy(s), if factoryOk then Some(s.made) else None);
    if after.Some? {
      ViewInvWithPool(quiet, s, after.value, Instance(s.made) in after.value.available);
    }
  }

  lemma ViewInvEnv(quiet: bool, s: DaemonState, c: nat, act: Protocol.Act)
    requires ViewInv(quiet, s) && Enabled(s, Env(c, act))
    ensures ViewInv(quiet, Apply(s, Env(c, act)))
  {
    KeepsEnvStep(quiet, Protocol.State(s.ctl[c], NOBODY), act);
    var s' := Apply(s, Env(c, act));
    forall i | i in s'.sessions
      ensures Keeps(quiet, s'.ctl[s'.sessions[i].ctl], s'.sessions[i].pc)
    {
      assert Keeps(quiet, s.ctl[s.sessions[i].ctl], s.sessions[i].pc);
      if s.sessions[i].ctl == c {
        KeepsEnvStep(quiet, Protocol.State(s.ctl[c], s.sessions[i].pc), act);
      }
    }
  }

  /** One client step of a session leaves every other session's controller alone. */
  lemma ViewInvClient(quiet: bool, s: DaemonState, sid: nat, next: Protocol.State)
    requires ViewInv(quiet, s) && Exclusive(s) && sid in s.sessions
    requires KeepsView(quiet, next)
    ensures ViewInv(quiet, WithView(s, sid, next))
  {
  }

  lemma ViewInvCall(quiet: bool, s: DaemonState, sid: nat, act: Protocol.Act)
    requires ViewInv(quiet, s) && Exclusive(s) && Enabled(s, Client(sid, act)) && (quiet ==> Quiet(s, Client(sid, act)))
    ensures ViewInv(quiet, Apply(s, Client(sid, act)))
  {
    assert Keeps(quiet, ViewOf(s, sid).sh, ViewOf(s, sid).pc);
    KeepsClientStep(quiet, ViewOf(s, sid), act);
    ViewInvClient(quiet, s, sid, Protocol.ClientApply(ViewOf(s, sid), act));
  }

  lemma ViewInvBeginDestroy(quiet: bool, s: DaemonState, sid: nat)
    requires ViewInv(quiet, s) && Enabled(s, BeginDestroy(sid))
    ensures ViewInv(quiet, Apply(s, BeginDestroy(sid)))
  {
    assert Keeps(quiet, ViewOf(s, sid).sh, ViewOf(s, sid).pc);
    KeepsClientStep(quiet, ViewOf(s, sid), Protocol.Begin(Protocol.Tear));
    assert Keeps(quiet, ViewOf(s, sid).sh, Protocol.InWait(Protocol.Tear));
  }

  /** No controller changes, sessions may come and go. */
  lemma ViewInvFrame(quiet: bool, s: DaemonState, s': DaemonState)
    requires ViewInv(quiet, s) && s'.ctl == s.ctl
    requires forall i | i in s'.sessions :: (i in s.sessions && s'.sessions[i] == s.sessions[i])
                                            || (s'.sessions[i].pc == NOBODY && s'.sessions[i].ctl in s.ctl)
    ensures ViewInv(quiet, s')
  {
  }

  lemma ViewInvInsert(quiet: bool, s: DaemonState)
    requires ViewInv(quiet, s) && PoolInv(s) && HoldInv(s) && Enabled(s, Insert)
    ensures ViewInv(quiet, Apply(s, Insert))
  {
  }

  lemma ViewInvReturn(quiet: bool, s: DaemonState)
    requires ViewInv(quiet, s) && s.holder.Returning? && s.holder.sid in s.sessions
    ensures ViewInv(quiet, ApplyReturn(s))
  {
  }

  lemma ViewInvDelete(quiet: bool, s: DaemonState, wake: Option<nat>)
    requires ViewInv(quiet, s) && Enabled(s, Delete(wake))
    ensures ViewInv(quiet, Apply(s, Delete(wake)))
  {
  }

  lemma ViewInvOther(quiet: bool, s: DaemonState, a: DaemonAct)
    requires ViewInv(quiet, s) && Enabled(s, a) && !ChangesMaps(a) && !a.Env?
    ensures ViewInv(quiet, Apply(s, a))
  {
    hide Enabled, Apply;
    OthersKeepMaps(s, a);
    ViewInvFrame(quiet, s, Apply(s, a));
  }

  lemma ViewInvPoolStep(quiet: bool, s: DaemonState, a: DaemonAct)
    requires ViewInv(quiet, s) && PoolInv(s) && Enabled(s, a) && (a.CallGet? || a.Housekeep? || a.CallReturn?)
    ensures ViewInv(quiet, Apply(s, a))
  {
    match a
    case CallGet(factoryOk) => ViewInvGet(quiet, s, factoryOk);
    case Housekeep(factoryOk) => ViewInvHousekeep(quiet, s, factoryOk);
    case CallReturn => ViewInvReturn(quiet, s);
  }

  lemma ViewInvOtherStep(quiet: bool, s: DaemonState, a: DaemonAct)
    requires ViewInv(quiet, s) && PoolInv(s) && HoldInv(s) && Enabled(s, a)
    requires !a.CallGet? && !a.Housekeep? && !a.CallReturn? && !a.Client?
    ensures ViewInv(quiet, Apply(s, a))
  {
    match a
    case Env(c, act) => ViewInvEnv(quiet, s, c, act);
    case BeginDestroy(sid) => ViewInvBeginDestroy(quiet, s, sid);
    case Insert => ViewInvInsert(quiet, s);
    case Delete(wake) => ViewInvDelete(quiet, s, wake);
    case _ => ViewInvOther(quiet, s, a);
  }

  lemma ViewInvStep(quiet: bool, s: DaemonState, a: DaemonAct)
    requires ViewInv(quiet, s) && PoolInv(s) && HoldInv(s) && Enabled(s, a) && (quiet ==> Quiet(s, a))
    ensures ViewInv(quiet, Apply(s, a))
  {
    if a.Client? {
      ViewInvCall(quiet, s, a.sid, a.act);
    } else if a.CallGet? || a.Housekeep? || a.CallReturn? {
      ViewInvPoolStep(quiet, s, a);
    } else {
      ViewInvOtherStep(quiet, s, a);
    }
  }
}
