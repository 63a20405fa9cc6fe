/** The session controller, in the form of its source (internal/daemon/session/controller.go). While Create
    sleeps on the condition variable other calls run; while a call holds the mutex, only the housekeeping of
    the pool and the health of the controllers change. */
module SessionControllers {
  import opened Pools

  datatype CreateResult =
    | Created(id: nat) | SetupFailed(id: nat) | ShutdownInProgress | NoController(exhausted: bool) | Asleep | PoolPanic

  datatype DestroyResult = Destroyed | TeardownFailed | NoSuchSession | Panic

  class SessionController {
    const pool: Pool
    var sessions: map<nat, LogstashController>  // the controllers of the sessions, by session id
    var finished: bool
    var wg: int
    var nextId: nat

    ghost predicate Valid()
      reads this, pool, sessions.Values
    {
      && pool.Valid()
      && wg == |sessions| <= 2
      && (forall i | i in sessions :: i < nextId)
      && HealthyAssigned(sessions, pool.assignedControllers)
      && Owned(sessions, pool.availableControllers, pool.assignedControllers)
    }

    /** Each session has a controller of its own, outside the list; only sessions have controllers assigned. */
    static ghost predicate Owned(sessions: map<nat, LogstashController>,
                                 available: seq<Slot<LogstashController>>, handedOut: seq<LogstashController>) {
      && (forall i, j | i in sessions && j in sessions && i != j :: sessions[i] != sessions[j])
      && (forall i | i in sessions :: Instance(sessions[i]) !in available)
      && (forall c | c in handedOut :: OfSession(sessions, c))
    }

    /** Housekeeping reaps only unhealthy controllers. */
    static ghost predicate HealthyAssigned(sessions: map<nat, LogstashController>, handedOut: seq<LogstashController>)
      reads sessions.Values
    {
      forall i | i in sessions :: sessions[i].healthy ==> sessions[i] in handedOut
    }

    static ghost predicate OfSession(sessions: map<nat, LogstashController>, c: LogstashController) {
      exists i :: i in sessions && sessions[i] == c
    }

    ghost function Controllers(): set<LogstashController>
      reads this, pool
    {
      pool.PoolMembers() + sessions.Values
    }

    constructor (pool: Pool)
      requires pool.Valid() && pool.assignedControllers == []
      ensures Valid() && this.pool == pool && sessions == map[] && !finished
    {
      this.pool := pool;
      sessions, finished, wg, nextId := map[], false, 0, 0;
    }

    /** Housekeeping rounds and loss of health, any number of times. */
    method PoolRounds() returns (panicked: bool)
      requires Valid()
      modifies pool, pool.PoolMembers()`healthy
      ensures if panicked then Nil in pool.availableControllers else Valid()
      ensures forall c | c in pool.PoolMembers() :: c in old(pool.PoolMembers()) || fresh(c)
    {
      hide Valid;
      panicked := false;
      var rounds: nat := *;
      while rounds > 0 && !panicked
        invariant if panicked then Nil in pool.availableControllers else Valid()
        invariant forall c | c in pool.PoolMembers() :: c in old(pool.PoolMembers()) || fresh(c)
      {
        LoseHealth();
        panicked := Housekeep();
        rounds := rounds - 1;
      }
    }

    method Housekeep() returns (panicked: bool)
      requires Valid()
      modifies pool
      ensures if panicked then Nil in pool.availableControllers else Valid()
      ensures forall c | c in pool.PoolMembers() :: c in old(pool.PoolMembers()) || fresh(c)
    {
      var factoryOk: bool := *;
      ghost var made;
      panicked, made := pool.Housekeep(factoryOk);
    }

    /** Some controller of the pool, or none, becomes unhealthy. */
    method LoseHealth()
      requires Valid()
      modifies pool.PoolMembers()`healthy
      ensures Valid()
    {
      var i: nat := *;
      if 0 <= i < |pool.assignedControllers| {
        pool.assignedControllers[i].healthy := false;
      } else if 0 <= i < |pool.availableControllers| && pool.availableControllers[i].Instance? {
        pool.availableControllers[i].c.healthy := false;
      }
    }

    /** The part of Create that takes a controller and enters the session in the map. */
    method Register(factoryOk: bool) returns (g: GetResult<LogstashController>)
      requires Valid() && |sessions| <= 1
      modifies this, pool
      ensures if g.Panicked? then Nil in pool.availableControllers else Valid()
      ensures g.FactoryFailed? ==> !factoryOk
      ensures g.Exhausted? || g.FactoryFailed? ==> old(NoneHealthy(pool.availableControllers))
      ensures finished == old(finished)
      ensures if g.Handed? then sessions == old(sessions)[old(nextId) := g.c] && g.c.healthy
                                && (Instance(g.c) in old(pool.availableControllers) || fresh(g.c))
              else sessions == old(sessions)
      ensures pool.assignedControllers == old(pool.assignedControllers) + if g.Handed? then [g.c] else []
      ensures g.Exhausted? ==> pool.maxControllers <= 1
      ensures forall c | c in pool.PoolMembers() :: c in old(pool.PoolMembers()) || fresh(c)
    {
      HandedOutAreSessions();
      ghost var before := (pool.availableControllers, pool.assignedControllers);
      assert forall i | i in sessions :: Instance(sessions[i]) !in before.0;
      ghost var made;
      g, made := pool.Get(factoryOk);
      if g.Handed? {
        OwnedByNewSession(sessions, nextId, g.c, before.0, pool.availableControllers, before.1);
        Enter(g.c);
      }
    }

    method Enter(c: LogstashController)
      requires pool.Valid() && wg == |sessions| <= 1 && forall i | i in sessions :: i < nextId
      requires Owned(sessions[nextId := c], pool.availableControllers, pool.assignedControllers)
      requires c in pool.assignedControllers && HealthyAssigned(sessions, pool.assignedControllers)
      modifies this`sessions, this`nextId, this`wg
      ensures Valid() && sessions == old(sessions)[old(nextId) := c]
    {
      sessions, nextId := sessions[nextId := c], nextId + 1;
      wg := wg + 1;
    }

    ghost predicate NoneHealthy(slots: seq<Slot<LogstashController>>)
      reads Listed(slots)
    {
      forall x | x in slots && x.Instance? :: assert x.c in Listed(slots); !x.c.healthy
    }

    /** Create once it has passed its gate. The pool hands out a controller nobody else has; with room for two it
        refuses only when the factory fails. A session stays in the map even if its setup fails. Whether the factory
        and the setup succeed is decided elsewhere. */
    method Admit(factoryOk: bool, setupOk: bool) returns (r: CreateResult)
      requires Valid() && |sessions| <= 1
      modifies this, pool, pool.PoolMembers()`healthy
      ensures !r.PoolPanic? ==> Valid() && finished == old(finished)
      ensures r.PoolPanic? ==> Nil in pool.availableControllers
      ensures r.Created? || r.SetupFailed? || r.NoController? || r.PoolPanic?
      ensures (r.Created? ==> setupOk) && (r.SetupFailed? ==> !setupOk)
      ensures r.Created? || r.SetupFailed? ==>
                r.id !in old(sessions) && r.id in sessions && sessions == old(sessions)[r.id := sessions[r.id]]
                && (Instance(sessions[r.id]) in old(pool.availableControllers) || fresh(sessions[r.id]))
      ensures r.NoController? ==> sessions == old(sessions) && (r.exhausted || !factoryOk)
      ensures r.NoController? && r.exhausted ==> pool.maxControllers <= 1
      ensures r.NoController? ==> old(NoneHealthy(pool.availableControllers))
      ensures forall c | c in Controllers() :: c in old(Controllers()) || fresh(c)
    {
      var id := nextId;
      var g := Register(factoryOk);
      if g.Panicked? {
        return PoolPanic;
      }
      if !g.Handed? {
        return NoController(g.Exhausted?);
      }
      var panicked := PoolRounds();
      if panicked {
        return PoolPanic;
      }
      return if setupOk then Created(id) else SetupFailed(id);
    }

    lemma HandedOutAreSessions()
      requires Valid()
      ensures |pool.assignedControllers| <= |sessions|
    {
      AtMostOneEach(pool.assignedControllers, sessions);
    }

    /** Whether the teardown succeeds is decided elsewhere. The controller goes back to the list if it does, unless
        housekeeping has reaped it as unhealthy. */
    method DestroyByID(id: nat, tearsDown: bool) returns (r: DestroyResult)
      requires Valid()
      modifies this, pool, pool.PoolMembers()`healthy
      ensures !r.Panic? ==> Valid() && finished == old(finished)
      ensures if r.Panic? then id in old(sessions) && Nil in pool.availableControllers
              else r == if id !in old(sessions) then NoSuchSession else if tearsDown then Destroyed else TeardownFailed
      ensures !r.Panic? ==> sessions == old(sessions) - {id}
      ensures r.Destroyed? || r.TeardownFailed? ==>
                id in old(sessions) && old(sessions)[id] !in pool.assignedControllers
      ensures r.Destroyed? && old(sessions)[id].healthy ==> Instance(old(sessions)[id]) in pool.availableControllers
      ensures r.TeardownFailed? ==> Instance(old(sessions)[id]) !in pool.availableControllers
      ensures forall c | c in Controllers() :: c in old(Controllers()) || fresh(c)
    {
      if id !in sessions {
        assert sessions - {id} == sessions;
        return NoSuchSession;
      }
      var panicked := PoolRounds();
      if panicked {
        return Panic;
      }
      GiveBack(id, tearsDown);
      return if tearsDown then Destroyed else TeardownFailed;
    }

    /** Returns the controller to the pool and deletes the session. */
    method GiveBack(id: nat, clean: bool)
      requires Valid() && id in sessions
      modifies this`sessions, this`wg, pool
      ensures Valid() && sessions == old(sessions) - {id}
      ensures pool.Value() == ReturnPool(old(pool.Value()), old(sessions)[id], clean)
      ensures forall c | c in Controllers() :: c in old(Controllers())
    {
      ghost var before := (pool.availableControllers, pool.assignedControllers);
      hide ReturnPool, Owned, HealthyAssigned;
      pool.Return(sessions[id], clean);
      OwnedByOtherSessions(sessions, id, before.0, pool.availableControllers, before.1, pool.assignedControllers);
      AssignedOfOthers(sessions, id, before.0, before.1, pool.assignedControllers);
      assert pool.PoolMembers() <= old(Controllers()) by {
        assert sessions[id] in sessions.Values;
      }
      Forget(id);
      assert sessions.Values <= old(sessions).Values;
    }

    /** The deferred part of DestroyByID. */
    method Forget(id: nat)
      requires pool.Valid() && id in sessions && wg == |sessions| <= 2 && forall i | i in sessions :: i < nextId
      requires |sessions - {id}| == |sessions| - 1
      requires Owned(sessions - {id}, pool.availableControllers, pool.assignedControllers)
      requires HealthyAssigned(sessions - {id}, pool.assignedControllers)
      modifies this`sessions, this`wg
      ensures Valid() && sessions == old(sessions) - {id}
    {
      sessions := sessions - {id};
      wg := wg - 1;
    }

    /** What other calls may do while a Create sleeps. */
    method OtherCalls() returns (panicked: bool)
      requires Valid()
      modifies this, pool, Controllers()`healthy
      ensures if panicked then Nil in pool.availableControllers else Valid() && (old(finished) ==> finished)
      ensures forall c | c in Controllers() :: c in old(Controllers()) || fresh(c)
    {
      panicked := false;
      var calls: nat := *;
      while calls > 0 && !panicked
        invariant if panicked then Nil in pool.availableControllers else Valid() && (old(finished) ==> finished)
        invariant forall c | c in Controllers() :: c in old(Controllers()) || fresh(c)
      {
        var which: int := *;
        if which == 0 {
          var id: nat, tearsDown: bool := *, *;
          var r := DestroyByID(id, tearsDown);
          panicked := r.Panic?;
        } else if which == 1 && |sessions| <= 1 {
          var factoryOk: bool, setupOk: bool := *, *;
          var r := Admit(factoryOk, setupOk);
          panicked := r.PoolPanic?;
        } else if which == 2 {
          WaitFinish();
        } else {
          panicked := PoolRounds();
        }
        calls := calls - 1;
      }
    }

    /** Marks the shutdown; the channel that is returned closes when the wait group is at zero. */
    method WaitFinish()
      requires Valid()
      modifies this`finished
      ensures Valid() && finished
    {
      finished := true;
    }

    /** Create. It may be woken any number of times, or never again (Asleep); woken after the shutdown it gives up.
        `atGate` are the sessions at the moment when it passes its gate. */
    method Create(factoryOk: bool, setupOk: bool) returns (r: CreateResult, ghost atGate: map<nat, LogstashController>)
      requires Valid()
      modifies this, pool, Controllers()`healthy
      ensures if r.PoolPanic? then Nil in pool.availableControllers else Valid()
      ensures r.ShutdownInProgress? ==> finished
      ensures r.Asleep? || r.ShutdownInProgress? ==> old(|sessions|) > 1
      ensures old(|sessions|) > 1 && (r.Created? || r.SetupFailed? || r.NoController?) ==> !finished
      ensures old(|sessions|) > 1 && old(finished) ==> r.ShutdownInProgress? || r.Asleep? || r.PoolPanic?
      ensures (r.Created? ==> setupOk) && (r.SetupFailed? ==> !setupOk)
      ensures r.Created? || r.SetupFailed? ==>
                |atGate| <= 1 && r.id !in atGate && r.id in sessions && sessions == atGate[r.id := sessions[r.id]]
      ensures r.NoController? ==> |atGate| <= 1 && sessions == atGate && (r.exhausted || !factoryOk)
      ensures r.NoController? && pool.maxControllers >= 2 ==> !r.exhausted
    {
      var wakeups: nat := *;
      while |sessions| > 1
        invariant Valid() && (old(finished) ==> finished)
        invariant forall c | c in Controllers() :: c in old(Controllers()) || fresh(c)
        invariant old(|sessions|) <= 1 ==> |sessions| <= 1
        invariant old(|sessions|) > 1 ==> |sessions| > 1 || !finished
        decreases wakeups
      {
        var panicked := OtherCalls();
        if panicked {
          return PoolPanic, sessions;
        }
        if wakeups <= 0 {
          return Asleep, sessions;
        }
        wakeups := wakeups - 1;
        if finished {
          return ShutdownInProgress, sessions;
        }
      }
      atGate := sessions;
      r := Admit(factoryOk, setupOk);
    }
  }

  lemma OwnedByNewSession(sessions: map<nat, LogstashController>, id: nat, c: LogstashController,
                          before: seq<Slot<LogstashController>>, after: seq<Slot<LogstashController>>,
                          handedOut: seq<LogstashController>)
    requires SessionController.Owned(sessions, before, handedOut) && id !in sessions
    requires forall x | x in after :: x in before
    requires Instance(c) !in after
    requires forall i | i in sessions :: sessions[i] != c
    ensures SessionController.Owned(sessions[id := c], after, handedOut + [c])
    ensures |sessions[id := c]| == |sessions| + 1
  {
    var sessions' := sessions[id := c];
    forall x | x in handedOut + [c]
      ensures SessionController.OfSession(sessions', x)
    {
      if x in handedOut {
        var i :| i in sessions && sessions[i] == x;
        assert sessions'[i] == x;
      } else {
        assert sessions'[id] == x;
      }
    }
  }

  lemma OwnedByOtherSessions(sessions: map<nat, LogstashController>, id: nat,
                             before: seq<Slot<LogstashController>>, after: seq<Slot<LogstashController>>,
                             handedOut: seq<LogstashController>, handedOut': seq<LogstashController>)
    requires SessionController.Owned(sessions, before, handedOut) && id in sessions
    requires forall x | x in after :: x in before || x == Instance(sessions[id])
    requires forall c | c in handedOut' :: c in handedOut && c != sessions[id]
    ensures SessionController.Owned(sessions - {id}, after, handedOut')
    ensures |sessions - {id}| == |sessions| - 1
  {
    var sessions' := sessions - {id};
    assert sessions'.Keys == sessions.Keys - {id};
    assert |sessions'| == |sessions'.Keys| && |sessions| == |sessions.Keys|;
    forall c | c in handedOut'
      ensures SessionController.OfSession(sessions', c)
    {
      var i :| i in sessions && sessions[i] == c;
      assert sessions'[i] == c;
    }
  }

  lemma AssignedOfOthers(sessions: map<nat, LogstashController>, id: nat, available: seq<Slot<LogstashController>>,
                         handedOut: seq<LogstashController>, handedOut': seq<LogstashController>)
    requires SessionController.HealthyAssigned(sessions, handedOut) && id in sessions
    requires SessionController.Owned(sessions, available, handedOut)
    requires forall c :: c in handedOut' <==> c in handedOut && c != sessions[id]
    ensures SessionController.HealthyAssigned(sessions - {id}, handedOut')
  {
  }

  lemma {:induction false} AtMostOneEach(s: seq<LogstashController>, m: map<nat, LogstashController>)
    requires Distinct(s) && forall c | c in s :: SessionController.OfSession(m, c)
    ensures |s| <= |m|
  {
    if s != [] {
      var rest, last := s[..|s| - 1], s[|s| - 1];
      assert SessionController.OfSession(m, last);
      var k :| k in m && m[k] == last;
      var m' := m - {k};
      assert m'.Keys == m.Keys - {k};
      assert |m| == |m.Keys| && |m'| == |m'.Keys|;
      forall c | c in rest
        ensures SessionController.OfSession(m', c)
      {
        assert c in s && SessionController.OfSession(m, c);
        var j :| j in m && m[j] == c;
        assert m'[j] == c;
      }
      AtMostOneEach(rest, m');
    }
  }
}
