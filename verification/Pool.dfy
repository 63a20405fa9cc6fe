/** The pool of Logstash controllers (internal/daemon/pool/pool.go). */
module Pools {
  import opened Options

  /** A value of the controller interface: nil, or an instance. */
  datatype Slot<C> = Nil | Instance(c: C)

  datatype PoolValue<C> = PoolValue(available: seq<Slot<C>>, handedOut: seq<C>)

  datatype GetResult<C> = Handed(c: C) | FactoryFailed | Exhausted | Panicked

  // ---------------------------------------------------------------- delete without preserving order

  function SwapDelete<T>(s: seq<T>, i: nat): seq<T>
    requires i < |s|
  {
    s[i := s[|s| - 1]][..|s| - 1]
  }

  /** The sweep from index i on: the last element takes the place of an unhealthy one. */
  function Sweep<T(==)>(s: seq<T>, i: nat, healthy: set<T>): seq<T>
    requires i <= |s|
    decreases |s| - i
  {
    if i == |s| then s
    else if s[i] in healthy then Sweep(s, i + 1, healthy)
    else Sweep(SwapDelete(s, i), i, healthy)
  }

  /** The elements that sweep kills, in order. */
  function Killed<T(==)>(s: seq<T>, i: nat, healthy: set<T>): seq<T>
    requires i <= |s|
    decreases |s| - i
  {
    if i == |s| then []
    else if s[i] in healthy then Killed(s, i + 1, healthy)
    else [s[i]] + Killed(SwapDelete(s, i), i, healthy)
  }

  lemma SwapDeleteRemovesOne<T>(s: seq<T>, i: nat)
    requires i < |s|
    ensures multiset(SwapDelete(s, i)) == multiset(s) - multiset{s[i]}
  {
    var last := |s| - 1;
    assert s == s[..last] + [s[last]];
    if i < last {
      assert s[..last] == s[..i] + [s[i]] + s[i + 1..last];
      assert SwapDelete(s, i) == s[..i] + [s[last]] + s[i + 1..last];
    } else {
      assert SwapDelete(s, i) == s[..last];
    }
  }

  /** Although it reorders the list under its own index, the sweep visits every element: what remains is
      the multiset of the healthy ones. */
  lemma {:induction false} SweepKeepsExactlyHealthy<T>(s: seq<T>, i: nat, healthy: set<T>)
    requires i <= |s|
    requires forall j :: 0 <= j < i ==> s[j] in healthy
    ensures forall x :: multiset(Sweep(s, i, healthy))[x] == if x in healthy then multiset(s)[x] else 0
    decreases |s| - i
  {
    if i == |s| {
      forall x | x !in healthy
        ensures multiset(s)[x] == 0
      {
        assert x !in s;
      }
    } else if s[i] in healthy {
      SweepKeepsExactlyHealthy(s, i + 1, healthy);
    } else {
      SwapDeleteRemovesOne(s, i);
      SweepKeepsExactlyHealthy(SwapDelete(s, i), i, healthy);
    }
  }

  /** Every element is either kept or killed, and killed as often as it is listed. */
  lemma {:induction false} SweepKillsTheOthers<T>(s: seq<T>, i: nat, healthy: set<T>)
    requires i <= |s|
    ensures multiset(Killed(s, i, healthy)) + multiset(Sweep(s, i, healthy)) == multiset(s)
    decreases |s| - i
  {
    if i < |s| && s[i] in healthy {
      SweepKillsTheOthers(s, i + 1, healthy);
    } else if i < |s| {
      var rest := SwapDelete(s, i);
      SwapDeleteRemovesOne(s, i);
      SweepKillsTheOthers(rest, i, healthy);
      calc {
        multiset(Killed(s, i, healthy)) + multiset(Sweep(s, i, healthy));
        multiset([s[i]] + Killed(rest, i, healthy)) + multiset(Sweep(rest, i, healthy));
        multiset{s[i]} + (multiset(Killed(rest, i, healthy)) + multiset(Sweep(rest, i, healthy)));
        multiset{s[i]} + multiset(rest);
        multiset(s);
      }
    }
  }

  lemma {:induction false} SweepLooksOnlyAtElements<T>(s: seq<T>, i: nat, h1: set<T>, h2: set<T>)
    requires i <= |s|
    requires forall x | x in s :: x in h1 <==> x in h2
    ensures Sweep(s, i, h1) == Sweep(s, i, h2)
    decreases |s| - i
  {
    if i < |s| && s[i] in h1 {
      SweepLooksOnlyAtElements(s, i + 1, h1, h2);
    } else if i < |s| {
      SweepLooksOnlyAtElements(SwapDelete(s, i), i, h1, h2);
    }
  }

  // ---------------------------------------------------------------- the operations

  function Slots<C>(healthy: set<C>): set<Slot<C>> {
    set c | c in healthy :: Instance(c)
  }

  function SweptAvailable<C(==)>(p: PoolValue<C>, healthy: set<C>): seq<Slot<C>> {
    Sweep(p.available, 0, Slots(healthy))
  }

  lemma SweptAvailableCounts<C>(p: PoolValue<C>, healthy: set<C>)
    ensures forall c :: multiset(SweptAvailable(p, healthy))[Instance(c)]
                        == if c in healthy then multiset(p.available)[Instance(c)] else 0
    ensures forall x | x in SweptAvailable(p, healthy) :: x.Instance? && x.c in healthy && x in p.available
  {
    SweepKeepsExactlyHealthy(p.available, 0, Slots(healthy));
    forall x | x in SweptAvailable(p, healthy)
      ensures x.Instance? && x.c in healthy && x in p.available
    {
      SweptMember(p.available, Slots(healthy), x);
    }
  }

  lemma SweptAvailableCount<C>(p: PoolValue<C>, healthy: set<C>, c: C)
    ensures multiset(SweptAvailable(p, healthy))[Instance(c)]
            == if c in healthy then multiset(p.available)[Instance(c)] else 0
    ensures SweptAvailable(p, healthy) != [] ==> SweptAvailable(p, healthy)[0].Instance?
  {
    SweptAvailableCounts(p, healthy);
    if SweptAvailable(p, healthy) != [] {
      assert SweptAvailable(p, healthy)[0] in SweptAvailable(p, healthy);
    }
  }

  lemma SweptMember<T>(s: seq<T>, healthy: set<T>, x: T)
    requires x in Sweep(s, 0, healthy)
    ensures x in healthy && x in s
  {
    SweepKeepsExactlyHealthy(s, 0, healthy);
    assert multiset(Sweep(s, 0, healthy))[x] > 0;
  }

  /** Get. A nil in the list makes the first sweep panic. */
  function GetPool<C(==)>(p: PoolValue<C>, healthy: set<C>, maxControllers: nat, made: Option<C>)
    : (PoolValue<C>, GetResult<C>)
  {
    if Nil in p.available then (p, Panicked) else
    SweptAvailableCounts(p, healthy);
    var swept := SweptAvailable(p, healthy);
    if swept != [] then
      assert swept[0] in swept;
      (PoolValue(swept[1..], p.handedOut + [swept[0].c]), Handed(swept[0].c))
    else if |p.handedOut| < maxControllers then
      match made
      case Some(c) => (PoolValue([], p.handedOut + [c]), Handed(c))
      case None => (PoolValue([], p.handedOut), FactoryFailed)
    else (PoolValue([], p.handedOut), Exhausted)
  }

  function IndexOf<C(==)>(s: seq<C>, c: C): (i: nat)
    ensures i <= |s|
    ensures i < |s| ==> s[i] == c
    ensures i == |s| <==> c !in s
  {
    if s == [] then 0 else if s[0] == c then 0 else 1 + IndexOf(s[1..], c)
  }

  lemma {:induction false} IndexOfIs<C>(s: seq<C>, i: nat)
    requires i < |s| && s[i] !in s[..i]
    ensures IndexOf(s, s[i]) == i
  {
    if i > 0 {
      assert s[0] in s[..i];
      assert s[1..][..i - 1] == s[..i][1..];
      IndexOfIs(s[1..], i - 1);
    }
  }

  /** Return. An instance that housekeeping has removed meanwhile is not found. */
  function ReturnPool<C(==)>(p: PoolValue<C>, c: C, clean: bool): PoolValue<C> {
    if c !in p.handedOut then p else
    PoolValue(if clean then p.available + [Instance(c)] else p.available,
              SwapDelete(p.handedOut, IndexOf(p.handedOut, c)))
  }

  /** One round of housekeeping; None is a panic. The result of a failed factory call is appended too. */
  function HousekeepPool<C(==)>(p: PoolValue<C>, healthy: set<C>, made: Option<C>): Option<PoolValue<C>> {
    if Nil in p.available then None else
    var available := SweptAvailable(p, healthy);
    var handedOut := Sweep(p.handedOut, 0, healthy);
    if available == [] && handedOut == [] then
      Some(PoolValue([if made.Some? then Instance(made.value) else Nil], []))
    else Some(PoolValue(available, handedOut))
  }

  // ---------------------------------------------------------------- where an instance is

  function Members<C(==)>(p: PoolValue<C>): set<C> {
    (set x | x in p.available && x.Instance? :: x.c) + set c | c in p.handedOut
  }

  /** How often an instance is listed. */
  ghost function Count<C>(p: PoolValue<C>, c: C): nat {
    multiset(p.available)[Instance(c)] + multiset(p.handedOut)[c]
  }

  lemma MembersAreCounted<C>(p: PoolValue<C>, c: C)
    ensures c in Members(p) <==> Count(p, c) > 0
  {
  }

  /** Get drops the unhealthy available instances, adds at most the one the factory made, and keeps every
      other instance as often as it was listed. */
  lemma GetCounts<C>(p: PoolValue<C>, healthy: set<C>, max: nat, made: Option<C>, c: C)
    requires Nil !in p.available
    ensures var (after, r) := GetPool(p, healthy, max, made);
            Count(after, c) == multiset(p.handedOut)[c]
                               + (if c in healthy then multiset(p.available)[Instance(c)] else 0)
                               + (if SweptAvailable(p, healthy) == [] && r == Handed(c) then 1 else 0)
  {
    SweptAvailableCount(p, healthy, c);
    var swept := SweptAvailable(p, healthy);
    if swept != [] {
      assert swept == [swept[0]] + swept[1..];
      assert multiset(swept) == multiset{swept[0]} + multiset(swept[1..]);
    }
  }

  lemma GetHandsOut<C>(p: PoolValue<C>, healthy: set<C>, max: nat, made: Option<C>)
    requires Nil !in p.available
    ensures var (after, r) := GetPool(p, healthy, max, made);
            && !r.Panicked? && Nil !in after.available
            && after.handedOut == p.handedOut + (if r.Handed? then [r.c] else [])
            && (r.Handed? ==> if SweptAvailable(p, healthy) != [] then Instance(r.c) in p.available && r.c in healthy
                              else made == Some(r.c))
            && (forall x | x in after.available :: x in p.available)
            && (r.Exhausted? ==> |p.handedOut| >= max)
            && (|p.available| + |p.handedOut| <= max ==> |after.available| + |after.handedOut| <= max)
  {
    SweptAvailableCounts(p, healthy);
    SweepIsNoLonger(p.available, 0, Slots(healthy));
    var swept := SweptAvailable(p, healthy);
    if swept != [] {
      assert swept[0] in swept;
    }
  }

  ghost predicate SomeHealthy<C>(p: PoolValue<C>, healthy: set<C>) {
    exists x :: x in p.available && x.Instance? && x.c in healthy
  }

  /** When Get answers what. */
  lemma GetAnswers<C>(p: PoolValue<C>, healthy: set<C>, max: nat, made: Option<C>)
    requires Nil !in p.available
    ensures var r := GetPool(p, healthy, max, made).1;
            && (r.Handed? <==> SomeHealthy(p, healthy) || (|p.handedOut| < max && made.Some?))
            && (r.FactoryFailed? <==> !SomeHealthy(p, healthy) && |p.handedOut| < max && made.None?)
            && (r.Exhausted? <==> !SomeHealthy(p, healthy) && |p.handedOut| >= max)
  {
    SweptAvailableCounts(p, healthy);
    var swept := SweptAvailable(p, healthy);
    if swept != [] {
      assert swept[0] in swept;
    }
    if SomeHealthy(p, healthy) {
      var x :| x in p.available && x.Instance? && x.c in healthy;
      assert multiset(swept)[Instance(x.c)] > 0;
    }
  }

  /** While all available instances are healthy, Get takes the one that is available longest: Return appends. */
  lemma GetTakesOldest<C>(p: PoolValue<C>, healthy: set<C>, max: nat, made: Option<C>)
    requires p.available != [] && forall x | x in p.available :: x.Instance? && x.c in healthy
    ensures p.available[0] in p.available
    ensures var c := p.available[0].c;
            GetPool(p, healthy, max, made) == (PoolValue(p.available[1..], p.handedOut + [c]), Handed(c))
  {
    assert p.available[0] in p.available;
    SweepOfHealthy(p.available, 0, Slots(healthy));
  }

  /** A sweep that drops the oldest changes the order: the youngest takes its place. */
  lemma GetAfterSweep<C>(p: PoolValue<C>, healthy: set<C>, max: nat, made: Option<C>)
    requires |p.available| >= 2 && p.available[0].Instance? && p.available[0].c !in healthy
    requires forall x | x in p.available[1..] :: x.Instance? && x.c in healthy
    ensures var n := |p.available| - 1;
            p.available[n] in p.available[1..]
            && GetPool(p, healthy, max, made)
               == (PoolValue(p.available[1..n], p.handedOut + [p.available[n].c]), Handed(p.available[n].c))
  {
    var s, n := p.available, |p.available| - 1;
    assert s == [s[0]] + s[1..] && s[n] == s[1..][n - 1];
    var swept := SwapDelete(s, 0);
    assert swept == [s[n]] + s[1..n];
    forall x | x in swept
      ensures x in Slots(healthy)
    {
      assert x in s[1..] by {
        if x != s[n] {
          var i :| 0 <= i < |s[1..n]| && s[1..n][i] == x;
          assert s[1..][i] == x;
        }
      }
    }
    SweepOfHealthy(swept, 0, Slots(healthy));
    assert Instance(s[0].c) !in Slots(healthy);
  }

  lemma {:induction false} SweepOfHealthy<T>(s: seq<T>, i: nat, healthy: set<T>)
    requires i <= |s| && forall x | x in s :: x in healthy
    ensures Sweep(s, i, healthy) == s
    decreases |s| - i
  {
    if i < |s| {
      SweepOfHealthy(s, i + 1, healthy);
    }
  }

  /** The instance that Get hands out was not handed out before, and leaves the list. */
  lemma GetHandsOutOnce<C>(p: PoolValue<C>, healthy: set<C>, max: nat, made: Option<C>)
    requires Nil !in p.available && (made.Some? ==> Count(p, made.value) == 0)
    requires forall c | c in Members(p) :: Count(p, c) == 1
    ensures var (after, r) := GetPool(p, healthy, max, made);
            r.Handed? ==> r.c !in p.handedOut && Instance(r.c) !in after.available
  {
    var (after, r) := GetPool(p, healthy, max, made);
    GetHandsOut(p, healthy, max, made);
    if r.Handed? {
      GetCounts(p, healthy, max, made, r.c);
      MembersAreCounted(p, r.c);
      assert multiset(after.handedOut) == multiset(p.handedOut) + multiset{r.c};
    }
  }

  lemma {:induction false} SweepIsNoLonger<T>(s: seq<T>, i: nat, healthy: set<T>)
    requires i <= |s|
    ensures |Sweep(s, i, healthy)| <= |s|
    decreases |s| - i
  {
    if i < |s| && s[i] in healthy {
      SweepIsNoLonger(s, i + 1, healthy);
    } else if i < |s| {
      SweepIsNoLonger(SwapDelete(s, i), i, healthy);
    }
  }

  lemma SweepOfUnhealthy<T>(s: seq<T>, healthy: set<T>)
    requires forall x | x in s :: x !in healthy
    ensures Sweep(s, 0, healthy) == []
  {
    if Sweep(s, 0, healthy) != [] {
      SweptMember(s, healthy, Sweep(s, 0, healthy)[0]);
    }
  }

  /** The sweeps of housekeeping leave nothing exactly if no member is healthy. */
  lemma NothingLeftIff<C>(p: PoolValue<C>, healthy: set<C>)
    ensures SweptAvailable(p, healthy) == [] && Sweep(p.handedOut, 0, healthy) == [] <==> Members(p) !! healthy
  {
    if Members(p) !! healthy {
      SweepOfUnhealthy(p.available, Slots(healthy));
      SweepOfUnhealthy(p.handedOut, healthy);
    } else {
      var c :| c in Members(p) && c in healthy;
      SweptAvailableCount(p, healthy, c);
      SweepKeepsExactlyHealthy(p.handedOut, 0, healthy);
      if c in p.handedOut {
        assert multiset(Sweep(p.handedOut, 0, healthy))[c] > 0;
      } else {
        assert multiset(SweptAvailable(p, healthy))[Instance(c)] > 0;
      }
    }
  }

  /** Housekeeping keeps the healthy members as often as they were listed, drops the others, and adds what the factory
      made exactly if no member is healthy. */
  lemma HousekeepCounts<C>(p: PoolValue<C>, healthy: set<C>, made: Option<C>, c: C)
    requires Nil !in p.available && (made.Some? ==> made.value !in Members(p))
    ensures var after := HousekeepPool(p, healthy, made);
            && after.Some?
            && Count(after.value, c) == (if c in healthy then Count(p, c) else 0)
                                        + (if made == Some(c) && Members(p) !! healthy then 1 else 0)
            && (Instance(c) in after.value.available && c !in Members(p)
                <==> made == Some(c) && Members(p) !! healthy)
  {
    SweptAvailableCount(p, healthy, c);
    SweepKeepsExactlyHealthy(p.handedOut, 0, healthy);
    NothingLeftIff(p, healthy);
    var swept, kept := SweptAvailable(p, healthy), Sweep(p.handedOut, 0, healthy);
    assert multiset(kept)[c] == if c in healthy then multiset(p.handedOut)[c] else 0;
    MembersAreCounted(p, c);
    if swept == [] && kept == [] {
      assert multiset(swept)[Instance(c)] == 0;
      assert multiset(kept)[c] == 0;
    } else {
      MembersAreCounted(PoolValue(swept, kept), c);
    }
  }

  lemma HousekeepLists<C>(p: PoolValue<C>, healthy: set<C>, made: Option<C>)
    requires Nil !in p.available
    ensures var after := HousekeepPool(p, healthy, made).value;
            && (forall c | Instance(c) in after.available :: Instance(c) in p.available || made == Some(c))
            && (forall c | c in after.handedOut :: c in p.handedOut && c in healthy)
            && (Nil in after.available ==> made.None? && after == PoolValue([Nil], []))
            && (after.available != [] || after.handedOut != [])
            && |after.available| + |after.handedOut|
               <= if |p.available| + |p.handedOut| == 0 then 1 else |p.available| + |p.handedOut|
  {
    SweptAvailableCounts(p, healthy);
    SweepIsNoLonger(p.available, 0, Slots(healthy));
    SweepIsNoLonger(p.handedOut, 0, healthy);
    forall c | c in Sweep(p.handedOut, 0, healthy)
      ensures c in p.handedOut && c in healthy
    {
      SweptMember(p.handedOut, healthy, c);
    }
  }

  /** Housekeeping leaves a nil behind exactly when no controller is healthy and the factory fails. */
  lemma HousekeepLeavesNil<C>(p: PoolValue<C>, healthy: set<C>, made: Option<C>)
    requires Nil !in p.available && (made.Some? ==> made.value !in Members(p))
    ensures Nil in HousekeepPool(p, healthy, made).value.available <==> made.None? && Members(p) !! healthy
  {
    SweptAvailableCounts(p, healthy);
    NothingLeftIff(p, healthy);
  }

  lemma ReturnCounts<C>(p: PoolValue<C>, c: C, clean: bool, x: C)
    ensures Count(ReturnPool(p, c, clean), x)
            == Count(p, x) - if x == c && c in p.handedOut && !clean then 1 else 0
  {
    if c in p.handedOut {
      SwapDeleteRemovesOne(p.handedOut, IndexOf(p.handedOut, c));
      assert c in multiset(p.handedOut);
    }
  }

  // ---------------------------------------------------------------- the class

  /** A controller, as far as the pool looks at it. */
  class LogstashController {
    var healthy: bool

    constructor ()
      ensures healthy
    {
      healthy := true;
    }

    method IsHealthy() returns (h: bool)
      ensures h == healthy
    {
      h := healthy;
    }
  }

  ghost predicate Distinct<T>(s: seq<T>) {
    forall i, j :: 0 <= i < j < |s| ==> s[i] != s[j]
  }

  lemma DistinctAfterSwapDelete<T>(s: seq<T>, i: nat)
    requires i < |s| && Distinct(s)
    ensures Distinct(SwapDelete(s, i))
    ensures forall x :: x in SwapDelete(s, i) <==> x in s && x != s[i]
  {
    var d := SwapDelete(s, i);
    forall x | x in s && x != s[i]
      ensures x in d
    {
      var k :| 0 <= k < |s| && s[k] == x;
      assert d[if k == |s| - 1 then i else k] == x;
    }
  }

  ghost function Listed<C>(slots: seq<Slot<C>>): set<C> {
    set x | x in slots && x.Instance? :: x.c
  }

  ghost function ToSet<C>(s: seq<C>): set<C> {
    set c | c in s
  }

  function ToSlots<C>(s: seq<C>): seq<Slot<C>> {
    seq(|s|, i requires 0 <= i < |s| => Instance(s[i]))
  }

  ghost function HealthyAmong(cs: set<LogstashController>): set<LogstashController>
    reads cs
  {
    set c | c in cs && c.healthy
  }

  /** Where a sweep of `all` stands when it has reached index i of `current`. */
  ghost predicate Sweeping<T>(current: seq<T>, i: nat, killed: seq<T>, all: seq<T>, healthy: set<T>) {
    && i <= |current| && Distinct(current)
    && (forall x | x in current :: x in all)
    && (forall j :: 0 <= j < i ==> current[j] in healthy)
    && (forall x | x in all && x in healthy :: x in current)
    && Sweep(current, i, healthy) == Sweep(all, 0, healthy)
    && killed + Killed(current, i, healthy) == Killed(all, 0, healthy)
  }

  lemma SweepDrops<T>(current: seq<T>, i: nat, killed: seq<T>, all: seq<T>, healthy: set<T>)
    requires Sweeping(current, i, killed, all, healthy) && i < |current| && current[i] !in healthy
    ensures Sweeping(SwapDelete(current, i), i, killed + [current[i]], all, healthy)
    ensures forall x :: x in SwapDelete(current, i) <==> x in current && x != current[i]
  {
    DistinctAfterSwapDelete(current, i);
  }

  lemma SweepKeeps<T>(current: seq<T>, i: nat, killed: seq<T>, all: seq<T>, healthy: set<T>)
    requires Sweeping(current, i, killed, all, healthy) && i < |current| && current[i] in healthy
    ensures Sweeping(current, i + 1, killed, all, healthy)
  {
  }

  lemma SweepKeepsHealthy<T>(s: seq<T>, healthy: set<T>)
    ensures forall x | x in s && x in healthy :: x in Sweep(s, 0, healthy)
  {
    SweepKeepsExactlyHealthy(s, 0, healthy);
    forall x | x in s && x in healthy
      ensures x in Sweep(s, 0, healthy)
    {
      assert multiset(Sweep(s, 0, healthy))[x] > 0;
    }
  }

  class Pool {
    const maxControllers: nat
    var availableControllers: seq<Slot<LogstashController>>
    var assignedControllers: seq<LogstashController>
    var killed: seq<Slot<LogstashController>>  // the calls of Kill, oldest first

    ghost function Value(): PoolValue<LogstashController>
      reads this
    {
      PoolValue(availableControllers, assignedControllers)
    }

    ghost function PoolMembers(): set<LogstashController>
      reads this
    {
      Listed(availableControllers) + set c | c in assignedControllers
    }

    /** No instance is listed twice. */
    ghost predicate Valid()
      reads this
    {
      && Distinct(availableControllers) && Distinct(assignedControllers)
      && forall c | c in assignedControllers :: Instance(c) !in availableControllers
    }

    /** New; the pool is only built when the factory succeeds. */
    constructor (size: int)
      ensures Valid() && maxControllers == if size < 1 then 1 else size
      ensures |availableControllers| == 1 && assignedControllers == []
      ensures availableControllers[0].Instance? && fresh(availableControllers[0].c)
      ensures availableControllers[0].c.healthy && killed == []
    {
      maxControllers := if size < 1 then 1 else size;
      var instance := new LogstashController();
      availableControllers := [Instance(instance)];
      assignedControllers := [];
      killed := [];
    }

    /** Removes and kills the unhealthy instances of the available list; panics on a nil. */
    method SweepAvailable() returns (panicked: bool)
      requires Valid()
      modifies this`availableControllers, this`killed
      ensures panicked <==> Nil in old(availableControllers)
      ensures panicked ==> Nil in availableControllers
      ensures !panicked ==> Valid() && Nil !in availableControllers
      ensures forall x | x in availableControllers :: x in old(availableControllers)
      ensures !panicked ==>
                availableControllers == SweptAvailable(old(Value()), old(HealthyAmong(Listed(availableControllers))))
      ensures !panicked ==>
                var healthy := old(HealthyAmong(Listed(availableControllers)));
                killed == old(killed) + Killed(old(availableControllers), 0, Slots(healthy))
    {
      ghost var all := availableControllers;
      ghost var healthy := HealthyAmong(Listed(all));
      ghost var dropped := [];
      var i := 0;
      while i < |availableControllers|
        invariant 0 <= i && killed == old(killed) + dropped
        invariant Sweeping(availableControllers, i, dropped, all, Slots(healthy))
        invariant Nil in all ==> Nil in availableControllers
        decreases |availableControllers| - i
      {
        if availableControllers[i] == Nil {
          return true;
        }
        var instance := availableControllers[i].c;
        assert instance in Listed(all);
        var isHealthy := instance.IsHealthy();
        if !isHealthy {
          ghost var next := SwapDelete(availableControllers, i);
          SweepDrops(availableControllers, i, dropped, all, Slots(healthy));
          killed, dropped := killed + [availableControllers[i]], dropped + [availableControllers[i]];
          availableControllers := availableControllers[i := availableControllers[|availableControllers| - 1]];
          availableControllers := availableControllers[..|availableControllers| - 1];
          assert availableControllers == next;
          i := i - 1;
        } else {
          SweepKeeps(availableControllers, i, dropped, all, Slots(healthy));
        }
        i := i + 1;
      }
      return false;
    }

    /** The same loop over the assigned list. */
    method SweepAssigned()
      requires Valid()
      modifies this`assignedControllers, this`killed
      ensures var all, healthy := old(assignedControllers), old(HealthyAmong(ToSet(assignedControllers)));
              && assignedControllers == Sweep(all, 0, healthy)
              && killed == old(killed) + ToSlots(Killed(all, 0, healthy))
      ensures Valid() && forall c | c in assignedControllers :: c in old(assignedControllers)
    {
      ghost var all := assignedControllers;
      ghost var healthy := HealthyAmong(ToSet(all));
      ghost var dropped := [];
      var i := 0;
      while i < |assignedControllers|
        invariant 0 <= i && killed == old(killed) + ToSlots(dropped)
        invariant Sweeping(assignedControllers, i, dropped, all, healthy)
        decreases |assignedControllers| - i
      {
        var instance := assignedControllers[i];
        assert instance in all;
        var isHealthy := instance.IsHealthy();
        if !isHealthy {
          ghost var next := SwapDelete(assignedControllers, i);
          SweepDrops(assignedControllers, i, dropped, all, healthy);
          killed := killed + [Instance(instance)];
          dropped := dropped + [instance];
          assignedControllers := assignedControllers[i := assignedControllers[|assignedControllers| - 1]];
          assignedControllers := assignedControllers[..|assignedControllers| - 1];
          assert assignedControllers == next;
          i := i - 1;
        } else {
          SweepKeeps(assignedControllers, i, dropped, all, healthy);
        }
        i := i + 1;
      }
      assert dropped + [] == dropped;
    }

    /** `factoryOk` says what the factory would answer; `made` is what it made, if it was called. */
    method Get(factoryOk: bool) returns (r: GetResult<LogstashController>, ghost made: Option<LogstashController>)
      requires Valid()
      modifies this
      ensures var (after, result) :=
                GetPool(old(Value()), old(HealthyAmong(Listed(availableControllers))), maxControllers, made);
              r == result && (!r.Panicked? ==> Valid() && Value() == after)
      ensures made.Some? ==> factoryOk && fresh(made.value) && made.value.healthy && r == Handed(made.value)
      ensures r.FactoryFailed? ==> !factoryOk
      ensures r.Handed? ==> Instance(r.c) !in availableControllers && r.c.healthy
      ensures r.Handed? ==> made == Some(r.c) || Instance(r.c) in old(availableControllers)
      ensures assignedControllers == old(assignedControllers) + if r.Handed? then [r.c] else []
      ensures forall x | x in availableControllers :: x in old(availableControllers)
      ensures r.Exhausted? ==> |assignedControllers| >= maxControllers
      ensures r.Panicked? <==> Nil in old(availableControllers)
      ensures r.Panicked? ==> Nil in availableControllers
      ensures r.Exhausted? || r.FactoryFailed? ==>
                forall x | x in old(availableControllers) :: x.Instance? && !old(x.c.healthy)
      ensures !r.Panicked? ==>
                var healthy := old(HealthyAmong(Listed(availableControllers)));
                killed == old(killed) + Killed(old(availableControllers), 0, Slots(healthy))
    {
      made := None;
      var panicked := SweepAvailable();
      if panicked {
        return Panicked, made;
      }
      ghost var healthy := old(HealthyAmong(Listed(availableControllers)));
      SweepKeepsHealthy(old(availableControllers), Slots(healthy));
      if |availableControllers| > 0 {
        SweptMember(old(availableControllers), Slots(healthy), availableControllers[0]);
        var instance := availableControllers[0].c;
        availableControllers := availableControllers[1..];
        assignedControllers := assignedControllers + [instance];
        return Handed(instance), made;
      }
      forall x | x in old(availableControllers)
        ensures x.Instance? && !old(x.c.healthy)
      {
        assert x !in Slots(healthy) && x.c in old(Listed(availableControllers));
      }
      if |assignedControllers| < maxControllers {
        if !factoryOk {
          return FactoryFailed, made;
        }
        var instance := new LogstashController();
        made := Some(instance);
        assignedControllers := assignedControllers + [instance];
        return Handed(instance), made;
      }
      return Exhausted, made;
    }

    method Return(instance: LogstashController, clean: bool)
      requires Valid()
      modifies this
      ensures Valid() && Value() == ReturnPool(old(Value()), instance, clean)
      ensures forall x | x in availableControllers ::
                x in old(availableControllers) || (clean && x == Instance(instance))
      ensures forall c :: c in assignedControllers <==> c in old(assignedControllers) && c != instance
      ensures clean && instance in old(assignedControllers) ==> Instance(instance) in availableControllers
      ensures killed == old(killed)
      ensures PoolMembers() <= old(PoolMembers()) + {instance}
    {
      var i := 0;
      while i < |assignedControllers|
        invariant 0 <= i <= |assignedControllers|
        invariant instance !in assignedControllers[..i]
      {
        if assignedControllers[i] == instance {
          IndexOfIs(assignedControllers, i);
          DistinctAfterSwapDelete(assignedControllers, i);
          assignedControllers := assignedControllers[i := assignedControllers[|assignedControllers| - 1]];
          assignedControllers := assignedControllers[..|assignedControllers| - 1];
          if clean {
            availableControllers := availableControllers + [Instance(instance)];
          }
          return;
        }
        i := i + 1;
      }
    }

    /** One round of housekeeping. */
    method Housekeep(factoryOk: bool) returns (panicked: bool, ghost made: Option<LogstashController>)
      requires Valid()
      modifies this
      ensures var all := old(HealthyAmong(Listed(availableControllers) + ToSet(assignedControllers)));
              var after := HousekeepPool(old(Value()), all, made);
              panicked == after.None? && (!panicked ==> Valid() && Value() == after.value)
      ensures made.Some? ==> factoryOk && fresh(made.value) && made.value.healthy
      ensures made.Some? ==> availableControllers == [Instance(made.value)] && assignedControllers == []
      ensures !panicked ==>
                var a := old(HealthyAmong(Listed(availableControllers)));
                var h := old(HealthyAmong(ToSet(assignedControllers)));
                killed == old(killed) + Killed(old(availableControllers), 0, Slots(a))
                          + ToSlots(Killed(old(assignedControllers), 0, h))
      ensures Nil in availableControllers && !panicked ==> !factoryOk
      ensures panicked ==> Nil in availableControllers
      ensures !panicked ==> forall c | c in old(assignedControllers) && c.healthy :: c in assignedControllers
      ensures forall x | x in availableControllers ::
                x in old(availableControllers) || x == Nil || (x.Instance? && made == Some(x.c))
      ensures forall c | c in assignedControllers :: c in old(assignedControllers)
    {
      made := None;
      ghost var a0, h0 := availableControllers, assignedControllers;
      ghost var all := HealthyAmong(Listed(a0) + ToSet(h0));
      panicked := SweepAvailable();
      if panicked {
        return;
      }
      SweepAssigned();
      SweepLooksOnlyAtElements(a0, 0, Slots(HealthyAmong(Listed(a0))), Slots(all));
      SweepLooksOnlyAtElements(h0, 0, HealthyAmong(ToSet(h0)), all);
      SweepKeepsHealthy(h0, all);
      if |availableControllers| + |assignedControllers| == 0 {
        if factoryOk {
          var instance := new LogstashController();
          made := Some(instance);
          availableControllers := availableControllers + [Instance(instance)];
        } else {
          availableControllers := availableControllers + [Nil];
        }
      }
    }
  }
}
