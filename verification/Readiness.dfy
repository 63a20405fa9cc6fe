/** What pipeline-ready says about the pipelines: PipelinesReady tests the map and issues the command in two critical
    sections, and a reset of the map may fall in between (internal/daemon/controller/controller.go). */
module Readiness {
  import opened StateMachines
  import opened Protocol
  import opened StrayCompletions
  import ReadyMaps

  /** The log reader has seen the map ready and is about to issue the command. Only the client changes the map then. */
  lemma ReaderWaits(s: State, a: Act)
    requires Enabled(s, a) && s.sh.reader.Commanding? && !a.CommandReady?
    ensures Apply(s, a).sh.reader.Commanding?
    ensures if a.ResetPipelines? then !ReadyMaps.AllReady(Apply(s, a).sh.ready)
            else Apply(s, a).sh.ready == s.sh.ready
  {
    if a.ResetPipelines? {
      var ready := Apply(s, a).sh.ready;
      assert ReadyMaps.SENTINEL in ready && !ready[ReadyMaps.SENTINEL];
    }
  }

  lemma ReaderWaited(s: State, a: Act)
    requires Enabled(s, a) && !a.TestReady? && Apply(s, a).sh.reader.Commanding?
    ensures s.sh.reader.Commanding? && !a.CommandReady?
  {
  }

  lemma TestFoundReady(s: State)
    requires Enabled(s, TestReady) && Apply(s, TestReady).sh.reader.Commanding?
    ensures ReadyMaps.AllReady(Apply(s, TestReady).sh.ready)
  {
  }

  ghost predicate LastTest(acts: seq<Act>, j: nat, k: nat) {
    j < k < |acts| && acts[j].TestReady? && acts[k].CommandReady? && forall i | j < i < k :: !acts[i].TestReady?
  }

  lemma {:induction false} ReaderWaitsFrom(states: seq<State>, acts: seq<Act>, j: nat, i: nat, k: nat)
    requires Run(states, acts) && LastTest(acts, j, k) && j < i <= k
    ensures states[i].sh.reader.Commanding? && (i < k ==> !acts[i].CommandReady?)
    decreases k - i
  {
    hide Apply;
    if i == k {
      CommandsWhenCommanding(states[k], acts[k]);
    } else {
      ReaderWaitsFrom(states, acts, j, i + 1, k);
      ReaderWaited(states[i], acts[i]);
    }
  }

  lemma CommandsWhenCommanding(s: State, a: Act)
    requires Enabled(s, a) && a.CommandReady?
    ensures s.sh.reader.Commanding?
  {
  }

  ghost predicate ResetWithin(acts: seq<Act>, j: nat, i: nat)
    requires i <= |acts|
  {
    exists r | j < r < i :: acts[r].ResetPipelines?
  }

  lemma {:induction false} ReadyUntilReset(states: seq<State>, acts: seq<Act>, j: nat, i: nat, k: nat)
    requires Run(states, acts) && LastTest(acts, j, k) && j < i <= k
    ensures ReadyMaps.AllReady(states[i].sh.ready) <==> !ResetWithin(acts, j, i)
  {
    hide Enabled, Apply;
    ReaderWaitsFrom(states, acts, j, i, k);
    if i == j + 1 {
      TestFoundReady(states[j]);
    } else {
      ReadyUntilReset(states, acts, j, i - 1, k);
      ReaderWaitsFrom(states, acts, j, i - 1, k);
      ReaderWaits(states[i - 1], acts[i - 1]);
      assert ResetWithin(acts, j, i) <==> ResetWithin(acts, j, i - 1) || acts[i - 1].ResetPipelines?;
    }
  }

  /** When pipeline-ready is issued all pipelines of the last reset have been marked if and only if that reset was not
      after the test of the map. */
  lemma ReadyIffTestedAfterReset(states: seq<State>, acts: seq<Act>, j: nat, k: nat)
    requires Run(states, acts) && LastTest(acts, j, k)
    ensures ReadyMaps.AllReady(states[k].sh.ready) <==> forall r | j < r < k :: !acts[r].ResetPipelines?
  {
    ReadyUntilReset(states, acts, j, k, k);
  }

  // ---------------------------------------------------------------- whom the map waits for

  /** After the reset by this call. */
  predicate Awaits(c: Call, name: string) {
    match c
    case Setup(names) => name in names || name == ReadyMaps.SENTINEL
    case Execute(names, _) => name in names || name == ReadyMaps.SENTINEL
    case Tear => name == ReadyMaps.SENTINEL
    case Results => false
  }

  ghost predicate Reported(acts: seq<Act>, r: int, j: nat, name: string)
    requires j <= |acts|
  {
    exists m :: 0 <= m && r < m < j && acts[m].MarkReady? && name in acts[m].names
  }

  /** The map holds the awaited names and those that were reported since act r, and marks the latter. */
  ghost predicate MapSince(s: State, awaits: string -> bool, acts: seq<Act>, r: int, m: nat)
    requires m <= |acts|
  {
    && (forall name :: name in s.sh.ready <==> awaits(name) || Reported(acts, r, m, name))
    && (forall name | name in s.sh.ready :: s.sh.ready[name] <==> Reported(acts, r, m, name))
  }

  lemma MapStep(s: State, awaits: string -> bool, acts: seq<Act>, r: int, m: nat)
    requires m < |acts| && r < m && Enabled(s, acts[m]) && !acts[m].ResetPipelines? && MapSince(s, awaits, acts, r, m)
    ensures MapSince(Apply(s, acts[m]), awaits, acts, r, m + 1)
  {
    forall name
      ensures Reported(acts, r, m + 1, name)
              <==> Reported(acts, r, m, name) || (acts[m].MarkReady? && name in acts[m].names)
    {
      if Reported(acts, r, m, name) {
        var i :| 0 <= i && r < i < m && acts[i].MarkReady? && name in acts[i].names;
        assert i < m + 1;
      }
    }
    MapChange(s, acts[m]);
  }

  lemma MapChange(s: State, a: Act)
    requires Enabled(s, a) && !a.ResetPipelines?
    ensures Apply(s, a).sh.ready == if a.MarkReady? then ReadyMaps.Marked(s.sh.ready, a.names) else s.sh.ready
  {
  }

  lemma {:induction false} MapSinceStays(states: seq<State>, awaits: string -> bool, acts: seq<Act>, r: int, m: nat,
                                         j: nat)
    requires Run(states, acts) && r < m <= j <= |acts| && MapSince(states[m], awaits, acts, r, m)
    requires forall i | m <= i < j :: !acts[i].ResetPipelines?
    ensures MapSince(states[j], awaits, acts, r, j)
  {
    hide Enabled, Apply, MapSince;
    if m < j {
      MapSinceStays(states, awaits, acts, r, m, j - 1);
      MapStep(states[j - 1], awaits, acts, r, j - 1);
    }
  }

  /** The client is in this call, or in none that resets anything. */
  predicate InCallOnly(pc: ClientPc, c: Call) {
    match pc
    case InWait(d) => d == c
    case Issuing(d) => d == c
    case Writing(d) => d == c
    case ResettingEvents(d) => d == c
    case ResettingPipelines(d, _) => d == c
    case Reloading(d, _) => d == c
    case _ => true
  }

  lemma InCallStep(s: State, a: Act, c: Call)
    requires Enabled(s, a) && (if a.Begin? then a.call == c else InCallOnly(s.pc, c))
    ensures InCallOnly(Apply(s, a).pc, c)
  {
  }

  lemma {:induction false} InCallSince(states: seq<State>, acts: seq<Act>, b: nat, r: nat)
    requires Run(states, acts) && b < r <= |acts| && acts[b].Begin?
    requires forall i | b < i < r :: !acts[i].Begin?
    ensures InCallOnly(states[r].pc, acts[b].call)
  {
    hide Enabled, Apply, InCallOnly;
    if b + 1 < r {
      InCallSince(states, acts, b, r - 1);
    }
    InCallStep(states[r - 1], acts[r - 1], acts[b].call);
  }

  /** The call that is begun at b resets the map at r, and no other reset follows before j. */
  ghost predicate ResetBy(acts: seq<Act>, b: nat, r: nat, j: nat) {
    && b < r < j <= |acts| && acts[b].Begin? && acts[r].ResetPipelines?
    && (forall i | b < i < r :: !acts[i].Begin?)
    && (forall i | r < i < j :: !acts[i].ResetPipelines?)
  }

  lemma MapAfterReset(states: seq<State>, acts: seq<Act>, b: nat, r: nat, j: nat)
    requires Run(states, acts) && ResetBy(acts, b, r, j)
    ensures MapSince(states[j], name => Awaits(acts[b].call, name), acts, r, j)
  {
    hide Run, MapSince;
    InCallSince(states, acts, b, r);
    var awaits := name => Awaits(acts[b].call, name);
    StepOfRun(states, acts, r);
    FreshMap(states[r], acts, r, acts[b].call, awaits);
    MapSinceStays(states, awaits, acts, r, r + 1, j);
  }

  lemma StepOfRun(states: seq<State>, acts: seq<Act>, k: nat)
    requires Run(states, acts) && k < |acts|
    ensures |states| == |acts| + 1 && Enabled(states[k], acts[k]) && states[k + 1] == Apply(states[k], acts[k])
  {
    hide Enabled, Apply;
  }

  lemma FreshMap(s: State, acts: seq<Act>, r: nat, c: Call, awaits: string -> bool)
    requires r < |acts| && acts[r].ResetPipelines? && Enabled(s, acts[r]) && InCallOnly(s.pc, c)
    requires forall name :: awaits(name) == Awaits(c, name)
    ensures MapSince(Apply(s, acts[r]), awaits, acts, r, r + 1)
  {
  }

  /** The test of the map succeeds if and only if every pipeline of the call that has reset the map, and the sentinel,
      was reported since the reset. */
  lemma LoadedIffAllReported(states: seq<State>, acts: seq<Act>, b: nat, r: nat, j: nat)
    requires Run(states, acts) && ResetBy(acts, b, r, j) && j < |acts| && acts[j].TestReady?
    ensures states[j + 1].sh.reader.Commanding?
            <==> forall name | Awaits(acts[b].call, name) :: Reported(acts, r, j, name)
  {
    MapAfterReset(states, acts, b, r, j);
    TestsMap(states[j], acts[j]);
    StepOfRun(states, acts, j);
  }

  lemma TestsMap(s: State, a: Act)
    requires Enabled(s, a) && a.TestReady?
    ensures Apply(s, a).sh.reader.Commanding? <==> ReadyMaps.AllReady(s.sh.ready)
  {
  }

  /** So pipeline-ready, unless its test was before the reset, is only issued when they have all reported. */
  lemma CommandOnlyAfterReports(states: seq<State>, acts: seq<Act>, b: nat, r: nat, j: nat, k: nat)
    requires Run(states, acts) && ResetBy(acts, b, r, j) && LastTest(acts, j, k)
    ensures forall name | Awaits(acts[b].call, name) :: Reported(acts, r, j, name)
  {
    LoadedIffAllReported(states, acts, b, r, j);
    ReaderWaitsFrom(states, acts, j, j + 1, k);
  }

  /** Before any reset the map waits for the two pipelines of the start. */
  lemma StartedIffBothReported(states: seq<State>, acts: seq<Act>, j: nat)
    requires Run(states, acts) && j < |acts| && acts[j].TestReady?
    requires forall i | 0 <= i < j :: !acts[i].ResetPipelines?
    ensures states[j + 1].sh.reader.Commanding?
            <==> forall name | name in {"stdin", "output", ReadyMaps.SENTINEL} :: Reported(acts, -1, j, name)
  {
    var awaits := name => name in {"stdin", "output", ReadyMaps.SENTINEL};
    assert MapSince(states[0], awaits, acts, -1, 0);
    MapSinceStays(states, awaits, acts, -1, 0, j);
    TestsMap(states[j], acts[j]);
    StepOfRun(states, acts, j);
  }

  // ---------------------------------------------------------------- a reset in between

  /** A set-up can end with the controller ready for test before any of its pipelines is loaded: the pipelines of the
      start report once more between the command and the reset. */
  lemma ReadyWithoutPipelines() returns (s: State)
    ensures Leads(AnyCall, INITIAL, s)
    ensures s.pc == Idle(SetUp) && s.sh.state == ReadyForTest && s.sh.ready == ReadyMaps.Unmarked(["p"])
  {
    s := INITIAL;
    assert QuietPath(AnyCall, [s], []);
    s := BecomeReady(AnyCall, INITIAL, s);
    s := UpToCommand(s, Setup(["p"]));
    s := BecomeReady(AnyCall, INITIAL, s);
    s := Step(AnyCall, INITIAL, s, Write(true));
    s := Step(AnyCall, INITIAL, s, ResetEvents);
    s := AfterReset(AnyCall, INITIAL, s);
  }

  lemma UpToCommand(s: State, c: Call) returns (s': State)
    requires Leads(AnyCall, INITIAL, s) && s.pc.Idle? && c.Setup? && s.sh.state == Ready
    ensures Leads(AnyCall, INITIAL, s')
    ensures s' == State(s.sh.(state := SettingUpTest), Writing(c))
  {
    s' := Step(AnyCall, INITIAL, s, Begin(c));
    s' := Step(AnyCall, INITIAL, s', EndWait(WaitEnd.Reached));
    s' := Step(AnyCall, INITIAL, s', Issue);
  }
}
