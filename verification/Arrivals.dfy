/** What GetResults returns, told by the steps of the run alone: every line that the scanner has received since the
    reset of the client's own test, the late ones included (internal/daemon/controller/controller.go). */
module Arrivals {
  import opened EventLogs
  import opened Protocol
  import opened ProtocolProofs

  /** The lines that are received in these steps, oldest first. */
  function Received(acts: seq<Act>): seq<string> {
    if acts == [] then [] else
    Received(acts[..|acts| - 1]) + if acts[|acts| - 1].Append? then [acts[|acts| - 1].text] else []
  }

  function Lines(events: seq<Event>): seq<string> {
    seq(|events|, i requires 0 <= i < |events| => events[i].text)
  }

  ghost predicate LastReset(acts: seq<Act>, r: nat, k: nat) {
    r < k <= |acts| && acts[r].ResetEvents? && forall i | r < i < k :: !acts[i].ResetEvents?
  }

  lemma ReceivedNext(acts: seq<Act>, r: nat, k: nat)
    requires r < k <= |acts|
    ensures Received(acts[r..k])
            == Received(acts[r..k - 1]) + if acts[k - 1].Append? then [acts[k - 1].text] else []
  {
    assert acts[r..k][..|acts[r..k]| - 1] == acts[r..k - 1];
  }

  /** What one step does to the log. */
  lemma LogStep(s: State, a: Act)
    requires Enabled(s, a) && !a.ResetEvents?
    ensures var sh, sh' := s.sh, Apply(s, a).sh;
            && Lines(sh'.log.events) == Lines(sh.log.events) + (if a.Append? then [a.text] else [])
            && sh'.log.expected == sh.log.expected && sh'.inTest == sh.inTest
  {
  }

  lemma ResetStep(s: State, a: Act)
    requires Enabled(s, a) && a.ResetEvents?
    ensures s.pc.ResettingEvents?
    ensures var c, sh := s.pc.call, Apply(s, a).sh;
            && sh.log.events == [] && sh.inTest == c.Execute?
            && (c.Execute? ==> sh.log.expected == c.expected)
  {
  }

  /** The log after a reset. */
  lemma {:induction false} LogSinceReset(states: seq<State>, acts: seq<Act>, r: nat, k: nat)
    requires Run(states, acts) && LastReset(acts, r, k)
    ensures states[r].pc.ResettingEvents?
    ensures var c, sh := states[r].pc.call, states[k].sh;
            && Lines(sh.log.events) == Received(acts[r + 1..k]) && sh.inTest == c.Execute?
            && (c.Execute? ==> sh.log.expected == c.expected)
  {
    hide Enabled, Apply;
    if k == r + 1 {
      ResetStep(states[r], acts[r]);
      assert acts[r + 1..k] == [];
    } else {
      LogSinceReset(states, acts, r, k - 1);
      LogStep(states[k - 1], acts[k - 1]);
      ReceivedNext(acts, r + 1, k);
    }
  }

  lemma {:induction false} TestHasReset(states: seq<State>, acts: seq<Act>, k: nat) returns (r: nat)
    requires Run(states, acts) && k <= |acts| && states[k].sh.inTest
    ensures LastReset(acts, r, k)
  {
    hide Enabled, Apply;
    assert k > 0;
    if acts[k - 1].ResetEvents? {
      r := k - 1;
    } else {
      LogStep(states[k - 1], acts[k - 1]);
      r := TestHasReset(states, acts, k - 1);
    }
  }

  lemma FetchStep(s: State)
    requires ClientEnabled(s, Act.Fetch)
    ensures s.pc.Fetching? && ClientApply(s, Act.Fetch).pc == Idle(Got(s.pc.test, s.pc.ok, s.sh.log.events))
    ensures Apply(s, Act.Fetch) == ClientApply(s, Act.Fetch)
  {
  }

  /** In every run, with or without error: the results are all lines received since the last reset, which is that of
      an ExecuteTest with the expectation of this test. */
  lemma ResultsAreAllReceived(states: seq<State>, acts: seq<Act>, k: nat) returns (r: nat)
    requires Run(states, acts) && k < |acts| && acts[k].Fetch?
    ensures LastReset(acts, r, k)
    ensures states[r].pc.ResettingEvents? && states[r].pc.call.Execute?
    ensures states[k + 1].pc.Idle? && states[k + 1].pc.last.Got?
    ensures var got := states[k + 1].pc.last;
            && got.test.expected == states[r].pc.call.expected
            && Lines(got.results) == Received(acts[r + 1..k])
  {
    AnyInvAlways(states, acts, k);
    FetchEnabled(states, acts, k);
    FetchStep(states[k]);
    r := TestHasReset(states, acts, k);
    LogSinceReset(states, acts, r, k);
  }

  lemma FetchEnabled(states: seq<State>, acts: seq<Act>, k: nat)
    requires Run(states, acts) && k < |acts| && acts[k].Fetch?
    ensures ClientEnabled(states[k], Act.Fetch) && states[k + 1] == Apply(states[k], Act.Fetch)
  {
  }
}
