/** Which pipelines of the current reload have reported that they run
    (internal/daemon/controller/pipelines.go). */
module ReadyMaps {

  const SENTINEL := "__lfv_pipelines_running"

  function Unmarked(names: seq<string>): map<string, bool> {
    map name | name in names + [SENTINEL] :: false
  }

  function Marked(m: map<string, bool>, names: seq<string>): map<string, bool> {
    m + map name | name in names :: true
  }

  lemma MarkNext(m: map<string, bool>, names: seq<string>, i: nat)
    requires i < |names|
    ensures Marked(m, names[..i])[names[i] := true] == Marked(m, names[..i + 1])
    ensures Unmarked(names[..i])[names[i] := false] == Unmarked(names[..i + 1])
  {
    assert names[..i + 1] == names[..i] + [names[i]];
  }

  predicate AllReady(m: map<string, bool>) {
    forall name | name in m :: m[name]
  }

  class Pipelines {
    var pipelines: map<string, bool>

    constructor ()
      ensures pipelines == map[]
    {
      pipelines := map[];
    }

    method Reset(names: seq<string>)
      modifies this
      ensures pipelines == Unmarked(names)
    {
      pipelines := map[SENTINEL := false];
      for i := 0 to |names|
        invariant pipelines == Unmarked(names[..i])
      {
        MarkNext(map[], names, i);
        pipelines := pipelines[names[i] := false];
      }
      assert names[..|names|] == names;
    }

    method SetReady(names: seq<string>)
      modifies this
      ensures pipelines == Marked(old(pipelines), names)
    {
      for i := 0 to |names|
        invariant pipelines == Marked(old(pipelines), names[..i])
      {
        MarkNext(old(pipelines), names, i);
        pipelines := pipelines[names[i] := true];
      }
      assert names[..|names|] == names;
    }

    method IsReady() returns (ready: bool)
      ensures ready == AllReady(pipelines)
    {
      var todo := pipelines.Keys;
      while todo != {}
        invariant todo <= pipelines.Keys
        invariant forall name | name in pipelines && name !in todo :: pipelines[name]
        decreases todo
      {
        var name :| name in todo;
        if !pipelines[name] {
          return false;
        }
        todo := todo - {name};
      }
      return true;
    }
  }

  datatype Op = Reset(names: seq<string>) | SetReady(names: seq<string>)

  /** The map after a history of operations, oldest first, starting from a new object. */
  function After(ops: seq<Op>): map<string, bool> {
    if ops == [] then map[] else
    var before := After(ops[..|ops| - 1]);
    match ops[|ops| - 1]
    case Reset(names) => Unmarked(names)
    case SetReady(names) => Marked(before, names)
  }

  ghost predicate IsLastReset(ops: seq<Op>, r: nat) {
    r < |ops| && ops[r].Reset? && forall j :: r < j < |ops| ==> ops[j].SetReady?
  }

  ghost predicate MarkedSince(ops: seq<Op>, r: nat, name: string) {
    exists j :: r < j < |ops| && name in ops[j].names
  }

  /** The keys and values of the map, whatever happened before the last reset. */
  lemma {:induction false} AfterReset(ops: seq<Op>, r: nat)
    requires IsLastReset(ops, r)
    ensures forall name :: name in After(ops) <==>
                           name in ops[r].names + [SENTINEL] || MarkedSince(ops, r, name)
    ensures forall name | name in After(ops) :: After(ops)[name] <==> MarkedSince(ops, r, name)
  {
    var n := |ops| - 1;
    var front := ops[..n];
    if r < n {
      AfterReset(front, r);
      assert ops[n].SetReady?;
      forall name
        ensures MarkedSince(ops, r, name) <==> MarkedSince(front, r, name) || name in ops[n].names
      {
        MarkedSinceNext(ops, r, name);
      }
    }
  }

  lemma MarkedSinceNext(ops: seq<Op>, r: nat, name: string)
    requires r < |ops| - 1
    ensures MarkedSince(ops, r, name)
            <==> MarkedSince(ops[..|ops| - 1], r, name) || name in ops[|ops| - 1].names
  {
  }

  /** Readiness means: every name of the last reset, and the sentinel, was marked since that reset.
      Names that were not part of the reset, and repeated marks, never matter. */
  lemma ReadyIffAllMarkedSinceReset(ops: seq<Op>, r: nat)
    requires IsLastReset(ops, r)
    ensures AllReady(After(ops)) <==>
            forall name | name in ops[r].names + [SENTINEL] :: MarkedSince(ops, r, name)
  {
    AfterReset(ops, r);
    var m := After(ops);
    if forall name | name in ops[r].names + [SENTINEL] :: MarkedSince(ops, r, name) {
      forall name | name in m ensures m[name] {
        assert name in ops[r].names + [SENTINEL] || MarkedSince(ops, r, name);
      }
    }
  }
}
