/** Ignored fields are removed from an event before it is compared (removeField and removeFields in
    internal/testcase/helper.go, the loop in internal/testcase/testcase.go). */
module Removal {
  import opened Options
  import opened Brackets
  import opened FieldTrees

  /** removeField on values; FieldMap.RemoveField does it in place. */
  function Remove(keys: Path, m: Fields): Fields
    requires keys != []
    decreases |keys|
  {
    if |keys| == 1 then m - {keys[0]}
    else if keys[0] !in m || !m[keys[0]].Object? then m
    else
      var sub := Remove(keys[1..], m[keys[0]].fields);
      if sub != map[] then m[keys[0] := Object(sub)] else m - {keys[0]}
  }

  /** removeFields for each ignored field in turn. */
  function RemoveAll(ignored: seq<string>, m: Fields): Fields {
    if ignored == [] then m
    else Remove(ExtractBracketFields(ignored[|ignored| - 1]), RemoveAll(ignored[..|ignored| - 1], m))
  }

  /** Removing `keys` takes away the leaf v at p: p lies below keys, or v is an empty object on the way. */
  predicate Hits(keys: Path, p: Path, v: Value) {
    keys <= p || (v == EMPTY_OBJECT && p < keys)
  }

  /** Removal is a filter on the leaves; no other leaf changes, none appears, emptied parents go. */
  lemma {:induction false} RemoveFiltersLeaves(keys: Path, m: Fields, p: Path)
    requires keys != []
    ensures FieldAt(Remove(keys, m), p)
            == if FieldAt(m, p).Some? && Hits(keys, p, FieldAt(m, p).value) then None else FieldAt(m, p)
    decreases |keys|
  {
    if p != [] && p[0] == keys[0] {
      assert p == [keys[0]] + p[1..] && keys == [keys[0]] + keys[1..];
      if |keys| > 1 && keys[0] in m {
        var v := m[keys[0]];
        HitsBelow(keys, p);
        if v.Object? {
          RemoveFiltersLeaves(keys[1..], v.fields, p[1..]);
          RemovedBelow(keys[1..], v.fields, p[1..]);
        }
      }
    }
  }

  lemma HitsBelow(keys: Path, p: Path)
    requires keys != [] && p != [] && keys[0] == p[0]
    ensures keys <= p <==> keys[1..] <= p[1..]
    ensures p < keys <==> p[1..] < keys[1..]
  {
  }

  /** The leaves of a sub-object after the removal, the sub-object being dropped when it is empty. */
  lemma RemovedBelow(keys: Path, m: Fields, q: Path)
    requires keys != []
    requires FieldAt(Remove(keys, m), q)
             == if FieldAt(m, q).Some? && Hits(keys, q, FieldAt(m, q).value) then None else FieldAt(m, q)
    ensures var sub := Remove(keys, m);
            (if sub != map[] then LeafAt(Object(sub), q) else None)
            == if LeafAt(Object(m), q).Some? && Hits(keys, q, LeafAt(Object(m), q).value) then None
               else LeafAt(Object(m), q)
  {
  }

  /** After the whole list: exactly the leaves that no ignored path hits. */
  lemma {:induction false} RemoveAllFiltersLeaves(ignored: seq<string>, m: Fields, p: Path)
    ensures FieldAt(RemoveAll(ignored, m), p)
            == if FieldAt(m, p).Some?
                  && exists k :: k in ignored && Hits(ExtractBracketFields(k), p, FieldAt(m, p).value)
               then None else FieldAt(m, p)
  {
    if ignored != [] {
      var front, last := ignored[..|ignored| - 1], ignored[|ignored| - 1];
      assert ignored == front + [last];
      RemoveAllFiltersLeaves(front, m, p);
      RemoveFiltersLeaves(ExtractBracketFields(last), RemoveAll(front, m), p);
    }
  }

  /** Neither the order of the list nor repetitions in it matter. */
  lemma OrderDoesNotMatter(ignored1: seq<string>, ignored2: seq<string>, m: Fields)
    requires forall k :: k in ignored1 <==> k in ignored2
    ensures RemoveAll(ignored1, m) == RemoveAll(ignored2, m)
  {
    forall p
      ensures FieldAt(RemoveAll(ignored1, m), p) == FieldAt(RemoveAll(ignored2, m), p)
    {
      RemoveAllFiltersLeaves(ignored1, m, p);
      RemoveAllFiltersLeaves(ignored2, m, p);
    }
    FieldsDetermine(RemoveAll(ignored1, m), RemoveAll(ignored2, m));
  }

  /** In an event without empty objects exactly the leaves at or below an ignored path disappear, and no
      emptied object is left behind. */
  lemma RemoveAllPrunes(ignored: seq<string>, m: Fields)
    requires NoEmptyObject(m)
    ensures NoEmptyObject(RemoveAll(ignored, m))
    ensures forall p :: FieldAt(RemoveAll(ignored, m), p)
                        == if exists k :: k in ignored && ExtractBracketFields(k) <= p then None else FieldAt(m, p)
  {
    forall p
      ensures FieldAt(RemoveAll(ignored, m), p)
              == if exists k :: k in ignored && ExtractBracketFields(k) <= p then None else FieldAt(m, p)
    {
      RemoveAllFiltersLeaves(ignored, m, p);
      assert FieldAt(m, p) != Some(EMPTY_OBJECT);
    }
    forall p
      ensures FieldAt(RemoveAll(ignored, m), p) != Some(EMPTY_OBJECT)
    {
      assert FieldAt(m, p) != Some(EMPTY_OBJECT);
    }
  }
}
