/** When the order of visiting the keys decides the result of parseAllBracketProperties, and when it can fail
    (internal/testcase/helper.go). */
module Determinacy {
  import opened Options
  import opened Brackets
  import opened FieldTrees
  import opened Expansion

  // ---------------------------------------------------------------- one level

  ghost predicate AllOrdersGive(values: map<string, Value>, m: Fields) {
    forall order | Enumerates(order, values.Keys) :: InsertAll(order, values) == Some(m)
  }

  /** The exact condition for one level: every order succeeds, and with the same result, if and only if the values
      agree wherever the path of one key leads through that of another. */
  lemma OrderIsIrrelevantIffAgree(values: map<string, Value>)
    ensures (exists m :: AllOrdersGive(values, m)) <==> AgreeOn(values.Keys, values)
  {
    if m :| AllOrdersGive(values, m) {
      OneResultAgrees(values, m);
    }
    if AgreeOn(values.Keys, values) {
      var some := SomeOrder(values.Keys);
      InsertAllLeaves(some, values, values.Keys);
      var m := InsertAll(some, values).value;
      forall order | Enumerates(order, values.Keys)
        ensures InsertAll(order, values) == Some(m)
      {
        InsertAllLeaves(order, values, values.Keys);
        LeavesOfDetermines(InsertAll(order, values).value, m, values.Keys, values);
      }
      assert AllOrdersGive(values, m);
    }
  }

  lemma OneResultAgrees(values: map<string, Value>, m: Fields)
    requires AllOrdersGive(values, m)
    ensures AgreeOn(values.Keys, values)
  {
    hide AllOrdersGive, SubtreeAt, ExtractBracketFields;
    forall j, k | j in values.Keys && k in values.Keys && j != k
                  && ExtractBracketFields(j) <= ExtractBracketFields(k)
      ensures SubtreeAt(values[j], ExtractBracketFields(k)[|ExtractBracketFields(j)|..]) == Some(values[k])
    {
      var above, path := ExtractBracketFields(j), ExtractBracketFields(k);
      ValueOfLast(values, j, m);
      ValueOfLast(values, k, m);
      assert path == above + path[|above|..];
      SubtreeOfSubtree(Object(m), above, values[j], path[|above|..]);
    }
  }

  lemma {:induction false} SubtreeOfSubtree(v: Value, p: Path, w: Value, q: Path)
    requires SubtreeAt(v, p) == Some(w)
    ensures SubtreeAt(v, p + q) == SubtreeAt(w, q)
    decreases |p|
  {
    if p == [] {
      assert p + q == q;
    } else {
      assert (p + q)[1..] == p[1..] + q;
      SubtreeOfSubtree(v.fields[p[0]], p[1..], w, q);
    }
  }

  /** Some order ends with k, and what is inserted last is there. */
  lemma ValueOfLast(values: map<string, Value>, k: string, m: Fields)
    requires k in values && AllOrdersGive(values, m)
    ensures SubtreeAt(Object(m), ExtractBracketFields(k)) == Some(values[k])
  {
    var order := OrderEndingWith(values.Keys, k);
    InsertedLast(order, values, k);
  }

  lemma EnumeratesNext(order: seq<string>, visited: set<string>, k: string)
    requires Enumerates(order, visited) && k !in visited
    ensures Enumerates(order + [k], visited + {k})
  {
  }

  lemma OrderEndingWith(keys: set<string>, k: string) returns (order: seq<string>)
    requires k in keys
    ensures Enumerates(order, keys) && order != [] && order[|order| - 1] == k
  {
    var front := SomeOrder(keys - {k});
    order := front + [k];
    EnumeratesNext(front, keys - {k}, k);
    assert keys - {k} + {k} == keys;
  }

  lemma InsertedLast(order: seq<string>, values: map<string, Value>, k: string)
    requires order != [] && order[|order| - 1] == k && (forall x :: x in order ==> x in values)
    requires InsertAll(order, values).Some?
    ensures SubtreeAt(Object(InsertAll(order, values).value), ExtractBracketFields(k)) == Some(values[k])
  {
    InsertLeavesValue(ExtractBracketFields(k), values[k], InsertAll(order[..|order| - 1], values).value);
  }

  // ---------------------------------------------------------------- whole trees

  ghost predicate ExpandedValues(m: Fields, visited: set<string>, values: map<string, Value>) {
    values.Keys == visited && forall k | k in visited :: k in m && Expands(m[k], values[k])
  }

  lemma ExpandedValuesNext(m: Fields, visited: set<string>, values: map<string, Value>, k: string, v: Value)
    requires ExpandedValues(m, visited, values) && k in m && Expands(m[k], v)
    ensures ExpandedValues(m, visited + {k}, values[k := v])
  {
  }

  ghost predicate FailsBy(m: Fields, order: seq<string>, values: map<string, Value>) {
    Enumerates(order, m.Keys) && ExpandedValues(m, m.Keys, values) && InsertAll(order, values).None?
  }

  /** For some order of every map involved a type assertion fails. */
  ghost predicate MayFail(v: Value)
    decreases v
  {
    v.Object?
    && ((exists k | k in v.fields :: MayFail(v.fields[k])) || exists order, values :: FailsBy(v.fields, order, values))
  }

  /** The values agree at every level. */
  ghost predicate Agreeing(v: Value)
    decreases v
  {
    v.Object? ==>
      (forall k | k in v.fields :: Agreeing(v.fields[k]))
      && forall values | ExpandedValues(v.fields, v.fields.Keys, values) :: AgreeOn(v.fields.Keys, values)
  }

  /** No order fails, and all lead to the same tree. */
  ghost predicate Determined(v: Value) {
    !MayFail(v) && forall r1, r2 | Expands(v, r1) && Expands(v, r2) :: r1 == r2
  }

  /** The exact condition for whole trees. */
  lemma {:induction false} DeterminedIffAgreeing(v: Value)
    ensures Determined(v) <==> Agreeing(v)
    decreases v
  {
    if v.Object? {
      forall k | k in v.fields
        ensures Determined(v.fields[k]) <==> Agreeing(v.fields[k])
      {
        DeterminedIffAgreeing(v.fields[k]);
      }
      if Determined(v) {
        forall k | k in v.fields
          ensures Determined(v.fields[k])
        {
          PartsAreDetermined(v, k);
        }
        forall values | ExpandedValues(v.fields, v.fields.Keys, values)
          ensures AgreeOn(v.fields.Keys, values)
        {
          DeterminedAgree(v, values);
        }
      }
      if Agreeing(v) {
        AgreeingIsDetermined(v);
      }
    }
  }

  /** Where the failure comes from: a part may fail, or the parts expand to values one of which blocks a key. */
  lemma MayFailIffBlocked(v: Value)
    ensures MayFail(v) <==>
            v.Object?
            && ((exists k | k in v.fields :: MayFail(v.fields[k]))
                || exists values, j, k :: BlockedBy(v.fields, values, j, k))
  {
    if v.Object? {
      if order, values :| FailsBy(v.fields, order, values) {
        SomeOrderFailsIffBlocked(values);
        var j, k :| j in values && k in values && Blocks(values, j, k);
        assert BlockedBy(v.fields, values, j, k);
      }
      if values, j, k :| BlockedBy(v.fields, values, j, k) {
        SomeOrderFailsIffBlocked(values);
        var order :| Enumerates(order, values.Keys) && InsertAll(order, values).None?;
        assert FailsBy(v.fields, order, values);
      }
    }
  }

  lemma NestedKey()
    ensures ExtractBracketFields("[a][b]") == ["a", "b"] && ExtractBracketFields("a") == ["a"]
  {
    SplitOfJoin(["a", "b"]);
    assert Join(["a", "b"]) == "[a]" + Join(["b"]) && Join(["b"]) == "[b]" + "" == "[b]";
    assert Join(["a", "b"]) == "[a][b]";
    assert MatchAt("a") == 0;
  }

  /** A concrete map for which an order fails: the scalar is inserted first. */
  lemma ScalarBlocks()
    ensures MayFail(Object(map["a" := Int(1), "[a][b]" := Int(2)]))
  {
    var m: map<string, Value> := map["a" := Int(1), "[a][b]" := Int(2)];
    NestedKey();
    var order := ["a", "[a][b]"];
    InsertAllOfTwo(m, "a", "[a][b]");
    assert ExpandedValues(m, m.Keys, m);
    assert FailsBy(m, order, m);
  }

  ghost predicate BlockedBy(m: Fields, values: map<string, Value>, j: string, k: string) {
    ExpandedValues(m, m.Keys, values) && j in values && k in values && Blocks(values, j, k)
  }

  lemma {:induction false} SomeExpansion(v: Value) returns (r: Value)
    requires !MayFail(v)
    ensures Expands(v, r)
    decreases v, 1
  {
    r := v;
    if v.Object? {
      var values := SomeValues(v, v.fields.Keys);
      var order := SomeOrder(v.fields.Keys);
      r := MadeExpansion(v, order, values);
    }
  }

  lemma {:induction false} SomeValues(v: Value, keys: set<string>) returns (values: map<string, Value>)
    requires v.Object? && keys <= v.fields.Keys && forall k | k in v.fields :: !MayFail(v.fields[k])
    ensures ExpandedValues(v.fields, keys, values)
    decreases v, 0, keys
  {
    values := map[];
    if keys != {} {
      var k :| k in keys;
      var rest := SomeValues(v, keys - {k});
      var r := SomeExpansion(v.fields[k]);
      values := rest[k := r];
      ExpandedValuesNext(v.fields, keys - {k}, rest, k, r);
      assert keys - {k} + {k} == keys;
    }
  }

  /** Two expansions of a part would give two expansions of the whole: the part may be inserted last. */
  lemma PartsAreDetermined(v: Value, k: string)
    requires v.Object? && k in v.fields && Determined(v)
    ensures Determined(v.fields[k])
  {
    forall x1, x2 | Expands(v.fields[k], x1) && Expands(v.fields[k], x2)
      ensures x1 == x2
    {
      var values := SomeValues(v, v.fields.Keys);
      var order := OrderEndingWith(v.fields.Keys, k);
      var r1 := WithPart(v, values, order, k, x1);
      var r2 := WithPart(v, values, order, k, x2);
    }
  }

  lemma WithPart(v: Value, values: map<string, Value>, order: seq<string>, k: string, x: Value) returns (r: Value)
    requires v.Object? && k in v.fields && !MayFail(v) && ExpandedValues(v.fields, v.fields.Keys, values)
    requires Enumerates(order, v.fields.Keys) && order != [] && order[|order| - 1] == k && Expands(v.fields[k], x)
    ensures Expands(v, r) && SubtreeAt(r, ExtractBracketFields(k)) == Some(x)
  {
    var values' := values[k := x];
    assert ExpandedValues(v.fields, v.fields.Keys, values');
    r := MadeExpansion(v, order, values');
    InsertedLast(order, values', k);
  }

  lemma MadeExpansion(v: Value, order: seq<string>, values: map<string, Value>) returns (r: Value)
    requires v.Object? && !MayFail(v)
    requires Enumerates(order, v.fields.Keys) && ExpandedValues(v.fields, v.fields.Keys, values)
    ensures r.Object? && InsertAll(order, values) == Some(r.fields) && Expands(v, r)
  {
    assert !FailsBy(v.fields, order, values);
    r := Object(InsertAll(order, values).value);
    assert ExpandsBy(v, order, values, r);
  }

  lemma HowExpanded(v: Value, r: Value) returns (order: seq<string>, values: map<string, Value>)
    requires v.Object? && Expands(v, r)
    ensures Enumerates(order, v.fields.Keys) && ExpandedValues(v.fields, v.fields.Keys, values)
    ensures r.Object? && InsertAll(order, values) == Some(r.fields)
  {
    order, values :| ExpandsBy(v, order, values, r);
  }

  lemma DeterminedAgree(v: Value, values: map<string, Value>)
    requires v.Object? && Determined(v) && ExpandedValues(v.fields, v.fields.Keys, values)
    ensures AgreeOn(v.fields.Keys, values)
  {
    var some := SomeOrder(v.fields.Keys);
    var r := MadeExpansion(v, some, values);
    forall order | Enumerates(order, values.Keys)
      ensures InsertAll(order, values) == Some(r.fields)
    {
      var r' := MadeExpansion(v, order, values);
    }
    assert AllOrdersGive(values, r.fields);
    OrderIsIrrelevantIffAgree(values);
  }

  lemma AgreeingIsDetermined(v: Value)
    requires v.Object? && Agreeing(v) && forall k | k in v.fields :: Determined(v.fields[k])
    ensures Determined(v)
  {
    forall order, values | Enumerates(order, v.fields.Keys) && ExpandedValues(v.fields, v.fields.Keys, values)
      ensures InsertAll(order, values).Some?
    {
      InsertAllLeaves(order, values, v.fields.Keys);
    }
    forall r1, r2 | Expands(v, r1) && Expands(v, r2)
      ensures r1 == r2
    {
      var order1, values1 := HowExpanded(v, r1);
      var order2, values2 := HowExpanded(v, r2);
      assert values1 == values2;
      InsertAllLeaves(order1, values1, v.fields.Keys);
      InsertAllLeaves(order2, values1, v.fields.Keys);
      LeavesOfDetermines(r1.fields, r2.fields, v.fields.Keys, values1);
    }
  }

  lemma {:induction false} PrefixFreeIsAgreeing(v: Value)
    requires PrefixFree(v)
    ensures Agreeing(v)
    decreases v
  {
    if v.Object? {
      forall k | k in v.fields
        ensures Agreeing(v.fields[k])
      {
        PrefixFreeIsAgreeing(v.fields[k]);
      }
    }
  }

  /** With prefix-free siblings every order of iteration, at every level, gives the same tree, and none fails. */
  lemma ExpansionIsUnique(v: Value, r1: Value, r2: Value)
    requires PrefixFree(v) && Expands(v, r1) && Expands(v, r2)
    ensures r1 == r2 && !MayFail(v)
  {
    PrefixFreeIsAgreeing(v);
    DeterminedIffAgreeing(v);
  }

  // ---------------------------------------------------------------- the loop

  /** parseAllBracketProperties has visited some keys of m. */
  ghost predicate Expanding(m: Fields, visited: set<string>, order: seq<string>, values: map<string, Value>, r: Fields)
  {
    && Enumerates(order, visited)
    && ExpandedValues(m, visited, values)
    && InsertAll(order, values) == Some(r)
  }

  lemma {:induction false} InsertAllSame(order: seq<string>, values: map<string, Value>, values': map<string, Value>)
    requires forall x :: x in order ==> x in values && x in values' && values[x] == values'[x]
    ensures InsertAll(order, values) == InsertAll(order, values')
  {
    if order != [] {
      InsertAllSame(order[..|order| - 1], values, values');
    }
  }

  lemma InsertAllSnoc(order: seq<string>, values: map<string, Value>, r: Fields, k: string, v: Value)
    requires (forall x :: x in order ==> x in values) && k !in order && InsertAll(order, values) == Some(r)
    ensures InsertAll(order + [k], values[k := v]) == Insert(ExtractBracketFields(k), v, r)
  {
    InsertAllSame(order, values, values[k := v]);
    assert (order + [k])[..|order|] == order;
  }

  lemma ExpandingNothing(m: Fields)
    ensures Expanding(m, {}, [], map[], map[])
  {
  }

  lemma ExpandNext(m: Fields, visited: set<string>, order: seq<string>, values: map<string, Value>, r: Fields,
                   k: string, v: Value)
    requires Expanding(m, visited, order, values, r) && k in m && k !in visited && Expands(m[k], v)
    requires Insert(ExtractBracketFields(k), v, r).Some?
    ensures Expanding(m, visited + {k}, order + [k], values[k := v], Insert(ExtractBracketFields(k), v, r).value)
  {
    InsertAllSnoc(order, values, r, k, v);
    EnumeratesNext(order, visited, k);
    ExpandedValuesNext(m, visited, values, k, v);
  }

  lemma {:induction false} FailureStays(order: seq<string>, rest: seq<string>, values: map<string, Value>)
    requires forall x :: x in order + rest ==> x in values
    requires (forall x :: x in order ==> x in values) && InsertAll(order, values).None?
    ensures InsertAll(order + rest, values).None?
  {
    if rest == [] {
      assert order + rest == order;
    } else {
      var n := |rest| - 1;
      assert (order + rest)[..|order + rest| - 1] == order + rest[..n];
      FailureStays(order, rest[..n], values);
    }
  }

  lemma CompletedValues(m: Fields, visited: set<string>, values: map<string, Value>)
    returns (values': map<string, Value>)
    requires ExpandedValues(m, visited, values) && forall j | j in m :: !MayFail(Object(m).fields[j])
    ensures ExpandedValues(m, m.Keys, values')
    ensures forall j | j in visited :: values'[j] == values[j]
  {
    var some := SomeValues(Object(m), m.Keys);
    values' := some + values;
  }

  /** A round fails only if some order of the whole fails. */
  lemma FailedStep(m: Fields, visited: set<string>, order: seq<string>, values: map<string, Value>, r: Fields,
                   k: string, v: Value)
    requires Expanding(m, visited, order, values, r) && k in m && k !in visited && Expands(m[k], v)
    requires Insert(ExtractBracketFields(k), v, r).None?
    ensures MayFail(Object(m))
  {
    if forall j | j in m :: !MayFail(Object(m).fields[j]) {
      ExpandedValuesNext(m, visited, values, k, v);
      var values' := CompletedValues(m, visited + {k}, values[k := v]);
      hide Expands, Insert, MayFail;
      InsertAllSnoc(order, values, r, k, v);
      EnumeratesNext(order, visited, k);
      InsertAllSame(order + [k], values[k := v], values');
      FailsFromHere(m, visited + {k}, order + [k], values');
    }
  }

  /** An order that has failed fails, however it goes on. */
  lemma FailsFromHere(m: Fields, visited: set<string>, order: seq<string>, values: map<string, Value>)
    requires Enumerates(order, visited) && visited <= m.Keys && ExpandedValues(m, m.Keys, values)
    requires InsertAll(order, values).None?
    ensures MayFail(Object(m))
  {
    hide Expands;
    var rest := SomeOrder(m.Keys - visited);
    EnumeratesBoth(order, visited, rest, m.Keys - visited);
    assert visited + (m.Keys - visited) == m.Keys;
    FailureStays(order, rest, values);
    assert FailsBy(m, order + rest, values);
  }

  lemma EnumeratesBoth(order: seq<string>, keys: set<string>, rest: seq<string>, others: set<string>)
    requires Enumerates(order, keys) && Enumerates(rest, others) && keys !! others
    ensures Enumerates(order + rest, keys + others)
  {
    assert forall i :: 0 <= i < |order| ==> order[i] in keys;
    assert forall i :: 0 <= i < |rest| ==> rest[i] in others;
  }

  /** One round. */
  lemma ExpandStep(m: Fields, visited: set<string>, order: seq<string>, values: map<string, Value>, r: Fields,
                   k: string, v: Value)
    requires Expanding(m, visited, order, values, r) && k in m && k !in visited && Expands(m[k], v)
    ensures var next := Insert(ExtractBracketFields(k), v, r);
            if next.Some? then Expanding(m, visited + {k}, order + [k], values[k := v], next.value)
            else MayFail(Object(m))
  {
    if Insert(ExtractBracketFields(k), v, r).Some? {
      ExpandNext(m, visited, order, values, r, k, v);
    } else {
      FailedStep(m, visited, order, values, r, k, v);
    }
  }

  lemma ExpandingAll(m: Fields, order: seq<string>, values: map<string, Value>, r: Fields)
    requires Expanding(m, m.Keys, order, values, r)
    ensures Expands(Object(m), Object(r))
  {
    assert ExpandsBy(Object(m), order, values, Object(r));
  }
}
