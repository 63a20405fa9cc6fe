/** Keys in bracket notation are expanded into nested objects (parseBracketProperty and
    parseAllBracketProperties in internal/testcase/helper.go). Maps are visited in any order. */
module Expansion {
  import opened Options
  import opened Brackets
  import opened FieldTrees

  /** parseBracketProperty on values; None is the failing type assertion. */
  function Insert(keys: Path, v: Value, m: Fields): Option<Fields>
    requires keys != []
    decreases |keys|
  {
    if |keys| == 1 then Some(m[keys[0] := v])
    else
      var sub := if keys[0] in m then m[keys[0]] else Object(map[]);
      if !sub.Object? then None
      else match Insert(keys[1..], v, sub.fields)
        case None => None
        case Some(inner) => Some(m[keys[0] := Object(inner)])
  }

  /** The loop of parseAllBracketProperties, for an order of the keys and the values to insert. */
  function InsertAll(order: seq<string>, values: map<string, Value>): Option<Fields>
    requires forall k :: k in order ==> k in values
  {
    if order == [] then Some(map[])
    else match InsertAll(order[..|order| - 1], values)
      case None => None
      case Some(m) => Insert(ExtractBracketFields(order[|order| - 1]), values[order[|order| - 1]], m)
  }

  ghost predicate Enumerates(order: seq<string>, keys: set<string>) {
    && (forall i, j :: 0 <= i < j < |order| ==> order[i] != order[j])
    && (forall k :: k in order <==> k in keys)
  }

  /** parseAllBracketProperties may turn v into r, for some order of every map involved. */
  ghost predicate Expands(v: Value, r: Value)
    decreases v, 1
  {
    if !v.Object? then r == v
    else exists order, values :: ExpandsBy(v, order, values, r)
  }

  ghost predicate ExpandsBy(v: Value, order: seq<string>, values: map<string, Value>, r: Value)
    requires v.Object?
    decreases v, 0
  {
    && Enumerates(order, v.fields.Keys)
    && values.Keys == v.fields.Keys
    && (forall k | k in v.fields :: Expands(v.fields[k], values[k]))
    && r.Object? && InsertAll(order, values) == Some(r.fields)
  }

  // ---------------------------------------------------------------- prefix-free keys

  ghost predicate PrefixFreeKeys(keys: set<string>) {
    forall j, k | j in keys && k in keys && j != k :: !(ExtractBracketFields(j) <= ExtractBracketFields(k))
  }

  /** The paths of sibling keys are prefix-free at every level. */
  ghost predicate PrefixFree(v: Value)
    decreases v
  {
    v.Object? ==> PrefixFreeKeys(v.fields.Keys) && forall k | k in v.fields :: PrefixFree(v.fields[k])
  }

  /** No leaf lies on the way to the end of the path. */
  ghost predicate Clear(m: Fields, path: Path) {
    forall q :: FieldAt(m, q).Some? ==> !(q < path)
  }

  lemma ClearBelow(m: Fields, path: Path)
    requires |path| > 1 && Clear(m, path) && path[0] in m
    ensures m[path[0]].Object? && m[path[0]].fields != map[] && Clear(m[path[0]].fields, path[1..])
  {
    var k := path[0];
    assert path == [k] + path[1..];
    FieldAtCons(m, k, []);
    assert [k] + [] < path;
    forall q | FieldAt(m[k].fields, q).Some?
      ensures !(q < path[1..])
    {
      FieldAtCons(m, k, q);
      assert FieldAt(m, [k] + q).Some?;
      PrefixCons(k, q, path[1..]);
    }
  }

  /** An insertion that succeeds puts the leaves of the value below the path, in place of what was there. An empty
      object on the way is no leaf any more; no other leaf changes. */
  lemma {:induction false} InsertLeaves(keys: Path, v: Value, m: Fields, p: Path)
    requires keys != [] && Insert(keys, v, m).Some?
    ensures FieldAt(Insert(keys, v, m).value, p)
            == if keys <= p then LeafAt(v, p[|keys|..]) else if p < keys then None else FieldAt(m, p)
    decreases |keys|
  {
    var k := keys[0];
    if |keys| == 1 {
      assert keys == [k];
    } else {
      var sub := if k in m then m[k].fields else map[];
      var q := if p == [] then [] else p[1..];
      InsertLeaves(keys[1..], v, sub, q);
      InsertIsNotEmpty(keys[1..], v, sub);
      InsertBelow(keys, v, m, sub, p);
    }
  }

  lemma InsertBelow(keys: Path, v: Value, m: Fields, sub: Fields, p: Path)
    requires |keys| > 1 && (if keys[0] in m then m[keys[0]] == Object(sub) else sub == map[])
    requires Insert(keys[1..], v, sub).Some? && Insert(keys[1..], v, sub).value != map[]
    requires p != [] ==> FieldAt(Insert(keys[1..], v, sub).value, p[1..])
                         == if keys[1..] <= p[1..] then LeafAt(v, p[1..][|keys[1..]|..])
                            else if p[1..] < keys[1..] then None else FieldAt(sub, p[1..])
    ensures FieldAt(Insert(keys, v, m).value, p)
            == if keys <= p then LeafAt(v, p[|keys|..]) else if p < keys then None else FieldAt(m, p)
  {
  }

  /** When nothing is in the way, an insertion succeeds. */
  lemma {:induction false} InsertClear(keys: Path, v: Value, m: Fields, p: Path)
    requires keys != [] && Clear(m, keys)
    ensures Insert(keys, v, m).Some?
    ensures FieldAt(Insert(keys, v, m).value, p)
            == if keys <= p then LeafAt(v, p[|keys|..]) else FieldAt(m, p)
    decreases |keys|
  {
    if |keys| > 1 {
      var sub := map[];
      if keys[0] in m {
        ClearBelow(m, keys);
        sub := m[keys[0]].fields;
      }
      InsertClear(keys[1..], v, sub, []);
    }
    InsertLeaves(keys, v, m, p);
  }

  lemma InsertIsNotEmpty(keys: Path, v: Value, m: Fields)
    requires keys != []
    ensures Insert(keys, v, m).Some? ==> keys[0] in Insert(keys, v, m).value
  {
  }

  // ---------------------------------------------------------------- independence of the order

  /** The leaves of the result, whatever the order: those of the values, below the paths of their keys. */
  ghost predicate LeavesOf(m: Fields, keys: set<string>, values: map<string, Value>)
    requires forall k :: k in keys ==> k in values
  {
    && (forall k, q | k in keys :: FieldAt(m, ExtractBracketFields(k) + q) == LeafAt(values[k], q))
    && (forall p | FieldAt(m, p).Some? :: exists k :: k in keys && ExtractBracketFields(k) <= p)
  }

  /** The part of a tree at the end of a path. */
  function SubtreeAt(v: Value, p: Path): Option<Value>
    decreases |p|
  {
    if p == [] then Some(v)
    else if v.Object? && p[0] in v.fields then SubtreeAt(v.fields[p[0]], p[1..])
    else None
  }

  /** Where the path of one key leads through the path of another, the value of the second is already part of the
      value of the first. */
  ghost predicate AgreeOn(keys: set<string>, values: map<string, Value>)
    requires forall k :: k in keys ==> k in values
  {
    forall j, k | j in keys && k in keys && j != k && ExtractBracketFields(j) <= ExtractBracketFields(k) ::
      SubtreeAt(values[j], ExtractBracketFields(k)[|ExtractBracketFields(j)|..]) == Some(values[k])
  }

  lemma {:induction false} InsertLeavesValue(keys: Path, v: Value, m: Fields)
    requires keys != [] && Insert(keys, v, m).Some?
    ensures SubtreeAt(Object(Insert(keys, v, m).value), keys) == Some(v)
    decreases |keys|
  {
    if |keys| > 1 {
      var sub := if keys[0] in m then m[keys[0]].fields else map[];
      InsertLeavesValue(keys[1..], v, sub);
    }
  }

  /** Inserting what is there already changes nothing. */
  lemma {:induction false} InsertPresent(keys: Path, v: Value, m: Fields)
    requires keys != [] && SubtreeAt(Object(m), keys) == Some(v)
    ensures Insert(keys, v, m) == Some(m)
    decreases |keys|
  {
    var k := keys[0];
    if |keys| == 1 {
      assert m[k := m[k]] == m;
    } else {
      InsertPresent(keys[1..], v, m[k].fields);
      assert m[k := Object(m[k].fields)] == m;
    }
  }

  lemma {:induction false} SubtreeLeaves(v: Value, p: Path, w: Value, q: Path)
    requires SubtreeAt(v, p) == Some(w)
    ensures LeafAt(v, p + q) == LeafAt(w, q)
    decreases |p|
  {
    if p == [] {
      assert p + q == q;
    } else {
      assert p + q == [p[0]] + (p[1..] + q);
      SubtreeLeaves(v.fields[p[0]], p[1..], w, q);
      FieldAtCons(v.fields, p[0], p[1..] + q);
    }
  }

  lemma FirstOfLeaf(v: Value, p: Path)
    requires LeafAt(v, p).Some? && p != []
    ensures v.Object? && v.fields != map[] && p[0] in v.fields
  {
  }

  lemma {:induction false} LeavesMakeSubtree(v: Value, p: Path, w: Value)
    requires forall q :: LeafAt(v, p + q) == LeafAt(w, q)
    ensures SubtreeAt(v, p) == Some(w)
    decreases |p|
  {
    if p == [] {
      forall q
        ensures LeafAt(v, q) == LeafAt(w, q)
      {
        assert p + q == q;
      }
      LeavesDetermine(v, w);
    } else {
      var leaf := SomeLeaf(w);
      assert LeafAt(v, p + leaf) == LeafAt(w, leaf);
      FirstOfLeaf(v, p + leaf);
      forall q
        ensures LeafAt(v.fields[p[0]], p[1..] + q) == LeafAt(w, q)
      {
        assert p + q == [p[0]] + (p[1..] + q);
        FieldAtCons(v.fields, p[0], p[1..] + q);
        assert LeafAt(v, p + q) == LeafAt(w, q);
      }
      LeavesMakeSubtree(v.fields[p[0]], p[1..], w);
    }
  }

  /** When the values agree no order fails, and every order leads to the same leaves. */
  lemma {:induction false} InsertAllLeaves(order: seq<string>, values: map<string, Value>, keys: set<string>)
    requires Enumerates(order, keys) && (forall k :: k in keys ==> k in values) && AgreeOn(keys, values)
    ensures InsertAll(order, values).Some? && LeavesOf(InsertAll(order, values).value, keys, values)
    decreases |order|
  {
    if order != [] {
      var front, last := order[..|order| - 1], order[|order| - 1];
      assert order == front + [last];
      var before := keys - {last};
      InsertAllLeaves(front, values, before);
      InsertNext(InsertAll(front, values).value, before, last, values);
      assert keys == before + {last};
    }
  }

  lemma InsertNext(m: Fields, keys: set<string>, last: string, values: map<string, Value>)
    requires (forall k :: k in keys + {last} ==> k in values) && last !in keys
    requires LeavesOf(m, keys, values) && AgreeOn(keys + {last}, values)
    ensures var r := Insert(ExtractBracketFields(last), values[last], m);
            r.Some? && LeavesOf(r.value, keys + {last}, values)
  {
    if j :| j in keys && ExtractBracketFields(j) <= ExtractBracketFields(last) {
      InsertNextPresent(m, keys, j, last, values);
    } else {
      InsertNextClear(m, keys, last, values);
    }
  }

  /** The path of a key that was visited leads through that of the next one: its value is there. */
  lemma InsertNextPresent(m: Fields, keys: set<string>, j: string, last: string, values: map<string, Value>)
    requires (forall k :: k in keys + {last} ==> k in values) && last !in keys
    requires LeavesOf(m, keys, values) && AgreeOn(keys + {last}, values)
    requires j in keys && ExtractBracketFields(j) <= ExtractBracketFields(last)
    ensures Insert(ExtractBracketFields(last), values[last], m) == Some(m)
    ensures LeavesOf(m, keys + {last}, values)
  {
    var above, path := ExtractBracketFields(j), ExtractBracketFields(last);
    var rest := path[|above|..];
    assert j in keys + {last} && last in keys + {last};
    forall q
      ensures LeafAt(Object(m), path + q) == FieldAt(m, path + q) == LeafAt(values[last], q)
    {
      assert path + q == above + (rest + q);
      SubtreeLeaves(values[j], rest, values[last], q);
      EmptyIffNoLeaf(m);
      var leaf := SomeLeaf(values[j]);
      assert FieldAt(m, above + leaf).Some?;
    }
    LeavesMakeSubtree(Object(m), path, values[last]);
    InsertPresent(path, values[last], m);
    forall p | FieldAt(m, p).Some?
      ensures exists k :: k in keys + {last} && ExtractBracketFields(k) <= p
    {
      var k :| k in keys && ExtractBracketFields(k) <= p;
      assert k in keys + {last};
    }
  }

  lemma InsertNextClear(m: Fields, keys: set<string>, last: string, values: map<string, Value>)
    requires (forall k :: k in keys + {last} ==> k in values) && last !in keys
    requires LeavesOf(m, keys, values) && AgreeOn(keys + {last}, values)
    requires forall j | j in keys :: !(ExtractBracketFields(j) <= ExtractBracketFields(last))
    ensures var r := Insert(ExtractBracketFields(last), values[last], m);
            r.Some? && LeavesOf(r.value, keys + {last}, values)
  {
    var path := ExtractBracketFields(last);
    assert Clear(m, path) by {
      forall q | FieldAt(m, q).Some?
        ensures !(q < path)
      {
        var k :| k in keys && ExtractBracketFields(k) <= q;
        Comparable(ExtractBracketFields(k), path, q);
      }
    }
    InsertClear(path, values[last], m, []);
    var r := Insert(path, values[last], m).value;
    forall k, q | k in keys + {last}
      ensures FieldAt(r, ExtractBracketFields(k) + q) == LeafAt(values[k], q)
    {
      InsertClear(path, values[last], m, ExtractBracketFields(k) + q);
      LeafAfterInsertion(keys, last, values, k, q);
    }
    forall p | FieldAt(r, p).Some?
      ensures exists k :: k in keys + {last} && ExtractBracketFields(k) <= p
    {
      InsertClear(path, values[last], m, p);
      if !(path <= p) {
        var k :| k in keys && ExtractBracketFields(k) <= p;
        assert k in keys + {last};
      } else {
        assert last in keys + {last};
      }
    }
  }

  lemma LeafAfterInsertion(keys: set<string>, last: string, values: map<string, Value>, k: string, q: Path)
    requires (forall k :: k in keys + {last} ==> k in values) && AgreeOn(keys + {last}, values)
    requires last !in keys && k in keys + {last}
    requires forall j | j in keys :: !(ExtractBracketFields(j) <= ExtractBracketFields(last))
    ensures var path, p := ExtractBracketFields(last), ExtractBracketFields(k) + q;
            (path <= p ==> LeafAt(values[last], p[|path|..]) == LeafAt(values[k], q))
            && (k == last ==> path <= p)
  {
    var path, p := ExtractBracketFields(last), ExtractBracketFields(k) + q;
    if k == last {
      assert p[|path|..] == q;
    } else if path <= p {
      Comparable(ExtractBracketFields(k), path, p);
      assert last in keys + {last} && path <= ExtractBracketFields(k);
      var rest := ExtractBracketFields(k)[|path|..];
      SubtreeLeaves(values[last], rest, values[k], q);
      assert p[|path|..] == rest + q;
    }
  }

  /** Two prefixes of the same path are comparable; a path between them is a prefix too. */
  lemma Comparable(a: Path, b: Path, q: Path)
    requires a <= q
    ensures b <= q ==> a <= b || b <= a
    ensures q <= b ==> a <= b
  {
  }

  /** The leaf that expansion puts at the end of a path, without any order: below the path of a key lies what
      the value of the key expands to. */
  ghost function ExpandedLeaf(v: Value, p: Path): Option<Value>
    decreases v
  {
    if !v.Object? || v.fields == map[] then
      if p == [] then Some(v) else None
    else if k :| k in v.fields && ExtractBracketFields(k) <= p then
      ExpandedLeaf(v.fields[k], p[|ExtractBracketFields(k)|..])
    else None
  }

  lemma {:induction false} ExpansionLeaves(v: Value, r: Value, p: Path)
    requires PrefixFree(v) && Expands(v, r)
    ensures LeafAt(r, p) == ExpandedLeaf(v, p)
    decreases v
  {
    if v.Object? {
      var order, values :| ExpandsBy(v, order, values, r);
      InsertAllLeaves(order, values, v.fields.Keys);
      if v.fields == map[] {
        FirstIsKey(order, v.fields.Keys);
      } else {
        EmptyOnlyIfNoKeys(r.fields, v.fields.Keys, values);
        if k :| k in v.fields && ExtractBracketFields(k) <= p {
          var rest := p[|ExtractBracketFields(k)|..];
          OnlyKeyAbove(v, k, p);
          LeafBelowKey(r.fields, v.fields.Keys, values, k, p);
          ExpansionLeaves(v.fields[k], values[k], rest);
        } else {
          assert FieldAt(r.fields, p).None?;
        }
      }
    }
  }

  lemma FirstIsKey(order: seq<string>, keys: set<string>)
    requires Enumerates(order, keys)
    ensures order != [] ==> order[0] in keys
  {
  }

  lemma EmptyOnlyIfNoKeys(m: Fields, keys: set<string>, values: map<string, Value>)
    requires keys != {} && forall k :: k in keys ==> k in values
    requires LeavesOf(m, keys, values)
    ensures m != map[]
  {
    var k :| k in keys;
    var q := SomeLeaf(values[k]);
    assert FieldAt(m, ExtractBracketFields(k) + q).Some?;
  }

  lemma LeafBelowKey(m: Fields, keys: set<string>, values: map<string, Value>, k: string, p: Path)
    requires (forall k :: k in keys ==> k in values) && LeavesOf(m, keys, values)
    requires k in keys && ExtractBracketFields(k) <= p
    ensures FieldAt(m, p) == LeafAt(values[k], p[|ExtractBracketFields(k)|..])
  {
    assert p == ExtractBracketFields(k) + p[|ExtractBracketFields(k)|..];
  }

  lemma OnlyKeyAbove(v: Value, k: string, p: Path)
    requires v.Object? && PrefixFree(v) && k in v.fields && ExtractBracketFields(k) <= p
    ensures ExpandedLeaf(v, p) == ExpandedLeaf(v.fields[k], p[|ExtractBracketFields(k)|..])
  {
  }

  lemma LeavesOfDetermines(m: Fields, n: Fields, keys: set<string>, values: map<string, Value>)
    requires forall k :: k in keys ==> k in values
    requires LeavesOf(m, keys, values) && LeavesOf(n, keys, values)
    ensures m == n
  {
    forall p
      ensures FieldAt(m, p) == FieldAt(n, p)
    {
      if k :| k in keys && ExtractBracketFields(k) <= p {
        LeafBelowKey(m, keys, values, k, p);
        LeafBelowKey(n, keys, values, k, p);
      }
    }
    FieldsDetermine(m, n);
  }

  lemma InsertAllOfTwo(values: map<string, Value>, j: string, k: string)
    requires j in values && k in values
    ensures InsertAll([j, k], values)
            == match Insert(ExtractBracketFields(j), values[j], map[])
               case None => None
               case Some(m) => Insert(ExtractBracketFields(k), values[k], m)
  {
    assert [j, k][..1] == [j] && [j][..0] == [];
    assert InsertAll([j], values) == Insert(ExtractBracketFields(j), values[j], map[]);
  }

  lemma TwoSpellings()
    ensures ExtractBracketFields("[a]") == ["a"] == ExtractBracketFields("a")
  {
    SplitOfJoin(["a"]);
    assert Join(["a"]) == "[a]" + "" == "[a]";
    assert MatchAt("a") == 0;
  }

  /** Values that do not agree: the order decides. */
  lemma OrderMatters() returns (v: Value, r1: Value, r2: Value)
    ensures Expands(v, r1) && Expands(v, r2) && r1 != r2
  {
    var values: map<string, Value> := map["a" := Int(1), "[a]" := Int(2)];
    v := Object(values);
    TwoSpellings();
    r1 := Object(map["a" := Int(2)]);
    r2 := Object(map["a" := Int(1)]);
    var o1, o2 := ["a", "[a]"], ["[a]", "a"];
    InsertAllOfTwo(values, "a", "[a]");
    InsertAllOfTwo(values, "[a]", "a");
    assert map["a" := Int(1)]["a" := Int(2)] == r1.fields;
    assert map["a" := Int(2)]["a" := Int(1)] == r2.fields;
    assert ExpandsBy(v, o1, values, r1);
    assert ExpandsBy(v, o2, values, r2);
  }

  // ---------------------------------------------------------------- normal form

  /** No key can be expanded any further, at any level of nested objects. */
  ghost predicate Normal(v: Value)
    decreases v
  {
    v.Object? ==> forall k | k in v.fields :: ExtractBracketFields(k) == [k] && Normal(v.fields[k])
  }

  lemma {:induction false} InsertKeepsNormal(keys: Path, v: Value, m: Fields)
    requires keys != [] && Normal(v) && Normal(Object(m))
    requires forall i :: 0 <= i < |keys| ==> ExtractBracketFields(keys[i]) == [keys[i]]
    ensures Insert(keys, v, m).Some? ==> Normal(Object(Insert(keys, v, m).value))
    decreases |keys|
  {
    if |keys| > 1 {
      var sub := if keys[0] in m then m[keys[0]] else Object(map[]);
      if sub.Object? {
        InsertKeepsNormal(keys[1..], v, sub.fields);
      }
    }
  }

  lemma {:induction false} InsertAllIsNormal(order: seq<string>, values: map<string, Value>)
    requires forall k :: k in order ==> k in values && Normal(values[k])
    ensures InsertAll(order, values).Some? ==> Normal(Object(InsertAll(order, values).value))
  {
    if order != [] {
      var front, last := order[..|order| - 1], order[|order| - 1];
      InsertAllIsNormal(front, values);
      var path := ExtractBracketFields(last);
      forall i | 0 <= i < |path|
        ensures ExtractBracketFields(path[i]) == [path[i]]
      {
        PartsArePlain(last, i);
      }
      if InsertAll(front, values).Some? {
        InsertKeepsNormal(path, values[last], InsertAll(front, values).value);
      }
    }
  }

  /** Whatever the order, and whether or not the keys are prefix-free, the result is a normal form. */
  lemma {:induction false} ExpansionIsNormal(v: Value, r: Value)
    requires Expands(v, r)
    ensures Normal(r)
    decreases v
  {
    if v.Object? {
      var order, values :| ExpandsBy(v, order, values, r);
      forall k | k in order
        ensures k in values && Normal(values[k])
      {
        ExpansionIsNormal(v.fields[k], values[k]);
      }
      InsertAllIsNormal(order, values);
    }
  }

  lemma {:induction false} NormalIsPrefixFree(v: Value)
    requires Normal(v)
    ensures PrefixFree(v)
    decreases v
  {
    if v.Object? {
      forall k | k in v.fields
        ensures PrefixFree(v.fields[k])
      {
        NormalIsPrefixFree(v.fields[k]);
      }
      forall j, k | j in v.fields && k in v.fields && j != k
        ensures !(ExtractBracketFields(j) <= ExtractBracketFields(k))
      {
        assert [j][0] != [k][0];
      }
    }
  }

  lemma {:induction false} NormalKeepsLeaves(v: Value, p: Path)
    requires Normal(v)
    ensures ExpandedLeaf(v, p) == LeafAt(v, p)
    decreases v
  {
    if v.Object? && v.fields != map[] && p != [] && p[0] in v.fields {
      NormalIsPrefixFree(v);
      assert ExtractBracketFields(p[0]) == [p[0]] <= p;
      OnlyKeyAbove(v, p[0], p);
      NormalKeepsLeaves(v.fields[p[0]], p[1..]);
    }
  }

  /** Expanding a result again changes nothing. */
  lemma ExpansionIsIdempotent(v: Value, r: Value, again: Value)
    requires Expands(v, r) && Expands(r, again)
    ensures again == r
  {
    ExpansionIsNormal(v, r);
    NormalIsPrefixFree(r);
    forall p
      ensures LeafAt(again, p) == LeafAt(r, p)
    {
      ExpansionLeaves(r, again, p);
      NormalKeepsLeaves(r, p);
    }
    LeavesDetermine(again, r);
  }

  // ---------------------------------------------------------------- the failing type assertion

  ghost predicate IsScalarOrArray(o: Option<Value>) {
    o.Some? && !o.value.Object?
  }

  /** The value of j puts something that is no object on the way to the end of the path of k. */
  ghost predicate Blocks(values: map<string, Value>, j: string, k: string)
    requires j in values
  {
    exists p :: ExtractBracketFields(j) <= p < ExtractBracketFields(k)
                && IsScalarOrArray(LeafAt(values[j], p[|ExtractBracketFields(j)|..]))
  }

  /** On the way to the end of keys lies something that is no object. */
  ghost predicate StopsAt(m: Fields, p: Path, keys: Path) {
    p < keys && IsScalarOrArray(FieldAt(m, p))
  }

  lemma {:induction false} InsertFailsIff(keys: Path, v: Value, m: Fields)
    requires keys != []
    ensures Insert(keys, v, m).None? <==> exists p :: StopsAt(m, p, keys)
    decreases |keys|
  {
    var k := keys[0];
    if |keys| > 1 {
      var sub := if k in m then m[k] else Object(map[]);
      assert keys == [k] + keys[1..];
      if sub.Object? {
        InsertFailsIff(keys[1..], v, sub.fields);
        if p :| StopsAt(sub.fields, p, keys[1..]) {
          FieldAtCons(m, k, p);
          PrefixCons(k, p, keys[1..]);
          assert StopsAt(m, [k] + p, keys);
        }
        if p :| StopsAt(m, p, keys) {
          assert p == [k] + p[1..];
          FieldAtCons(m, k, p[1..]);
          PrefixCons(k, p[1..], keys[1..]);
          assert StopsAt(sub.fields, p[1..], keys[1..]);
        }
      } else {
        FieldAtCons(m, k, []);
        assert StopsAt(m, [k] + [], keys);
      }
    } else {
      forall p | StopsAt(m, p, keys)
        ensures |p| == 0
      {
      }
    }
  }

  /** A scalar or array that an insertion leaves at p comes from the value or was there before. */
  lemma {:induction false} InsertOrigin(keys: Path, v: Value, m: Fields, p: Path)
    requires keys != [] && Insert(keys, v, m).Some?
    requires IsScalarOrArray(FieldAt(Insert(keys, v, m).value, p))
    ensures var leaf := FieldAt(Insert(keys, v, m).value, p);
            (keys <= p && LeafAt(v, p[|keys|..]) == leaf) || FieldAt(m, p) == leaf
    decreases |keys|
  {
    var k := keys[0];
    if p[0] == k {
      assert p == [k] + p[1..] && keys == [k] + keys[1..];
      if |keys| == 1 {
        assert keys == [k];
      } else {
        var sub := if k in m then m[k].fields else map[];
        var inner := Insert(keys[1..], v, sub).value;
        InsertIsNotEmpty(keys[1..], v, sub);
        assert FieldAt(inner, p[1..]) == FieldAt(Insert(keys, v, m).value, p);
        InsertOrigin(keys[1..], v, sub, p[1..]);
        PrefixCons(k, keys[1..], p[1..]);
        if keys[1..] <= p[1..] {
          assert p[|keys|..] == p[1..][|keys[1..]|..];
        }
      }
    }
  }

  lemma {:induction false} InsertAllOrigin(order: seq<string>, values: map<string, Value>, p: Path)
    requires forall k :: k in order ==> k in values
    requires InsertAll(order, values).Some? && IsScalarOrArray(FieldAt(InsertAll(order, values).value, p))
    ensures exists j :: j in order && ExtractBracketFields(j) <= p
                        && IsScalarOrArray(LeafAt(values[j], p[|ExtractBracketFields(j)|..]))
  {
    if order != [] {
      var front, last := order[..|order| - 1], order[|order| - 1];
      assert order == front + [last];
      var m := InsertAll(front, values).value;
      InsertOrigin(ExtractBracketFields(last), values[last], m, p);
      if IsScalarOrArray(FieldAt(m, p)) {
        InsertAllOrigin(front, values, p);
      }
    }
  }

  /** If an order fails, some key it has seen blocks another. */
  lemma {:induction false} FailureHasBlocker(order: seq<string>, values: map<string, Value>)
    requires forall k :: k in order ==> k in values
    requires InsertAll(order, values).None?
    ensures exists j, k :: j in order && k in order && Blocks(values, j, k)
  {
    var front, last := order[..|order| - 1], order[|order| - 1];
    assert order == front + [last];
    if InsertAll(front, values).None? {
      FailureHasBlocker(front, values);
    } else {
      var m := InsertAll(front, values).value;
      InsertFailsIff(ExtractBracketFields(last), values[last], m);
      var p :| StopsAt(m, p, ExtractBracketFields(last));
      InsertAllOrigin(front, values, p);
      var j :| j in front && ExtractBracketFields(j) <= p
               && IsScalarOrArray(LeafAt(values[j], p[|ExtractBracketFields(j)|..]));
      assert Blocks(values, j, last);
    }
  }

  /** If j blocks k, the order that begins with j and k fails. */
  lemma BlockerFails(values: map<string, Value>, j: string, k: string, rest: seq<string>)
    requires j in values && k in values && Blocks(values, j, k)
    requires forall x :: x in rest ==> x in values
    ensures InsertAll([j, k] + rest, values).None?
  {
    var order := [j, k] + rest;
    if rest == [] {
      var path, p := ExtractBracketFields(j), PathOfBlocker(values, j, k);
      assert order == [j, k];
      InsertAllOfTwo(values, j, k);
      InsertClear(path, values[j], map[], p);
      assert StopsAt(Insert(path, values[j], map[]).value, p, ExtractBracketFields(k));
      InsertFailsIff(ExtractBracketFields(k), values[k], Insert(path, values[j], map[]).value);
    } else {
      var n := |rest| - 1;
      assert order[..|order| - 1] == [j, k] + rest[..n];
      BlockerFails(values, j, k, rest[..n]);
    }
  }

  ghost function PathOfBlocker(values: map<string, Value>, j: string, k: string): Path
    requires j in values && Blocks(values, j, k)
  {
    var p :| ExtractBracketFields(j) <= p < ExtractBracketFields(k)
             && IsScalarOrArray(LeafAt(values[j], p[|ExtractBracketFields(j)|..]));
    p
  }

  /** The exact condition under which the type assertion can fail: some order of the keys fails if and only if
      some key blocks another. */
  lemma SomeOrderFailsIffBlocked(values: map<string, Value>)
    ensures (exists order :: Enumerates(order, values.Keys) && InsertAll(order, values).None?)
            <==> exists j, k :: j in values && k in values && Blocks(values, j, k)
  {
    if order :| Enumerates(order, values.Keys) && InsertAll(order, values).None? {
      FailureHasBlocker(order, values);
    }
    if j, k :| j in values && k in values && Blocks(values, j, k) {
      var order := FailingOrder(values, j, k);
    }
  }

  lemma FailingOrder(values: map<string, Value>, j: string, k: string) returns (order: seq<string>)
    requires j in values && k in values && Blocks(values, j, k)
    ensures Enumerates(order, values.Keys) && InsertAll(order, values).None?
  {
    var p := PathOfBlocker(values, j, k);
    assert j != k;
    var rest := SomeOrder(values.Keys - {j, k});
    BlockerFails(values, j, k, rest);
    order := [j, k] + rest;
    forall x
      ensures x in order <==> x in values.Keys
    {
    }
  }

  lemma {:induction false} SomeOrder(keys: set<string>) returns (order: seq<string>)
    ensures Enumerates(order, keys)
    decreases keys
  {
    order := [];
    if keys != {} {
      var k :| k in keys;
      var rest := SomeOrder(keys - {k});
      order := [k] + rest;
    }
  }

  /** With prefix-free siblings no order fails, whatever the values are. */
  lemma PrefixFreeNeverFails(order: seq<string>, values: map<string, Value>)
    requires Enumerates(order, values.Keys) && PrefixFreeKeys(values.Keys)
    ensures InsertAll(order, values).Some?
  {
    InsertAllLeaves(order, values, values.Keys);
  }
}
