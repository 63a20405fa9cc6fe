/** The nested fields of an event, and how they are seen from outside: as leaves at the ends of paths. */
module FieldTrees {
  import opened Options

  /** A value of a field. `Other` stands for every type the serialisation does not support. */
  datatype Value =
    | Bool(b: bool) | Float(r: real) | Int(i: int) | Str(s: string) | Other
    | Array(elems: seq<Value>)
    | Object(fields: map<string, Value>)

  type Fields = map<string, Value>

  type Path = seq<string>

  const EMPTY_OBJECT := Object(map[])

  /** The leaf at the end of a path. Scalars, arrays and empty objects are leaves. */
  function LeafAt(v: Value, p: Path): Option<Value>
    decreases |p|, 1
  {
    if v.Object? && v.fields != map[] then FieldAt(v.fields, p)
    else if p == [] then Some(v) else None
  }

  function FieldAt(m: Fields, p: Path): Option<Value>
    decreases |p|, 0
  {
    if p == [] || p[0] !in m then None else LeafAt(m[p[0]], p[1..])
  }

  ghost predicate NoEmptyObject(m: Fields) {
    forall p :: FieldAt(m, p) != Some(EMPTY_OBJECT)
  }

  lemma FieldAtCons(m: Fields, k: string, p: Path)
    ensures FieldAt(m, [k] + p) == if k in m then LeafAt(m[k], p) else None
  {
  }

  lemma PrefixCons(k: string, a: Path, b: Path)
    ensures [k] + a <= [k] + b <==> a <= b
  {
    if [k] + a <= [k] + b {
      assert a == ([k] + a)[1..] && b == ([k] + b)[1..];
    }
  }

  /** What a leaf is. */
  lemma {:induction false} LeafIsLeaf(v: Value, p: Path)
    ensures LeafAt(v, p).Some? ==> !LeafAt(v, p).value.Object? || LeafAt(v, p).value.fields == map[]
    decreases |p|
  {
    if v.Object? && v.fields != map[] && p != [] && p[0] in v.fields {
      LeafIsLeaf(v.fields[p[0]], p[1..]);
    }
  }

  lemma {:induction false} SomeLeaf(v: Value) returns (p: Path)
    ensures LeafAt(v, p).Some?
    decreases v
  {
    p := [];
    if v.Object? && v.fields != map[] {
      var k :| k in v.fields;
      var q := SomeLeaf(v.fields[k]);
      p := [k] + q;
      FieldAtCons(v.fields, k, q);
    }
  }

  /** No leaf lies on the way to another leaf. */
  lemma {:induction false} LeavesArePrefixFree(v: Value, p: Path, q: Path)
    requires LeafAt(v, p).Some? && LeafAt(v, q).Some? && p <= q
    ensures p == q
    decreases |p|
  {
    if v.Object? && v.fields != map[] {
      LeavesArePrefixFree(v.fields[p[0]], p[1..], q[1..]);
    }
  }

  lemma KeyIffLeaf(m: Fields, k: string)
    ensures k in m <==> exists p :: FieldAt(m, [k] + p).Some?
  {
    if k in m {
      var p := SomeLeaf(m[k]);
      FieldAtCons(m, k, p);
    }
  }

  /** A tree is determined by its leaves. */
  lemma {:induction false} LeavesDetermine(v: Value, w: Value)
    requires forall p :: LeafAt(v, p) == LeafAt(w, p)
    ensures v == w
    decreases v
  {
    assert LeafAt(v, []) == LeafAt(w, []);
    if LeafAt(v, []).None? {
      forall k
        ensures k in v.fields <==> k in w.fields
        ensures k in v.fields && k in w.fields ==> v.fields[k] == w.fields[k]
      {
        forall p
          ensures FieldAt(v.fields, [k] + p) == FieldAt(w.fields, [k] + p)
          ensures LeafAt(v, [k] + p) == if k in v.fields then LeafAt(v.fields[k], p) else None
          ensures LeafAt(w, [k] + p) == if k in w.fields then LeafAt(w.fields[k], p) else None
        {
          assert LeafAt(v, [k] + p) == LeafAt(w, [k] + p);
          FieldAtCons(v.fields, k, p);
          FieldAtCons(w.fields, k, p);
        }
        KeyIffLeaf(v.fields, k);
        KeyIffLeaf(w.fields, k);
        if k in v.fields && k in w.fields {
          LeavesDetermine(v.fields[k], w.fields[k]);
        }
      }
    }
  }

  lemma FieldsDetermine(m: Fields, n: Fields)
    requires forall p :: FieldAt(m, p) == FieldAt(n, p)
    ensures m == n
  {
    EmptyIffNoLeaf(m);
    EmptyIffNoLeaf(n);
    forall p
      ensures LeafAt(Object(m), p) == LeafAt(Object(n), p)
    {
    }
    LeavesDetermine(Object(m), Object(n));
  }

  lemma EmptyIffNoLeaf(m: Fields)
    ensures m == map[] <==> forall p :: FieldAt(m, p) == None
  {
    if m != map[] {
      var p := SomeLeaf(Object(m));
      assert FieldAt(m, p).Some?;
    }
  }
}
