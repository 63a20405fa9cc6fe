/** The fields of a test case are listed as a Logstash hash: one key in bracket notation and one literal for
    every leaf (internal/logstash/fieldset.go). */
module Serialization {
  import opened Options
  import opened Brackets
  import opened FieldTrees

  /** A literal of the Logstash configuration language. How a scalar is spelled stays abstract. */
  datatype Literal = Scalar(v: Value) | List(items: seq<Literal>)

  datatype Entry = Entry(key: string, literal: Literal)

  /** The values that serializeAsLogstashLiteral accepts. */
  predicate Serializable(v: Value)
    decreases v
  {
    match v
    case Other => false
    case Array(elems) => forall i | 0 <= i < |elems| :: !elems[i].Object? && Serializable(elems[i])
    case Object(fields) => forall k | k in fields :: Serializable(fields[k])
    case _ => true
  }

  function Render(v: Value): Literal
    decreases v
  {
    if v.Array? then List(seq(|v.elems|, i requires 0 <= i < |v.elems| => Render(v.elems[i]))) else Scalar(v)
  }

  function Read(l: Literal): Value
    decreases l
  {
    match l
    case Scalar(v) => v
    case List(items) => Array(seq(|items|, i requires 0 <= i < |items| => Read(items[i])))
  }

  lemma {:induction false} ReadOfRender(v: Value)
    ensures Read(Render(v)) == v
    decreases v
  {
    if v.Array? {
      forall i | 0 <= i < |v.elems|
        ensures Read(Render(v.elems[i])) == v.elems[i]
      {
        ReadOfRender(v.elems[i]);
      }
      assert Read(Render(v)).elems == v.elems;
    }
  }

  // ---------------------------------------------------------------- what can be serialised

  /** w is v or occurs in it, at any depth. */
  ghost predicate Occurs(w: Value, v: Value)
    decreases v
  {
    || w == v
    || (v.Array? && exists i | 0 <= i < |v.elems| :: Occurs(w, v.elems[i]))
    || (v.Object? && exists k | k in v.fields :: Occurs(w, v.fields[k]))
  }

  ghost predicate Supported(v: Value) {
    forall w | Occurs(w, v) :: w != Other
  }

  ghost predicate NoObjectInArray(v: Value) {
    forall a, w | Occurs(a, v) && a.Array? && Occurs(w, a) :: !w.Object?
  }

  /** Accepted are exactly the values of supported types without an object at any depth in an array. */
  lemma {:induction false} SerializableIff(v: Value)
    ensures Serializable(v) <==> Supported(v) && NoObjectInArray(v)
    decreases v
  {
    match v
    case Array(elems) =>
      forall i | 0 <= i < |elems|
        ensures Supported(v) ==> Supported(elems[i])
        ensures NoObjectInArray(v) ==> NoObjectInArray(elems[i]) && !elems[i].Object?
        ensures Serializable(elems[i]) <==> Supported(elems[i]) && NoObjectInArray(elems[i])
      {
        SerializableIff(elems[i]);
        OccursItself(elems[i]);
        OccursInElement(v, i);
        assert Occurs(v, v) && Occurs(elems[i], v);
      }
      if Serializable(v) {
        ElementsHoldNoObjects(v);
      }
    case Object(fields) =>
      forall k | k in fields
        ensures Supported(v) ==> Supported(fields[k])
        ensures NoObjectInArray(v) ==> NoObjectInArray(fields[k])
        ensures Serializable(fields[k]) <==> Supported(fields[k]) && NoObjectInArray(fields[k])
      {
        SerializableIff(fields[k]);
        assert forall w | Occurs(w, fields[k]) :: Occurs(w, v);
      }
      if Serializable(v) {
        FieldsHoldTheRest(v);
      }
    case _ =>
      assert Occurs(v, v);
  }

  lemma OccursItself(v: Value)
    ensures Occurs(v, v)
  {
  }

  lemma OccursInElement(v: Value, i: nat)
    requires v.Array? && i < |v.elems|
    ensures forall w | Occurs(w, v.elems[i]) :: Occurs(w, v)
  {
  }

  /** Nothing in an accepted array is an object. */
  lemma {:induction false} ElementsHoldNoObjects(v: Value)
    requires v.Array? && Serializable(v)
    ensures forall w | Occurs(w, v) :: !w.Object? && w != Other
    decreases v
  {
    forall w | Occurs(w, v)
      ensures !w.Object? && w != Other
    {
      if w != v {
        var i :| 0 <= i < |v.elems| && Occurs(w, v.elems[i]);
        if v.elems[i].Array? {
          ElementsHoldNoObjects(v.elems[i]);
        }
      }
    }
  }

  lemma FieldsHoldTheRest(v: Value)
    requires v.Object? && forall k | k in v.fields :: Supported(v.fields[k]) && NoObjectInArray(v.fields[k])
    ensures Supported(v) && NoObjectInArray(v)
  {
  }

  // ---------------------------------------------------------------- listing the leaves

  /** The leaves that get an entry: all but empty objects. */
  predicate HasEntry(leaf: Option<Value>) {
    leaf.Some? && !leaf.value.Object?
  }

  /** The paths list the leaves of v, each once, and the literals are theirs. */
  ghost predicate Lists(v: Value, paths: seq<Path>, literals: seq<Literal>) {
    && |paths| == |literals|
    && (forall i, j :: 0 <= i < j < |paths| ==> paths[i] != paths[j])
    && (forall p :: p in paths <==> HasEntry(LeafAt(v, p)))
    && (forall i :: 0 <= i < |paths| ==> Some(literals[i]) == RenderLeaf(LeafAt(v, paths[i])))
  }

  function RenderLeaf(leaf: Option<Value>): Option<Literal> {
    match leaf
    case None => None
    case Some(v) => Some(Render(v))
  }

  method SerializeAsLogstashLiteral(k: string, v: Value)
    returns (keys: seq<string>, literals: seq<Literal>, ok: bool, ghost paths: seq<Path>)
    ensures ok <==> Serializable(v)
    ensures ok ==> Lists(v, paths, literals)
    ensures ok ==> |keys| == |paths| && forall i :: 0 <= i < |keys| ==> keys[i] == Join([k] + paths[i])
    ensures ok && !v.Object? ==> literals == [Render(v)]
    ensures !ok ==> literals == []
    decreases v, 1
  {
    paths := [];
    match v {
      case Array(elems) =>
        var result := new Literal[|elems|];
        var i := 0;
        while i < |elems|
          invariant 0 <= i <= |elems|
          invariant forall j :: 0 <= j < i ==> !elems[j].Object? && Serializable(elems[j])
          invariant forall j :: 0 <= j < i ==> result[j] == Render(elems[j])
        {
          if elems[i].Object? {
            return [Wrap(k)], [], false, [];
          }
          ghost var inner;
          keys, literals, ok, inner := SerializeAsLogstashLiteral(Wrap(k), elems[i]);
          if !ok {
            return keys, [], false, [];
          }
          result[i] := literals[0];
          i := i + 1;
        }
        assert result[..] == Render(v).items;
        keys, literals, ok, paths := [Wrap(k)], [List(result[..])], true, [[]];
        JoinOfOne(k);
      case Object(_) =>
        keys, literals, ok, paths := SerializeObject(k, v);
      case Other =>
        keys, literals, ok := [Wrap(k)], [], false;
      case _ =>
        keys, literals, ok, paths := [Wrap(k)], [Scalar(v)], true, [[]];
        JoinOfOne(k);
    }
  }

  lemma JoinOfOne(k: string)
    ensures Join([k] + []) == Wrap(k)
  {
  }

  /** The case of an object: its keys in any order. */
  method SerializeObject(k: string, v: Value)
    returns (keys: seq<string>, literals: seq<Literal>, ok: bool, ghost paths: seq<Path>)
    requires v.Object?
    ensures ok <==> Serializable(v)
    ensures ok ==> Lists(v, paths, literals)
    ensures ok ==> |keys| == |paths| && forall i :: 0 <= i < |keys| ==> keys[i] == Join([k] + paths[i])
    ensures !ok ==> literals == []
    decreases v, 0
  {
    keys, literals, paths := [], [], [];
    var remaining := v.fields.Keys;
    while remaining != {}
      invariant remaining <= v.fields.Keys
      invariant forall ik :: ik in v.fields && ik !in remaining ==> Serializable(v.fields[ik])
      invariant ListsSome(v.fields, v.fields.Keys - remaining, paths, literals)
      invariant |keys| == |paths| && forall i :: 0 <= i < |keys| ==> keys[i] == Join([k] + paths[i])
    {
      var ik :| ik in remaining;
      var ks, s;
      ghost var inner;
      ks, s, ok, inner := SerializeAsLogstashLiteral(ik, v.fields[ik]);
      if !ok {
        return [], [], false, [];
      }
      ks := PrefixKeys(k, ik, ks, inner);
      ListsNext(v.fields, v.fields.Keys - remaining, paths, literals, ik, inner, s);
      assert v.fields.Keys - (remaining - {ik}) == v.fields.Keys - remaining + {ik};
      keys, literals, paths := keys + ks, literals + s, paths + Under(ik, inner);
      remaining := remaining - {ik};
    }
    ok := true;
    ListsAll(v, paths, literals);
  }

  function Under(k: string, paths: seq<Path>): seq<Path> {
    seq(|paths|, i requires 0 <= i < |paths| => [k] + paths[i])
  }

  /** The keys of a nested object get the key of the object in front. */
  method PrefixKeys(k: string, ik: string, ks: seq<string>, ghost paths: seq<Path>) returns (r: seq<string>)
    requires |ks| == |paths| && forall i :: 0 <= i < |ks| ==> ks[i] == Join([ik] + paths[i])
    ensures |r| == |ks| && forall i :: 0 <= i < |r| ==> r[i] == Join([k] + Under(ik, paths)[i])
  {
    r := ks;
    var i := 0;
    while i < |ks|
      invariant 0 <= i <= |ks| == |r|
      invariant r[i..] == ks[i..]
      invariant forall j :: 0 <= j < i ==> r[j] == Join([k] + Under(ik, paths)[j])
    {
      JoinOfCons(k, [ik] + paths[i]);
      assert r[i] == r[i..][0] == ks[i];
      r := r[i := Wrap(k) + r[i]];
      i := i + 1;
    }
  }

  /** The leaves below the keys that were visited. */
  ghost predicate ListsSome(m: Fields, visited: set<string>, paths: seq<Path>, literals: seq<Literal>) {
    && |paths| == |literals|
    && (forall i, j :: 0 <= i < j < |paths| ==> paths[i] != paths[j])
    && (forall p :: p in paths <==> p != [] && p[0] in visited && HasEntry(FieldAt(m, p)))
    && (forall i :: 0 <= i < |paths| ==> Some(literals[i]) == RenderLeaf(FieldAt(m, paths[i])))
  }

  lemma UnderOne(m: Fields, k: string, inner: seq<Path>, s: seq<Literal>)
    requires k in m && Lists(m[k], inner, s)
    ensures ListsSome(m, {k}, Under(k, inner), s)
  {
    var below := Under(k, inner);
    forall i | 0 <= i < |inner|
      ensures below[i][0] == k && below[i][1..] == inner[i] && FieldAt(m, below[i]) == LeafAt(m[k], inner[i])
      ensures inner[i] in inner
    {
      FieldAtCons(m, k, inner[i]);
    }
    forall p
      ensures p in below <==> p != [] && p[0] in {k} && HasEntry(FieldAt(m, p))
    {
      if p != [] && p[0] == k && HasEntry(FieldAt(m, p)) {
        assert p == [k] + p[1..];
        FieldAtCons(m, k, p[1..]);
        assert p[1..] in inner;
        var i :| 0 <= i < |inner| && inner[i] == p[1..];
        assert below[i] == p;
      }
    }
    assert forall i, j :: 0 <= i < j < |below| ==> below[i][1..] != below[j][1..];
  }

  lemma ListsNext(m: Fields, visited: set<string>, paths: seq<Path>, literals: seq<Literal>,
                  k: string, inner: seq<Path>, s: seq<Literal>)
    requires ListsSome(m, visited, paths, literals)
    requires k in m && k !in visited && Lists(m[k], inner, s)
    ensures ListsSome(m, visited + {k}, paths + Under(k, inner), literals + s)
  {
    UnderOne(m, k, inner, s);
    hide Lists, Under, FieldAt, HasEntry, RenderLeaf;
    var below := Under(k, inner);
    assert forall i :: 0 <= i < |below| ==> below[i] in below;
    assert forall i :: 0 <= i < |paths| ==> paths[i] in paths;
  }

  lemma ListsAll(v: Value, paths: seq<Path>, literals: seq<Literal>)
    requires v.Object? && ListsSome(v.fields, v.fields.Keys, paths, literals)
    ensures Lists(v, paths, literals)
  {
  }

  // ---------------------------------------------------------------- the hash

  /** One entry for every leaf of m that is no empty object. */
  ghost predicate Hashes(m: Fields, paths: seq<Path>, entries: seq<Entry>) {
    && |paths| == |entries|
    && (forall i, j :: 0 <= i < j < |paths| ==> paths[i] != paths[j])
    && (forall p :: p in paths <==> HasEntry(FieldAt(m, p)))
    && (forall i :: 0 <= i < |paths| ==>
          entries[i].key == HashKey(Join(paths[i]))
          && Some(entries[i].literal) == RenderLeaf(FieldAt(m, paths[i])))
  }

  /** The entries of the hash, in the order in which they are made; the original sorts their spelling. */
  method LogstashHash(fs: Fields) returns (entries: seq<Entry>, ok: bool, ghost paths: seq<Path>)
    ensures ok <==> Serializable(Object(fs))
    ensures ok ==> Hashes(fs, paths, entries) && KeysSpelled(paths, entries)
    ensures !ok ==> entries == []
  {
    entries, paths := [], [];
    ghost var literals := [];
    var remaining := fs.Keys;
    while remaining != {}
      invariant remaining <= fs.Keys
      invariant forall k :: k in fs && k !in remaining ==> Serializable(fs[k])
      invariant ListsSome(fs, fs.Keys - remaining, paths, literals)
      invariant EntriesOf(entries, paths, literals)
    {
      var k :| k in remaining;
      var ks, s;
      ghost var inner;
      ks, s, ok, inner := SerializeAsLogstashLiteral(k, fs[k]);
      if !ok || |ks| != |s| {
        return [], false, [];
      }
      entries := AppendEntries(entries, ks, s, Under(k, inner), paths, literals);
      ListsNext(fs, fs.Keys - remaining, paths, literals, k, inner, s);
      assert fs.Keys - (remaining - {k}) == fs.Keys - remaining + {k};
      literals, paths := literals + s, paths + Under(k, inner);
      remaining := remaining - {k};
    }
    ok := true;
    assert fs.Keys - remaining == fs.Keys;
    SpellKeys(fs, paths, entries);
  }

  /** A good key of the top level is listed as it is, a longer path of good keys in brackets. */
  ghost predicate KeysSpelled(paths: seq<Path>, entries: seq<Entry>) {
    && |paths| == |entries|
    && forall i | 0 <= i < |paths| && GoodPath(paths[i]) ::
         paths[i] != [] && entries[i].key == if |paths[i]| == 1 then paths[i][0] else Join(paths[i])
  }

  lemma SpellKeys(m: Fields, paths: seq<Path>, entries: seq<Entry>)
    requires Hashes(m, paths, entries)
    ensures KeysSpelled(paths, entries)
  {
    forall i | 0 <= i < |paths| && GoodPath(paths[i])
      ensures paths[i] != [] && entries[i].key == if |paths[i]| == 1 then paths[i][0] else Join(paths[i])
    {
      assert paths[i] in paths && HasEntry(FieldAt(m, paths[i]));
      HashKeyOfPath(paths[i]);
    }
  }

  predicate EntriesOf(entries: seq<Entry>, paths: seq<Path>, literals: seq<Literal>) {
    && |entries| == |paths| == |literals|
    && forall i :: 0 <= i < |entries| ==> entries[i] == Entry(HashKey(Join(paths[i])), literals[i])
  }

  method AppendEntries(entries: seq<Entry>, ks: seq<string>, s: seq<Literal>, ghost below: seq<Path>,
                       ghost paths: seq<Path>, ghost literals: seq<Literal>)
    returns (result: seq<Entry>)
    requires EntriesOf(entries, paths, literals)
    requires |ks| == |s| == |below| && forall i :: 0 <= i < |ks| ==> ks[i] == Join(below[i])
    ensures EntriesOf(result, paths + below, literals + s)
  {
    result := entries;
    var i := 0;
    while i < |ks|
      invariant 0 <= i <= |ks|
      invariant EntriesOf(result, paths + below[..i], literals + s[..i])
    {
      var k := ks[i];
      if LastOpening(k) == 0 {
        k := TrimRight(TrimLeft(k));
      }
      result := result + [Entry(k, s[i])];
      assert below[..i + 1] == below[..i] + [below[i]] && s[..i + 1] == s[..i] + [s[i]];
      i := i + 1;
    }
    assert below[..i] == below && s[..i] == s;
  }

  /** A missing field set (nil) is an error. */
  method IsValid(fs: Option<Fields>) returns (ok: bool)
    ensures ok <==> fs.Some? && Supported(Object(fs.value)) && NoObjectInArray(Object(fs.value))
  {
    if fs.None? {
      return false;
    }
    ghost var paths;
    var entries;
    entries, ok, paths := LogstashHash(fs.value);
    SerializableIff(Object(fs.value));
  }
}
