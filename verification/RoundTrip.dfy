/** Expanding the bracket keys of a Logstash hash gives the nested fields back: LogstashHash of
    internal/logstash/fieldset.go against parseAllBracketProperties of internal/testcase/helper.go. */
module RoundTrip {
  import opened Options
  import opened Brackets
  import opened FieldTrees
  import opened Expansion
  import opened Serialization

  /** Every key, at every level, can stand between brackets. */
  ghost predicate GoodKeys(v: Value)
    decreases v
  {
    v.Object? ==> forall k | k in v.fields :: GoodKey(k) && GoodKeys(v.fields[k])
  }

  /** The flat field set that the entries spell. */
  function Flat(entries: seq<Entry>): Fields {
    if entries == [] then map[]
    else Flat(entries[..|entries| - 1])[entries[|entries| - 1].key := Read(entries[|entries| - 1].literal)]
  }

  lemma {:induction false} PathsAreGood(v: Value, p: Path)
    requires GoodKeys(v) && LeafAt(v, p).Some?
    ensures GoodPath(p)
    decreases |p|
  {
    if p != [] {
      PathsAreGood(v.fields[p[0]], p[1..]);
      assert p == [p[0]] + p[1..];
    }
  }

  lemma FieldPathsAreGood(m: Fields, p: Path)
    requires GoodKeys(Object(m)) && FieldAt(m, p).Some?
    ensures p != [] && GoodPath(p) && ExtractBracketFields(HashKey(Join(p))) == p
  {
    assert LeafAt(Object(m), p).Some?;
    PathsAreGood(Object(m), p);
    SplitOfHashKey(p);
  }

  /** What the flat field set holds: for every leaf but the empty objects its hash key, and nothing else. */
  ghost predicate FlatOf(flat: Fields, m: Fields) {
    && (forall p | HasEntry(FieldAt(m, p)) ::
          HashKey(Join(p)) in flat && Some(flat[HashKey(Join(p))]) == FieldAt(m, p))
    && (forall k | k in flat ::
          HasEntry(FieldAt(m, ExtractBracketFields(k))) && k == HashKey(Join(ExtractBracketFields(k))))
  }

  predicate DistinctKeys(entries: seq<Entry>) {
    forall i, j :: 0 <= i < j < |entries| ==> entries[i].key != entries[j].key
  }

  lemma {:induction false} FlatEntries(entries: seq<Entry>)
    requires DistinctKeys(entries)
    ensures forall i :: 0 <= i < |entries| ==>
              entries[i].key in Flat(entries) && Flat(entries)[entries[i].key] == Read(entries[i].literal)
    ensures forall k :: k in Flat(entries) ==> exists i :: 0 <= i < |entries| && entries[i].key == k
  {
    if entries != [] {
      var n := |entries| - 1;
      FlatEntries(entries[..n]);
      forall k | k in Flat(entries)
        ensures exists i :: 0 <= i < |entries| && entries[i].key == k
      {
        if k != entries[n].key {
          var i :| 0 <= i < n && entries[..n][i].key == k;
          assert entries[i].key == k;
        }
      }
      forall i | 0 <= i < n
        ensures entries[i].key in Flat(entries) && Flat(entries)[entries[i].key] == Read(entries[i].literal)
      {
        assert entries[..n][i] == entries[i];
      }
    }
  }

  lemma HashKeysAreDistinct(m: Fields, paths: seq<Path>, entries: seq<Entry>)
    requires GoodKeys(Object(m)) && Hashes(m, paths, entries)
    ensures DistinctKeys(entries)
  {
    forall i, j | 0 <= i < j < |entries|
      ensures entries[i].key != entries[j].key
    {
      assert paths[i] in paths && paths[j] in paths;
      FieldPathsAreGood(m, paths[i]);
      FieldPathsAreGood(m, paths[j]);
    }
  }

  lemma FlatIsFlatOf(m: Fields, paths: seq<Path>, entries: seq<Entry>)
    requires GoodKeys(Object(m)) && Hashes(m, paths, entries)
    ensures FlatOf(Flat(entries), m)
  {
    HashKeysAreDistinct(m, paths, entries);
    FlatEntries(entries);
    forall p | HasEntry(FieldAt(m, p))
      ensures HashKey(Join(p)) in Flat(entries) && Some(Flat(entries)[HashKey(Join(p))]) == FieldAt(m, p)
    {
      assert p in paths;
      var i :| 0 <= i < |paths| && paths[i] == p;
      assert entries[i].key == HashKey(Join(p));
      ReadOfRender(FieldAt(m, p).value);
    }
    forall k | k in Flat(entries)
      ensures HasEntry(FieldAt(m, ExtractBracketFields(k))) && k == HashKey(Join(ExtractBracketFields(k)))
    {
      var i :| 0 <= i < |entries| && entries[i].key == k;
      assert paths[i] in paths;
      FieldPathsAreGood(m, paths[i]);
    }
  }

  /** The keys of a flat field set are prefix-free, so no order of expanding them fails. */
  lemma FlatIsPrefixFree(flat: Fields, m: Fields)
    requires FlatOf(flat, m)
    ensures PrefixFree(Object(flat))
  {
    forall j, k | j in flat && k in flat && j != k
      ensures !(ExtractBracketFields(j) <= ExtractBracketFields(k))
    {
      var p, q := ExtractBracketFields(j), ExtractBracketFields(k);
      assert LeafAt(Object(m), p) == FieldAt(m, p) && LeafAt(Object(m), q) == FieldAt(m, q);
      if p <= q {
        LeavesArePrefixFree(Object(m), p, q);
      }
    }
    forall k | k in flat
      ensures PrefixFree(flat[k])
    {
      FlatValue(flat, m, k);
    }
  }

  lemma FlatValue(flat: Fields, m: Fields, k: string)
    requires FlatOf(flat, m) && k in flat
    ensures Some(flat[k]) == FieldAt(m, ExtractBracketFields(k)) && !flat[k].Object?
  {
  }

  lemma ExpandedBelow(flat: Fields, m: Fields, k: string, p: Path)
    requires FlatOf(flat, m) && PrefixFree(Object(flat)) && k in flat && ExtractBracketFields(k) <= p
    ensures ExpandedLeaf(Object(flat), p) == if ExtractBracketFields(k) == p then Some(flat[k]) else None
  {
    OnlyKeyAbove(Object(flat), k, p);
    FlatValue(flat, m, k);
    if ExtractBracketFields(k) != p {
      assert p[|ExtractBracketFields(k)|..] != [];
    }
  }

  lemma ExpandedFlat(flat: Fields, m: Fields, p: Path)
    requires GoodKeys(Object(m)) && FlatOf(flat, m) && PrefixFree(Object(flat)) && flat != map[]
    ensures ExpandedLeaf(Object(flat), p) == if HasEntry(FieldAt(m, p)) then FieldAt(m, p) else None
  {
    if HasEntry(FieldAt(m, p)) {
      var k := HashKey(Join(p));
      FieldPathsAreGood(m, p);
      ExpandedBelow(flat, m, k, p);
    } else if k :| k in flat && ExtractBracketFields(k) <= p {
      ExpandedBelow(flat, m, k, p);
      FlatValue(flat, m, k);
    }
  }

  /** The leaves that come back. */
  lemma ReturnedLeaf(flat: Fields, m: Fields, r: Value, p: Path)
    requires GoodKeys(Object(m)) && FlatOf(flat, m) && Expands(Object(flat), r)
    ensures r.Object?
    ensures FieldAt(r.fields, p) == if HasEntry(FieldAt(m, p)) then FieldAt(m, p) else None
  {
    FlatIsPrefixFree(flat, m);
    if flat == map[] {
      NothingExpandsToNothing(r);
      assert HasEntry(FieldAt(m, p)) ==> HashKey(Join(p)) in flat;
    } else {
      ExpansionLeaves(Object(flat), r, p);
      ExpansionLeaves(Object(flat), r, []);
      ExpandedFlat(flat, m, p);
      ExpandedFlat(flat, m, []);
    }
  }

  lemma NothingExpandsToNothing(r: Value)
    requires Expands(EMPTY_OBJECT, r)
    ensures r == EMPTY_OBJECT
  {
  }

  /** The round trip, for every order of visiting the maps: what comes back is the tree without its empty
      objects, so the tree itself exactly if it has none. */
  lemma HashThenExpand(m: Fields, paths: seq<Path>, entries: seq<Entry>, r: Value)
    requires GoodKeys(Object(m)) && Hashes(m, paths, entries) && Expands(Object(Flat(entries)), r)
    ensures r.Object?
    ensures forall p :: FieldAt(r.fields, p) == if FieldAt(m, p) == Some(EMPTY_OBJECT) then None else FieldAt(m, p)
    ensures r == Object(m) <==> NoEmptyObject(m)
  {
    FlatIsFlatOf(m, paths, entries);
    ReturnedLeaf(Flat(entries), m, r, []);
    forall p
      ensures FieldAt(r.fields, p) == if FieldAt(m, p) == Some(EMPTY_OBJECT) then None else FieldAt(m, p)
    {
      ReturnedLeaf(Flat(entries), m, r, p);
      LeafIsLeaf(Object(m), p);
      assert FieldAt(m, p).Some? ==> LeafAt(Object(m), p) == FieldAt(m, p);
    }
    if NoEmptyObject(m) {
      FieldsDetermine(r.fields, m);
    }
  }

  /** And there is something to come back: no order of expanding the keys of a hash fails. */
  lemma HashExpands(m: Fields, paths: seq<Path>, entries: seq<Entry>) returns (r: Value)
    requires GoodKeys(Object(m)) && Hashes(m, paths, entries)
    ensures PrefixFree(Object(Flat(entries))) && Expands(Object(Flat(entries)), r)
  {
    var flat := Flat(entries);
    FlatIsFlatOf(m, paths, entries);
    FlatIsPrefixFree(flat, m);
    var order := SomeOrder(flat.Keys);
    PrefixFreeNeverFails(order, flat);
    r := Object(InsertAll(order, flat).value);
    forall k | k in flat
      ensures Expands(flat[k], flat[k])
    {
      FlatValue(flat, m, k);
    }
    assert ExpandsBy(Object(flat), order, flat, r);
  }
}
