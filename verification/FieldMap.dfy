/** Nested Go maps, changed in place (internal/testcase/helper.go, the loop of Compare in
    internal/testcase/testcase.go). Expansion and Removal specify what the methods compute. */
module FieldMaps {
  import opened Brackets
  import opened FieldTrees
  import opened Removal
  import opened Expansion
  import opened Determinacy

  /** What a Go map holds at a key: a value that is never changed, or a reference to another map. */
  datatype Cell = Leaf(v: Value) | Nested(node: FieldMap)

  ghost function Footprint(c: Cell): set<FieldMap>
    reads if c.Nested? then {c.node} else {}
  {
    if c.Nested? then c.node.Repr else {}
  }

  /** The cell stands for the value v, and all maps it reaches are in `below`. */
  ghost predicate ValidCell(c: Cell, v: Value, below: set<FieldMap>)
    reads below
    decreases below, 1
  {
    match c
    case Leaf(w) => !w.Object? && v == w
    case Nested(node) =>
      node in below && node in node.Repr && node.Repr <= below && node.Valid() && v == Object(node.Contents)
  }

  /** The same for all cells of a map; no map is reachable from two of them. */
  ghost predicate ValidCells(cells: map<string, Cell>, values: Fields, below: set<FieldMap>)
    reads below
    decreases below, 2
  {
    && cells.Keys == values.Keys
    && (forall k | k in cells :: ValidCell(cells[k], values[k], below))
    && (forall j, k | j in cells && k in cells && j != k :: Footprint(cells[j]) !! Footprint(cells[k]))
  }

  lemma Without(cells: map<string, Cell>, values: Fields, below: set<FieldMap>, k: string)
    requires ValidCells(cells, values, below) && k in cells
    ensures ValidCell(cells[k], values[k], below)
    ensures ValidCells(cells - {k}, values - {k}, below - Footprint(cells[k]))
  {
  }

  lemma With(cells: map<string, Cell>, values: Fields, small: set<FieldMap>, below: set<FieldMap>,
             k: string, c: Cell, v: Value)
    requires ValidCells(cells, values, small) && small <= below
    requires ValidCell(c, v, below) && Footprint(c) !! small
    ensures ValidCells(cells, values, below)
    ensures ValidCells(cells[k := c], values[k := v], below)
  {
  }

  lemma CellsBelow(cells: map<string, Cell>, values: Fields, below: set<FieldMap>)
    requires ValidCells(cells, values, below)
    ensures forall k | k in cells :: Footprint(cells[k]) <= below
  {
  }

  lemma VisitNext(m: Fields, remaining: set<string>, k: string)
    requires k in remaining && k in m
    ensures m - (remaining - {k}) == (m - remaining)[k := m[k]]
  {
  }

  lemma OverrideNext(m: Fields, n: Fields, k: string, v: Value)
    ensures (m + n)[k := v] == m + n[k := v]
  {
  }

  method CloneCell(c: Cell, ghost v: Value, ghost below: set<FieldMap>) returns (d: Cell)
    requires ValidCell(c, v, below)
    ensures ValidCell(d, v, Footprint(d)) && fresh(Footprint(d))
    decreases below, 2
  {
    d := c;
    if c.Nested? {
      var sub := c.node.Clone();
      d := Nested(sub);
    }
  }

  class FieldMap {
    var entries: map<string, Cell>
    /** The tree of values that the maps reachable from here stand for. */
    ghost var Contents: Fields
    ghost var Repr: set<FieldMap>

    ghost predicate Valid()
      reads this, Repr
      decreases Repr, 0
    {
      this in Repr && ValidCells(entries, Contents, Repr - {this})
    }

    constructor ()
      ensures Valid() && Contents == map[] && Repr == {this}
    {
      entries, Contents, Repr := map[], map[], {this};
    }

    /** delete(m, k). */
    method Delete(k: string)
      requires this in Repr && ValidCells(entries - {k}, Contents - {k}, Repr - {this})
      modifies this`entries, this`Contents
      ensures Valid() && Contents == old(Contents) - {k}
    {
      entries, Contents := entries - {k}, Contents - {k};
    }

    /** m[k] = c, where c stands for v. The other cells reach no more than `others`. */
    method Store(k: string, c: Cell, ghost v: Value, ghost others: set<FieldMap>)
      requires this in Repr && others <= Repr - {this} && ValidCells(entries - {k}, Contents - {k}, others)
      requires ValidCell(c, v, Repr - {this}) && Footprint(c) !! others
      modifies this`entries, this`Contents
      ensures Valid() && Contents == old(Contents)[k := v]
    {
      With(entries - {k}, Contents - {k}, others, Repr - {this}, k, c, v);
      assert entries[k := c] == (entries - {k})[k := c] && Contents[k := v] == (Contents - {k})[k := v];
      entries, Contents := entries[k := c], Contents[k := v];
    }

    /** removeField. */
    method RemoveField(keys: Path)
      requires Valid() && keys != []
      modifies Repr
      ensures Valid() && Repr == old(Repr) && Contents == Remove(keys, old(Contents))
      decreases |keys|
    {
      var k := keys[0];
      if k in entries {
        Without(entries, Contents, Repr - {this}, k);
      }
      if |keys| == 1 {
        Delete(k);
        return;
      }
      if k !in entries || entries[k].Leaf? {
        return;
      }
      var val := entries[k].node;
      ghost var others := Repr - {this} - val.Repr;
      val.RemoveField(keys[1..]);
      assert ValidCells(entries - {k}, Contents - {k}, others);
      With(entries - {k}, Contents - {k}, others, Repr - {this}, k, Nested(val), Object(val.Contents));
      if val.entries != map[] {
        Store(k, Nested(val), Object(val.Contents), others);
      } else {
        Delete(k);
      }
    }

    /** removeFields. */
    method RemoveFields(key: string)
      requires Valid()
      modifies Repr
      ensures Valid() && Repr == old(Repr) && Contents == Remove(ExtractBracketFields(key), old(Contents))
    {
      var listKeys := ExtractFields(key);
      RemoveField(listKeys);
    }

    /** The loop of Compare over the ignored fields. */
    method RemoveIgnored(ignored: seq<string>)
      requires Valid()
      modifies Repr
      ensures Valid() && Repr == old(Repr) && Contents == RemoveAll(ignored, old(Contents))
    {
      var i := 0;
      while i < |ignored|
        invariant 0 <= i <= |ignored|
        invariant Valid() && Repr == old(Repr) && Contents == RemoveAll(ignored[..i], old(Contents))
      {
        RemoveFields(ignored[i]);
        assert ignored[..i + 1][..i] == ignored[..i];
        i := i + 1;
      }
      assert ignored[..i] == ignored;
    }

    /** After a change below k. */
    ghost method Refresh(k: string, v: Value, others: set<FieldMap>)
      requires this in Repr && others <= Repr - {this} && ValidCells(entries - {k}, Contents - {k}, others)
      requires k in entries && ValidCell(entries[k], v, Repr - {this}) && Footprint(entries[k]) !! others
      modifies this`Contents
      ensures Valid() && Contents == old(Contents)[k := v]
    {
      With(entries - {k}, Contents - {k}, others, Repr - {this}, k, entries[k], v);
      assert entries == (entries - {k})[k := entries[k]] && Contents[k := v] == (Contents - {k})[k := v];
      Contents := Contents[k := v];
    }

    /** m[k] = c, where nothing that c reaches is reachable from here. */
    method Put(k: string, c: Cell, ghost v: Value)
      requires Valid() && ValidCell(c, v, Footprint(c)) && Footprint(c) !! Repr
      modifies this
      ensures Valid() && Contents == old(Contents)[k := v] && Repr == old(Repr) + Footprint(c) && k in entries
    {
      ghost var others := Repr - {this};
      if k in entries {
        Without(entries, Contents, others, k);
        others := others - Footprint(entries[k]);
      }
      Repr := Repr + Footprint(c);
      Store(k, c, v, others);
    }

    /** The deep copy of FieldSet.Clone. */
    method Clone() returns (copy: FieldMap)
      requires Valid()
      ensures copy.Valid() && fresh(copy.Repr) && copy.Contents == Contents
      decreases Repr, 1
    {
      copy := new FieldMap();
      var remaining := entries.Keys;
      while remaining != {}
        invariant remaining <= entries.Keys
        invariant copy.Valid() && fresh(copy.Repr) && copy.Contents == Contents - remaining
      {
        var k :| k in remaining;
        copy.CopyKey(this, k, remaining);
        remaining := remaining - {k};
      }
    }

    method CopyKey(source: FieldMap, k: string, ghost remaining: set<string>)
      requires Valid() && source.Valid() && Repr !! source.Repr
      requires k in remaining && k in source.entries && Contents == source.Contents - remaining
      modifies this
      ensures Valid() && Contents == source.Contents - (remaining - {k}) && fresh(Repr - old(Repr))
      decreases source.Repr, 0
    {
      Without(source.entries, source.Contents, source.Repr - {source}, k);
      var c := CloneCell(source.entries[k], source.Contents[k], source.Repr - {source});
      VisitNext(source.Contents, remaining, k);
      Put(k, c, source.Contents[k]);
    }

    ghost predicate Reaches(c: Cell)
      reads this, if c.Nested? then {c.node} else {}
    {
      !(Footprint(c) !! Repr)
    }

    /** What json.Marshal sees: the tree of values. */
    method Marshalled() returns (m: Fields)
      requires Valid()
      ensures m == Contents
      decreases Repr, 1
    {
      m := map[];
      var remaining := entries.Keys;
      while remaining != {}
        invariant remaining <= entries.Keys && m == Contents - remaining
      {
        var k :| k in remaining;
        var v := MarshalledCell(k);
        VisitNext(Contents, remaining, k);
        m, remaining := m[k := v], remaining - {k};
      }
    }

    method MarshalledCell(k: string) returns (v: Value)
      requires Valid() && k in entries
      ensures k in Contents && v == Contents[k]
      decreases Repr, 0
    {
      Without(entries, Contents, Repr - {this}, k);
      match entries[k]
      case Leaf(w) => v := w;
      case Nested(node) =>
        var m := node.Marshalled();
        v := Object(m);
    }

    /** The loop of New that overwrites the global fields of an event with the local ones. A nested map is not
        copied: the events of a test case share it. */
    method Overwrite(local: FieldMap)
      requires Valid() && local.Valid() && Repr !! local.Repr
      modifies this
      ensures Valid() && Contents == old(Contents) + local.Contents
      ensures Repr <= old(Repr) + local.Repr
    {
      ghost var global := Contents;
      CellsBelow(local.entries, local.Contents, local.Repr - {local});
      var remaining := local.entries.Keys;
      while remaining != {}
        invariant remaining <= local.entries.Keys
        invariant Valid() && Contents == global + (local.Contents - remaining)
        invariant Repr <= old(Repr) + local.Repr - {local}
        invariant forall k | k in remaining :: !Reaches(local.entries[k])
      {
        var k :| k in remaining;
        OverwriteKey(local, k, global, remaining);
        remaining := remaining - {k};
      }
    }

    method OverwriteKey(local: FieldMap, k: string, ghost global: Fields, ghost remaining: set<string>)
      requires k in remaining && remaining <= local.entries.Keys
      requires this !in local.Repr && local.Valid() && local !in Repr
      requires Valid() && Contents == global + (local.Contents - remaining)
      requires forall j | j in remaining :: !Reaches(local.entries[j])
      modifies this
      ensures Valid() && Contents == global + (local.Contents - (remaining - {k}))
      ensures Repr <= old(Repr) + local.Repr - {local}
      ensures forall j | j in remaining - {k} :: !Reaches(local.entries[j])
    {
      CellsBelow(local.entries, local.Contents, local.Repr - {local});
      Without(local.entries, local.Contents, local.Repr - {local}, k);
      VisitNext(local.Contents, remaining, k);
      OverrideNext(global, local.Contents - remaining, k, local.Contents[k]);
      Put(k, local.entries[k], local.Contents[k]);
    }

    /** parseBracketProperty. Without ok the type assertion has failed: the original panics. */
    method ParseBracketProperty(listKeys: Path, c: Cell, ghost v: Value) returns (ok: bool)
      requires Valid() && listKeys != []
      requires ValidCell(c, v, Footprint(c)) && Footprint(c) !! Repr
      modifies Repr
      ensures ok <==> Insert(listKeys, v, old(Contents)).Some?
      ensures ok ==> Valid() && Contents == Insert(listKeys, v, old(Contents)).value
      ensures ok ==> old(Repr) <= Repr && fresh(Repr - old(Repr) - Footprint(c))
      decreases |listKeys|
    {
      var k := listKeys[0];
      if |listKeys| == 1 {
        Put(k, c, v);
        return true;
      }
      if k !in entries {
        PutEmpty(k);
      }
      ok := ParseBelow(listKeys, c, v);
    }

    method PutEmpty(k: string)
      requires Valid()
      modifies this
      ensures Valid() && Contents == old(Contents)[k := EMPTY_OBJECT] && k in entries
      ensures old(Repr) <= Repr && fresh(Repr - old(Repr))
    {
      var sub := new FieldMap();
      Put(k, Nested(sub), EMPTY_OBJECT);
    }

    method ParseBelow(listKeys: Path, c: Cell, ghost v: Value) returns (ok: bool)
      requires Valid() && |listKeys| > 1 && listKeys[0] in entries
      requires ValidCell(c, v, Footprint(c)) && Footprint(c) !! Repr
      modifies Repr
      ensures ok <==> Insert(listKeys, v, old(Contents)).Some?
      ensures ok ==> Valid() && Contents == Insert(listKeys, v, old(Contents)).value
      ensures ok ==> old(Repr) <= Repr && fresh(Repr - old(Repr) - Footprint(c))
      decreases |listKeys|, 0
    {
      var k := listKeys[0];
      Without(entries, Contents, Repr - {this}, k);
      if entries[k].Leaf? {
        return false;
      }
      var sub := entries[k].node;
      ghost var others := Repr - {this} - sub.Repr;
      ok := sub.ParseBracketProperty(listKeys[1..], c, v);
      if ok {
        assert ValidCells(entries - {k}, Contents - {k}, others);
        Repr := Repr + sub.Repr;
        Refresh(k, Object(sub.Contents), others);
      }
    }
  }

  /** What json.Unmarshal builds for an object: a map of its own for every nested object. */
  method Unmarshalled(m: Fields) returns (data: FieldMap)
    ensures data.Valid() && fresh(data.Repr) && data.Contents == m
    decreases Object(m), 1
  {
    data := new FieldMap();
    var remaining := m.Keys;
    while remaining != {}
      invariant remaining <= m.Keys
      invariant data.Valid() && fresh(data.Repr) && data.Contents == m - remaining
    {
      var k :| k in remaining;
      var c := UnmarshalledCell(m, k);
      VisitNext(m, remaining, k);
      data.Put(k, c, m[k]);
      remaining := remaining - {k};
    }
  }

  method UnmarshalledCell(m: Fields, k: string) returns (c: Cell)
    requires k in m
    ensures ValidCell(c, m[k], Footprint(c)) && fresh(Footprint(c))
    decreases Object(m), 0
  {
    if m[k].Object? {
      var sub := Unmarshalled(m[k].fields);
      c := Nested(sub);
    } else {
      c := Leaf(m[k]);
    }
  }

  /** parseAllBracketProperties; the keys are visited in any order. */
  method ParseAllBracketProperties(data: FieldMap) returns (result: FieldMap, ok: bool)
    requires data.Valid()
    ensures ok ==> result.Valid() && fresh(result.Repr) && Expands(Object(data.Contents), Object(result.Contents))
    ensures !ok ==> MayFail(Object(data.Contents))
    decreases data.Repr, 2
  {
    result := new FieldMap();
    ghost var m, visited, order, values := data.Contents, {}, [], map[];
    ExpandingNothing(m);
    var remaining := data.entries.Keys;
    while remaining != {}
      invariant remaining == m.Keys - visited && visited <= m.Keys
      invariant result.Valid() && fresh(result.Repr)
      invariant Expanding(m, visited, order, values, result.Contents)
    {
      var k :| k in remaining;
      ghost var v;
      ok, v := ParseKey(data, k, result, visited, order, values);
      if !ok {
        return;
      }
      order, values, visited, remaining := order + [k], values[k := v], visited + {k}, remaining - {k};
    }
    assert visited == m.Keys;
    ExpandingAll(m, order, values, result.Contents);
    ok := true;
  }

  /** One round of its loop. */
  method ParseKey(data: FieldMap, k: string, result: FieldMap,
                  ghost visited: set<string>, ghost order: seq<string>, ghost values: map<string, Value>)
    returns (ok: bool, ghost v: Value)
    requires data.Valid() && k in data.entries && k !in visited
    requires result.Valid() && result.Repr !! data.Repr
    requires Expanding(data.Contents, visited, order, values, result.Contents)
    modifies result.Repr
    ensures ok ==> result.Valid() && fresh(result.Repr - old(result.Repr))
    ensures ok ==> Expanding(data.Contents, visited + {k}, order + [k], values[k := v], result.Contents)
    ensures !ok ==> MayFail(Object(data.Contents))
    decreases data.Repr, 1
  {
    ghost var m, before := data.Contents, result.Contents;
    var listKeys := ExtractFields(k);
    var c;
    c, v, ok := ExpandedAt(data, k);
    if ok {
      ExpandStep(m, visited, order, values, before, k, v);
      ok := result.ParseBracketProperty(listKeys, c, v);
    }
  }

  method ExpandedAt(data: FieldMap, k: string) returns (c: Cell, ghost v: Value, ok: bool)
    requires data.Valid() && k in data.entries
    ensures ok ==> ValidCell(c, v, Footprint(c)) && fresh(Footprint(c))
    ensures ok ==> k in data.Contents && Expands(data.Contents[k], v)
    ensures !ok ==> MayFail(Object(data.Contents))
    decreases data.Repr, 0
  {
    Without(data.entries, data.Contents, data.Repr - {data}, k);
    c, v, ok := Expanded(data.entries[k], data.Contents[k], data.Repr - {data});
  }

  /** A nested map is expanded into a new one before it is inserted. */
  method Expanded(c: Cell, ghost v: Value, ghost below: set<FieldMap>) returns (d: Cell, ghost w: Value, ok: bool)
    requires ValidCell(c, v, below)
    ensures ok ==> ValidCell(d, w, Footprint(d)) && fresh(Footprint(d)) && Expands(v, w)
    ensures !ok ==> MayFail(v)
    decreases below, 3
  {
    d, w, ok := c, v, true;
    if c.Nested? {
      var sub;
      sub, ok := ParseAllBracketProperties(c.node);
      if ok {
        d, w := Nested(sub), Object(sub.Contents);
      }
    }
  }
}
