/** Test cases are flattened into lines and events (convertBracketFields and New in
    internal/testcase/testcase.go), and a session writes the fields of the events into a file (prepareFields
    in internal/daemon/session/session.go). */
module TestCaseSets {
  import opened Options
  import opened FieldTrees
  import opened FieldMaps
  import opened Expansion
  import opened Determinacy

  const DUMMY_EVENT_INPUT_INDICATOR := "__lfv_dummy_event"

  /** Missing input fields (nil) behave like an empty map everywhere below. */
  datatype TestCase = TestCase(
    inputLines: seq<string>, inputFields: FieldMap, expectedEvents: seq<FieldMap>, description: string)

  // ---------------------------------------------------------------- lists that are joined

  function Concat<T>(parts: seq<seq<T>>): seq<T> {
    if parts == [] then [] else Concat(parts[..|parts| - 1]) + parts[|parts| - 1]
  }

  /** For every element of the joined list the part it comes from. */
  function Owners<T>(parts: seq<seq<T>>): seq<nat> {
    if parts == [] then []
    else Owners(parts[..|parts| - 1]) + seq(|parts[|parts| - 1]|, _ => |parts| - 1)
  }

  lemma {:induction false} OwnsElement<T>(parts: seq<seq<T>>, i: nat)
    requires i < |Concat(parts)|
    ensures |Owners(parts)| == |Concat(parts)|
    ensures var c := Owners(parts)[i];
            c < |parts| && |Concat(parts[..c])| <= i < |Concat(parts[..c])| + |parts[c]|
            && Concat(parts)[i] == parts[c][i - |Concat(parts[..c])|]
  {
    OwnersPerElement(parts);
    var n := |parts| - 1;
    if i < |Concat(parts[..n])| {
      OwnsElement(parts[..n], i);
      assert parts[..n][..Owners(parts)[i]] == parts[..Owners(parts)[i]];
    }
  }

  lemma {:induction false} OwnersPerElement<T>(parts: seq<seq<T>>)
    ensures |Owners(parts)| == |Concat(parts)|
  {
    if parts != [] {
      OwnersPerElement(parts[..|parts| - 1]);
    }
  }

  // ---------------------------------------------------------------- the test case set

  /** A case without lines owns one dummy line. */
  function LinesOf(tc: TestCase): (lines: seq<string>)
    ensures lines != []
  {
    if tc.inputLines == [] then [DUMMY_EVENT_INPUT_INDICATOR] else tc.inputLines
  }

  function Lines(cases: seq<TestCase>): seq<seq<string>> {
    seq(|cases|, i requires 0 <= i < |cases| => LinesOf(cases[i]))
  }

  function Expected(cases: seq<TestCase>): seq<seq<FieldMap>> {
    seq(|cases|, i requires 0 <= i < |cases| => cases[i].expectedEvents)
  }

  ghost predicate ValidIn(m: FieldMap, repr: set<FieldMap>)
    reads repr
  {
    m in repr && m.Repr <= repr && m.Valid()
  }

  ghost predicate IsExpanded(m: FieldMap, r: FieldMap)
    reads m, r, r.Repr
  {
    r.Valid() && Expands(Object(m.Contents), Object(r.Contents))
  }

  ghost predicate IsConverted(before: TestCase, after: TestCase)
    reads before.inputFields, after.inputFields, after.inputFields.Repr
  {
    after == before.(inputFields := after.inputFields) && IsExpanded(before.inputFields, after.inputFields)
  }

  // ---------------------------------------------------------------- lines in JSON

  /** The library functions json.Unmarshal, which may fail, and json.Marshal. */
  datatype Json = Json(decode: string -> Option<Fields>, encode: Fields -> string)

  datatype Conversion = Converted | NotJson | Panicked

  ghost predicate LineConverted(json: Json, before: string, after: string) {
    exists r :: json.decode(before).Some? && Expands(Object(json.decode(before).value), Object(r))
                && after == json.encode(r)
  }

  /** What is wrong with a line whose conversion does not succeed. */
  ghost predicate LineFails(json: Json, line: string, outcome: Conversion) {
    match outcome
    case Converted => false
    case NotJson => json.decode(line).None?
    case Panicked => json.decode(line).Some? && MayFail(Object(json.decode(line).value))
  }

  ghost predicate LinesConverted(json: Json, before: seq<string>, after: seq<string>) {
    |before| == |after| && forall i | 0 <= i < |before| :: LineConverted(json, before[i], after[i])
  }

  /** parseAllBracketPropertiesInJSON. */
  method ParseAllBracketPropertiesInJSON(json: Json, line: string) returns (s: string, outcome: Conversion)
    ensures if outcome.Converted? then LineConverted(json, line, s) else LineFails(json, line, outcome)
  {
    s := "";
    var jsonObj := json.decode(line);
    if jsonObj.None? {
      return s, NotJson;
    }
    var data := Unmarshalled(jsonObj.value);
    var result, ok := ParseAllBracketProperties(data);
    if !ok {
      return s, Panicked;
    }
    var m := result.Marshalled();
    s, outcome := json.encode(m), Converted;
  }

  method ConvertLines(json: Json, lines: seq<string>) returns (result: seq<string>, outcome: Conversion)
    ensures if outcome.Converted? then LinesConverted(json, lines, result)
            else exists i | 0 <= i < |lines| :: LineFails(json, lines[i], outcome)
  {
    result, outcome := lines, Converted;
    var i := 0;
    while i < |lines|
      invariant 0 <= i <= |lines| == |result|
      invariant forall j | 0 <= j < i :: LineConverted(json, lines[j], result[j])
      invariant forall j | i <= j < |lines| :: result[j] == lines[j]
    {
      var s;
      s, outcome := ParseAllBracketPropertiesInJSON(json, result[i]);
      if !outcome.Converted? {
        return;
      }
      result := result[i := s];
      i := i + 1;
    }
    outcome := Converted;
  }

  ghost predicate SomeLineFails(json: Json, lines: seq<string>, cases: seq<TestCase>, outcome: Conversion) {
    || (exists i | 0 <= i < |lines| :: LineFails(json, lines[i], outcome))
    || (exists c, i | 0 <= c < |cases| && 0 <= i < |cases[c].inputLines| ::
          LineFails(json, cases[c].inputLines[i], outcome))
  }

  /** What convertBracketFields does to a test case; lines are only touched when they are JSON. */
  ghost predicate CaseConverted(json: Json, inJson: bool, before: TestCase, after: TestCase)
    reads before.inputFields, after.inputFields, after.inputFields.Repr
  {
    && IsConverted(before.(inputLines := after.inputLines), after)
    && if inJson then LinesConverted(json, before.inputLines, after.inputLines)
       else after.inputLines == before.inputLines
  }

  /** The global fields, overridden by the local ones. */
  method NewEvent(global: FieldMap, local: FieldMap) returns (event: FieldMap)
    requires global.Valid() && local.Valid()
    ensures fresh(event) && fresh(event.Repr - local.Repr) && event.Valid()
    ensures event.Contents == global.Contents + local.Contents
  {
    event := global.Clone();
    event.Overwrite(local);
  }

  /** The lines of the first c cases, and for every line its case. */
  function LinesUpTo(cases: seq<TestCase>, c: nat): seq<string>
    requires c <= |cases|
  {
    Concat(Lines(cases[..c]))
  }

  function LineOwners(cases: seq<TestCase>, c: nat): seq<nat>
    requires c <= |cases|
  {
    Owners(Lines(cases[..c]))
  }

  function ExpectedUpTo(cases: seq<TestCase>, c: nat): seq<FieldMap>
    requires c <= |cases|
  {
    Concat(Expected(cases[..c]))
  }

  function ExpectedOwners(cases: seq<TestCase>, c: nat): seq<nat>
    requires c <= |cases|
  {
    Owners(Expected(cases[..c]))
  }

  lemma LinesNext(cases: seq<TestCase>, c: nat)
    requires c < |cases|
    ensures LinesUpTo(cases, c + 1) == LinesUpTo(cases, c) + LinesOf(cases[c])
    ensures LineOwners(cases, c + 1) == LineOwners(cases, c) + seq(|LinesOf(cases[c])|, _ => c)
  {
    assert Lines(cases[..c + 1])[..c] == Lines(cases[..c]);
  }

  lemma ExpectedNext(cases: seq<TestCase>, c: nat)
    requires c < |cases|
    ensures ExpectedUpTo(cases, c + 1) == ExpectedUpTo(cases, c) + cases[c].expectedEvents
    ensures ExpectedOwners(cases, c + 1) == ExpectedOwners(cases, c) + seq(|cases[c].expectedEvents|, _ => c)
  {
    assert Expected(cases[..c + 1])[..c] == Expected(cases[..c]);
  }

  class TestCaseSet {
    var Codec: string
    var InputFields: FieldMap
    var InputLines: seq<string>
    var ExpectedEvents: seq<FieldMap>
    var TestCases: seq<TestCase>
    var Events: seq<FieldMap>
    var descriptions: seq<string>
    ghost var Repr: set<FieldMap>

    ghost predicate Valid()
      reads this`InputFields, this`TestCases, this`Repr, Repr
    {
      && ValidIn(InputFields, Repr)
      && (forall i | 0 <= i < |TestCases| :: ValidIn(TestCases[i].inputFields, Repr))
    }

    /** The set as it is read from a file. */
    constructor (codec: string, fields: FieldMap, lines: seq<string>, expected: seq<FieldMap>, cases: seq<TestCase>)
      requires fields.Valid() && forall i | 0 <= i < |cases| :: cases[i].inputFields.Valid()
      ensures Valid() && Events == []
      ensures InputFields == fields && InputLines == lines && ExpectedEvents == expected && TestCases == cases
      ensures Codec == codec
    {
      Codec := codec;
      InputFields, InputLines, ExpectedEvents, TestCases := fields, lines, expected, cases;
      Events, descriptions := [], [];
      Repr := fields.Repr + set i, m | 0 <= i < |cases| && m in cases[i].inputFields.Repr :: m;
    }

    /** convertBracketFields. The expected events of the test cases are left alone, those of the set are
        converted. */
    method ConvertBracketFields(json: Json) returns (outcome: Conversion)
      requires Valid() && ExpectedValid(Repr)
      modifies this`InputFields, this`TestCases, this`ExpectedEvents, this`InputLines, this`Repr
      ensures outcome.Converted? ==>
                Valid() && fresh(Repr - old(Repr)) && IsExpanded(old(InputFields), InputFields)
      ensures outcome.Converted? ==>
                |TestCases| == |old(TestCases)|
                && forall i | 0 <= i < |TestCases| ::
                     CaseConverted(json, Codec == "json_lines", old(TestCases)[i], TestCases[i])
      ensures outcome.Converted? ==>
                |ExpectedEvents| == |old(ExpectedEvents)|
                && forall i | 0 <= i < |ExpectedEvents| :: IsExpanded(old(ExpectedEvents)[i], ExpectedEvents[i])
      ensures outcome.Converted? ==>
                if Codec == "json_lines" then LinesConverted(json, old(InputLines), InputLines)
                else InputLines == old(InputLines)
      ensures || outcome.Converted?
              || (outcome.Panicked? && !old(ExpandsSafely()))
              || (Codec == "json_lines" && SomeLineFails(json, old(InputLines), old(TestCases), outcome))
    {
      var ok := ConvertFields();
      if !ok {
        return Panicked;
      }
      if Codec != "json_lines" {
        return Converted;
      }
      var lines;
      lines, outcome := ConvertLines(json, InputLines);
      if !outcome.Converted? {
        return;
      }
      InputLines := lines;
      outcome := ConvertCaseLines(json, old(TestCases));
    }

    /** The lines of the test cases, whose fields are converted already. */
    method ConvertCaseLines(json: Json, ghost before: seq<TestCase>) returns (outcome: Conversion)
      requires Valid() && AreConverted(before)
      modifies this`TestCases
      ensures outcome.Converted? ==>
                Valid() && |TestCases| == |before|
                && forall i | 0 <= i < |before| :: CaseConverted(json, true, before[i], TestCases[i])
      ensures !outcome.Converted? ==> SomeLineFails(json, [], before, outcome)
    {
      outcome := Converted;
      var i := 0;
      while i < |TestCases|
        invariant 0 <= i <= |TestCases| == |before|
        invariant Valid()
        invariant forall j | 0 <= j < i :: CaseConverted(json, true, before[j], TestCases[j])
        invariant forall j | i <= j < |before| :: IsConverted(before[j], TestCases[j])
      {
        var lines;
        lines, outcome := ConvertLines(json, TestCases[i].inputLines);
        if !outcome.Converted? {
          assert TestCases[i].inputLines == before[i].inputLines;
          return;
        }
        TestCases := TestCases[i := TestCases[i].(inputLines := lines)];
        i := i + 1;
      }
      outcome := Converted;
    }

    ghost predicate AreConverted(before: seq<TestCase>)
      reads this`TestCases, this`Repr, Repr, set i | 0 <= i < |before| :: before[i].inputFields
      reads this`InputFields
      requires Valid()
    {
      |TestCases| == |before|
      && forall i | 0 <= i < |before| ::
           assert ValidIn(TestCases[i].inputFields, Repr); IsConverted(before[i], TestCases[i])
    }

    /** The part of convertBracketFields before the lines. Without ok a type assertion has failed. */
    method ConvertFields() returns (ok: bool)
      requires Valid() && ExpectedValid(Repr)
      modifies this`InputFields, this`TestCases, this`ExpectedEvents, this`Repr
      ensures ok ==> Valid() && fresh(Repr - old(Repr)) && IsExpanded(old(InputFields), InputFields)
      ensures ok ==> |TestCases| == |old(TestCases)|
                     && forall i | 0 <= i < |TestCases| :: IsConverted(old(TestCases)[i], TestCases[i])
      ensures ok ==> |ExpectedEvents| == |old(ExpectedEvents)|
                     && forall i | 0 <= i < |ExpectedEvents| ::
                          IsExpanded(old(ExpectedEvents)[i], ExpectedEvents[i])
      ensures old(ExpandsSafely()) ==> ok
    {
      ghost var repr := Repr;
      var fields;
      fields, ok := ParseAllBracketProperties(InputFields);
      if !ok {
        return;
      }
      InputFields, Repr := fields, Repr + fields.Repr;
      ok := ConvertCases();
      if !ok {
        return;
      }
      ok := ConvertExpected(repr);
    }

    ghost predicate ExpectedValid(repr: set<FieldMap>)
      reads this`ExpectedEvents, repr
    {
      forall i | 0 <= i < |ExpectedEvents| :: ValidIn(ExpectedEvents[i], repr)
    }

    /** Whatever convertBracketFields expands does not fail in any order. */
    ghost predicate ExpandsSafely()
      reads this, Repr
      requires Valid() && ExpectedValid(Repr)
    {
      && !MayFail(Object(InputFields.Contents))
      && (forall i | 0 <= i < |TestCases| :: !MayFail(Object(TestCases[i].inputFields.Contents)))
      && (forall i | 0 <= i < |ExpectedEvents| ::
            assert ValidIn(ExpectedEvents[i], Repr); !MayFail(Object(ExpectedEvents[i].Contents)))
    }

    method ConvertCases() returns (ok: bool)
      requires Valid()
      modifies this`TestCases, this`Repr
      ensures ok ==> Valid() && fresh(Repr - old(Repr)) && |TestCases| == |old(TestCases)|
      ensures ok ==> forall i | 0 <= i < |TestCases| :: IsConverted(old(TestCases)[i], TestCases[i])
      ensures !ok ==> exists i | 0 <= i < |old(TestCases)| ::
                        MayFail(Object(old(TestCases)[i].inputFields.Contents))
    {
      var i := 0;
      while i < |TestCases|
        invariant 0 <= i <= |TestCases| == |old(TestCases)|
        invariant Valid() && fresh(Repr - old(Repr))
        invariant forall j | 0 <= j < i :: IsConverted(old(TestCases)[j], TestCases[j])
        invariant TestCases[i..] == old(TestCases)[i..]
      {
        assert TestCases[i] == TestCases[i..][0] == old(TestCases)[i];
        ok := ConvertCase(i);
        if !ok {
          return;
        }
        i := i + 1;
      }
      ok := true;
    }

    method ConvertCase(i: nat) returns (ok: bool)
      requires Valid() && i < |TestCases|
      modifies this`TestCases, this`Repr
      ensures ok ==> Valid() && fresh(Repr - old(Repr)) && |TestCases| == |old(TestCases)|
      ensures ok ==> IsConverted(old(TestCases)[i], TestCases[i]) && TestCases == old(TestCases)[i := TestCases[i]]
      ensures !ok ==> MayFail(Object(old(TestCases)[i].inputFields.Contents))
    {
      var fields;
      fields, ok := ParseAllBracketProperties(TestCases[i].inputFields);
      if ok {
        TestCases, Repr := TestCases[i := TestCases[i].(inputFields := fields)], Repr + fields.Repr;
      }
    }

    method ConvertExpected(ghost repr: set<FieldMap>) returns (ok: bool)
      requires ExpectedValid(repr)
      modifies this`ExpectedEvents
      ensures ok ==> |ExpectedEvents| == |old(ExpectedEvents)|
      ensures ok ==> forall i | 0 <= i < |ExpectedEvents| :: IsExpanded(old(ExpectedEvents)[i], ExpectedEvents[i])
      ensures !ok ==> exists i | 0 <= i < |old(ExpectedEvents)| ::
                        MayFail(Object(old(ExpectedEvents)[i].Contents))
    {
      var i := 0;
      while i < |ExpectedEvents|
        invariant 0 <= i <= |ExpectedEvents| == |old(ExpectedEvents)|
        invariant forall j | 0 <= j < i :: IsExpanded(old(ExpectedEvents)[j], ExpectedEvents[j])
        invariant forall j | i <= j < |ExpectedEvents| :: ExpectedEvents[j] == old(ExpectedEvents)[j]
      {
        var event;
        event, ok := ParseAllBracketProperties(ExpectedEvents[i]);
        if !ok {
          return;
        }
        ExpectedEvents := ExpectedEvents[i := event];
        i := i + 1;
      }
      ok := true;
    }

    /** Events[i] has the fields of the case owners[i]. */
    ghost predicate EventsOf(owners: seq<nat>)
      reads this`InputFields, this`TestCases, this`Events, this`Repr, Repr
      requires Valid()
    {
      && |Events| == |owners|
      && forall i | 0 <= i < |owners| ::
           owners[i] < |TestCases| && ValidIn(Events[i], Repr)
           && Events[i].Contents == InputFields.Contents + TestCases[owners[i]].inputFields.Contents
    }

    ghost predicate DescriptionsOf(owners: seq<nat>)
      reads this`TestCases, this`descriptions
    {
      && |descriptions| == |owners|
      && forall i | 0 <= i < |owners| ::
           owners[i] < |TestCases| && descriptions[i] == TestCases[owners[i]].description
    }

    /** The lines of the first c cases follow those that were there before, and each has its event. */
    ghost predicate LinesFlattened(c: nat, lines: seq<string>)
      reads this`InputFields, this`InputLines, this`TestCases, this`Events, this`Repr, Repr
    {
      && Valid() && c <= |TestCases|
      && InputLines == lines + LinesUpTo(TestCases, c)
      && EventsOf(LineOwners(TestCases, c))
    }

    /** The same for the expected events and their descriptions. */
    ghost predicate ExpectedFlattened(c: nat, expected: seq<FieldMap>)
      reads this`ExpectedEvents, this`TestCases, this`descriptions
    {
      && c <= |TestCases|
      && ExpectedEvents == expected + ExpectedUpTo(TestCases, c)
      && DescriptionsOf(ExpectedOwners(TestCases, c))
    }

    /** The loop over the cases in New. InputLines and ExpectedEvents may hold elements before: a test case file
        can set them. Events cannot be set there. */
    method Flatten()
      requires Valid() && Events == []
      modifies this`InputLines, this`ExpectedEvents, this`Events, this`descriptions, this`Repr
      ensures LinesFlattened(|TestCases|, old(InputLines)) && fresh(Repr - old(Repr))
      ensures ExpectedFlattened(|TestCases|, old(ExpectedEvents))
    {
      descriptions := [];
      NothingFlattened();
      hide LinesFlattened, ExpectedFlattened;
      var c := 0;
      while c < |TestCases|
        invariant 0 <= c <= |TestCases|
        invariant LinesFlattened(c, old(InputLines)) && fresh(Repr - old(Repr))
        invariant ExpectedFlattened(c, old(ExpectedEvents))
      {
        AddLines(c, old(InputLines));
        AddExpected(c, old(ExpectedEvents));
        c := c + 1;
      }
    }

    lemma NothingFlattened()
      requires Valid() && Events == [] && descriptions == []
      ensures LinesFlattened(0, InputLines) && ExpectedFlattened(0, ExpectedEvents)
    {
    }

    method AddLines(c: nat, ghost lines: seq<string>)
      requires LinesFlattened(c, lines) && c < |TestCases|
      modifies this`InputLines, this`Events, this`Repr
      ensures LinesFlattened(c + 1, lines) && fresh(Repr - old(Repr))
    {
      var tc := TestCases[c];
      if |tc.inputLines| == 0 {
        tc := tc.(inputLines := [DUMMY_EVENT_INPUT_INDICATOR]);
      }
      LinesNext(TestCases, c);
      InputLines := InputLines + tc.inputLines;
      AddEvents(c, |tc.inputLines|, LineOwners(TestCases, c));
    }

    method AddExpected(c: nat, ghost expected: seq<FieldMap>)
      requires ExpectedFlattened(c, expected) && c < |TestCases|
      modifies this`ExpectedEvents, this`descriptions
      ensures ExpectedFlattened(c + 1, expected)
    {
      ExpectedNext(TestCases, c);
      ExpectedEvents := ExpectedEvents + TestCases[c].expectedEvents;
      AddDescriptions(c, |TestCases[c].expectedEvents|, ExpectedOwners(TestCases, c));
    }

    /** The inner loop over the lines of case c. */
    method AddEvents(c: nat, lines: nat, ghost owners: seq<nat>)
      requires Valid() && c < |TestCases| && EventsOf(owners)
      modifies this`Events, this`Repr
      ensures Valid() && fresh(Repr - old(Repr)) && EventsOf(owners + seq(lines, _ => c))
    {
      assert owners + seq(0, _ => c) == owners;
      for i := 0 to lines
        invariant Valid() && fresh(Repr - old(Repr)) && EventsOf(owners + seq(i, _ => c))
      {
        AddEvent(c, owners + seq(i, _ => c));
        assert owners + seq(i + 1, _ => c) == owners + seq(i, _ => c) + [c];
      }
    }

    method AddEvent(c: nat, ghost owners: seq<nat>)
      requires Valid() && c < |TestCases| && EventsOf(owners)
      modifies this`Events, this`Repr
      ensures Valid() && fresh(Repr - old(Repr)) && EventsOf(owners + [c])
    {
      var event := NewEvent(InputFields, TestCases[c].inputFields);
      Events, Repr := Events + [event], Repr + event.Repr;
    }

    /** The inner loop over the expected events of case c. */
    method AddDescriptions(c: nat, expected: nat, ghost owners: seq<nat>)
      requires c < |TestCases| && DescriptionsOf(owners)
      modifies this`descriptions
      ensures DescriptionsOf(owners + seq(expected, _ => c))
    {
      for i := 0 to expected
        invariant DescriptionsOf(owners + seq(i, _ => c))
      {
        descriptions := descriptions + [TestCases[c].description];
      }
    }
  }

  /** How many lines the cases have, a case without lines counting as one. */
  function LineCount(cases: seq<TestCase>): nat {
    if cases == [] then 0 else
    var last := cases[|cases| - 1];
    LineCount(cases[..|cases| - 1]) + if last.inputLines == [] then 1 else |last.inputLines|
  }

  lemma {:induction false} LinesAreCounted(cases: seq<TestCase>)
    ensures |Concat(Lines(cases))| == LineCount(cases)
  {
    if cases != [] {
      var n := |cases| - 1;
      assert Lines(cases)[..n] == Lines(cases[..n]);
      LinesAreCounted(cases[..n]);
    }
  }

  /** Without lines from elsewhere every line meets the event of its own case; with such lines there are more
      lines than events. */
  lemma LinesMeetTheirEvents(s: TestCaseSet, lines: seq<string>)
    requires s.LinesFlattened(|s.TestCases|, lines)
    ensures |s.Events| == LineCount(s.TestCases)
    ensures |s.InputLines| == |lines| + |s.Events|
    ensures |s.InputLines| == |s.Events| <==> lines == []
    ensures forall i | 0 <= i < |s.Events| :: LineMeetsEvent(s, s.InputLines[|lines| + i], s.Events[i], i)
  {
    OwnersPerElement(Lines(s.TestCases));
    assert s.TestCases[..|s.TestCases|] == s.TestCases;
    LinesAreCounted(s.TestCases);
    forall i | 0 <= i < |s.Events|
      ensures LineMeetsEvent(s, s.InputLines[|lines| + i], s.Events[i], i)
    {
      OwnsElement(Lines(s.TestCases), i);
      var c := LineOwners(s.TestCases, |s.TestCases|)[i];
      assert Lines(s.TestCases)[..c] == Lines(s.TestCases[..c]);
      LinesAreCounted(s.TestCases[..c]);
      assert IsLineOf(s.TestCases, c, i, s.InputLines[|lines| + i]);
    }
  }

  /** Of all lines of the cases, the i-th is `line` and belongs to case c: one of its own, or the only dummy of a case
      without lines. */
  ghost predicate IsLineOf(cases: seq<TestCase>, c: nat, i: nat, line: string) {
    && c < |cases|
    && var first, own := LineCount(cases[..c]), cases[c].inputLines;
       if own == [] then i == first && line == DUMMY_EVENT_INPUT_INDICATOR
       else first <= i < first + |own| && line == own[i - first]
  }

  ghost predicate LineMeetsEvent(s: TestCaseSet, line: string, event: FieldMap, i: nat)
    reads s, s.Repr, event
    requires s.Valid()
  {
    exists c: nat :: IsLineOf(s.TestCases, c, i, line)
                     && event.Contents == s.InputFields.Contents + s.TestCases[c].inputFields.Contents
  }

  /** And the same for expected events and descriptions. */
  lemma ExpectedEventsMeetTheirDescriptions(s: TestCaseSet, expected: seq<FieldMap>)
    requires s.ExpectedFlattened(|s.TestCases|, expected)
    ensures |s.ExpectedEvents| == |expected| + |s.descriptions|
    ensures |s.ExpectedEvents| == |s.descriptions| <==> expected == []
    ensures forall i | 0 <= i < |s.descriptions| ::
              EventMeetsDescription(s.TestCases, s.ExpectedEvents[|expected| + i], s.descriptions[i], i)
  {
    OwnersPerElement(Expected(s.TestCases));
    assert s.TestCases[..|s.TestCases|] == s.TestCases;
    forall i | 0 <= i < |s.descriptions|
      ensures EventMeetsDescription(s.TestCases, s.ExpectedEvents[|expected| + i], s.descriptions[i], i)
    {
      OwnsElement(Expected(s.TestCases), i);
      var c := ExpectedOwners(s.TestCases, |s.TestCases|)[i];
      assert Expected(s.TestCases)[..c] == Expected(s.TestCases[..c]);
      assert IsExpectedOf(s.TestCases, c, i, s.ExpectedEvents[|expected| + i]);
    }
  }

  ghost predicate IsExpectedOf(cases: seq<TestCase>, c: nat, i: nat, event: FieldMap) {
    && c < |cases|
    && |ExpectedUpTo(cases, c)| <= i < |ExpectedUpTo(cases, c)| + |cases[c].expectedEvents|
    && event == cases[c].expectedEvents[i - |ExpectedUpTo(cases, c)|]
  }

  ghost predicate EventMeetsDescription(cases: seq<TestCase>, event: FieldMap, description: string, i: nat) {
    exists c: nat :: IsExpectedOf(cases, c, i, event) && description == cases[c].description
  }

  // ---------------------------------------------------------------- the fields file of a session

  function Digit(d: nat): char
    requires d < 10
  {
    "0123456789"[d]
  }

  /** The format %d. */
  function Decimal(n: nat): (s: string)
    ensures s != ""
  {
    if n < 10 then [Digit(n)] else Decimal(n / 10) + [Digit(n % 10)]
  }

  predicate IsDigit(c: char) {
    '0' <= c <= '9'
  }

  /** The number that a row of digits stands for. */
  function PlaceValue(s: string): int {
    if s == "" then 0 else 10 * PlaceValue(s[..|s| - 1]) + (s[|s| - 1] as int - '0' as int)
  }

  /** The decimal form of a number is the row of digits, without leading zeros, that stands for it. */
  lemma {:induction false} DecimalStandsFor(n: nat)
    ensures PlaceValue(Decimal(n)) == n
    ensures forall i :: 0 <= i < |Decimal(n)| ==> IsDigit(Decimal(n)[i])
    ensures n > 0 ==> Decimal(n)[0] != '0'
  {
    var s := Decimal(n);
    assert s[|s| - 1] == Digit(n % 10) && s[|s| - 1] as int - '0' as int == n % 10;
    if n < 10 {
      assert s[..|s| - 1] == "";
    } else {
      DecimalStandsFor(n / 10);
      assert s[..|s| - 1] == Decimal(n / 10);
    }
  }

  lemma DecimalIsInjective(m: nat, n: nat)
    requires Decimal(m) == Decimal(n)
    ensures m == n
  {
    DecimalStandsFor(m);
    DecimalStandsFor(n);
  }

  lemma OtherDecimals(n: nat)
    ensures forall m: nat :: m != n ==> Decimal(m) != Decimal(n)
  {
    forall m: nat | Decimal(m) == Decimal(n)
      ensures m == n
    {
      DecimalIsInjective(m, n);
    }
  }

  /** prepareFields: one entry per event, under its index. The original then writes them to a file. */
  method PrepareFields<T>(inEvents: seq<T>) returns (fields: map<string, T>)
    ensures |fields| == |inEvents|
    ensures forall i :: 0 <= i < |inEvents| ==> Decimal(i) in fields && fields[Decimal(i)] == inEvents[i]
  {
    fields := map[];
    for i := 0 to |inEvents|
      invariant |fields| == i
      invariant forall j :: 0 <= j < i ==> Decimal(j) in fields && fields[Decimal(j)] == inEvents[j]
      invariant forall j: nat :: j >= i ==> Decimal(j) !in fields
    {
      var id := Decimal(i);
      OtherDecimals(i);
      fields := fields[id := inEvents[i]];
    }
  }
}
