/** Bracket notation of nested field references: "[log][file][path]"
    (internal/testcase/helper.go, internal/logstash/fieldset.go). */
module Brackets {

  /** A character of the class [^\[\],]. */
  predicate Plain(c: char) {
    c != '[' && c != ']' && c != ','
  }

  predicate GoodKey(key: string) {
    key != "" && forall i :: 0 <= i < |key| ==> Plain(key[i])
  }

  predicate GoodPath(path: seq<string>) {
    forall i :: 0 <= i < |path| ==> GoodKey(path[i])
  }

  function Wrap(key: string): string {
    "[" + key + "]"
  }

  function Join(path: seq<string>): string {
    if path == [] then "" else Wrap(path[0]) + Join(path[1..])
  }

  // ---------------------------------------------------------------- the two regular expressions

  /** The number of leading characters of the class. */
  function PlainPrefix(s: string): (n: nat)
    ensures n <= |s|
    ensures forall i :: 0 <= i < n ==> Plain(s[i])
    ensures n < |s| ==> !Plain(s[n])
  {
    if s == "" || !Plain(s[0]) then 0 else 1 + PlainPrefix(s[1..])
  }

  /** The length of the match of \[([^\[\],]+)\] at the start of s, 0 if there is none. */
  function MatchAt(s: string): (n: nat)
    ensures n <= |s| && (n == 0 || n >= 3)
    ensures n > 0 ==> GoodKey(s[1..n - 1]) && s[..n] == Wrap(s[1..n - 1])
  {
    if s == "" || s[0] != '[' then 0 else
    var k := PlainPrefix(s[1..]);
    if k == 0 || 1 + k >= |s| || s[1 + k] != ']' then 0 else
    assert s[1..k + 1] == s[1..][..k];
    k + 2
  }

  /** A sequence of such matches covers the whole string. */
  predicate Covered(s: string) {
    s == "" || (MatchAt(s) > 0 && Covered(s[MatchAt(s)..]))
  }

  /** ^(\[[^\[\],]+\])+$ */
  predicate Validates(key: string) {
    key != "" && Covered(key)
  }

  /** The submatches of all non-overlapping matches, left to right. */
  function FindAll(s: string): seq<string> {
    if s == "" then []
    else if MatchAt(s) > 0 then [s[1..MatchAt(s) - 1]] + FindAll(s[MatchAt(s)..])
    else FindAll(s[1..])
  }

  function ExtractBracketFields(key: string): (path: seq<string>)
    ensures path != []
  {
    if Validates(key) then FindAll(key) else [key]
  }

  /** A joined good path is taken apart, every other key is left whole. */
  method ExtractFields(key: string) returns (listKeys: seq<string>)
    ensures listKeys == ExtractBracketFields(key)
    ensures IsSplit(key, listKeys)
  {
    hide IsSplit, FindAll, Validates;
    SplitOrWhole(key);
    listKeys := [];
    if Validates(key) {
      var matches := FindAll(key);
      for i := 0 to |matches|
        invariant listKeys == matches[..i]
      {
        listKeys := listKeys + [matches[i]];
      }
    } else {
      listKeys := listKeys + [key];
    }
  }

  // ---------------------------------------------------------------- split and join are inverse

  lemma PlainPrefixOfKey(key: string, rest: string)
    requires forall i :: 0 <= i < |key| ==> Plain(key[i])
    ensures PlainPrefix(key + "]" + rest) == |key|
  {
    var s := key + "]" + rest;
    assert s[|key|] == ']';
    assert forall i :: 0 <= i < |key| ==> s[i] == key[i];
  }

  lemma MatchOfWrap(key: string, rest: string)
    requires GoodKey(key)
    ensures MatchAt(Wrap(key) + rest) == |key| + 2
    ensures (Wrap(key) + rest)[1..|key| + 1] == key
    ensures (Wrap(key) + rest)[|key| + 2..] == rest
  {
    var s := Wrap(key) + rest;
    assert s[1..] == key + "]" + rest;
    PlainPrefixOfKey(key, rest);
    assert s[1 + |key|] == ']';
  }

  /** Splitting a joined path gives the path back. */
  lemma {:induction false} SplitOfJoin(path: seq<string>)
    requires GoodPath(path) && path != []
    ensures Validates(Join(path)) && ExtractBracketFields(Join(path)) == path
  {
    SplitOfJoinRest(path);
  }

  lemma {:induction false} SplitOfJoinRest(path: seq<string>)
    requires GoodPath(path)
    ensures Covered(Join(path)) && FindAll(Join(path)) == path
  {
    if path != [] {
      MatchOfWrap(path[0], Join(path[1..]));
      SplitOfJoinRest(path[1..]);
    }
  }

  /** A key that validates is the join of its parts, and the parts are good. */
  lemma {:induction false} JoinOfSplit(key: string)
    requires Covered(key)
    ensures GoodPath(FindAll(key)) && Join(FindAll(key)) == key
    decreases |key|
  {
    if key != "" {
      var n := MatchAt(key);
      JoinOfSplit(key[n..]);
      assert key == key[..n] + key[n..];
      JoinOfCons(key[1..n - 1], FindAll(key[n..]));
    }
  }

  lemma JoinOfCons(key: string, path: seq<string>)
    ensures Join([key] + path) == Wrap(key) + Join(path)
    ensures GoodKey(key) && GoodPath(path) ==> GoodPath([key] + path)
  {
  }

  /** The validated keys are exactly the joins of non-empty good paths. */
  lemma ValidatesIffJoin(key: string)
    ensures Validates(key) <==> exists path :: path != [] && GoodPath(path) && Join(path) == key
  {
    if Validates(key) {
      JoinOfSplit(key);
    }
    forall path | path != [] && GoodPath(path) && Join(path) == key
      ensures Validates(key)
    {
      SplitOfJoin(path);
    }
  }

  /** The parts of a key, without looking at how they are found. */
  ghost predicate IsSplit(key: string, parts: seq<string>) {
    if exists path :: path != [] && GoodPath(path) && Join(path) == key
    then parts != [] && GoodPath(parts) && Join(parts) == key
    else parts == [key]
  }

  lemma SplitOrWhole(key: string)
    ensures IsSplit(key, ExtractBracketFields(key))
  {
    ValidatesIffJoin(key);
    if Validates(key) {
      JoinOfSplit(key);
    }
  }

  /** A key has only one split. */
  lemma SplitIsUnique(key: string, p: seq<string>, q: seq<string>)
    requires IsSplit(key, p) && IsSplit(key, q)
    ensures p == q
  {
    if path :| path != [] && GoodPath(path) && Join(path) == key {
      SplitOfJoin(p);
      SplitOfJoin(q);
    }
  }

  /** A part of a split is not split any further. */
  lemma PartsArePlain(key: string, i: nat)
    requires i < |ExtractBracketFields(key)|
    ensures ExtractBracketFields(ExtractBracketFields(key)[i]) == [ExtractBracketFields(key)[i]]
  {
    if Validates(key) {
      JoinOfSplit(key);
      assert GoodKey(FindAll(key)[i]);
    }
  }

  // ---------------------------------------------------------------- the keys of LogstashHash

  /** strings.LastIndex of a "[". */
  function LastOpening(s: string): int {
    if s == "" then -1 else if s[|s| - 1] == '[' then |s| - 1 else LastOpening(s[..|s| - 1])
  }

  predicate IsBracket(c: char) {
    c == '[' || c == ']'
  }

  function TrimLeft(s: string): string {
    if s != "" && IsBracket(s[0]) then TrimLeft(s[1..]) else s
  }

  function TrimRight(s: string): string {
    if s != "" && IsBracket(s[|s| - 1]) then TrimRight(s[..|s| - 1]) else s
  }

  /** What LogstashHash makes of a serialised key: a reference of one level loses its brackets. */
  function HashKey(k: string): string {
    if LastOpening(k) == 0 then TrimRight(TrimLeft(k)) else k
  }

  lemma LastOpeningOfKey(s: string, key: string)
    requires forall i :: 0 <= i < |key| ==> key[i] != '['
    ensures LastOpening(s + key) == LastOpening(s)
  {
    if key == "" {
      assert s + key == s;
    } else {
      var n := |key| - 1;
      assert (s + key)[..|s + key| - 1] == s + key[..n];
      LastOpeningOfKey(s, key[..n]);
    }
  }

  lemma {:induction false} LastOpeningOfJoin(path: seq<string>)
    requires GoodPath(path) && path != []
    ensures |path| == 1 ==> LastOpening(Join(path)) == 0
    ensures |path| > 1 ==> LastOpening(Join(path)) > 0
  {
    var n := |path| - 1;
    var front, last := Join(path[..n]), path[n];
    JoinOfConcat(path[..n], path[n..]);
    assert path[..n] + path[n..] == path;
    assert Join(path[n..]) == Wrap(last) + "" == Wrap(last);
    assert Join(path) == (front + "[") + (last + "]");
    LastOpeningOfKey(front + "[", last + "]");
    assert (front + "[")[|front|] == '[';
    if n > 0 {
      assert front != "";
    }
  }

  lemma JoinOfConcat(p: seq<string>, q: seq<string>)
    ensures Join(p + q) == Join(p) + Join(q)
  {
    if p == [] {
      assert p + q == q;
    } else {
      assert (p + q)[1..] == p[1..] + q;
      JoinOfConcat(p[1..], q);
    }
  }

  /** Trimming takes away the brackets around a key, and nothing of the key. */
  lemma TrimWrap(key: string)
    requires GoodKey(key)
    ensures TrimRight(TrimLeft(Wrap(key))) == key
  {
    assert Wrap(key)[1..] == key + "]" && Plain(key[0]);
    assert TrimLeft(key + "]") == key + "]";
    TrimClosing(key);
  }

  lemma TrimClosing(key: string)
    requires GoodKey(key)
    ensures TrimRight(key + "]") == key
  {
    assert (key + "]")[..|key|] == key && Plain(key[|key| - 1]);
    assert TrimRight(key) == key;
  }

  /** The key that LogstashHash lists for a good path: a single key without brackets, a longer path in brackets. */
  lemma HashKeyOfPath(path: seq<string>)
    requires GoodPath(path) && path != []
    ensures HashKey(Join(path)) == if |path| == 1 then path[0] else Join(path)
  {
    LastOpeningOfJoin(path);
    if |path| == 1 {
      assert Join(path) == Wrap(path[0]) + "" == Wrap(path[0]);
      TrimWrap(path[0]);
    }
  }

  /** It is split into that path again. */
  lemma SplitOfHashKey(path: seq<string>)
    requires GoodPath(path) && path != []
    ensures ExtractBracketFields(HashKey(Join(path))) == path
  {
    HashKeyOfPath(path);
    if |path| == 1 {
      assert Plain(path[0][0]) && MatchAt(path[0]) == 0;
      assert path == [path[0]];
    } else {
      SplitOfJoin(path);
    }
  }
}
