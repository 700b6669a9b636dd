/**
 Properties that relate several calls on one set, in the shape of the
 repository's tests: each method performs the calls a test performs and its
 `ensures` clauses state what the test asserts, for every input the test's
 fixed data stands for.
 */
module StringSetScenarios {
  import opened Seqs
  import opened StringSet

  /**
   One `Put` call per value, in order, as the tests do when they fill a set
   value by value. Every call reports its value as new exactly when the values
   are distinct and none was a member: unlike a repeat inside one `Put`, a
   repeat across two calls is reported.
   */
  method PutEach(s: MapStringSet, values: seq<string>) returns (s': MapStringSet, allAdded: bool)
    requires Valid(s)
    ensures Valid(s')
    ensures Members(s') == Members(s) + Elems(values)
    ensures allAdded <==> Members(s) !! Elems(values) && Distinct(values)
  {
    s' := s;
    allAdded := true;
    for i := 0 to |values|
      invariant Valid(s')
      invariant Members(s') == Members(s) + Elems(values[..i])
      invariant allAdded <==> FreshValues(s, values[..i])
    {
      var t := s';
      var added;
      s', added := PutOne(t, values[i]);
      PutEachStep(s, t, s', values, i);
      allAdded := allAdded && added;
    }
    assert values[..|values|] == values;
  }

  /** `Put` of a single value, as in `s.Put(u)`: reports whether it was new. */
  method PutOne(s: MapStringSet, value: string) returns (s': MapStringSet, added: bool)
    requires Valid(s)
    ensures Valid(s')
    ensures Members(s') == Members(s) + {value}
    ensures added <==> value !in Members(s)
  {
    s', added := Put(s, [value]);
    assert Elems([value]) == {value};
    assert [value][0] == value;
  }

  /** None of `xs` is a member of `s`, and no string occurs twice in `xs`. */
  ghost predicate FreshValues(s: MapStringSet, xs: seq<string>)
  {
    Members(s) !! Elems(xs) && Distinct(xs)
  }

  /**
   The bookkeeping of one iteration of `PutEach`: the members grow by the
   next value, and the values so far stay fresh exactly when the next one is
   neither an old member nor an earlier value.
   */
  lemma PutEachStep(s: MapStringSet, t: MapStringSet, t': MapStringSet, values: seq<string>, i: nat)
    requires i < |values|
    requires Members(t) == Members(s) + Elems(values[..i])
    requires Members(t') == Members(t) + {values[i]}
    ensures Members(t') == Members(s) + Elems(values[..i + 1])
    ensures FreshValues(s, values[..i + 1]) <==> FreshValues(s, values[..i]) && values[i] !in Members(t)
  {
    var prefix := values[..i];
    ElemsSnoc(prefix, values[i]);
    assert values[..i + 1] == prefix + [values[i]];
    if FreshValues(s, values[..i + 1]) {
      assert Distinct(prefix);
      FirstOccurrence(values[..i + 1], i);
    }
    if FreshValues(s, prefix) && values[i] !in Members(t) {
      forall j | 0 <= j < i
        ensures prefix[j] != values[i]
      {
        assert prefix[j] in Elems(prefix);
      }
    }
  }

  /** In a sequence without repeats, no element occurs before its own position. */
  lemma FirstOccurrence(values: seq<string>, i: nat)
    requires i < |values|
    requires Distinct(values)
    ensures values[i] !in Elems(values[..i])
  {
  }

  /**
   Putting distinct words one call at a time into a new set: every call
   reports the word as new, `Len` equals the number of words and the words
   are contained. Removing a member then succeeds; removing a string that was
   never put fails.
   */
  method PutOneByOne(words: seq<string>, absent: string)
    returns (allAdded: bool, n: nat, allContained: bool, removedMember: bool, removedAbsent: bool)
    requires |words| > 0
    requires Distinct(words)
    requires absent !in words
    ensures allAdded && n == |words| && allContained
    ensures removedMember && !removedAbsent
  {
    var s;
    s, allAdded := PutEach(New(), words);
    DistinctElemsCard(words);
    n := Len(s);
    allContained := Contains(s, words);
    assert Elems([words[0]]) == {words[0]} && Elems([absent]) == {absent};
    var afterMember, afterAbsent;
    afterMember, removedMember := Remove(s, [words[0]]);
    afterAbsent, removedAbsent := Remove(afterMember, [absent]);
  }

  /**
   The three ways the tests fill a set with `values` — one `Put` of all of
   them, one `Put` per value, and `NewWith` — give the same members: exactly
   the distinct values, as many as there are distinct values. The first and
   the last are the same state: `NewWith` is `New` followed by one `Put`.
   */
  method ThreeWaysToFill(values: seq<string>) returns (s0: MapStringSet, s1: MapStringSet, s2: MapStringSet)
    ensures Members(s0) == Members(s1) == Members(s2) == Elems(values)
    ensures Len(s0) == Len(s1) == Len(s2) == |Elems(values)|
    ensures s0 == s2
  {
    var allNew;
    s0, allNew := Put(New(), values);
    s1, allNew := PutEach(New(), values);
    s2 := NewWith(values);
    assert s0.storage == s2.storage by {
      forall v | v in s0.storage
        ensures s0.storage[v] == s2.storage[v]
      {
        assert v !in New().storage;
      }
    }
  }

  /** The list with repeats the tests use: eleven strings, eight distinct. */
  const Dups: seq<string> :=
    ["what", "shall", "we", "do", "we", "with", "the", "with", "drunken", "sailor", "sailor"]

  /** `Dups` holds eight distinct strings. */
  lemma DupsHasEight()
    ensures |Elems(Dups)| == 8
  {
    DupsElems();
    assert |{"what", "shall", "we", "do", "with", "the", "drunken", "sailor"}| == 8;
  }

  /** The distinct strings of `Dups`. */
  lemma DupsElems()
    ensures Elems(Dups) == {"what", "shall", "we", "do", "with", "the", "drunken", "sailor"}
  {
    forall x | x in Dups
      ensures x in {"what", "shall", "we", "do", "with", "the", "drunken", "sailor"}
    {
      var i :| 0 <= i < |Dups| && Dups[i] == x;
    }
  }

  /** Filling a set with `Dups` in any of the three ways gives eight members. */
  method FillWithDups() returns (n0: nat, n1: nat, n2: nat)
    ensures n0 == n1 == n2 == 8
  {
    DupsHasEight();
    var s0, s1, s2 := ThreeWaysToFill(Dups);
    n0, n1, n2 := Len(s0), Len(s1), Len(s2);
  }

  /**
   A single `Put` on a new set reports every value as new, even when `values`
   repeats some of them: a repeat finds the epoch of this very call.
   */
  method PutOnNew(values: seq<string>) returns (allNew: bool)
    ensures allNew
  {
    var s;
    s, allNew := Put(New(), values);
  }

  /**
   A `Put` of values that are not members reports them as new; each is then
   contained, and putting any of them again reports it as not new and leaves
   the members as they are.
   */
  method PutFreshThenRepeat(s: MapStringSet, values: seq<string>, k: nat)
    returns (first: bool, contained: bool, again: bool, grew: bool)
    requires Valid(s)
    requires k < |values|
    requires forall i :: 0 <= i < |values| ==> values[i] !in Members(s)
    ensures first && contained && !again && !grew
  {
    var s1, s2;
    s1, first := Put(s, values);
    contained := Contains(s1, values);
    s2, again := Put(s1, [values[k]]);
    grew := Len(s2) != Len(s1);
  }

  /**
   `Put` and `Remove` undo each other: removing the values just put reports
   all of them removed, and when none was a member before, the members are
   back to what they were.
   */
  method PutThenRemove(s: MapStringSet, values: seq<string>) returns (s': MapStringSet, allRemoved: bool)
    requires Valid(s)
    ensures allRemoved
    ensures Members(s') == Members(s) - Elems(values)
    ensures Elems(values) !! Members(s) ==> Members(s') == Members(s)
  {
    var s1, allNew;
    s1, allNew := Put(s, values);
    s', allRemoved := Remove(s1, values);
  }

  /**
   Removing a member named twice in one call reports success: the repeat is
   collapsed before counting. Afterwards the value is no longer contained.
   */
  method RemoveRepeated(s: MapStringSet, x: string) returns (allRemoved: bool, stillThere: bool)
    requires x in Members(s)
    ensures allRemoved && !stillThere
  {
    var s';
    assert Elems([x, x]) == {x};
    s', allRemoved := Remove(s, [x, x]);
    assert [x][0] !in Members(s');
    stillThere := Contains(s', [x]);
  }

  /**
   `Strings` and `NewWith` are inverse: a set built from the snapshot of `s`
   has exactly the members of `s`, and every value a set was built from
   appears in its snapshot.
   */
  method StringsRoundTrip(s: MapStringSet, values: seq<string>) returns (copy: MapStringSet, ss: seq<string>)
    ensures Members(copy) == Members(s)
    ensures forall i :: 0 <= i < |values| ==> values[i] in ss
  {
    var snapshot := Strings(s);
    copy := NewWith(snapshot);
    var built := NewWith(values);
    ss := Strings(built);
    forall i | 0 <= i < |values|
      ensures values[i] in ss
    {
      assert values[i] in Elems(values);
    }
  }

  /**
   The usage example: putting six strings of which "the" occurs twice into a
   new set reports all new and leaves five members; after removing "the" and
   "less", three members are left and the snapshot holds exactly them.
   */
  method UsageExample() returns (allNew: bool, n: nat, hasBetter: bool, allRemoved: bool, m: nat, ss: seq<string>)
    ensures allNew && n == 5 && hasBetter
    ensures allRemoved && m == 3
    ensures |ss| == 3 && Elems(ss) == {"I", "know", "better"}
  {
    var s;
    s, allNew, n, hasBetter := UsageExamplePut();
    UsageExampleSets();
    s, allRemoved := Remove(s, ["the", "less"]);
    m := Len(s);
    ss := Strings(s);
  }

  /**
   The first half of the usage example: after putting the six strings into a
   new set, the members are the five distinct ones and "better" is contained.
   */
  method UsageExamplePut() returns (s: MapStringSet, allNew: bool, n: nat, hasBetter: bool)
    ensures Valid(s) && Members(s) == {"the", "less", "I", "know", "better"}
    ensures allNew && n == 5 && hasBetter
  {
    UsageExampleSets();
    s, allNew := Put(New(), ["the", "less", "I", "know", "the", "better"]);
    n := Len(s);
    hasBetter := Contains(s, ["better"]);
  }

  /** The member sets of the usage example and their sizes. */
  lemma UsageExampleSets()
    ensures Elems(["the", "less", "I", "know", "the", "better"]) == {"the", "less", "I", "know", "better"}
    ensures |{"the", "less", "I", "know", "better"}| == 5
    ensures "better" in {"the", "less", "I", "know", "better"}
    ensures Elems(["the", "less"]) <= {"the", "less", "I", "know", "better"}
    ensures {"the", "less", "I", "know", "better"} - Elems(["the", "less"]) == {"I", "know", "better"}
    ensures |{"I", "know", "better"}| == 3
  {
  }
}
