/**
 The `mapStringSet` implementation of the `StringSet` interface: a set of
 strings stored as a map from each member to the "epoch" of the `Put` call
 that first inserted it, plus the counter `nextEpoch` that hands out one new
 epoch per `Put` call.

 The Go receiver is a pointer that every operation mutates in place; here the
 state is a value, and each mutating operation takes the state before the
 call and returns the state after it together with the Go result.
 */
module StringSet {
  import opened Seqs

  /** The fields of `mapStringSet`. A Go `uint64` epoch is an unbounded `nat`. */
  datatype MapStringSet = MapStringSet(storage: map<string, nat>, nextEpoch: nat)

  /** The members of the set: the keys of its storage map. */
  function Members(s: MapStringSet): set<string>
  {
    s.storage.Keys
  }

  /**
   The invariant every operation keeps: each stored epoch was handed out by an
   earlier `Put` call, so it is strictly below `nextEpoch`. It is what lets
   `Put` tell "stored before this call" from "stored by this call".
   */
  ghost predicate Valid(s: MapStringSet)
  {
    forall v :: v in s.storage ==> s.storage[v] < s.nextEpoch
  }

  /** `New`: an empty set whose epoch counter starts at zero. */
  function New(): (s: MapStringSet)
    ensures Valid(s)
    ensures Members(s) == {}
    ensures s.nextEpoch == 0
  {
    MapStringSet(map[], 0)
  }

  /**
   `putSingle`: store `value` under `epoch` unless it is already a member, in
   which case its stored epoch is kept. Returns the new state and the epoch
   stored for `value` afterwards.
   */
  function PutSingle(s: MapStringSet, value: string, epoch: nat): (r: (MapStringSet, nat))
    ensures Members(r.0) == Members(s) + {value}
    ensures r.0.nextEpoch == s.nextEpoch
    ensures forall v :: v in s.storage ==> r.0.storage[v] == s.storage[v]
    ensures value !in s.storage ==> r.0.storage[value] == epoch
    ensures r.1 == r.0.storage[value]
  {
    if value !in s.storage then
      (s.(storage := s.storage[value := epoch]), epoch)
    else
      (s, s.storage[value])
  }

  /** `containsSingle`: whether `value` is a member. */
  function ContainsSingle(s: MapStringSet, value: string): (b: bool)
    ensures b <==> value in Members(s)
  {
    value in s.storage
  }

  /**
   `removeSingle`: delete `value` if it is a member. Reports whether it was;
   every other member keeps its epoch.
   */
  function RemoveSingle(s: MapStringSet, value: string): (r: (MapStringSet, bool))
    ensures r.1 <==> value in Members(s)
    ensures Members(r.0) == Members(s) - {value}
    ensures r.0.nextEpoch == s.nextEpoch
    ensures forall v :: v in r.0.storage ==> r.0.storage[v] == s.storage[v]
  {
    if value in s.storage then
      (s.(storage := s.storage - {value}), true)
    else
      (s, false)
  }

  /** `Len`: the number of members. */
  function Len(s: MapStringSet): (n: nat)
    ensures n == |Members(s)|
  {
    |s.storage|
  }

  /** Every member of `s` is still a member of `t`, under the same epoch. */
  ghost predicate KeepsEpochs(s: MapStringSet, t: MapStringSet)
  {
    forall v :: v in s.storage ==> v in t.storage && t.storage[v] == s.storage[v]
  }

  /** Every member of `t` that is not a member of `s` is stored under `epoch`. */
  ghost predicate AddedAt(s: MapStringSet, t: MapStringSet, epoch: nat)
  {
    forall v :: v in t.storage && v !in s.storage ==> t.storage[v] == epoch
  }

  /**
   `Put`: take one fresh epoch for the whole call and store every value under
   it. The result is false exactly when some value was a member BEFORE the
   call; a value repeated inside `values` finds this call's own epoch and so
   does not make the result false.
   */
  method Put(s: MapStringSet, values: seq<string>) returns (s': MapStringSet, allNew: bool)
    requires Valid(s)
    ensures Valid(s')
    ensures allNew <==> forall i :: 0 <= i < |values| ==> values[i] !in Members(s)
    ensures Members(s') == Members(s) + Elems(values)
    ensures Len(s') == Len(s) + |Elems(values) - Members(s)| <= Len(s) + |values|
    ensures s'.nextEpoch == s.nextEpoch + 1
    ensures KeepsEpochs(s, s')
    ensures AddedAt(s, s', s.nextEpoch)
  {
    var epoch := s.nextEpoch;
    s' := s.(nextEpoch := s.nextEpoch + 1);
    allNew := true;
    for i := 0 to |values|
      invariant s'.nextEpoch == epoch + 1
      invariant Members(s') == Members(s) + Elems(values[..i])
      invariant KeepsEpochs(s, s') && AddedAt(s, s', epoch)
      invariant allNew <==> forall j :: 0 <= j < i ==> values[j] !in s.storage
    {
      PutSingleStep(s, s', values, i);
      var stored := PutSingle(s', values[i], epoch);
      s' := stored.0;
      if stored.1 != epoch {
        allNew := false;
      }
    }
    assert values[..|values|] == values;
    PutGrowth(s, s', values);
    PutKeepsValid(s, s');
  }

  /**
   The invariant survives a `Put`: old members keep epochs below the old
   counter, new ones get the old counter, and the counter has moved past it.
   */
  lemma PutKeepsValid(s: MapStringSet, s': MapStringSet)
    requires Valid(s)
    requires KeepsEpochs(s, s') && AddedAt(s, s', s.nextEpoch)
    requires s'.nextEpoch == s.nextEpoch + 1
    ensures Valid(s')
  {
  }

  /**
   One `putSingle` inside a `Put` call whose epoch is `s.nextEpoch` keeps the
   call's bookkeeping, and the epoch it returns differs from the call's epoch
   exactly when the value was a member of the state `s` the call started from.
   */
  lemma PutSingleStep(s: MapStringSet, t: MapStringSet, values: seq<string>, i: nat)
    requires Valid(s)
    requires i < |values|
    requires Members(t) == Members(s) + Elems(values[..i])
    requires KeepsEpochs(s, t) && AddedAt(s, t, s.nextEpoch)
    ensures Members(PutSingle(t, values[i], s.nextEpoch).0) == Members(s) + Elems(values[..i + 1])
    ensures KeepsEpochs(s, PutSingle(t, values[i], s.nextEpoch).0)
    ensures AddedAt(s, PutSingle(t, values[i], s.nextEpoch).0, s.nextEpoch)
    ensures PutSingle(t, values[i], s.nextEpoch).1 != s.nextEpoch <==> values[i] in s.storage
  {
    ElemsSnoc(values[..i], values[i]);
    assert values[..i + 1] == values[..i] + [values[i]];
  }

  /** The member count after a `Put` grows by the values that were not members. */
  lemma PutGrowth(s: MapStringSet, s': MapStringSet, values: seq<string>)
    requires Members(s') == Members(s) + Elems(values)
    ensures Len(s') == Len(s) + |Elems(values) - Members(s)| <= Len(s) + |values|
  {
    assert Members(s') == Members(s) + (Elems(values) - Members(s));
    ElemsCardBound(values);
  }

  /** `NewWith`: `New` followed by one `Put` of `values`. */
  method NewWith(values: seq<string>) returns (s: MapStringSet)
    ensures Valid(s)
    ensures Members(s) == Elems(values)
    ensures s.nextEpoch == 1
    ensures forall v :: v in s.storage ==> s.storage[v] == 0
  {
    s := New();
    var allNew;
    s, allNew := Put(s, values);
  }

  /**
   `Contains`: whether every value is a member; the empty list gives true.
   Repeated values are simply checked again.
   */
  method Contains(s: MapStringSet, values: seq<string>) returns (b: bool)
    ensures b <==> forall i :: 0 <= i < |values| ==> values[i] in Members(s)
  {
    for i := 0 to |values|
      invariant forall j :: 0 <= j < i ==> values[j] in Members(s)
    {
      if !ContainsSingle(s, values[i]) {
        return false;
      }
    }
    return true;
  }

  /**
   `Remove`: first collapse `values` into a set of its own (built with
   `NewWith`, as the Go code does), then delete each of those distinct values
   in map order. The result is true exactly when every distinct value was a
   member; a repeat never makes it false.
   */
  method Remove(s: MapStringSet, values: seq<string>) returns (s': MapStringSet, allRemoved: bool)
    ensures Valid(s) ==> Valid(s')
    ensures allRemoved <==> Elems(values) <= Members(s)
    ensures Members(s') == Members(s) - Elems(values)
    ensures s'.nextEpoch == s.nextEpoch
    ensures forall v :: v in s'.storage ==> s'.storage[v] == s.storage[v]
  {
    var unique := NewWith(values);
    var pending := unique.storage.Keys;
    s' := s;
    allRemoved := true;
    while pending != {}
      invariant pending <= Elems(values)
      invariant Members(s') == Members(s) - (Elems(values) - pending)
      invariant s'.nextEpoch == s.nextEpoch
      invariant forall v :: v in s'.storage ==> s'.storage[v] == s.storage[v]
      invariant allRemoved <==> Elems(values) - pending <= Members(s)
      decreases pending
    {
      var value :| value in pending;
      var removed := RemoveSingle(s', value);
      s' := removed.0;
      if !removed.1 {
        allRemoved := false;
      }
      pending := pending - {value};
    }
  }

  /**
   `Strings`: a fresh sequence holding each member once, in map iteration
   order, which is left unspecified.
   */
  method Strings(s: MapStringSet) returns (ss: seq<string>)
    ensures Distinct(ss)
    ensures Elems(ss) == Members(s)
    ensures |ss| == Len(s)
  {
    ss := [];
    var pending := s.storage.Keys;
    while pending != {}
      invariant Distinct(ss)
      invariant Elems(ss) + pending == Members(s)
      invariant Elems(ss) !! pending
      decreases pending
    {
      var value :| value in pending;
      ElemsSnoc(ss, value);
      ss := ss + [value];
      pending := pending - {value};
    }
    DistinctElemsCard(ss);
  }
}
