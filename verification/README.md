# stringset in Dafny

A model of the Go package `stringset`: the `StringSet` interface and its one
implementation `mapStringSet`, a set of strings kept in a Go map from each
member to a `uint64` "epoch", together with a `nextEpoch` counter.

- `seqs.dfy` (module `Seqs`): the set of elements of a string sequence and the
  "no repeats" predicate, with the counting lemmas the set sizes rest on.
- `string_set.dfy` (module `StringSet`): the state `MapStringSet(storage,
  nextEpoch)`, the invariant `Valid` (every stored epoch is below
  `nextEpoch`), the helpers `putSingle`, `containsSingle`, `removeSingle`, and
  the operations `New`, `NewWith`, `Put`, `Contains`, `Remove`, `Strings`,
  `Len`. The Go methods mutate their pointer receiver; here each mutating
  operation takes the state before the call and returns the state after it
  with the Go result. The loops of `Put`, `Contains`, `Remove` and `Strings`
  are loops in Dafny methods. Go map iteration order, which `Remove` and
  `Strings` follow, is an arbitrary choice (`:|`) of the next key.
- `string_set_scenarios.dfy` (module `StringSetScenarios`): the assertions of
  the package's tests, stated for every input their fixed data stands for.

The subtle part is the boolean of `Put`. One call takes one epoch for all its
values, and `putSingle` never overwrites the epoch of a member. A value
repeated inside one call therefore finds the epoch this same call just stored,
so the repeat does not make the result false. `Put` returns true exactly when
no value was a member before the call, so `Put(x, x)` on an empty set returns
true. That is what the code does, what the interface comment promises, and
what `string_set_test.go:184-188` asserts. Counting the repeat as "already
present" would give false; the code does not, because the repeat finds this
call's own epoch. The argument rests on `Valid`: an epoch stored before the
call is below the call's epoch, so it differs from it.

`Put` requires `Valid` of the state it starts from. `Valid` is the type's
invariant, not a demand on callers: `New` establishes it and every operation
preserves it. `Remove` never reads epochs, so it requires nothing and only
promises to keep `Valid` when it held.

## Model

| member | source | states |
|---|---|---|
| StringSet.New | string_set.go:27-32 | A new set has no members and its epoch counter is 0; it satisfies the epoch invariant. |
| StringSet.PutSingle | string_set.go:109-120 | Afterwards `value` is a member; the epoch of every earlier member is unchanged; a value that was absent is stored under the given epoch; the returned epoch is the one stored for `value`. |
| StringSet.ContainsSingle | string_set.go:122-126 | True iff the value is a member. |
| StringSet.RemoveSingle | string_set.go:128-137 | Reports true iff the value was a member; afterwards it is not, every other member keeps its epoch, and the counter is untouched. |
| StringSet.Len | string_set.go:105-107 | The number of members. |
| StringSet.Put | string_set.go:46-65 | Returns true iff no value was a member before the call, so repeats inside the call never make it false; members become the old members plus the values; `Len` grows by the number of distinct new values, at most the number of values; the counter grows by exactly one (also for no values); old members keep their epoch, new ones get this call's epoch; the epoch invariant is preserved. |
| StringSet.PutSingleStep | string_set.go:56-62 | Inside one `Put`, the epoch `putSingle` returns differs from the call's epoch exactly when the value was a member before the call; the call's bookkeeping survives the step. |
| StringSet.PutKeepsValid | string_set.go:49-50 | After a `Put` bumped the counter once, every stored epoch is still below it. |
| StringSet.PutGrowth | string_set.go:58-62 | The member count after a `Put` is the old count plus the number of distinct values that were not members, and at most the old count plus the number of values. |
| StringSet.NewWith | string_set.go:34-39 | The members are exactly the distinct values, each stored under epoch 0, and the counter is 1, as after `New` and one `Put`. |
| StringSet.Contains | string_set.go:67-75 | True iff every value is a member; true for no values. |
| StringSet.Remove | string_set.go:77-95 | Returns true iff every distinct value was a member; afterwards no value is a member, every other member stays with its epoch, the counter is untouched, and the epoch invariant holds afterwards whenever it held before. |
| StringSet.Strings | string_set.go:97-103 | A sequence without repeats whose elements are exactly the members, as long as `Len`. |
| StringSetScenarios.PutOne | string_set_test.go:66-68 | A `Put` of a single value adds it to the members and reports new iff it was not a member. |
| StringSetScenarios.PutEach | string_set_test.go:65-68 | Putting values one call at a time yields the old members plus the values, and every call reports new iff the values are distinct and none was a member: a repeat across two calls is reported, unlike a repeat inside one call. |
| StringSetScenarios.PutEachStep | string_set_test.go:66-68 | One more single-value `Put` adds the next value, and the values so far stay distinct and fresh iff that value is neither an old member nor an earlier value. |
| StringSetScenarios.PutOneByOne | string_set_test.go:9-50 | Distinct words put one at a time into a new set: each call reports new, `Len` equals the number of words, all are contained, removing a member succeeds and removing a never-put string fails. |
| StringSetScenarios.ThreeWaysToFill | string_set_test.go:62-92 | One `Put` of all values, one `Put` per value, and `NewWith` give the same members, the distinct values, and the same `Len`; `NewWith` gives exactly the state of `New` followed by one `Put`. |
| StringSetScenarios.DupsHasEight | string_set_test.go:100-103 | The eleven-string list with repeats holds eight distinct strings. |
| StringSetScenarios.FillWithDups | string_set_test.go:105-122 | Each of the three ways of filling a set with that list gives `Len` 8. |
| StringSetScenarios.PutOnNew | string_set_test.go:184-188 | One `Put` on a new set reports all new, whatever repeats its values contain. |
| StringSetScenarios.PutFreshThenRepeat | string_set_test.go:213-233 | A `Put` of non-members reports new, the values are then contained, and putting one of them again reports not new and does not change `Len`. |
| StringSetScenarios.PutThenRemove | string_set_test.go:148-154 | Removing the values just put reports all removed and leaves the old members minus the values; when none was a member before, exactly the old members. |
| StringSetScenarios.RemoveRepeated | string_set.go:78-81 | Removing a member named twice in one call reports success, and the member is gone. |
| StringSetScenarios.StringsRoundTrip | string_set_test.go:244-260 | A set built from the snapshot of `s` has the members of `s`; every value a set was built from appears in its snapshot. |
| StringSetScenarios.UsageExamplePut | string_set_test.go:263-277 | Putting "the", "less", "I", "know", "the", "better" into a new set reports all new, leaves exactly the five distinct strings as members, `Len` 5, and "better" contained. |
| StringSetScenarios.UsageExample | string_set_test.go:263-308 | Putting "the", "less", "I", "know", "the", "better" into a new set reports all new and gives `Len` 5 with "better" contained; removing "the", "less" succeeds and leaves `Len` 3 and a snapshot of exactly "I", "know", "better". |

## Left out

- Wrap-around of the `uint64` counter `nextEpoch`: epochs are unbounded `nat`s. After 2^64 `Put` calls a wrapped epoch could make an old member look new; the model does not cover that.
- StringSet.Len: returns a `nat`; Go's `int` bound is not modelled.
- Go map iteration order: `Remove` and `Strings` take the keys in an arbitrary order, so `Strings` is specified up to order.
- The `StringSet` interface and dispatch through it: the operations are defined once, on the concrete state.
- Thread safety, which the package documents as absent.
- Go strings are byte strings; here a string is a `seq<char>`. The set only compares strings for equality, so no behaviour depends on the difference.
- Aliasing of the Go receiver: the snapshot `Strings` returns is a value, so later changes cannot reach it; the capacity hint of its slice is not modelled.
- The scale of the 100000-iteration test: `PutFreshThenRepeat` states the facts each of its iterations asserts, for any state.
