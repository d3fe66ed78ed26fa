# perfmonitor: the operational-analysis counter registry, in Dafny

This project models the counter registry of the `perfmonitor` Go package and proves what it does.
In the package, a simulator reports an *arrival* and a *completion* event for each resource it
monitors. A resource is a point of a computational lattice. Its three coordinates are packed
into a 64-bit *resource tag*. The registry (`PerfMonitor`) maps each tag to a *job flow*
record of three `uint64` counts: arrivals, busy and completions.

Files and modules:

- `go_words.dfy` (`GoWords`): the Go integer semantics the code relies on. This covers `uint64`,
  the 64-bit `int`, the `uint64(x)` conversion, `<<` on `uint64` (high bits are lost), bitwise
  `|`, and `x + 1` with wrap-around at 2^64. They are written over unbounded integers with the
  wrap-around spelled out. `BitOr` is proved to be bitwise or, one bit at a time.
- `decimal.dfy` (`Decimal`): the decimal text that Go's `%v` verb prints for a `uint64`, and
  its reading back.
- `results.dfy` (`Results`): `Option` and `Result`.
- `jobflow.dfy` (`JobFlows`): the `JobFlow` record with `String` and `HasJobFlowBalance`. It
  also holds `ParseJobFlow`, an independent reader of the rendered text, used to prove that
  the rendering loses nothing.
- `resource_tag.dfy` (`ResourceTags`): the packing `GenerateUniqueIdentifier`, its decoding,
  and its uniqueness on in-range addresses. It also holds the range-checked `Encode` (see
  Findings).
- `perfmonitor.dfy` (`PerfMonitors`): the registry.
  - `AfterArrival` and `AfterCompletion` are functions on the map.
  - The class `PerfMonitor` updates its `flows` map in place. Its methods are specified by
    those two functions.
  - `Replay` folds a sequence of events. The lemmas about the registry's behaviour over time
    are stated with it.

What the code does, and the model with it:

- Nothing ever writes `Busy`, so it stays 0 on every entry the registry creates (`ReplayBusy`).
- `Completion` does not check that completions stay at or below arrivals.
- `GenerateUniqueIdentifier` has no range check and no error. The method is named for a unique
  identifier and its result keys the registry, so distinct addresses are meant to get distinct
  tags; the packing guarantees that only in range. A range-checked packing is modelled
  separately, as `Encode` (see Findings).
- The registry has no locking.

Go's `Completion` returns nothing. When the tag has no counter, it only logs. The model's
`Completion` returns a flag `matched`, which is false exactly in that case; the map is left
unchanged then. Counter increments wrap at 2^64 as Go's `uint64` does. The lemmas state
counts modulo 2^64.

## Model

| member | source | states |
|---|---|---|
| `GoWords.ToUint64` | perfmonitor.go:158 | `uint64(x)` of a Go `int` leaves a non-negative x unchanged and maps a negative x to 2^64 + x |
| `GoWords.ShiftLeft` | perfmonitor.go:158 | `x << n` on a `uint64` is x·2^n whenever that fits in 64 bits |
| `GoWords.Inc` | perfmonitor.go:175 | `x + 1` on a `uint64` is x + 1 below 2^64 − 1 and wraps to 0 at 2^64 − 1 |
| `GoWords.BitOr` | perfmonitor.go:158 | the or of a and b lies between max(a, b) and a + b |
| `GoWords.BitOrBit` | perfmonitor.go:158 | bit n of `BitOr(a, b)` is set exactly when bit n of a or of b is set, so `BitOr` is Go's bitwise or |
| `GoWords.BitOrDisjoint` | perfmonitor.go:158 | or-ing a value below 2^n with a multiple of 2^n is addition, because no bit is shared |
| `GoWords.BitOrAllOnes` | perfmonitor.go:158 | or-ing 2^n − 1 with any value below 2^n gives 2^n − 1 |
| `ResourceTags.PackAddress` | perfmonitor.go:157-160 | for i, j < 2^16 and k < 2^32, all non-negative, the tag is exactly i + j·2^16 + k·2^32 |
| `ResourceTags.TagVar.GenerateUniqueIdentifier` | perfmonitor.go:157-160 | returns the packed tag and stores the same value in its receiver |
| `ResourceTags.TagVar.constructor` | perfmonitor.go:150 | a fresh `ResourceTag` variable holds Go's zero value 0 |
| `ResourceTags.DecodeTag` | perfmonitor.go:158 | `tag % 2^16`, `(tag / 2^16) % 2^16` and `tag / 2^32` always form an in-range address |
| `ResourceTags.DecodeRoundTrip` | perfmonitor.go:157-160 | decoding the tag of an in-range address gives the address back |
| `ResourceTags.PackRoundTrip` | perfmonitor.go:157-160 | every 64-bit tag is the packing of its decoding, so the packing is a bijection between in-range addresses and tags |
| `ResourceTags.PackInjective` | perfmonitor.go:157-160 | distinct in-range addresses get distinct tags |
| `ResourceTags.OutOfRangeCollision` | perfmonitor.go:158 | (65536, 0, 0) and (0, 1, 0) get the same tag |
| `ResourceTags.NegativeCoordinateCollision` | perfmonitor.go:158 | (−1, 0, 0) and (−1, 1, 0) both get the all-ones tag 2^64 − 1 |
| `ResourceTags.Encode` | perfmonitor.go:157-160 | the range-checked packing accepts an address exactly when every coordinate is in [0, 65535], and its tag is the as-written packing of the address and decodes back to it |
| `ResourceTags.EncodeInjective` | perfmonitor.go:157-160 | two addresses that `Encode` accepts never share a tag |
| `Decimal.DecimalString` | jobflow.go:38 | `%v` of a count is a non-empty string of decimal digits, has no leading zero and contains no comma |
| `Decimal.DecimalRoundTrip` | jobflow.go:38 | reading the decimal text of n back gives n |
| `Decimal.DecimalInjective` | jobflow.go:38 | distinct counts print differently |
| `JobFlows.StringRoundTrip` | jobflow.go:37-39 | parsing `[arrivals,busy,completions]` back gives the record, fields in that order |
| `JobFlows.StringInjective` | jobflow.go:37-39 | distinct records render as distinct text |
| `JobFlows.StringExample` | jobflow.go:37-39 | the record {11, 0, 10} renders as `[11,0,10]` |
| `JobFlows.BalanceExamples` | jobflow_test.go:31-35 | {11, 0, 10} is not flow-balanced and {10, 0, 10} is |
| `PerfMonitors.AfterArrival` | perfmonitor.go:170-181 | an arrival adds the tag and no other key. An absent tag gets a new counter {1, 0, 0}. A present tag's arrivals go up by one with wrap-around, and its busy and completions keep their values. Every other entry is unchanged |
| `PerfMonitors.AfterCompletion` | perfmonitor.go:183-194 | a completion keeps the key set. A present tag's completions go up by one with wrap-around, and its arrivals and busy keep their values. An absent tag leaves the whole map unchanged and creates no entry |
| `PerfMonitors.PerfMonitor.constructor` | perfmonitor.go:152 | a new registry is an empty map |
| `PerfMonitors.PerfMonitor.Arrival` | perfmonitor.go:170-181 | updates the registry in place to exactly `AfterArrival` of its old map |
| `PerfMonitors.PerfMonitor.Completion` | perfmonitor.go:183-194 | updates the registry in place to exactly `AfterCompletion` of its old map. It reports `matched` false exactly when the tag had no counter, the case the code only logs |
| `PerfMonitors.ReplayKeys` | perfmonitor.go:170-194 | entries are never removed: after any events the keys are the old keys plus the tags that arrived |
| `PerfMonitors.ReplayBusy` | perfmonitor.go:170-194 | no event changes an entry's busy count, and every entry created by an arrival has busy 0 |
| `PerfMonitors.ReplayExisting` | perfmonitor.go:170-194 | an existing counter gains exactly the arrivals and completions for its tag, modulo 2^64. Its busy count is unchanged |
| `PerfMonitors.ReplayFresh` | perfmonitor.go:170-194 | an unseen tag gets a counter exactly when it arrives. Then, in any interleaving, the counter holds its arrivals, busy 0, and the completions that came after its first arrival, each count modulo 2^64 |
| `PerfMonitors.ArrivalsThenCompletions` | perfmonitor_test.go:36-41 | on a new registry, n arrivals then k completions for one tag give {n mod 2^64, 0, k mod 2^64} when n > 0. With n = 0 there is no entry |
| `PerfMonitors.ArrivalsThenCompletionsBalance` | jobflow.go:41-43 | after n > 0 arrivals and k completions on a new registry, the counter is balanced exactly when n and k agree modulo 2^64, and so, for n, k < 2^64, exactly when n = k |
| `PerfMonitors.StringerScenario` | perfmonitor_test.go:32-47 | 11 arrivals and 10 completions on tag 1234 leave the counter {11, 0, 10}, which renders as `[11,0,10]` and is not balanced |

`String` and `HasJobFlowBalance` are functions of a datatype value, so neither can change the
record (jobflow.go:37-43).

## Left out

- `Print` (perfmonitor.go:162-166): console output in Go's unspecified map iteration order.
- The `glog.Errorf` call (perfmonitor.go:191): logging through an outside library. The model
  returns the `matched` flag instead.
- The `timeStamp` parameters of `Arrival` and `Completion` are kept in the signatures. The code
  does not use them.
- Concurrency: the code has no synchronisation, only TODO notes (perfmonitor.go:171,
  perfmonitor.go:184). The model is sequential.
- Pointer aliasing: Go stores `*JobFlow` in the map and updates the record through the pointer.
  The model stores `JobFlow` values and replaces the entry, so it does not capture a caller
  that holds an old pointer.
- The InfluxDB point export (perfmonitor.go:68-141) is only a comment. No code implements it.
- In-flight (busy) tracking and refusing completions beyond arrivals: the code does neither.
- `NewPerfMonitor` and the `Observations` field used by the test are not part of this model.
  The package defines `PerfMonitor` as a bare map type. The class's constructor stands for
  an empty map, and its `flows` field, of type `FlowMap`, stands for the map itself.
- Two panics of the Go code are not modelled, because the model starts from an empty map and
  stores values, never a nil pointer. The zero value of `PerfMonitor` is a nil map, so
  `Arrival` of a new tag on it panics at the map assignment (perfmonitor.go:179). A nil
  `*JobFlow` stored under a tag makes `Arrival` (perfmonitor.go:175) and `Completion`
  (perfmonitor.go:188) panic on the nil dereference.

## Findings

| source | as written | input that shows it | evidently intended | confidence | as-written member | corrected member |
|---|---|---|---|---|---|---|
| perfmonitor.go:157-160 | `GenerateUniqueIdentifier` packs any three `int`s with shifts and bitwise or, with no range check | (65536, 0, 0) and (0, 1, 0) give the same tag 65536; (−1, 0, 0) and (−1, 1, 0) both give 2^64 − 1 | a unique identifier per address: coordinates outside [0, 65535] refused with an out-of-range error, so that accepted addresses never collide | medium, not executed | `ResourceTags.OutOfRangeCollision` | `ResourceTags.Encode` |

The registry is keyed by tags, not addresses, so no other part of the model depends on which
of the two packings a caller uses. `EncodeInjective` proves the corrected packing
collision-free on every input it accepts.
