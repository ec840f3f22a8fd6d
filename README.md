# Write-coalescing queue driver and raw-value framing, in Dafny

This project models two parts of unstorage:

- The **queue driver** (`src/drivers/queue.ts`). It wraps any storage driver and buffers
  `setItem`, `setItems`, `setItemRaw` and `removeItem` calls in a pending table: a `Map` from
  key to the admitted operation (the latest one with `mergeUpdates`, otherwise the first one
  since the last flush). A debounce timer, the batch size or the hard cap
  (`maxQueueSize`) triggers a flush. The flush snapshots and clears the table, sorts the
  snapshot by timestamp, and delivers the sets before the removes. Sets go in one bulk
  `setItems` call when allowed, otherwise one call each; removes are always individual. Reads
  are answered from the pending table first and go to the backend only for keys with nothing
  pending. With a backend `clear`, `clear` flushes and then calls it, except when a flush is
  already running or the driver is disposed. Then `flushQueue` returns at once
  (`src/drivers/queue.ts:61`), the backend's `clear` is called straight away, and writes still
  pending are delivered after it, so they survive the `clear`. Without a backend `clear`,
  `clear` removes the backend's keys and leaves the pending table alone. `dispose` flushes and
  then disposes the backend, except in the cases described below.
- The **raw-value framing** of `src/_utils.ts`. Byte arrays travel as `"base64:"` followed by
  their base64 text, and strings travel unchanged. The guards of `safeSuperjsonParse` are
  modelled too. Base64 itself is implemented as section 4 of RFC 4648 defines it.

The modules are:

- `Values`: JavaScript values as the driver sees them, truthiness, and option merging.
- `Base64`: RFC 4648 encoding and decoding, with the round trip proved.
- `Utils`: `serializeRaw`, `deserializeRaw`, `BASE64_PREFIX`, and the string guards of
  `safeSuperjsonParse`.
- `Backend`: the wrapped driver as the queue sees it. This covers its capability flags, the
  calls the queue makes on it, and a reference key-value store that gives those calls a
  meaning.
- `PendingTable`: the `Map` as an insertion-ordered sequence with unique keys, the admission
  rule of `queueOperation`, the stable timestamp sort, the split into sets and removes, and
  the calls that deliver them.
- `FlushDelivery`: applies the calls of a flush to the reference store and proves that the
  store then holds, key by key, what the pending table said.
- `QueueMachine`: the driver's state as a value, with one transition function per operation
  and per resumption of a suspended flush. It also holds the invariant and the behavioural
  lemmas.
- `QueueReads`: `hasItem`, `getItem`, `getItemRaw`, `getKeys` and the specification of
  `getItems`.
- `QueueDriver`: the class `QueueDriver`. Its fields are the driver's state, its methods
  update them in place, and each method is proved to perform the `QueueMachine` transition and
  keep the invariant.
- `QueueScenarios`: the runs of the driver's test suite, computed on the model.

**Asynchrony.** `flushQueue` is an `async` function that suspends twice, so a flush is cut at
those points:

- `FlushQueue` is the synchronous part. It checks the guard, snapshots and clears the table,
  sets `flushing`, and issues the set calls. If there are no sets, it issues the removes.
- `SettleSets` runs when the sets' `await` resolves or rejects. On success it issues the
  removes. If there are none, it runs the `finally` block.
- `SettleRemoves` runs when the removes' `await` settles. It runs the `finally` block.

Enqueues, timer firings, `clear` and `dispose` can happen between these steps, in any order
the event sequence chooses.

A `dispose` or a `clear` that awaits a flush it started is recorded as that flush's *waiter*,
and it continues when the flush settles. When `flushQueue` returned at once, the waiter
continues at once.

**Writes that `dispose` leaves undelivered.** The driver's test "should flush all pending
operations on dispose" (`test/drivers/queue.test.ts:168-193`) shows the intent: `dispose`
delivers what is pending, then disposes the backend. That test only disposes an idle driver.
The code delivers nothing further in two other cases:

- A flush is already running when `dispose` is called. `flushQueue` returns at once because
  `flushing` is set (`src/drivers/queue.ts:61`), so `dispose` marks the driver disposed and
  calls the backend's `dispose` straight away. Operations enqueued since that flush began stay
  in the table.
- An operation is enqueued while `dispose`'s own flush is suspended. When that flush settles,
  its `finally` block arms a timer for the operation (`src/drivers/queue.ts:121-127`), and then
  `dispose` marks the driver disposed (`src/drivers/queue.ts:328`). When the timer fires,
  `flushQueue` returns at once because the driver is disposed.

In both cases the operations stay in the table for good, because a disposed driver never
flushes again. The model follows the code:

- `QueueMachine.DisposeDuringFlush` and `QueueMachine.DisposeStrandsWritesDuringItsFlush` state
  the two cases in general.
- `QueueMachine.DisposedIsFinal` states that nothing is delivered afterwards.
- `QueueScenarios.DisposeDuringFlushStrandsWrite` and `QueueScenarios.DisposeOwnFlushStrandsWrite`
  show the two cases on concrete runs.

## Model

| member | source | states |
|---|---|---|
| Base64.IndexChar | src/_utils.ts:107-112 | the character of a 6-bit group, from Table 1 of RFC 4648, is never the pad `=`; `IndexCharInverse` proves `CharIndex` inverts it |
| Base64.CharIndex | src/_utils.ts:97-105 | the group a character decodes to is below 64, and only the 64 alphabet characters decode; `CharIndexInverse` proves `IndexChar` inverts it |
| Base64.IndexCharInverse | src/_utils.ts:107-112 | every 6-bit group is encoded by a character that decodes back to that group |
| Base64.CharIndexInverse | src/_utils.ts:97-105 | every character the decoder accepts is the encoding of the group it decodes to |
| Base64.Encode | src/_utils.ts:107-112 | the encoding of n octets is 4·⌈n/3⌉ characters long |
| Base64.DecodeQuantum | src/_utils.ts:97-105 | a decoded full quantum is three octets |
| Base64.DecodeFinal | src/_utils.ts:97-105 | a decoded final quantum is one octet for `xy==`, two for `xyz=` and three when unpadded |
| Base64.Decode | src/_utils.ts:97-105 | decoding succeeds only on whole quanta (a length that is a multiple of four), and gives three octets per quantum less one per padding character |
| Base64.EncodeAlphabet | src/_utils.ts:107-112 | the encoding uses only the base64 alphabet, and `=` only in the last two positions |
| Base64.QuantumRoundTrip | src/_utils.ts:97-112 | three octets survive encoding and then decoding |
| Base64.OneOctetRoundTrip | src/_utils.ts:97-112 | a final single octet (`xy==`) survives the round trip |
| Base64.TwoOctetRoundTrip | src/_utils.ts:97-112 | a final pair of octets (`xyz=`) survives the round trip |
| Base64.ThreeOctetRoundTrip | src/_utils.ts:97-112 | a final full quantum of three octets is encoded without padding and survives the round trip |
| Base64.DecodeQuantumThen | src/_utils.ts:97-105 | decoding a full quantum followed by more text gives the quantum's octets, then the rest's |
| Base64.DecodeEncode | src/_utils.ts:97-112 | `base64Decode(base64Encode(b)) == b` for every byte sequence |
| Utils.SerializeRaw | src/_utils.ts:78-112 | a string is returned unchanged; bytes become `"base64:"` followed by their encoding, of the length that implies; for any other value `base64Encode` throws, and there is no result |
| Utils.DeserializeRaw | src/_utils.ts:85-95 | non-strings and strings without the prefix are returned unchanged; a prefixed string yields bytes (or no value when it is not base64) |
| Utils.RawBytesRoundTrip | src/_utils.ts:78-95 | `deserializeRaw(serializeRaw(bytes)) == bytes` |
| Utils.RawTextRoundTrip | src/_utils.ts:78-93 | a string survives the framing if and only if it does not start with `"base64:"` |
| Utils.PrefixedTextIsDecoded | src/_utils.ts:79-94 | the string `"base64:AA=="` comes back from the framing as the single octet 0 |
| Utils.SafeSuperjsonParse | src/_utils.ts:60-74 | non-strings are returned as they are, `""` and `"{}"` give null, and every other string, unchanged, goes to superjson |
| PendingTable.Lookup | src/drivers/queue.ts:160-161 | `queue.get(key)` finds an entry with that key, and finds nothing exactly when no entry has it |
| PendingTable.Put | src/drivers/queue.ts:136 | `queue.set(op.key, op)`: replaces an existing entry where it stands and appends a new key; specified by `PutLookup`, `PutKeys`, `PutSize`, `PutElements` and `PutUnique` |
| PendingTable.PutLookup | src/drivers/queue.ts:136 | after `queue.set(op.key, op)` the key maps to `op`, and every other key maps to what it did before |
| PendingTable.PutKeys | src/drivers/queue.ts:136 | `queue.set` keeps the Map's key order and appends a key that is new |
| PendingTable.PutSize | src/drivers/queue.ts:136 | `queue.set` grows the size by one exactly when the key is new |
| PendingTable.PutElements | src/drivers/queue.ts:136 | after `queue.set` every entry is the new operation or an old entry |
| PendingTable.PutUnique | src/drivers/queue.ts:22 | `queue.set` keeps at most one entry per key |
| PendingTable.Admit | src/drivers/queue.ts:135-137 | the admission step of `queueOperation`; specified by `AdmitLookup`, `AdmitUnique` and `AdmitAdmitted` |
| PendingTable.AdmitLookup | src/drivers/queue.ts:135-137 | with `mergeUpdates` the newest operation replaces the pending one; without it the first one stays until the flush |
| PendingTable.AdmitUnique | src/drivers/queue.ts:135-137 | admission keeps one entry per key and grows the table by one exactly for a new key |
| PendingTable.AdmitAdmitted | src/drivers/queue.ts:229-285 | the table only holds operations whose backend capability exists |
| PendingTable.ConsSorted | src/drivers/queue.ts:68-70 | a sequence with one element in front is sorted if and only if the rest is sorted and that element is not later than any of it |
| PendingTable.InsertFrom | src/drivers/queue.ts:68-70 | inserting keeps a lower bound on the timestamps |
| PendingTable.InsertSorted | src/drivers/queue.ts:68-70 | inserting into a sorted sequence keeps it sorted |
| PendingTable.InsertMultiset | src/drivers/queue.ts:68-70 | inserting adds exactly the one operation |
| PendingTable.SortByTime | src/drivers/queue.ts:68-70 | the snapshot of `queue.values()` sorted by timestamp; specified by `SortByTimeSorted` (sorted, a permutation) and `SortByTimeStable` (stable) |
| PendingTable.SortByTimeSorted | src/drivers/queue.ts:68-70 | the snapshot is sorted ascending by timestamp and is a permutation of the table |
| PendingTable.SortByTimeSortedInput | src/drivers/queue.ts:68-70 | a table already in timestamp order is its own snapshot |
| PendingTable.InsertWithTimestamp | src/drivers/queue.ts:68-70 | inserting puts the operation first among those with its timestamp |
| PendingTable.SortByTimeStable | src/drivers/queue.ts:68-70 | the sort is stable: entries with equal timestamps keep the Map's order |
| PendingTable.SetOpsAppend | src/drivers/queue.ts:77-86 | the sets of a concatenation are the sets of each part, in order |
| PendingTable.RemoveOpsAppend | src/drivers/queue.ts:77-86 | the removes of a concatenation are the removes of each part, in order |
| PendingTable.RemoveRequestsAppend | src/drivers/queue.ts:77-86 | the remove requests of a concatenation are those of each part, in order |
| PendingTable.Partition | src/drivers/queue.ts:73-86 | the partition loop yields the defined sets and the `{ key, options }` of the removes, in snapshot order |
| PendingTable.SplitMembership | src/drivers/queue.ts:77-86 | an operation is among the sets if and only if it is a set with a defined value, and among the removes if and only if it is a remove |
| PendingTable.SetOpsSorted | src/drivers/queue.ts:68-86 | the sets stay in timestamp order |
| PendingTable.Entries | src/drivers/queue.ts:96-100 | the bulk call carries one `{ key, value, options }` per set, in order |
| PendingTable.SetDelivery | src/drivers/queue.ts:88-112 | the calls that deliver `setOperations`; specified by `BulkExactlyWhenAllowed`, `IndividualRouting`, `IndividualOnly` and, against the reference store, `FlushDelivery.SetDeliveryEffect` |
| PendingTable.RemoveDelivery | src/drivers/queue.ts:114-120 | the calls that deliver `removeOperations`; specified by `RemovesNeverBatched` and `FlushDelivery.RemoveDeliveryEffect` |
| PendingTable.FlushCalls | src/drivers/queue.ts:68-120 | every call of a flush in which no backend call fails; specified by `FlushDelivery.FlushCallsEffect` and `FlushDelivery.FlushDeliversTable` |
| PendingTable.IndividualRouting | src/drivers/queue.ts:103-110 | without the bulk path there is one call per set: `setItemRaw` for raw sets when the backend has it, `setItem` otherwise |
| PendingTable.BulkExactlyWhenAllowed | src/drivers/queue.ts:88-111 | the single bulk `setItems` call is used exactly when the backend has it, there is more than one set and none is raw |
| PendingTable.IndividualOnly | src/drivers/queue.ts:103-110 | the individual path makes no bulk call |
| PendingTable.RemovesNeverBatched | src/drivers/queue.ts:114-119 | removes are one `removeItem` each, in order, and none without the capability |
| FlushDelivery.ApplyOpsAt | src/drivers/queue.ts:60-128 | what a sequence of operations leaves at a key depends only on the operations for that key |
| FlushDelivery.ApplyCallsAppend | src/drivers/queue.ts:88-120 | applying two batches of calls is applying one and then the other |
| FlushDelivery.EntriesEffect | src/drivers/queue.ts:95-101 | the bulk call writes the sets in order |
| FlushDelivery.IndividualEffect | src/drivers/queue.ts:103-110 | the individual calls write the sets in order |
| FlushDelivery.SetDeliveryEffect | src/drivers/queue.ts:88-112 | either delivery path writes exactly the sets |
| FlushDelivery.RemoveDeliveryEffect | src/drivers/queue.ts:114-120 | the remove calls delete exactly the removed keys |
| FlushDelivery.FilterKeySplit | src/drivers/queue.ts:77-86 | the split commutes with selecting one key |
| FlushDelivery.FilterKeyCount | src/drivers/queue.ts:68-70 | selecting one key keeps each of its operations as often as it occurs |
| FlushDelivery.FilterKeyPermutation | src/drivers/queue.ts:68-70 | permuted snapshots select permuted operations for each key |
| FlushDelivery.FilterKeyUnique | src/drivers/queue.ts:22 | a Map has at most one operation per key |
| FlushDelivery.AtMostOne | src/drivers/queue.ts:68-70 | a permutation of a sequence of at most one element is that sequence |
| FlushDelivery.SnapshotAdmitted | src/drivers/queue.ts:68-86 | every operation in the snapshot is deliverable by the backend |
| FlushDelivery.FlushCallsEffect | src/drivers/queue.ts:88-120 | a flush's calls apply the sets, then the removes, of the sorted snapshot |
| FlushDelivery.SnapshotAtKey | src/drivers/queue.ts:68-71 | the snapshot holds, for each key, exactly the table's entry for it |
| FlushDelivery.FlushDeliversTable | src/drivers/queue.ts:60-128 | after a flush the backend holds each pending set's value, lacks each pending remove's key, and is unchanged elsewhere (including keys whose pending set is `undefined`) |
| QueueMachine.ScheduleFlush | src/drivers/queue.ts:49-58 | arms the timer unless one is armed, a flush is running or the driver is disposed; its effect is stated by `FinishFlushRearms` and `EnqueueBelowThresholds` |
| QueueMachine.Resume | src/drivers/queue.ts:310-333 | the rest of `dispose` or `clear` after its `await flushQueue()`; specified by `DisposeFlushesFirst`, `DisposeAbortsOnRejectedFlush` and `ClearFlushesFirst` |
| QueueMachine.FinishFlush | src/drivers/queue.ts:121-127 | the `finally` block, then the waiter; specified by `FinishFlushRearms`, `FinishFlushInv` and `DisposeStrandsWritesDuringItsFlush` |
| QueueMachine.FlushQueue | src/drivers/queue.ts:60-120 | `flushQueue` up to its first `await`; specified by `FlushGuard`, `FlushQueueInv`, `FlushDeliversPending` and `NoOverlappingFlush` |
| QueueMachine.SettleSets | src/drivers/queue.ts:88-127 | the continuation after the sets' `await`; specified by `FlushOutcome` and `RejectedSetsDropRemoves` |
| QueueMachine.SettleRemoves | src/drivers/queue.ts:114-127 | the continuation after the removes' `await`; specified by `FlushOutcome` and `StepInv` |
| QueueMachine.Enqueue | src/drivers/queue.ts:130-152 | `queueOperation`; specified by `EnqueueInv`, `EnqueueDuringFlush`, `EnqueueBelowThresholds`, `EnqueueReachingBatch` and `EnqueueReachingMaxQueueSize` |
| QueueMachine.EnqueueAll | src/drivers/queue.ts:248-256 | one `queueOperation` per item, in order; specified by `EnqueueAllInv`, `EnqueueAllDuringFlush` and `DisposedEnqueueAll` |
| QueueMachine.SetItem | src/drivers/queue.ts:229-241 | `setItem` enqueues a set only when the backend has `setItem`; its invariant is kept by `StepInv` |
| QueueMachine.SetItemRaw | src/drivers/queue.ts:259-272 | `setItemRaw` enqueues a raw set when the backend has `setItem` or `setItemRaw`; its invariant is kept by `StepInv` |
| QueueMachine.RemoveItem | src/drivers/queue.ts:274-285 | `removeItem` enqueues a remove only when the backend has `removeItem`; its invariant is kept by `StepInv` |
| QueueMachine.SetItems | src/drivers/queue.ts:243-257 | `setItems` enqueues the operations `ItemOps` specifies, only when the backend has `setItem` |
| QueueMachine.TimerFires | src/drivers/queue.ts:54-57 | the timer callback clears the timer and flushes; specified by `StepInv` and the scenarios |
| QueueMachine.Dispose | src/drivers/queue.ts:320-333 | `dispose` up to its `await`; specified by `DisposeFlushesFirst`, `DisposeDuringFlush` and `DisposeAbortsOnRejectedFlush` |
| QueueMachine.Clear | src/drivers/queue.ts:310-318 | `clear`; specified by `ClearFlushesFirst`, `ClearStartsNoFlush` and `ClearWithoutBackendClear` |
| QueueMachine.ItemOps | src/drivers/queue.ts:248-256 | `setItems` enqueues one set per item, with the item's options merged over the common ones |
| QueueMachine.ClearFallback | src/drivers/queue.ts:316-317 | the fallback of `clear` makes one `removeItem` per listed key with `clear`'s options, and none without the capability |
| QueueMachine.InitialInv | src/drivers/queue.ts:43-47 | a new driver satisfies the invariant |
| QueueMachine.FinishFlushRearms | src/drivers/queue.ts:121-127 | after the `finally` block a timer is armed if and only if one already was, or the table is non-empty and the driver is not disposed |
| QueueMachine.FinishFlushInv | src/drivers/queue.ts:121-127 | the `finally` block clears `flushing` and re-arms the timer when operations arrived during the flush |
| QueueMachine.FlushQueueInv | src/drivers/queue.ts:60-128 | starting a flush keeps the invariant |
| QueueMachine.EnqueueInv | src/drivers/queue.ts:130-152 | `queueOperation` keeps one entry per key, and keeps every pending operation of a live driver covered by a timer or a running flush |
| QueueMachine.EnqueueAllInv | src/drivers/queue.ts:243-257 | a sequence of enqueues keeps the invariant |
| QueueMachine.StepInv | src/drivers/queue.ts:49-333 | every operation, timer firing and flush resumption keeps the invariant |
| QueueMachine.RunInv | src/drivers/queue.ts:49-333 | every state reachable from a new driver satisfies the invariant |
| QueueMachine.FlushGuard | src/drivers/queue.ts:60-63 | `flushQueue` changes nothing if and only if a flush is running, the table is empty or the driver is disposed; otherwise it takes the whole table |
| QueueMachine.EnqueueDuringFlush | src/drivers/queue.ts:130-152 | an enqueue during a flush lands in the fresh table, issues nothing, and drops the timer when the batch size is reached |
| QueueMachine.EnqueueAllDuringFlush | src/drivers/queue.ts:243-257 | `setItems` during a flush issues nothing and does not disturb the running flush |
| QueueMachine.NoOverlappingFlush | src/drivers/queue.ts:60-65 | while a flush is suspended, nothing but its own resumption moves it on, and no set call (`setItem`, `setItems` or `setItemRaw`) is issued |
| QueueMachine.DisposedEnqueueAll | src/drivers/queue.ts:130-133 | a disposed driver ignores every enqueue |
| QueueMachine.EnqueueBelowThresholds | src/drivers/queue.ts:139-151 | below both thresholds an enqueue issues nothing, and a timer is armed unless a running flush will re-arm it |
| QueueMachine.FlushOutcome | src/drivers/queue.ts:60-128 | a flush of a non-empty table that succeeds ends with the flush's calls issued and the waiter resumed |
| QueueMachine.FlushDeliversPending | src/drivers/queue.ts:60-128 | a successful flush of an idle, live driver issues exactly the calls that deliver the whole table (sets, then removes), then its waiter's call |
| QueueMachine.FlushReachesStore | src/drivers/queue.ts:60-128 | against a reference backend, after the flush every key holds what the pending table said about it |
| QueueMachine.RejectedSetsDropRemoves | src/drivers/queue.ts:88-127 | when the sets' promise rejects, the removes are never issued and are not put back |
| QueueMachine.EnqueueReachingBatch | src/drivers/queue.ts:139-145 | reaching `batchSize` cancels the timer and flushes everything pending, the new operation included |
| QueueMachine.EnqueueReachingMaxQueueSize | src/drivers/queue.ts:146-151 | reaching `maxQueueSize` flushes everything pending, and the timer armed just before stays armed |
| QueueMachine.DisposeFlushesFirst | src/drivers/queue.ts:320-333 | with no flush running, `dispose` cancels the timer, delivers the whole table, and only then marks the driver disposed and calls the backend's `dispose` |
| QueueMachine.DisposeAbortsOnRejectedFlush | src/drivers/queue.ts:320-333 | when the flush `dispose` waits for rejects, the driver is not disposed and the backend's `dispose` is not called |
| QueueMachine.DisposeDuringFlush | src/drivers/queue.ts:320-333 | with a flush running, `dispose` disposes at once and leaves the newer pending operations in the table |
| QueueMachine.DisposeStrandsWritesDuringItsFlush | src/drivers/queue.ts:320-333 | when `dispose`'s own flush settles with operations enqueued during it, the timer is armed for them, the driver is then disposed, and that timer's `flushQueue` does nothing |
| QueueMachine.DisposedIsFinal | src/drivers/queue.ts:130-133 | after disposal the table never changes and no set call is issued again (the removes of a flush already running, and `clear`, can still be issued) |
| QueueMachine.ClearFlushesFirst | src/drivers/queue.ts:310-314 | with a backend `clear` and no flush running, the whole table is delivered before the backend's `clear` |
| QueueMachine.ClearStartsNoFlush | src/drivers/queue.ts:310-314 | when a flush is running or the driver is disposed, `flushQueue` returns at once (line 61): `clear` issues no set call, leaves the table, the flush and its waiter alone, and with a backend `clear` issues that `clear` immediately, ahead of the writes still pending |
| QueueMachine.ClearWithoutBackendClear | src/drivers/queue.ts:316-317 | without a backend `clear`, nothing is flushed, and only `removeItem` calls for the listed keys are issued |
| QueueReads.HasItem | src/drivers/queue.ts:159-165 | `hasItem`: true for a pending set, false for a pending remove, forwarded otherwise; specified by `ReadsForwardOnlyWithoutPending` and `HasItemAgreesAcrossFlush` |
| QueueReads.GetItem | src/drivers/queue.ts:167-173 | `getItem`: a pending set's value or null, null for a pending remove, forwarded otherwise; specified by `ReadsForwardOnlyWithoutPending` and `GetItemAgreesAcrossFlush` |
| QueueReads.GetItemRaw | src/drivers/queue.ts:219-227 | `getItemRaw`: answered like `getItem` from the table, forwarded to `getItemRaw` or else `getItem`; specified by `ReadsForwardOnlyWithoutPending` |
| QueueReads.ReadsForwardOnlyWithoutPending | src/drivers/queue.ts:159-227 | a read goes to the backend if and only if the key has no pending entry; otherwise a pending set answers true or its value (null when falsy), and a pending remove answers false or null |
| QueueReads.GetItemAgreesAcrossFlush | src/drivers/queue.ts:167-173 | `getItem` before a flush answers what the backend answers after it, unless the key's pending set has a falsy value |
| QueueReads.HasItemAgreesAcrossFlush | src/drivers/queue.ts:159-165 | `hasItem` before a flush answers what the backend answers after it, unless the key's pending set is of `undefined` |
| QueueReads.FalsyPendingValueReadsNull | src/drivers/queue.ts:167-173 | a pending empty string reads as null, yet the flush stores the empty string |
| QueueReads.PendingKeysMembership | src/drivers/queue.ts:293-300 | a key is among the queued (removed) keys under `base` exactly when its pending entry is a set (remove) |
| QueueReads.DedupSpec | src/drivers/queue.ts:302 | `new Set` drops duplicates and keeps every key |
| QueueReads.WithoutSpec | src/drivers/queue.ts:303-305 | deleting the removed keys keeps exactly the other keys |
| QueueReads.GetKeys | src/drivers/queue.ts:291-308 | `getKeys(base)`; specified by `GetKeysSpec` |
| QueueReads.GetKeysSpec | src/drivers/queue.ts:291-308 | `getKeys` lists each key once: the backend's keys and the pending sets' keys under `base`, minus the pending removes' keys under `base` |
| QueueReads.GetItemsCoversRequest | src/drivers/queue.ts:175-217 | every requested key is accounted for exactly once: from the table with the pending value, or forwarded because nothing is pending |
| QueueDriver.QueueDriver.constructor | src/drivers/queue.ts:39-47 | a new driver has an empty table, no timer, no flush, is not disposed, and satisfies the invariant |
| QueueDriver.QueueDriver.ScheduleFlush | src/drivers/queue.ts:49-58 | arms the timer unless one is armed, a flush is running or the driver is disposed |
| QueueDriver.QueueDriver.Resume | src/drivers/queue.ts:310-333 | the rest of `dispose` (mark disposed, call the backend's `dispose`) or of `clear` (call the backend's `clear`) runs only once the awaited flush has resolved |
| QueueDriver.QueueDriver.FinishFlush | src/drivers/queue.ts:121-127 | clears `flushing`, re-arms the timer if the table is non-empty and the driver live, then resumes the waiter |
| QueueDriver.QueueDriver.FlushQueue | src/drivers/queue.ts:60-120 | the guard, snapshot, clear, partition loop and first calls of `flushQueue`, performing `QueueMachine.FlushQueue` |
| QueueDriver.QueueDriver.SettleSets | src/drivers/queue.ts:88-127 | the sets' await settles: removes issued on success, flush ended on rejection; keeps the invariant |
| QueueDriver.QueueDriver.SettleRemoves | src/drivers/queue.ts:114-127 | the removes' await settles and the flush ends; keeps the invariant |
| QueueDriver.QueueDriver.Enqueue | src/drivers/queue.ts:130-152 | `queueOperation` in place, performing `QueueMachine.Enqueue` |
| QueueDriver.QueueDriver.SetItem | src/drivers/queue.ts:229-241 | queues a set only when the backend has `setItem`; keeps the invariant |
| QueueDriver.QueueDriver.SetItemRaw | src/drivers/queue.ts:259-272 | queues a raw set when the backend has `setItem` or `setItemRaw`; keeps the invariant |
| QueueDriver.QueueDriver.RemoveItem | src/drivers/queue.ts:274-285 | queues a remove only when the backend has `removeItem`; keeps the invariant |
| QueueDriver.QueueDriver.SetItems | src/drivers/queue.ts:243-257 | the item loop performs one enqueue per item in order; keeps the invariant |
| QueueDriver.QueueDriver.TimerFires | src/drivers/queue.ts:54-57 | the timer callback clears the timer and flushes; keeps the invariant |
| QueueDriver.QueueDriver.Dispose | src/drivers/queue.ts:320-333 | cancels the timer and flushes with the rest of `dispose` waiting; keeps the invariant |
| QueueDriver.QueueDriver.Clear | src/drivers/queue.ts:310-318 | flushes with the backend `clear` waiting, or removes the listed keys without flushing; keeps the invariant |
| QueueDriver.QueueDriver.GetItems | src/drivers/queue.ts:175-217 | the item loop answers queued keys from the table and forwards the rest in one bulk `getItems`, or one `getItem` each with merged options |
| QueueScenarios.MergedUpdatesFlushOnce | test/drivers/queue.test.ts:81-95 | three sets of one key, then the timer: exactly one `setItem` with the last value |
| QueueScenarios.BatchSizeFlushesInBulk | test/drivers/queue.test.ts:49-64 | the third key reaches the batch size: one bulk `setItems` of the three, issued at once |
| QueueScenarios.MixedEnqueues | test/drivers/queue.test.ts:97-124 | set, remove, set: the two sets go in one bulk call and the remove is held back |
| QueueScenarios.MixedSetsThenRemoves | test/drivers/queue.test.ts:97-124 | the remove is issued on its own after the sets have settled |
| QueueScenarios.DisposeDeliversPending | test/drivers/queue.test.ts:168-193 | `dispose` with two pending sets: they are delivered, then the backend is disposed |
| QueueScenarios.MaxQueueSizeForcesFlush | test/drivers/queue.test.ts:195-214 | with `maxQueueSize` 2, the second key forces a bulk flush. The test's comment says the third key does, but the code flushes at the second key and the third waits for the timer |
| QueueScenarios.DisposeOwnFlushStrandsWrite | src/drivers/queue.ts:320-333 | a write made while `dispose`'s own flush is suspended: the backend is disposed, and the write is still undelivered after the timer fires |
| QueueScenarios.DisposeDuringFlushStrandsWrite | src/drivers/queue.ts:320-333 | a write made during the timer's flush, then `dispose`: the backend is disposed and the write stays undelivered |
| QueueScenarios.ClearDuringFlushKeepsWrite | src/drivers/queue.ts:310-314 | a write made during the timer's flush, then `clear` with a backend `clear`: the log is `setItem key1`, `clear`, `setItem key2`, so the write survives the `clear` |
| QueueScenarios.GetKeysMergesPending | test/drivers/queue.test.ts:228-237 | backend `["existing_key"]`, set `queued_key`, remove `existing_key`: `getKeys()` gives `["queued_key"]` |
| QueueScenarios.GetItemsSplitsQueued | test/drivers/queue.test.ts:146-166 | one queued and two unqueued keys: the queued one from the table, the others as individual `getItem` reads |

## Left out

- Timers: `setTimeout` and `clearTimeout` are a `timerArmed` flag plus a `TimerFired` event. The
  `flushInterval` duration is not modelled, so the timer may fire after any sequence of events.
- Promise scheduling: the calls of one `Promise.all` are issued together, in order. Which of them
  settles first, and the microtask order between the end of a flush and its awaiting
  `dispose` or `clear`, are not modelled. A waiter that `flushQueue` does not block continues
  in the same step rather than in a later microtask.
- `Date.now()`: each write takes its time as a parameter, and `setItems` takes one time per item.
  No monotonicity is assumed; equal times are ordered by the stable sort.
- What the backend answers: forwarded reads are returned as requests, not awaited. The
  backend's answers to `getItems`, `getKeys` and `clear`'s `getKeys` are not part of this
  model; `clear`'s fallback takes the listed keys as a parameter.
- QueueDriver.QueueDriver.GetItems: returns the forwarded items and the backend reads instead of
  appending the backend's results to the queued ones.
- Errors of the individual backend calls: a rejection is a flag on the settling step. Which call
  rejected, and the error value passed to the awaiting caller, are not modelled.
- `getMeta`, `watch`, `name`, `flags` and `getInstance` are pass-throughs to the backend or
  constants, with no queue logic.
- Option defaults: `{ ...defaultOptions, ...opts }` is the `Config` given to the model, with
  `DefaultConfig` holding the defaults. An option explicitly set to `undefined`, which
  overrides its default in JavaScript, is not representable.
- Values: numbers are integers. Floating point, `NaN` and `-0`, which are falsy in `value || null`
  and in the `0` test, are not modelled. Objects other than byte arrays are not modelled.
- `stringify` and the `superjson.parse` branch of `safeSuperjsonParse` depend on superjson:
  `Utils.SafeSuperjsonParse` returns the string it would hand to superjson.
- Utils.DeserializeRaw: text after the prefix that is not padded base64 gives no value. `Buffer`
  and `atob` accept or reject such text each in their own way, and that leniency is not modelled.
- `wrapToPromise` and `asyncCall` are promise plumbing.
- The type assertions of `test/storage.test-d.ts`, the generated table of `src/_drivers.ts`, the
  build script `scripts/fix-driver-imports.ts` and the migration runner exercised by
  `test/migration.test.ts` are not part of this model.
