# redix storage driver and flat key/value commands, modelled in Dafny

This project models two parts of redix, a key/value server that speaks the
Redis protocol over a swappable storage backend:

- the **LevelDB backend driver** (`db/driver/leveldb/driver.go`): point
  operations `Put`, `Get`, `Delete` and `BulkPut` on an ordered byte-keyed
  map, and `Scan`. `Scan` turns scan options (prefix, offset, include-offset,
  reverse, filter) into cursor moves on a library iterator. It then hands
  records to the caller's filter until the filter answers false or the
  cursor leaves the range;
- the **flat key/value command handlers** `SET`, `GET`, `DEL` and `INCR`
  (`internals/resp/commands/flatkv.go`). Each one checks its arguments,
  puts the namespace prefix in front of the user's key, makes at most one
  call into the logical entry store and writes exactly one reply.

Modules:

| file | module | models |
|---|---|---|
| `wrappers.dfy` | `Wrappers` | `Option`, for Go's nil and "not found" results |
| `byte_order.dfy` | `ByteOrder` | bytes, the lexicographic key order, sorting a key set, lower bound |
| `storage_driver.dfy` | `StorageDriver` | `KeyValue` and `ScanOpts` of the backend interface |
| `level_iterator.dfy` | `LevelIterator` | the engine's iterator, as an assumed contract |
| `leveldb.dfy` | `LevelDB` | the driver as a class over a map, the scan and its properties |
| `flatkv.dfy` | `FlatKV` | the handlers as a class with a call log and a reply log |

`db/driver/driver.go` declares the backend `Interface`. Dafny traits are not
used here, so `LevelDB.Driver` is a plain class with the Interface's
operations. `KeyValue` becomes a datatype. `ScanOpts` is not among the
modelled files; it is a datatype with the five fields the driver reads.

## How the scan is modelled

The scan keeps the source's imperative shape. `LevelDB.Driver.Scan` makes a
`LevelIterator.Iterator` over a snapshot of the range and places the cursor
(`Seek`, `Last`, and one extra step when the offset is excluded). It then
runs `LevelDB.OfferRecords`, the `for next() { ... }` loop. `next` is a
function variable in Go; here it is `LevelDB.Advance`.

The iterator library is not part of this model. Its behaviour is an assumed
contract (`LevelIterator`), following the engine's iterator:
- a fresh cursor sits before the first key;
- `Next` from there goes to the first key; `Prev` from there stays put and
  answers false;
- stepping past the last key leaves the cursor after the last key; from
  there `Next` answers false and `Prev` goes to the last key;
- `Seek` goes to the first range key at or above its target, or past the
  end;
- `Last` goes to the last key, or before the first when the range is empty;
- a positioned cursor's `Key()` is non-nil, so the scan's `_k == nil` guard
  (driver.go lines 105-107) is not modelled.

Two specifications of the scan are proved equal:
- `LevelDB.ScanTrace` is the cursor walk, step by step;
- `LevelDB.CandidateKeys` says declaratively which slice of the sorted range
  is walked. The trace is then that slice, cut right after the filter's
  first refusal (`LevelDB.ScanIsFilterRun`).

The next-before-filter structure is kept as written:
- the key the cursor sits on after `Seek` or `Last` is never offered, so an
  included offset key is never itself offered;
- a forward scan from an offset begins one key after the key `Seek` finds,
  or two after when the offset is excluded;
- a reverse scan over the whole store never offers the greatest key;
- a reverse scan with a prefix and no offset offers nothing, because no
  positioning call is made for it and `Prev` on a fresh cursor answers
  false.

## How the handlers are modelled

`FlatKV.Handlers` holds the namespace prefix, the abstract store, the two
parsers, and two logs: `calls` (every call made into the logical entry
store, in order) and `replies` (every reply written). The store is a
`FlatKV.Store`: its `Get` and `Incr` answers are functions of the calls made
before, so any deterministic store fits. The results of `Put` and `Batch`
are ignored by the handlers, so they need no answer. `time.ParseDuration`
and `strconv.ParseFloat` are parameters: a duration parser that gives a
duration or an error message, and a number parser that gives a number or
nothing. The prefix (`usrPrefix`) and the wording of `incorrectArgsCount`
are defined outside the modelled files, so the prefix is a parameter and
the arity error is the constant `IncorrectArgsCount`.

## Model

| member | source | states |
|---|---|---|
| `LevelDB.Driver.Open` | db/driver/leveldb/driver.go:17-27 | an opened driver holds the records already in the database |
| `LevelDB.Driver.Put` | db/driver/leveldb/driver.go:30-32 | the key now maps to the value and no other key changes |
| `LevelDB.Driver.BulkPut` | db/driver/leveldb/driver.go:35-43 | the batch is built from the pairs in order and written. Afterwards each key in the pairs holds the last value given for it; other keys keep their value; no key is lost or invented |
| `LevelDB.Driver.Get` | db/driver/leveldb/driver.go:46-48 | a value is returned exactly when the key is present, and it is the stored value; a missing key gives the not-found result |
| `LevelDB.Driver.Delete` | db/driver/leveldb/driver.go:51-53 | the key is absent afterwards and no other key changes |
| `LevelDB.Driver.Scan` | db/driver/leveldb/driver.go:61-91 | the records offered to the filter are `ScanTrace`. None without a filter. Each is a stored record with its stored value, under the prefix. Keys strictly ascend, or strictly descend in reverse. The filter is not asked again after a false answer. Keys strictly above the offset forward, strictly below it in reverse |
| `LevelDB.OfferRecords` | db/driver/leveldb/driver.go:93-118 | the loop offers exactly what the cursor walk prescribes from the placed cursor: step, stop off the range, offer, stop on a refusal |
| `LevelDB.Advance` | db/driver/leveldb/driver.go:75-79 | the scan's `next` is `Prev` for a reverse scan and `Next` otherwise |
| `LevelDB.OfferedStep` | db/driver/leveldb/driver.go:94-117 | no property of its own: the one-step unfolding of `Offered` that the loop invariant of `OfferRecords` uses for one turn |
| `LevelDB.StartPos` | db/driver/leveldb/driver.go:81-91 | with j the index `Seek` lands on: no offset puts the cursor before the first key, except a reverse scan without prefix, which sits on the last key. An included offset sits on j. An excluded offset sits one further in the scan's direction: j+1 forward (past the end when there is none), j-1 in reverse (before the first key when j is 0) |
| `LevelDB.ScanTrace` | db/driver/leveldb/driver.go:61-118 | the records the whole scan offers: none without a filter, at most one per key in the range, each a stored record with its stored value, under the prefix when one is set |
| `LevelDB.Offered` | db/driver/leveldb/driver.go:94-118 | from a cursor on no key nothing is offered; from a key, at most as many records as keys remain in the scan's direction, each a range key with its stored value |
| `LevelDB.Replay` | db/driver/leveldb/driver.go:42 | the batch write leaves exactly the old keys plus the keys the batch names, and the batch's last pair holds its value |
| `LevelDB.RangeOf` | db/driver/leveldb/driver.go:69-73 | the iterator ranges over exactly the stored keys with the prefix (all keys without one), in strictly ascending order |
| `LevelDB.ScanIsFilterRun` | db/driver/leveldb/driver.go:61-118 | the cursor walk equals the declarative slice of the range (`CandidateKeys`) cut right after the first refusal |
| `LevelDB.OfferedIsFilterRun` | db/driver/leveldb/driver.go:94-118 | from any cursor position, the walk offers the keys ahead of the cursor in its direction, cut after the first refusal |
| `LevelDB.CandidatesAreAhead` | db/driver/leveldb/driver.go:81-91 | the positioning (seek, last, extra step) leaves the cursor where walking on from it passes exactly `CandidateKeys` |
| `LevelDB.FilterRunStopsOnRefusal` | db/driver/leveldb/driver.go:115-117 | the run is a prefix of its input and is non-empty when the input is. Every record but the last was accepted. A shorter run ends on a refusal. A run whose records were all accepted is the whole input |
| `LevelDB.CandidatesOrdered` | db/driver/leveldb/driver.go:75-79 | the walked keys are range keys, strictly ascending forward and strictly descending in reverse |
| `LevelDB.ForwardCandidatesAboveSought` | db/driver/leveldb/driver.go:81-91 | forward from an offset, every walked key is strictly above the key `Seek` found and strictly above the offset. With the offset excluded, also above the key after that |
| `LevelDB.ReverseCandidatesBelowOffset` | db/driver/leveldb/driver.go:81-91 | in reverse from an offset, every walked key is strictly below the offset |
| `LevelDB.TraceIsCandidatePrefix` | db/driver/leveldb/driver.go:94-113 | the trace is a prefix of the walked range keys paired with their stored values |
| `LevelDB.ScanWithoutFilterOffersNothing` | db/driver/leveldb/driver.go:62-64 | without a filter the trace is empty |
| `LevelDB.ScanOffersStoredRecords` | db/driver/leveldb/driver.go:103-113 | every offered key is stored, its value is the stored one, and it starts with the prefix when one is set |
| `LevelDB.ScanOffersInKeyOrder` | db/driver/leveldb/driver.go:75-94 | offered keys strictly ascend in a forward scan and strictly descend in a reverse scan |
| `LevelDB.ScanStopsOnRefusal` | db/driver/leveldb/driver.go:115-117 | every offered record but the last was accepted. A scan whose offered records were all accepted offered the whole walked slice |
| `LevelDB.ScanRespectsOffset` | db/driver/leveldb/driver.go:81-91 | forward: every offered key is strictly above the offset and above the key `Seek` found, and above the next one when the offset is excluded. Reverse: strictly below the offset |
| `LevelDB.ReverseScanSkipsGreatestKey` | db/driver/leveldb/driver.go:85-94 | a reverse scan with neither prefix nor offset never offers the greatest stored key |
| `LevelDB.ReversePrefixScanOffersNothing` | db/driver/leveldb/driver.go:69-94 | a reverse scan with a prefix and no offset offers nothing |
| `LevelDB.ReplayLastWrite` | db/driver/leveldb/driver.go:35-43 | after replaying a batch, a key is present exactly when it was before or the batch writes it. It holds the batch's last value for it, else its old value |
| `LevelDB.LastWrite` | db/driver/leveldb/driver.go:38-40 | the value found is the one at the last position where the pairs name the key; none means the key is never named |
| `LevelIterator.Iterator.constructor` | db/driver/leveldb/driver.go:69-73 | assumed contract: a new iterator holds the snapshot and its range keys and starts before the first key |
| `LevelIterator.Iterator.Key` | db/driver/leveldb/driver.go:103 | assumed contract: a positioned cursor's key is a range key of the snapshot |
| `LevelIterator.Iterator.Value` | db/driver/leveldb/driver.go:103 | assumed contract: a positioned cursor's value is the snapshot's value for its key |
| `LevelIterator.Iterator.Seek` | db/driver/leveldb/driver.go:81-83 | assumed contract: the cursor goes to the first range key at or above the target, or past the end |
| `LevelIterator.Iterator.Last` | db/driver/leveldb/driver.go:85-87 | assumed contract: the cursor goes to the last key, or before the first when the range is empty |
| `LevelIterator.Iterator.Next` | db/driver/leveldb/driver.go:77-78 | assumed contract: one key forward; from before the first key to the first; past the last key stays past |
| `LevelIterator.Iterator.Prev` | db/driver/leveldb/driver.go:75-76 | assumed contract: one key back; from before the first key nothing happens; from past the end to the last key |
| `ByteOrder.SortedKeys` | db/driver/leveldb/driver.go:69-73 | the iterator's key order: exactly the keys of the set, strictly ascending |
| `ByteOrder.LowerBound` | db/driver/leveldb/driver.go:82 | the index `Seek` lands on: every key before it is below the target and the key at it is not |
| `FlatKV.Handlers.constructor` | internals/resp/commands/flatkv.go:11-12 | the handlers start with the namespace prefix and no calls or replies |
| `FlatKV.Handlers.Set` | internals/resp/commands/flatkv.go:14-39 | fewer than two arguments give the arity error and no store call. A malformed duration gives its error and no `Put`. Otherwise one `Put` of value `args[1]` under `prefix + args[0]` with the parsed TTL (0 without one), and the reply `OK` whatever the store says |
| `FlatKV.Handlers.Get` | internals/resp/commands/flatkv.go:41-63 | no argument: arity error, no store call. Otherwise one `Get` of `prefix + args[0]`; the store's error becomes an error reply, nil a null reply, a value a bulk reply |
| `FlatKV.Handlers.DeleteEntries` | internals/resp/commands/flatkv.go:73-77 | one value-less entry per argument, keyed `prefix + arg`, in argument order |
| `FlatKV.Handlers.Del` | internals/resp/commands/flatkv.go:65-81 | the reply is the number of keys asked for, present or not. No arguments: no `Batch` call. Otherwise exactly one `Batch` call with one entry per argument, in order |
| `FlatKV.Handlers.Incr` | internals/resp/commands/flatkv.go:83-121 | no argument: arity error, no call. A malformed TTL gives its error and no `Incr`. Otherwise one `Incr` of `prefix + args[0]`. The delta is the parsed second argument, or 0 when it is absent or does not parse. The store's error becomes an error reply, a new value `IncrReply` |
| `FlatKV.IncrReply` | internals/resp/commands/flatkv.go:116-120 | an integer reply exactly when the value has no fractional part, a decimal-string reply otherwise; both carry exactly the value |
| `FlatKV.Namespaced` | internals/resp/commands/flatkv.go:23 | a stored key is the prefix followed by the user key, with nothing lost |
| `FlatKV.NamespacedInjective` | internals/resp/commands/flatkv.go:49 | two user keys give the same stored key exactly when they are equal |

## Left out

- `Open`'s file handling and its options map, and `Close`: the engine is a foreign library. The model's driver is made from the records the database already holds.
- `LevelDB.Driver.Put`: does not model write errors; the engine's I/O failures are not modelled, so the call always succeeds. The same holds for `LevelDB.Driver.Delete` and `LevelDB.Driver.BulkPut`.
- `LevelDB.Driver.Get`: read errors other than not-found are not modelled; the engine's not-found error is the `None` result.
- `LevelDB.Driver.BulkPut`: atomic visibility and durability of the batch are not modelled, since the model has no concurrent readers; the batch is replayed in order.
- `LevelDB.Driver.Scan`: `iter.Error()` (lines 95-97), I/O errors before the end, and `iter.Release()` (line 93) are not modelled. The snapshot is taken when the iterator is made, and nothing writes while the scan runs.
- The key and value copies (lines 109-113) need no model: Dafny sequences are values, so the filter cannot change the store through them.
- The global `driver.Registry` and the registration of handlers in `init` are process-wide wiring.
- Writing replies to the connection socket: replies are appended to the `replies` log.
- The bodies of the logical entry store (`Put`, `Get`, `Batch`, `Incr`), TTL expiry and lazy purge are not part of this model; the store is abstract.
- `FlatKV.IncrReply`: numbers are exact reals, so it does not model 64-bit floats. Rounding, NaN and infinities, and the out-of-range `int64` conversion are not captured. The decimal rendering of `strconv.FormatFloat` is left to the reply (`BulkString` carries the number).
- `FlatKV.Handlers.Incr`: the number parser is partial and gives nothing on failure, so the delta is then 0. `strconv.ParseFloat` also fails on out-of-range input, but returns an infinity there that the handler would use; that case is not captured. A store that answers neither an error nor a value (a nil pointer) is not modelled.
- Go's `append` on the shared prefix slice may alias between calls; the model's keys are values. Concurrent use of the handlers is not modelled.
