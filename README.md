# kv: storage abstraction layer, modelled in Dafny

The kv server exposes a key-value store over gRPC. Its core is the storage
abstraction layer, and this project models that layer:

- the `KeyValueStore` contract, with its request and response records and
  its two error sentinels, `ErrKeyNotFound` and `ErrTransactionConflict`;
- the process-wide driver registry (`Register`, `Drivers`, `Open`);
- the badger adapter, which implements the contract over a transactional
  engine;
- the request service, which turns Set, Get and Delete requests into store
  calls and maps storage errors to the gRPC codes NotFound and Internal.

Files (every module sits in its own file):

- `wrappers.dfy`: `Option` and `Result`.
- `string_order.dfy`: Go's string comparison and `sort.Strings`.
  `sort.Strings` is modelled as a selection sort on an array.
- `kvdb.dfy`: the errors, the records, the contract as predicates, `Driver`,
  and the `Registry` class.
- `badgerdb.dfy`: the adapter. It holds one pure outcome function per store
  operation and the `BadgerStore` class, whose methods are proved against
  those functions. It also holds the driver and its registration.
- `kv_service.dfy`: the structured `Value`, the `Codec`, the statuses, the
  pure replies and outcomes, the `KvService` class, and the lemmas about
  whole request sequences.

The engine's contents are a `map<string, seq<bv8>>`. Some engine behaviour
does not follow from those contents: a read failing, a write refused, a
commit losing a conflict. That behaviour is an explicit oracle, the `Faults`
argument of each call. Each field of `Faults` is `None` when its step
succeeds, or the error the engine reports for it.

Marshalling and unmarshalling of the value envelope are the two function
values of a `Codec`. The round-trip property is the predicate `RoundTrips`.
Lemmas that depend on it take it as a hypothesis.

The model reproduces these behaviours of the code as written:

- `GetItem` drops engine errors other than not-found.
- `DeleteItem` drops commit errors other than a conflict.
- The service's `Get` does not look at store errors other than not-found.
- The service's `Delete` answers success to a conflict.

## Model

| member | source | states |
|---|---|---|
| StringOrder.LessIrreflexive | internal/storage/kvdb/kvdb.go:86 | no string sorts before itself |
| StringOrder.LessTransitive | internal/storage/kvdb/kvdb.go:86 | the string order used for sorting is transitive |
| StringOrder.LessTotal | internal/storage/kvdb/kvdb.go:86 | of two different strings, one sorts before the other |
| StringOrder.SortStrings | internal/storage/kvdb/kvdb.go:86 | sorting leaves the array in ascending order and a permutation of what it held |
| StringOrder.SortedListingIsStrict | internal/storage/kvdb/kvdb.go:82-87 | a sorted listing of a set's elements, each once, is strictly ascending |
| StringOrder.StrictlySortedUnique | internal/storage/kvdb/kvdb.go:82-87 | two strictly ascending listings of the same names are equal, so the listing depends only on the registered names |
| Kvdb.Registry.constructor | internal/storage/kvdb/kvdb.go:13 | the registry starts with no drivers |
| Kvdb.Registry.Register | internal/storage/kvdb/kvdb.go:63-76 | a fresh name adds exactly that name-to-driver entry and leaves the others alone; a name already present panics with the duplicate-registration message and leaves the table unchanged |
| Kvdb.Registry.Drivers | internal/storage/kvdb/kvdb.go:78-88 | returns every registered name exactly once and no other name, as many names as there are drivers, in strictly ascending order; the registry is not modified |
| Kvdb.Registry.Open | internal/storage/kvdb/kvdb.go:90-105 | an unregistered name gives the unknown-driver error naming it, with the text "kvdb: unknown storage driver" and the quoted name, and opens nothing; a registered name gives exactly what its driver's open gives for the location, error included; the registry is only read |
| BadgerDb.PutItemOutcome | internal/storage/kvdb/badgerdb/badgerdb.go:95-118 | honours the PutItem contract; succeeds exactly when neither the set nor the commit fails, and then upserts the item and leaves every other key alone; an engine conflict becomes ErrTransactionConflict; every other engine error is returned unchanged; a failed call leaves the store unchanged |
| BadgerDb.GetItemOutcome | internal/storage/kvdb/badgerdb/badgerdb.go:67-92 | never changes the store; reports no error other than ErrKeyNotFound, and on success answers the requested key; without engine faults it honours the GetItem contract, failing with ErrKeyNotFound exactly when the key has no item and otherwise returning its stored bytes |
| BadgerDb.DeleteItemOutcome | internal/storage/kvdb/badgerdb/badgerdb.go:38-64 | either leaves the store unchanged or removes exactly the requested, present key, and a removal is reported as success; with a fault-free read, a key with no item is ErrKeyNotFound and changes nothing; a read failure other than not-found, or a delete failure, is returned unchanged and changes nothing; a commit conflict is ErrTransactionConflict and changes nothing; a failed commit removes nothing; a fault-free delete of a present key succeeds and removes it; when the commit succeeds or conflicts it honours the DeleteItem contract |
| BadgerDb.PutThenGet | internal/storage/kvdb/kvdb.go:22-30 | after a successful PutItem, a fault-free GetItem of the key returns that key and the value put |
| BadgerDb.LastWriteWins | internal/storage/kvdb/kvdb.go:22-26 | after two successful PutItem calls on one key, GetItem returns the second value |
| BadgerDb.DeleteThenGet | internal/storage/kvdb/badgerdb/badgerdb.go:38-64 | a fault-free delete of a present key succeeds, a later GetItem is ErrKeyNotFound, and every other key keeps its item |
| BadgerDb.GetItemDropsEngineFailure | internal/storage/kvdb/badgerdb/badgerdb.go:69-91 | when the read, or copying a present key's value, fails with any engine error other than not-found (a conflict or another failure), GetItem yields no error, the requested key and no value, which breaks the GetItem contract for a missing key |
| BadgerDb.DeleteItemDropsCommitFailure | internal/storage/kvdb/badgerdb/badgerdb.go:57-63 | a commit failing with an error other than a conflict is reported as success while the item stays, which breaks the DeleteItem contract |
| BadgerDb.BadgerStore.constructor | internal/storage/kvdb/badgerdb/badgerdb.go:27-34 | an opened store holds the engine's items and is open |
| BadgerDb.BadgerStore.PutItem | internal/storage/kvdb/badgerdb/badgerdb.go:95-118 | the new items, response and error are those of PutItemOutcome on the old items |
| BadgerDb.BadgerStore.GetItem | internal/storage/kvdb/badgerdb/badgerdb.go:67-92 | the response and error are those of GetItemOutcome on the current items |
| BadgerDb.BadgerStore.DeleteItem | internal/storage/kvdb/badgerdb/badgerdb.go:38-64 | the new items, response and error are those of DeleteItemOutcome on the old items |
| BadgerDb.BadgerStore.Close | internal/storage/kvdb/badgerdb/badgerdb.go:122-124 | closes the store, keeps its items, and returns the engine's close error unchanged |
| BadgerDb.BadgerDriver | internal/storage/kvdb/badgerdb/badgerdb.go:24-35 | opening through the driver succeeds exactly when the engine opens, with the engine's items; an engine open failure is returned unchanged |
| BadgerDb.Init | internal/storage/kvdb/badgerdb/badgerdb.go:11-13 | adds exactly the badger driver under "badgerdb" and keeps every other driver, after which opening "badgerdb" is opening the engine; a prior registration of the name panics with the duplicate-registration message and changes nothing |
| KvService.GetReply | internal/service/kv/v1alpha1/kv.go:57-76 | ErrKeyNotFound, and nothing else, gives NotFound; otherwise the reply succeeds exactly when the stored bytes decode, with the store's key and the decoded value; every failure carries one of the two fixed statuses |
| KvService.DeleteReply | internal/service/kv/v1alpha1/kv.go:40-49 | ErrKeyNotFound gives NotFound with the key in the message; every other outcome, error or not, is an empty success |
| KvService.SetOutcome | internal/service/kv/v1alpha1/kv.go:84-99 | an encoding failure is Internal and leaves the store alone; every store failure, a conflict included, is Internal with the fixed message and leaves the store alone; success stores the encoded value under the key |
| KvService.GetIgnoresOtherErrors | internal/service/kv/v1alpha1/kv.go:60-67 | a store error other than ErrKeyNotFound gives the same reply as no error |
| KvService.GetMissing | internal/service/kv/v1alpha1/kv.go:60-63 | a fault-free Get of a key with no item is NotFound with the message "key '<key>' not found" |
| KvService.SetThenGet | internal/service/kv/v1alpha1/kv.go:66-76 | if decoding undoes encoding, Get after a successful Set returns the key and the value set |
| KvService.DeleteThenGetMissing | internal/service/kv/v1alpha1/kv.go:40-49 | a fault-free Delete of a present key succeeds and a later Get is NotFound |
| KvService.DeleteMissing | internal/service/kv/v1alpha1/kv.go:43-46 | a Delete of a key with no item is NotFound naming the key and changes nothing |
| KvService.DeleteConflictRepliesSuccess | internal/service/kv/v1alpha1/kv.go:43-49 | a Delete that loses a conflict replies success while the item stays |
| KvService.SetConflictIndistinguishable | internal/service/kv/v1alpha1/kv.go:94-97 | a Set that loses a conflict gets the same Internal reply as one that fails for any other engine reason |
| KvService.StatusesFixed | internal/service/kv/v1alpha1/kv.go:16-19 | every failure of Set, Get and Delete carries the fixed internal message or the not-found message built from the key alone, never engine text |
| KvService.SetGetDeleteScenario | internal/service/kv/v1alpha1/kv.go:36-100 | Set("a", {"x": 1}); Get("a") gives the value back; Delete("a") succeeds; Get("a") is then NotFound |
| KvService.OverwriteScenario | internal/service/kv/v1alpha1/kv.go:80-100 | Set("a", 42) then Set("a", "hello") makes Get("a") return "hello" |
| KvService.KvService.constructor | internal/service/kv/v1alpha1/kv.go:29-33 | the service holds the store it is given |
| KvService.KvService.Set | internal/service/kv/v1alpha1/kv.go:80-100 | the new items and the reply are those of SetOutcome on the old items |
| KvService.KvService.Get | internal/service/kv/v1alpha1/kv.go:53-77 | the reply is that of GetOutcome on the current items |
| KvService.KvService.Delete | internal/service/kv/v1alpha1/kv.go:36-50 | the new items and the reply are those of DeleteOutcome on the old items |

## Left out

- Locking: the `sync.RWMutex` around the registry is not modelled. Calls are sequential.
- Concurrent conflict detection: real interleavings are not modelled. A conflict is an oracle answer at the commit step. So the property about two concurrent Puts on one key is not stated.
- Engine internals: failures such as an empty key, an oversized transaction or a closed database are not derived from the engine's rules. They enter only through `Faults`.
- Engine open: the engine's own open is a function parameter, `engineOpen`, from location to items or an engine error. Options, the logger and the on-disk format are not modelled.
- Close flushing: `Close` does not model flushing to disk. Operations after `Close` are excluded by a precondition, since their behaviour is undefined.
- Store handles: `KeyValueStore` has one implementation, `BadgerStore`. The service holds a `BadgerStore` and not an interface value. A driver's `open` returns the items the engine holds, not a live object.
- Panics: `Register`'s panic is its returned message, and the registry is left unchanged. The process does not abort in the model.
- Error text: Go's `%q` escaping in the unknown-driver message is shown as plain double quotes. An engine error's own text is not modelled.
- String order: Go compares strings byte by byte. The model compares characters, which agrees for valid UTF-8. Strings holding invalid UTF-8 are not modelled.
- Protocol buffers: `proto.Marshal` and `proto.Unmarshal` are the codec's function values. Nondeterministic map ordering in the encoding is not modelled. Numbers are `real`, not float64. An absent value in a Set request is not modelled.
- Go nil vs empty: a nil byte slice and an empty one are both the empty sequence.
- Context and logging: `context.Context` and `log.Printf` have no modelled effect.
- gRPC status: only the status code and the message are modelled.
- Process bootstrap: `cmd/kv/main.go` (flags, listener, server setup, signals) is not part of this model.
