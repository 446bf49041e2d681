# zkp-rust-storage: the write-buffering middleware stack, in Dafny

This project models the storage core of `zkp-rust-storage`: a chain of key-value layers over a Merkle-tree engine (`merk`). Keys and values are byte strings. The chain the store builds is:

- `CacheMiddleware`, the write buffer. It keeps an ordered map from key to `Some(value)` or to a tombstone `None`. `get` reads through the buffer. `set` and `delete` only record intents. `commit` empties the buffer and sends the caller's operations, followed by the buffered intents in ascending key order, to the layer below. `clean` discards the buffer.
- `DBMiddleware`, the pass-through layer that ends the chain.
- `MerkleRocksDB`, the adapter over the engine. It turns operations into engine batch entries and engine failures into `ZKError`s (code UNKNOWN, cause attached). Its `verify` checks a caller's assertions against the view that a checked proof yields.
- the `merk` engine itself.

Each layer offers the same capabilities: `get`, `set`, `delete`, `prove`, `verify`, `commit` and `root_hash`.

The repository also holds an older copy of the stack: `src/middleware.rs` over `MerkleTreeDB` in `src/instance.rs`. Its `set` answers unit. Its adapter drops engine causes in favour of a bare `Unknown` error, and its `verify` passes foreign errors through. The older copy also contains the transaction-log scan `cacheInner::find`. The project further models the prove/verify request and response objects and the `ZKError` value, with its registry of codes and its display layout.

## Modules

| file | module | what it holds |
|---|---|---|
| `wrappers.dfy` | `Wrappers` | `Option`, `Result` |
| `types.dfy` | `Types` | bytes, keys, values, 32-byte digests, `Operation` |
| `key_order.dfy` | `KeyOrder` | lexicographic byte order; the ascending listing of a key set (the `BTreeMap` iteration order) |
| `error.dfy` | `Error` | `ErrorEnums`, the registry, `ZKError`, `Display` |
| `couple.dfy` | `Couple` | `ProveRequest`, `ProveResponse`, `VerifyRequest`, `VerifyResponse` |
| `engine.dfy` | `Engine` | the abstract `merk` engine |
| `merkle.dfy` | `Merkle` | `to_batch`, the verify loop, `MerkleRocksDB`, and the outcome predicates shared by every forwarding layer |
| `middleware.dfy` | `Middleware` | `DBMiddleware` |
| `cache.dfy` | `Cache` | the drain of the buffer, and `CacheMiddleware` |
| `instance.dfy` | `Instance` | the older `MerkleTreeDB` and its error type |
| `legacy_middleware.dfy` | `LegacyMiddleware` | the transaction log, `find`, and the older `DBMiddleware` and `CacheMiddleware` |
| `scenarios.dfy` | `Scenarios` | the store's own test scenarios, over an arbitrary engine |

### The engine

The engine is kept abstract:
- `tree` holds the applied contents.
- `durable` holds the contents as of the last flush.
- `faults` records, for each engine call, whether it fails and with what cause. The environment chooses these.
- `rootOf`, `prover` and `checker` are fixed when the engine is opened and are otherwise arbitrary. Every property below holds for every choice of them, except the prove/verify scenarios, which require `Sound()`.

A checked proof yields a `ProofView`: for each key, either a failure (a key the proof does not cover) or an optional value. `Sound()` is the idealised property that a proof built for a key set checks against the root of the same contents and answers each of those keys truthfully. Only the prove/verify scenarios require it.

### The capability contract

Each layer is a class with the members of the `DB` and `TreeDB` traits. The newer layers follow the types of `src/tree/tree.rs`. The older layers follow the traits at `src/instance.rs:18-30`, where `set` answers unit and errors are the older error type. In both stacks:
- `Get` and `RootHash` are read-only functions.
- `Set`, `Delete` and `Commit` are methods that modify the engine's state, or the buffer.
- `Prove` and `Verify` are methods that change nothing.
- `RootHash` returns a `Digest`, which is exactly 32 bytes, and cannot fail.

Each adapter states the outcome of its engine calls with the predicates in `Merkle`. The newer adapter uses `SetOutcome`, `DeleteOutcome`, `CommitOutcome`, `ProveOutcome` and `VerifyOutcome`. Its `batch_operation` states the failed and the applied case directly. The older one uses `ApplyOutcome` for `set`, `delete` and `batch_operation`, together with the same `CommitOutcome`, `ProveOutcome` and `VerifyOutcome`. Every forwarded call (the pass-through layers, and `prove` and `verify` of the cache layers) states its outcome with the same predicate as the layer below, so its contract is visibly the same. The cache layers state `get`, `set`, `delete`, `clean` and the buffer part of `commit` in terms of the buffer. The older stack passes the error mapping it uses as a parameter (`Instance.Forget` or `Instance.Propagate`).

## Model

| member | source | states |
|---|---|---|
| `Error.ErrorEnums.GetCode` | src/error.rs:100-109 | the code the entry was declared with: rebuilding the entry from it and the message gives the same entry |
| `Error.ErrorEnums.GetMsg` | src/error.rs:110-119 | the message the entry was declared with: rebuilding the entry from the code and it gives the same entry |
| `Error.ErrorEnums.IsSuccess` | src/error.rs:120-122 | success holds exactly when the code is 0 |
| `Error.Registry` | src/error.rs:148-162 | the registry has 13 entries, starting with SUCCESS (code 0) and UNKNOWN (code 1) |
| `Error.RegistryCodesNotUnique` | src/error.rs:156-157 | INTERNAL_SERVER_ERROR and DUPLICATE_OPTION are distinct entries that both use code 7, so codes are not unique |
| `Error.RegistryOnlySuccessSucceeds` | src/error.rs:148-162 | among the registry entries, only SUCCESS counts as success |
| `Error.New` | src/error.rs:30-32 | the given code and message, no `err` cause, no wrapped cause, no source |
| `Error.ZKError.WithWrappedError` | src/error.rs:33-36 | sets only the wrapped cause; code, message and `err` are unchanged |
| `Error.ZKError.WithError` | src/error.rs:37-40 | sets only `err`; code, message, wrapped cause and `source()` are unchanged |
| `Error.ZKError.Source` | src/error.rs:78-89 | present exactly when a wrapped cause is, and then it is that cause, strictly smaller than the error (the chain is finite); `err` is never a source |
| `Error.FromEnum` | src/error.rs:43-47 | copies the enum's code and message, with no causes |
| `Error.FromStr` | src/error.rs:49-53 | always code 0, with the given message and no causes |
| `Error.NatToStringRoundTrip` | src/error.rs:59 | the decimal rendering of a code is a non-empty digit string that reads back as the code |
| `Error.Fmt` | src/error.rs:57-76 | the `push_str` steps build exactly `code=<c>,msg=<m>`, then `,err=<e>` if a cause is set, then `,wrapped err=<display of the wrapped error>` if one is set |
| `Error.DisplayShowsCode` | src/error.rs:59 | the code can be parsed back from the front of the display string |
| `Error.DisplayEndsWithSource` | src/error.rs:67-73 | the display of an error with a source ends with `,wrapped err=` and the full display of that source |
| `Error.DisplayOfWrapped` | src/error.rs:67-73 | wrapping an error that had no wrapped cause appends exactly `,wrapped err=` and the cause's display |
| `Couple.ProveRequest.constructor` | src/tree/couple.rs:3-6 | `ProveRequest::default()` has an empty query |
| `Couple.ProveRequest.Insert` | src/tree/couple.rs:9-11 | appends the key at the end; earlier keys stay and duplicates are kept |
| `Couple.VerifyRequest.constructor` | src/tree/couple.rs:26-28 | stores the proof and the 32-byte expected root exactly, with no assertions |
| `Couple.VerifyRequest.Insert` | src/tree/couple.rs:30-32 | `kv[k] == v` afterwards, and every other key keeps its assertion or its absence |
| `Couple.DefaultVerifyResponse` | src/tree/couple.rs:36-39 | the default response is not valid |
| `KeyOrder.LessTotal` | src/middleware/cache.rs:8 | byte-string order is total on distinct keys (with `LessIrreflexive` and `LessTransitive`, a strict total order) |
| `KeyOrder.SortedKeys` | src/middleware/cache.rs:108 | the `BTreeMap` visiting order: every key of the set exactly once, in strictly ascending order |
| `KeyOrder.SortedKeysFromLeast` | src/middleware/cache.rs:108 | the visit starts at the least key and continues with the visit of the rest |
| `Merkle.Wrap` | src/tree/merkle.rs:29-31 | an engine failure becomes code UNKNOWN (1), message "unknown", with the engine's cause as `err` and no wrapped cause |
| `Merkle.ToBatch` | src/tree/merkle.rs:50-59 | same length and order; `Set(k, v)` becomes `(k, Put(v))` and `Delete(k)` becomes `(k, Delete)` |
| `Merkle.BuildQuery` | src/tree/merkle.rs:64-67 | the query holds exactly the requested keys |
| `Merkle.CheckAssertions` | src/tree/merkle.rs:80-93 | An error can only come from a key the view cannot answer. `false` is returned only on a mismatch, meaning a key present in the view with a different value. `true` is returned only if every key is answered and none mismatches. When every key is answered, the result is `true` exactly when there is no mismatch, whatever the iteration order. A key the view shows absent is not enforced. |
| `Merkle.MerkleRocksDB.constructor` | src/tree/merkle.rs:18-20 | the adapter holds exactly the given engine |
| `Merkle.MerkleRocksDB.Get` | src/tree/merkle.rs:28-32 | the engine's value for the key, or the engine's failure wrapped as UNKNOWN |
| `Merkle.MerkleRocksDB.Set` | src/tree/merkle.rs:34-40 | one `Put`: on success the contents gain `k -> v` and the key is echoed; on failure nothing changes and the wrapped cause is returned |
| `Merkle.MerkleRocksDB.Delete` | src/tree/merkle.rs:43-47 | one `Delete`: on success `k` is removed; on failure nothing changes |
| `Merkle.MerkleRocksDB.Prove` | src/tree/merkle.rs:63-73 | the engine's proof over the current contents for the set of all requested keys, or the wrapped failure |
| `Merkle.MerkleRocksDB.Verify` | src/tree/merkle.rs:75-94 | a proof that does not check against the expected root gives a wrapped error; otherwise the result of the assertion loop over the checked view |
| `Merkle.MerkleRocksDB.BatchOperation` | src/tree/merkle.rs:110-115 | the whole converted batch is applied in order, or nothing is applied and the wrapped failure is returned |
| `Merkle.MerkleRocksDB.Commit` | src/tree/merkle.rs:96-102 | Applies the batch, then flushes. A failed apply changes nothing, flushes nothing and is reported. A failed flush leaves the applied contents unflushed and is reported. Success makes the applied contents durable. |
| `Merkle.MerkleRocksDB.RootHash` | src/tree/merkle.rs:104-106 | the root digest of the applied contents: infallible, 32 bytes |
| `Middleware.DBMiddleware.constructor` | src/middleware/middleware.rs:59-61 | the layer holds exactly the given adapter |
| `Middleware.DBMiddleware.Get` | src/middleware/middleware.rs:89-91 | exactly what the adapter answers |
| `Middleware.DBMiddleware.Set` | src/middleware/middleware.rs:93-96 | forwards; on success answers the key, and on failure the adapter's error unchanged |
| `Middleware.DBMiddleware.Delete` | src/middleware/middleware.rs:99-101 | the adapter's outcome, unchanged |
| `Middleware.DBMiddleware.Prove` | src/middleware/middleware.rs:68-70 | the adapter's outcome, unchanged |
| `Middleware.DBMiddleware.Verify` | src/middleware/middleware.rs:72-74 | the adapter's outcome, unchanged |
| `Middleware.DBMiddleware.Commit` | src/middleware/middleware.rs:76-78 | the adapter's commit of the same operation list, in content and order |
| `Middleware.DBMiddleware.RootHash` | src/middleware/middleware.rs:80-82 | the adapter's root |
| `Middleware.DBMiddleware.Clean` | src/middleware/middleware.rs:18-20 | the default `clean` succeeds and changes nothing |
| `Cache.CacheMiddleware.constructor` | src/middleware/cache.rs:52-58 | empty buffer, version 0, the given inner layer |
| `Cache.ReadThrough` | src/middleware/cache.rs:66-77 | a buffered value or tombstone answers; a key absent from the buffer gets exactly the inner answer, error included |
| `Cache.CacheMiddleware.Get` | src/middleware/cache.rs:65-79 | a buffered value gives `Some(value)`, a tombstone gives `None`, and otherwise the result is exactly the inner layer's answer |
| `Cache.CacheMiddleware.Set` | src/middleware/cache.rs:81-84 | The buffer becomes `old[k := Some(v)]`, so the last write wins. The key is echoed and `get(k)` answers `v`. Every other key reads as before. The root is unchanged, and nothing below changes. |
| `Cache.CacheMiddleware.Delete` | src/middleware/cache.rs:87-90 | The buffer becomes `old[k := None]`. `get(k)` answers `None` whatever the layer below holds. Every other key reads as before, and the root is unchanged. |
| `Cache.CacheMiddleware.Prove` | src/middleware/cache.rs:96-98 | the layer below's proof; buffered writes are not part of it |
| `Cache.CacheMiddleware.Verify` | src/middleware/cache.rs:100-102 | the layer below's answer |
| `Cache.OpOf` | src/middleware/cache.rs:109-112 | a buffered value drains to `Set(k, v)` and a tombstone drains to `Delete(k)` |
| `Cache.DrainInto` | src/middleware/cache.rs:108-113 | the loop appends to `operations` exactly the drain of the buffer |
| `Cache.DrainOnePerKey` | src/middleware/cache.rs:108-113 | the drain has one operation per buffered key, and each matches that key's intent |
| `Cache.DrainAscending` | src/middleware/cache.rs:108 | the drained operations name their keys in strictly ascending order |
| `Cache.CacheMiddleware.Commit` | src/middleware/cache.rs:104-115 | The buffer ends empty, whether or not the commit below succeeds. The layer below commits `operations` followed by the drain of the old buffer. When no extra operations are given, the commit succeeds and the engine's reads do not fail, every read answers as before. |
| `Cache.OpsForApplies` | src/middleware/cache.rs:108-114 | applying drained intents leaves each drained key with its intent and every other key as it was |
| `Cache.CommitAppliesIntents` | src/middleware/cache.rs:104-114 | after committing `ops` and then the drain, a buffered key holds its intent and any other key holds what `ops` alone would leave |
| `Cache.CommitIsInvisibleToReads` | src/middleware/cache.rs:104-114 | reading through the buffer before a commit with no extra operations gives what reading the committed contents gives after it |
| `Cache.CacheMiddleware.RootHash` | src/middleware/cache.rs:117-119 | the layer below's root; buffered writes never reach it |
| `Cache.CacheMiddleware.Clean` | src/middleware/cache.rs:133-136 | the buffer becomes empty and every read becomes the inner layer's answer; nothing is forwarded |
| `Instance.Forget` | src/instance.rs:88-90 | every engine failure becomes the bare `Unknown`, and the cause is dropped |
| `Instance.Propagate` | src/instance.rs:133-137 | a foreign failure passed on by `?` keeps its cause, as a raw error |
| `Instance.MerkleTreeDB.constructor` | src/instance.rs:77-79 | the adapter holds exactly the given engine |
| `Instance.MerkleTreeDB.Get` | src/instance.rs:87-91 | the engine's value, or `Unknown` on failure |
| `Instance.MerkleTreeDB.Set` | src/instance.rs:93-97 | one `Put`: on success the contents gain `k -> v` and the answer is unit; on failure nothing changes and the answer is `Unknown` |
| `Instance.MerkleTreeDB.Delete` | src/instance.rs:100-104 | one `Delete`, or nothing and `Unknown` |
| `Instance.MerkleTreeDB.Prove` | src/instance.rs:120-130 | the proof for the set of all requested keys, or `Unknown` |
| `Instance.MerkleTreeDB.Verify` | src/instance.rs:132-147 | a failed check and a failed lookup are returned raw; otherwise the result of the assertion loop |
| `Instance.MerkleTreeDB.BatchOperation` | src/instance.rs:163-168 | the whole converted batch, or nothing and `Unknown` |
| `Instance.MerkleTreeDB.Commit` | src/instance.rs:149-155 | applies the batch, then flushes; the first failure stops the commit and is reported as `Unknown` |
| `Instance.MerkleTreeDB.RootHash` | src/instance.rs:157-159 | the root digest of the applied contents |
| `LegacyMiddleware.Find` | src/middleware.rs:69-87 | the scan answers the value of the last `Set` of the key in the log, ignoring deletes, and `None` when no `Set` names the key |
| `LegacyMiddleware.LastSetSound` | src/middleware.rs:69-87 | a value found is carried by some `Set` of the key with no later `Set` of it; `None` means no node sets the key |
| `LegacyMiddleware.LastSetComplete` | src/middleware.rs:69-87 | the last `Set` of the key is the one found |
| `LegacyMiddleware.DBMiddleware.constructor` | src/middleware.rs:194-196 | the layer holds exactly the given adapter |
| `LegacyMiddleware.DBMiddleware.Get` | src/middleware.rs:224-226 | exactly the adapter's answer |
| `LegacyMiddleware.DBMiddleware.Set` | src/middleware.rs:228-230 | the adapter's outcome, unchanged (unit on success) |
| `LegacyMiddleware.DBMiddleware.Delete` | src/middleware.rs:233-235 | the adapter's outcome, unchanged |
| `LegacyMiddleware.DBMiddleware.Prove` | src/middleware.rs:203-205 | the adapter's outcome, unchanged |
| `LegacyMiddleware.DBMiddleware.Verify` | src/middleware.rs:207-209 | the adapter's outcome, unchanged |
| `LegacyMiddleware.DBMiddleware.Commit` | src/middleware.rs:211-213 | the adapter's commit of the same list |
| `LegacyMiddleware.DBMiddleware.RootHash` | src/middleware.rs:215-217 | the adapter's root |
| `LegacyMiddleware.DBMiddleware.Clean` | src/middleware.rs:12-14 | the default `clean` succeeds and changes nothing |
| `LegacyMiddleware.CacheMiddleware.constructor` | src/middleware.rs:95-101 | empty buffer, version 0 |
| `LegacyMiddleware.CacheMiddleware.Get` | src/middleware.rs:108-122 | a buffered intent answers; otherwise the inner answer, error included |
| `LegacyMiddleware.CacheMiddleware.Set` | src/middleware.rs:124-127 | records the value (last write wins) and answers unit; reads of other keys and the root are unchanged |
| `LegacyMiddleware.CacheMiddleware.Delete` | src/middleware.rs:130-133 | records a tombstone; `get(k)` answers `None` |
| `LegacyMiddleware.CacheMiddleware.Prove` | src/middleware.rs:139-141 | the layer below's answer |
| `LegacyMiddleware.CacheMiddleware.Verify` | src/middleware.rs:143-145 | the layer below's answer |
| `LegacyMiddleware.CacheMiddleware.Commit` | src/middleware.rs:147-158 | resets the buffer before the inner commit, and commits `operations` followed by the ascending drain |
| `LegacyMiddleware.CacheMiddleware.RootHash` | src/middleware.rs:160-162 | the layer below's root |
| `LegacyMiddleware.CacheMiddleware.Clean` | src/middleware.rs:176-179 | the buffer becomes empty |
| `Scenarios.NewCacheMerkle` | src/middleware/middleware.rs:151-157 | a fresh cache with an empty buffer whose chain of layers ends at the given engine |
| `Scenarios.ReadYourWrites` | src/middleware/middleware.rs:135-140 | `set([1,2,3], [4,5,6])` followed by `get([1,2,3])` gives `[4,5,6]`, on any engine, even a failing one |
| `Scenarios.DeleteHidesStoredValue` | src/middleware/cache.rs:87-90 | after `set` and then `delete`, `get` gives `None` on any engine |
| `Scenarios.SetCommitProve` | src/middleware/middleware.rs:160-167 | after set, commit, root and prove, the proof checks against the root and shows the committed value |
| `Scenarios.ProveVerifyRoundTrip` | src/middleware/middleware.rs:160-173 | on a sound engine whose calls succeed, the committed value is accepted (`valid == true`) and a different value is rejected (`valid == false`) |
| `Scenarios.CommitFailureLosesWrites` | src/middleware/cache.rs:104-115 | when the engine's apply fails, the commit reports the wrapped cause and the buffered write is gone: `get` answers what the engine held before |
| `Scenarios.NewLegacyCacheMerkle` | src/middleware.rs:280-286 | a fresh older-stack cache with an empty buffer whose chain of layers ends at the given engine |
| `Scenarios.LegacySetProve` | src/middleware.rs:288-295 | without a commit, the proof shows what the engine held before the `set` |
| `Scenarios.LegacyProveVerifyWithoutCommit` | src/middleware.rs:288-301 | the older test's `verify` answers `true` exactly when the engine holds no other value for the key, because an absent key is not enforced |
| `Scenarios.LegacyReadYourWrites` | src/middleware.rs:264-269 | `set` followed by `get` gives the value set |

## Left out

- `src/instance.rs` repeats `ProveRequest` and `VerifyRequest` (lines 33-69), `to_batch` (lines 107-116) and the `verify` loop (lines 135-146) with the same behaviour as `src/tree/couple.rs` and `src/tree/merkle.rs`. They are modelled once, by the `Couple` classes, `Merkle.ToBatch` and `Merkle.CheckAssertions`. The older adapter passes `Instance.Propagate` to `Merkle.CheckAssertions`, so its lookup errors stay raw.
- The signatures of `src/tree/tree.rs` are not a separate member. Every layer class declares them, as described under "The capability contract".

- The `merk` engine is not modelled internally: node hashing and balancing, the proof byte encoding, `merk::verify`, `Merk::open` and the RocksDB flush. It is an abstract map with an uninterpreted root, prover and checker, and environment-chosen failures.
- `new_with_path` in both adapters opens a store on disk, and is not modelled. The engine's constructor `Merk.Open` stands for an opened store.
- The traits (`DB`, `TreeDB`, `TreeMiddleware`) are not Dafny traits. Every layer class declares the same members, and the stack is the concrete chain the store builds.
- `inner()` is not modelled. The cache's accessor is the `inner` field. The pass-through layer's accessor is `unimplemented!()` and is never meant to be called.
- `TransactionNode::new` and `Transaction::default()` are the datatype constructor `TransactionNode(version, op)` and the constant `EmptyTransaction`. They have no separate members.
- `BuildOption` and `DBType` have no behaviour. The `unsafe impl Send/Sync` lines concern concurrency, and the tests' `println!`/`hex::encode` calls are I/O.
- The foreign `err: Box<dyn Error>` is kept as the string it displays as.
- `u64` versions and `usize` codes are unbounded naturals. No operation adds to them, so nothing can overflow.
- The `HashMap` iteration order in `verify` is a nondeterministic choice. The contracts hold for every order.
- The engine's own demands on a batch (for example, sorted unique keys) are not modelled. `ApplyBatch` applies entries one by one, in order. So `Cache.CommitAppliesIntents` and `Cache.CacheMiddleware.Commit` also describe commits whose `operations` name a buffered key, or name a key that sorts after a buffered key. In the model the buffered intent is applied last and wins. An engine that demands sorted, unique batches would reject such a commit.
- `src/tree/smt.rs`, `src/trie.rs`, `src/smt.rs` and `src/state/` are not part of this model. They are unimplemented stubs and foreign hashing.
- `Instance.LegacyError`: `ErrorEnums::Unknown`, used by the older adapter, is not a variant of `ErrorEnums` in `src/error.rs`. The older layers' errors are therefore modelled as a separate type: `Unknown` with no cause, or a raw foreign error.
- `Scenarios.ProveVerifyRoundTrip`: the test in `src/middleware/middleware.rs` builds its chain from a `MerkleTreeDB` imported from `src/tree/merkle.rs`. That file defines `MerkleRocksDB` instead, and the scenario uses it.
