# Meta client: a Dafny model

This project models the composite meta client of GreptimeDB's `meta-client` crate. The client is built by `MetaClientBuilder` from:

- an identity (cluster id, member id);
- a role;
- a chosen subset of four protocols: heartbeat, router, store and lock.

`MetaClient` holds one optional sub-client per protocol. It has:

- `start`, which starts the present sub-clients in a fixed order;
- four accessors, which refuse an absent sub-client with `NotStarted`;
- one dispatching operation per remote call. Each one resolves its sub-client, forwards the request and converts the reply back.

The store operations are one-line forwards. What the remote key-value store does with them is pinned down only by the crate's own tests, which run against an in-memory store. The model therefore also states the behaviour those tests expect, as a reference store.

Files:

- `keys.dfy`:
  - `Options`: the `Option` type.
  - `Seqs`: the `Distinct` predicate on sequences.
  - `Keys`: keys as byte strings with byte-wise lexicographic order; the fact that a prefix selects the half-open range `[prefix, PrefixEnd(prefix))`; `MinKey`, which picks the smallest key of a set in one pass.
- `kv.dfy` (`Kv`):
  - the requests and replies of the eight store operations;
  - what each operation does to a store (a `map` from keys to values), as pure functions;
  - lemmas for what the client's tests check.
- `mem_store.dfy` (`ReferenceStore`): `MemStore`, a class holding the store in a `map` field that its methods update in place. Each method is proved against the matching `Kv` function. Range replies are built by a selection loop, and the batch operations by loops over the request.
- `client.dfy` (`MetaClientModel`): the builder (a value with `enable_*` functions and `Build`), the `MetaClient` class with one slot field per protocol, `Start`, the accessors and every dispatching operation.

What the model takes as given:

- Which sub-clients fail to start is a `failures` map passed to `Start`.
- What the network and the reply conversion do to one call is a `Wire` value passed to each operation.
- The endpoint list is carried but opaque.

## Model

| member | source | states |
|---|---|---|
| MetaClientModel.MetaClientBuilder.New | src/meta-client/src/client.rs:56-62 | the builder carries (cluster_id, member_id) and the role, and activates nothing |
| MetaClientModel.MetaClientBuilder.EnableHeartbeat | src/meta-client/src/client.rs:64-69 | adds heartbeat to the activation set and keeps id and role |
| MetaClientModel.MetaClientBuilder.EnableRouter | src/meta-client/src/client.rs:71-76 | adds router to the activation set and keeps id and role |
| MetaClientModel.MetaClientBuilder.EnableStore | src/meta-client/src/client.rs:78-83 | adds store to the activation set and keeps id and role |
| MetaClientModel.MetaClientBuilder.EnableLock | src/meta-client/src/client.rs:85-90 | adds lock to the activation set and keeps id and role |
| MetaClientModel.MetaClientBuilder.Activation | src/meta-client/src/client.rs:111-124 | a built client's slot for p holds a not-yet-started sub-client exactly when p is activated; otherwise it is absent |
| MetaClientModel.MetaClientBuilder.Build | src/meta-client/src/client.rs:99-126 | aborts (null) exactly when nothing is activated; otherwise gives a fresh client whose `Id()` (the source's `id`, lines 370-373) is the builder's id and whose slots are the activation |
| MetaClientModel.MetaClient.constructor | src/meta-client/src/client.rs:140-145 | a client for the id with every sub-client absent |
| MetaClientModel.MetaClient.Start | src/meta-client/src/client.rs:155-181 | the new slots and the result are those of starting heartbeat, router, store, lock in that order, skipping absent ones and stopping at the first failure |
| MetaClientModel.FirstFailure | src/meta-client/src/client.rs:160-178 | the position of the first present sub-client that fails: none before it fails, and the one at it does |
| MetaClientModel.StartFromSpec | src/meta-client/src/client.rs:155-181 | start fails exactly when a present sub-client fails, with the first one's error; sub-clients before it are started, and it and all later ones are untouched |
| MetaClientModel.StartWithoutFailures | src/meta-client/src/client.rs:443-487 | when no present sub-client fails, start succeeds and every present sub-client is started while absent ones stay absent |
| MetaClientModel.StartKeepsActivation | src/meta-client/src/client.rs:155-181 | start never adds or removes a sub-client |
| MetaClientModel.ActivationGatesCalls | src/meta-client/src/client.rs:489-561 | after build and a successful start, calls for protocols outside the activation fail with NotStarted before any network access; calls inside it reach the service whenever delivered |
| MetaClientModel.Reach | src/meta-client/src/client.rs:185-335 | a call is stopped by the accessor's error if there is one; it reaches the service exactly when the sub-client is present and started and the network delivers |
| MetaClientModel.MetaClient.HeartbeatClient | src/meta-client/src/client.rs:337-342 | fails exactly when heartbeat is absent, with NotStarted("heartbeat_client"); otherwise hands out the heartbeat sub-client with its started state |
| MetaClientModel.MetaClient.RouterClient | src/meta-client/src/client.rs:344-349 | fails exactly when router is absent, with NotStarted("store_client") as written; otherwise hands out the router sub-client with its started state |
| MetaClientModel.MetaClient.StoreClient | src/meta-client/src/client.rs:351-356 | fails exactly when store is absent, with NotStarted("store_client"); otherwise hands out the store sub-client with its started state |
| MetaClientModel.MetaClient.LockClient | src/meta-client/src/client.rs:358-363 | fails exactly when lock is absent, with NotStarted("lock_client"); otherwise hands out the lock sub-client with its started state |
| MetaClientModel.MetaClient.AskLeader | src/meta-client/src/client.rs:183-187 | a stopped call returns the stopping error, NotStarted("heartbeat_client") for an absent heartbeat; success exactly when heartbeat is started and the call is delivered |
| MetaClientModel.MetaClient.HeartbeatStream | src/meta-client/src/client.rs:189-197 | the same gate as AskLeader for opening the heartbeat stream |
| MetaClientModel.MetaClient.CreateRoute | src/meta-client/src/client.rs:199-212 | a request that does not convert fails with ConvertRequest before the router is resolved; then a stopped call returns the stopping error (NotStarted for an absent router); a delivered call whose reply does not convert fails with ConvertResponse; success exactly when the router is started, the call is delivered and the reply converts |
| MetaClientModel.MetaClient.Route | src/meta-client/src/client.rs:233-239 | a stopped call returns the stopping error, NotStarted("store_client") for an absent router; a delivered call whose reply does not convert fails with ConvertResponse; success exactly when started, delivered and the reply converts |
| MetaClientModel.MetaClient.DeleteRoute | src/meta-client/src/client.rs:244-250 | a stopped call returns the stopping error, NotStarted("store_client") for an absent router; a delivered call whose reply does not convert fails with ConvertResponse; success exactly when started, delivered and the reply converts |
| MetaClientModel.MetaClient.LockCall | src/meta-client/src/client.rs:328-330 | a stopped call returns the stopping error, NotStarted("lock_client") for an absent lock; success exactly when lock is started and the call is delivered |
| MetaClientModel.MetaClient.Unlock | src/meta-client/src/client.rs:332-335 | a stopped call returns the stopping error, NotStarted("lock_client") for an absent lock; success exactly when lock is started and the call is delivered |
| MetaClientModel.MetaClient.Range | src/meta-client/src/client.rs:252-259 | a stopped call returns the stopping error; otherwise success exactly when the reply converts, failure with ConvertResponse when it does not, and a successful reply is the sorted scan of the store |
| MetaClientModel.MetaClient.Put | src/meta-client/src/client.rs:261-268 | a stopped call leaves the store unchanged and returns the stopping error; otherwise the store and reply are those of PutStep, the reply subject to conversion |
| MetaClientModel.MetaClient.BatchGet | src/meta-client/src/client.rs:270-277 | a stopped call returns the stopping error; otherwise the reply is the found entries of the requested keys, subject to conversion |
| MetaClientModel.MetaClient.BatchPut | src/meta-client/src/client.rs:279-286 | a stopped call changes nothing; otherwise the store and reply are those of BatchPutStep |
| MetaClientModel.MetaClient.BatchDelete | src/meta-client/src/client.rs:288-295 | a stopped call changes nothing; otherwise the store and reply are those of BatchDeleteStep |
| MetaClientModel.MetaClient.CompareAndPut | src/meta-client/src/client.rs:297-308 | a stopped call changes nothing; otherwise the store and reply are those of CasStep |
| MetaClientModel.MetaClient.DeleteRange | src/meta-client/src/client.rs:310-317 | a stopped call changes nothing; otherwise the selected keys are removed, and the reply, failing with ConvertResponse when it does not convert, counts them and lists them in order when asked |
| MetaClientModel.MetaClient.MoveValue | src/meta-client/src/client.rs:319-326 | a stopped call changes nothing; otherwise the store and reply are those of MoveStep |
| Keys.LessIrreflexive | src/meta-client/src/client.rs:671-684 | the key order used to sort replies is irreflexive |
| Keys.LessTransitive | src/meta-client/src/client.rs:671-684 | the key order is transitive |
| Keys.LessTotal | src/meta-client/src/client.rs:671-684 | any two distinct keys are ordered |
| Keys.LessAsymmetric | src/meta-client/src/client.rs:671-684 | the key order is asymmetric |
| Keys.MinKey | src/meta-client/src/client.rs:671-684 | returns a member of the set that is smaller than every other member |
| Keys.PrefixAsRange | src/meta-client/src/client.rs:877-893 | a key has the prefix exactly when it lies in [prefix, PrefixEnd(prefix)); for an all-0xff prefix, exactly when it is at or after the prefix |
| Keys.SplitPrefixBounds | src/meta-client/src/client.rs:877-893 | for q + [x] + s with x below 0xff and s all 0xff, having it as prefix is the range up to q + [x + 1] |
| Keys.PrefixEndSplit | src/meta-client/src/client.rs:877-893 | every prefix that is not all 0xff splits so that PrefixEnd is q + [x + 1] |
| Keys.AllMaxPrefix | src/meta-client/src/client.rs:877-893 | a key starts with an all-0xff prefix exactly when it sorts at or after it |
| Kv.SortedIsDistinct | src/meta-client/src/client.rs:686-702 | a reply sorted by key has no repeated key |
| Kv.KeySetTail | src/meta-client/src/client.rs:686-702 | dropping the first entry of a sorted reply drops exactly its key |
| Kv.SortedKeyCount | src/meta-client/src/client.rs:686-702 | a sorted reply has as many entries as distinct keys |
| Kv.SortedSameKeys | src/meta-client/src/client.rs:686-702 | two sorted replies with the same key set have the same keys in the same positions |
| Kv.ScanUnique | src/meta-client/src/client.rs:656-702 | a range reply is determined by the store and the request |
| Kv.ScanCount | src/meta-client/src/client.rs:671-702 | a range reply has one entry per selected key |
| Kv.KeysOnlyDropsValues | src/meta-client/src/client.rs:704-719 | a keys-only range returns the same keys in the same order with empty values |
| Kv.PutReportsPrevious | src/meta-client/src/client.rs:721-752 | a put on a fresh key reports nothing; a second put asking for the previous entry gets the first value |
| Kv.RangeAfterPut | src/meta-client/src/client.rs:656-669 | after a put, a single-key range returns exactly that entry |
| Kv.Found | src/meta-client/src/client.rs:775-794 | a batch get returns only stored entries of requested keys, with their values, and every requested key that is stored |
| Kv.FoundCount | src/meta-client/src/client.rs:775-794 | for distinct keys, a batch get returns one entry per requested key that is stored |
| Kv.PutAllStores | src/meta-client/src/client.rs:754-773 | a batch put on distinct keys stores every entry and keeps every other key |
| Kv.PutAllReportsReplaced | src/meta-client/src/client.rs:796-816 | for a batch of distinct keys, the put reports as replaced exactly what a batch get of those keys would have returned before |
| Kv.DeleteAllRemoves | src/meta-client/src/client.rs:288-295 | a batch delete removes exactly the requested keys and, for distinct keys, reports what a batch get would have returned |
| Kv.RangeAfterDeleteRange | src/meta-client/src/client.rs:860-914 | after a delete-range, the same selector finds nothing and every unselected key is kept |
| Kv.PutsThenPrefixScan | src/meta-client/src/client.rs:417-426 | the tests' data set of `gen_data`, put in key order under a fresh prefix, is returned in that order by a prefix range and counted in full by a prefix delete |
| Kv.DistinctKeyCount | src/meta-client/src/client.rs:754-773 | entries with distinct keys, in any order, have as many keys as entries |
| Kv.BatchPutThenPrefixCount | src/meta-client/src/client.rs:754-773 | a batch put of distinct keys under a fresh prefix, in any order, replies with no previous entries when none are asked for, and a following prefix range returns exactly the batch's keys, one entry per batch entry |
| Kv.CompareAndPutOutcomes | src/meta-client/src/client.rs:818-858 | the four outcomes: a non-empty expectation on an absent key fails; an empty one creates; a stale one fails and reports the current entry; a matching one writes and reports the replaced entry |
| Kv.CompareAndPutRetry | src/meta-client/src/client.rs:818-858 | after a failure, retrying with the reported value succeeds and has the effect of the put |
| Kv.MoveValueOutcomes | src/meta-client/src/client.rs:916-948 | neither key held: nothing; only the destination held: the destination's entry, nothing moves; the source held: its entry is returned and its value moves to the destination |
| Kv.MoveBackRestores | src/meta-client/src/client.rs:916-948 | moving to a free key and back restores the store |
| ReferenceStore.MemStore.constructor | src/meta-client/src/client.rs:403-411 | an empty store |
| ReferenceStore.MemStore.Scan | src/meta-client/src/client.rs:656-702 | returns the sorted scan of the current content for the selector |
| ReferenceStore.MemStore.Range | src/meta-client/src/client.rs:656-719 | the reply is the sorted scan, with values dropped when only keys are asked for |
| ReferenceStore.MemStore.Put | src/meta-client/src/client.rs:721-752 | the new content and the reply are those of PutStep on the old content |
| ReferenceStore.MemStore.BatchGet | src/meta-client/src/client.rs:775-794 | the reply is Found of the content for the requested keys |
| ReferenceStore.MemStore.BatchPut | src/meta-client/src/client.rs:754-816 | the new content and the reply are those of BatchPutStep on the old content |
| ReferenceStore.MemStore.BatchDelete | src/meta-client/src/client.rs:288-295 | the new content and the reply are those of BatchDeleteStep on the old content |
| ReferenceStore.MemStore.DeleteRange | src/meta-client/src/client.rs:860-914 | removes exactly the selected keys; the reply counts them and lists them in order when asked |
| ReferenceStore.MemStore.CompareAndPut | src/meta-client/src/client.rs:818-858 | the new content and the reply are those of CasStep on the old content |
| ReferenceStore.MemStore.MoveValue | src/meta-client/src/client.rs:916-948 | the new content and the reply are those of MoveStep on the old content |

Two modelling choices that the code and tests decide:

- MoveValue: the source key wins, as the test at `src/meta-client/src/client.rs:938-947` expects. When `from_key` holds a value, that value moves to `to_key`, overwriting whatever `to_key` held, and the reply is the `from_key` entry.
- Unstarted sub-clients: the accessors at `src/meta-client/src/client.rs:337-363` refuse only absent sub-clients. A present sub-client that was never started fails inside the sub-client; the model gives that failure as `IllegalState`.

## Left out

- Asynchrony, and the `Clone` sharing of sub-clients between copies of a client: every operation is one atomic step.
- `ChannelManager`, `channel_manager`, `with_channel_manager` and `channel_config`: channel settings are opaque and do not change any outcome the client decides.
- Logging in `start`.
- The heartbeat stream's sender and receiver, and the payloads of route, lock and unlock requests and replies. Only their dispatch is modelled: resolution, the started check, delivery and conversion.
- The sub-clients' internals are not part of this model. A present sub-client that was never started fails with `IllegalState`. `Start` on a client whose sub-clients are already started starts them again and succeeds unless `failures` names one of them; a sub-client that refuses a second start is expressed through `failures`.
- The endpoint list passed to `start` is opaque. Whether starting a sub-client fails is an input.
- MetaClientModel.MetaClient.Range: the store's `limit` field, revisions and batch-size limits are not modelled.
- Kv.CasStep follows the in-memory store the tests use. An empty expectation on a present key whose stored value is empty succeeds there, while an etcd-backed store would refuse it.
- A transport failure after the remote store applied a write: a call either reaches the store and is applied, or it is stopped before the store sees it.
- `Role` has only the two values the client passes on (`Datanode`, `Frontend`); the role does not influence any outcome modelled here.
- Integer widths: ids are 64-bit unsigned values (`u64`); `deleted` is an unbounded count.
