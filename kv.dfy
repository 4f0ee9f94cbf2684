/**
  The key-value contract the meta client relies on. `MetaClient`'s store
  operations are one-line forwards to a remote store; what that store does is
  pinned down only by the client's tests, which run against an in-memory
  store. This module states that contract as pure functions over a map from
  keys to values, one per request kind, and proves the behaviour the tests
  check. It is the client's expectation of the remote store, not code of the
  client itself.
*/
module Kv {
  import opened Options
  import opened Seqs
  import opened Keys

  type Value = seq<Byte>

  /** The remote store's whole content. */
  type Store = map<Key, Value>

  datatype KeyValue = KeyValue(key: Key, value: Value)

  /** What a range or delete-range request selects. */
  datatype Selector =
    | SingleKey(key: Key)
    | KeyRange(start: Key, end: Key)   // [start, end)
    | Prefix(prefix: Key)

  datatype RangeRequest = RangeRequest(selector: Selector, keysOnly: bool)
  datatype RangeResponse = RangeResponse(kvs: seq<KeyValue>)
  datatype PutRequest = PutRequest(key: Key, value: Value, prevKv: bool)
  datatype PutResponse = PutResponse(prevKv: Option<KeyValue>)
  datatype BatchGetRequest = BatchGetRequest(keys: seq<Key>)
  datatype BatchGetResponse = BatchGetResponse(kvs: seq<KeyValue>)
  datatype BatchPutRequest = BatchPutRequest(kvs: seq<KeyValue>, prevKv: bool)
  datatype BatchPutResponse = BatchPutResponse(prevKvs: seq<KeyValue>)
  datatype BatchDeleteRequest = BatchDeleteRequest(keys: seq<Key>, prevKv: bool)
  datatype BatchDeleteResponse = BatchDeleteResponse(prevKvs: seq<KeyValue>)
  /** An empty `expected` stands for "the key is absent", as in the wire request. */
  datatype CompareAndPutRequest = CompareAndPutRequest(key: Key, expected: Value, value: Value)
  datatype CompareAndPutResponse = CompareAndPutResponse(success: bool, prevKv: Option<KeyValue>)
  datatype DeleteRangeRequest = DeleteRangeRequest(selector: Selector, prevKv: bool)
  datatype DeleteRangeResponse = DeleteRangeResponse(deleted: nat, prevKvs: seq<KeyValue>)
  datatype MoveValueRequest = MoveValueRequest(fromKey: Key, toKey: Key)
  datatype MoveValueResponse = MoveValueResponse(kv: Option<KeyValue>)

  /** The store after an operation, and the operation's reply. */
  datatype Step<R> = Step(store: Store, reply: R)

  // ---------------------------------------------------------------------------
  // Selection and ordered scans

  predicate Matches(sel: Selector, k: Key) {
    match sel
    case SingleKey(key) => k == key
    case KeyRange(start, end) => LessEq(start, k) && Less(k, end)
    case Prefix(p) => HasPrefix(k, p)
  }

  function Matching(m: Store, sel: Selector): set<Key> {
    set k | k in m.Keys && Matches(sel, k)
  }

  function Entry(m: Store, k: Key): Option<KeyValue> {
    if k in m then Some(KeyValue(k, m[k])) else None
  }

  function KeySet(kvs: seq<KeyValue>): set<Key> {
    set i | 0 <= i < |kvs| :: kvs[i].key
  }

  predicate SortedByKey(kvs: seq<KeyValue>) {
    forall i, j :: 0 <= i < j < |kvs| ==> Less(kvs[i].key, kvs[j].key)
  }

  predicate DistinctKeys(kvs: seq<KeyValue>) {
    forall i, j :: 0 <= i < j < |kvs| ==> kvs[i].key != kvs[j].key
  }


  /** The value a range reply carries for a stored value: nothing when only keys are asked for. */
  function Shown(v: Value, keysOnly: bool): Value {
    if keysOnly then [] else v
  }

  /**
    `kvs` is the reply to a range over `sel`: every stored key that `sel`
    selects, each once, in ascending key order, with its stored value unless
    only keys were asked for.
  */
  predicate IsScan(m: Store, sel: Selector, keysOnly: bool, kvs: seq<KeyValue>) {
    && SortedByKey(kvs)
    && KeySet(kvs) == Matching(m, sel)
    && forall i :: 0 <= i < |kvs| ==> kvs[i].key in m && kvs[i].value == Shown(m[kvs[i].key], keysOnly)
  }

  lemma SortedIsDistinct(kvs: seq<KeyValue>)
    requires SortedByKey(kvs)
    ensures DistinctKeys(kvs)
  {
    forall i, j | 0 <= i < j < |kvs| ensures kvs[i].key != kvs[j].key {
      LessAsymmetric(kvs[i].key, kvs[j].key);
    }
  }

  /** Dropping the smallest entry of a sorted sequence drops exactly its key. */
  lemma KeySetTail(kvs: seq<KeyValue>)
    requires SortedByKey(kvs) && |kvs| > 0
    ensures SortedByKey(kvs[1..])
    ensures kvs[0].key !in KeySet(kvs[1..])
    ensures KeySet(kvs[1..]) == KeySet(kvs) - {kvs[0].key}
  {
    SortedIsDistinct(kvs);
    assert forall i :: 0 <= i < |kvs[1..]| ==> kvs[1..][i] == kvs[i + 1];
    assert KeySet(kvs) == {kvs[0].key} + KeySet(kvs[1..]);
  }

  lemma {:induction false} SortedKeyCount(kvs: seq<KeyValue>)
    requires SortedByKey(kvs)
    ensures |KeySet(kvs)| == |kvs|
    decreases |kvs|
  {
    if |kvs| > 0 {
      KeySetTail(kvs);
      SortedKeyCount(kvs[1..]);
    }
  }

  /** Two key-sorted sequences over the same keys list the keys in the same positions. */
  lemma {:induction false} SortedSameKeys(a: seq<KeyValue>, b: seq<KeyValue>)
    requires SortedByKey(a) && SortedByKey(b) && KeySet(a) == KeySet(b)
    ensures |a| == |b|
    ensures forall i :: 0 <= i < |a| ==> a[i].key == b[i].key
    decreases |a|
  {
    SortedKeyCount(a);
    SortedKeyCount(b);
    if |a| > 0 {
      assert a[0].key in KeySet(b);
      var j :| 0 <= j < |b| && b[j].key == a[0].key;
      assert b[0].key in KeySet(a);
      var i :| 0 <= i < |a| && a[i].key == b[0].key;
      if j > 0 {
        if i == 0 {
          LessIrreflexive(a[0].key);
        } else {
          LessAsymmetric(a[0].key, a[i].key);
        }
        assert false;
      }
      KeySetTail(a);
      KeySetTail(b);
      SortedSameKeys(a[1..], b[1..]);
      forall k | 0 <= k < |a| ensures a[k].key == b[k].key {
        if k > 0 {
          assert a[k] == a[1..][k - 1] && b[k] == b[1..][k - 1];
        }
      }
    }
  }

  /** A range reply is determined by the store and the request. */
  lemma ScanUnique(m: Store, sel: Selector, keysOnly: bool, a: seq<KeyValue>, b: seq<KeyValue>)
    requires IsScan(m, sel, keysOnly, a) && IsScan(m, sel, keysOnly, b)
    ensures a == b
  {
    SortedSameKeys(a, b);
  }

  /** A range reply has one entry per selected key. */
  lemma ScanCount(m: Store, sel: Selector, keysOnly: bool, kvs: seq<KeyValue>)
    requires IsScan(m, sel, keysOnly, kvs)
    ensures |kvs| == |Matching(m, sel)|
  {
    SortedKeyCount(kvs);
  }

  /** Asking for keys only returns the same keys, in the same order, with empty values. */
  lemma KeysOnlyDropsValues(m: Store, sel: Selector, keys: seq<KeyValue>, full: seq<KeyValue>)
    requires IsScan(m, sel, true, keys) && IsScan(m, sel, false, full)
    ensures |keys| == |full|
    ensures forall i :: 0 <= i < |keys| ==> keys[i] == KeyValue(full[i].key, [])
  {
    SortedSameKeys(keys, full);
  }

  // ---------------------------------------------------------------------------
  // Put

  function PutStep(m: Store, req: PutRequest): Step<PutResponse> {
    Step(m[req.key := req.value], PutResponse(if req.prevKv then Entry(m, req.key) else None))
  }

  /**
    A put on a fresh key reports no previous entry; a second put asking for the
    previous entry gets the key with the value the first put stored.
  */
  lemma PutReportsPrevious(m: Store, k: Key, v1: Value, v2: Value, prevKv: bool)
    requires k !in m
    ensures PutStep(m, PutRequest(k, v1, prevKv)).reply.prevKv == None
    ensures var s := PutStep(m, PutRequest(k, v1, prevKv)).store;
            PutStep(s, PutRequest(k, v2, true)).reply.prevKv == Some(KeyValue(k, v1))
  {
  }

  /** After a put, a single-key range on that key returns exactly the stored entry. */
  lemma RangeAfterPut(m: Store, req: PutRequest, kvs: seq<KeyValue>)
    ensures IsScan(PutStep(m, req).store, SingleKey(req.key), false, kvs)
            <==> kvs == [KeyValue(req.key, req.value)]
  {
    var s := PutStep(m, req).store;
    var one := [KeyValue(req.key, req.value)];
    assert KeySet(one) == {req.key} by {
      assert one[0].key == req.key;
    }
    assert Matching(s, SingleKey(req.key)) == {req.key};
    assert IsScan(s, SingleKey(req.key), false, one);
    if IsScan(s, SingleKey(req.key), false, kvs) {
      ScanUnique(s, SingleKey(req.key), false, kvs, one);
    }
  }

  // ---------------------------------------------------------------------------
  // BatchGet

  /** The entries of the requested keys that exist, in request order; absent keys are skipped. */
  function Found(m: Store, keys: seq<Key>): (r: seq<KeyValue>)
    ensures |r| <= |keys|
    ensures forall i :: 0 <= i < |r| ==> r[i].key in keys && r[i].key in m && r[i].value == m[r[i].key]
    ensures forall k :: k in keys && k in m ==> KeyValue(k, m[k]) in r
    decreases |keys|
  {
    if keys == [] then []
    else
      var init := Found(m, keys[..|keys| - 1]);
      var k := keys[|keys| - 1];
      assert keys == keys[..|keys| - 1] + [k];
      if k in m then init + [KeyValue(k, m[k])] else init
  }

  function Requested(keys: seq<Key>): set<Key> {
    set i | 0 <= i < |keys| :: keys[i]
  }

  /** Splitting off the last requested key. */
  lemma RequestedSnoc(keys: seq<Key>)
    requires |keys| > 0
    ensures var init, k := keys[..|keys| - 1], keys[|keys| - 1];
            && Requested(keys) == Requested(init) + {k}
            && (Distinct(keys) ==> Distinct(init) && k !in Requested(init))
  {
    var init, k := keys[..|keys| - 1], keys[|keys| - 1];
    assert forall i :: 0 <= i < |init| ==> init[i] == keys[i];
    assert Requested(keys) == Requested(init) + {k};
  }

  /** For distinct requested keys, the reply has one entry per requested key that exists. */
  lemma {:induction false} FoundCount(m: Store, keys: seq<Key>)
    requires Distinct(keys)
    ensures |Found(m, keys)| == |Requested(keys) * m.Keys|
    decreases |keys|
  {
    if keys != [] {
      var init := keys[..|keys| - 1];
      var k := keys[|keys| - 1];
      RequestedSnoc(keys);
      FoundCount(m, init);
      var before := Requested(init) * m.Keys;
      if k in m {
        assert Requested(keys) * m.Keys == before + {k};
        assert |Found(m, keys)| == |Found(m, init)| + 1;
      } else {
        assert Requested(keys) * m.Keys == before;
        assert Found(m, keys) == Found(m, init);
      }
    }
  }

  // ---------------------------------------------------------------------------
  // BatchPut and BatchDelete

  function KeysOf(kvs: seq<KeyValue>): (keys: seq<Key>)
    ensures |keys| == |kvs| && forall i :: 0 <= i < |kvs| ==> keys[i] == kvs[i].key
  {
    seq(|kvs|, i requires 0 <= i < |kvs| => kvs[i].key)
  }

  function OptionToSeq(o: Option<KeyValue>): seq<KeyValue> {
    if o.Some? then [o.value] else []
  }

  /** The entries put one after the other, each reporting the entry it replaced. */
  function PutAll(m: Store, kvs: seq<KeyValue>): Step<seq<KeyValue>>
    decreases |kvs|
  {
    if kvs == [] then Step(m, [])
    else
      var before := PutAll(m, kvs[..|kvs| - 1]);
      var kv := kvs[|kvs| - 1];
      var put := PutStep(before.store, PutRequest(kv.key, kv.value, true));
      Step(put.store, before.reply + OptionToSeq(put.reply.prevKv))
  }

  function BatchPutStep(m: Store, req: BatchPutRequest): Step<BatchPutResponse> {
    var all := PutAll(m, req.kvs);
    Step(all.store, BatchPutResponse(if req.prevKv then all.reply else []))
  }

  /** Splitting off the last entry. */
  lemma KeySetSnoc(kvs: seq<KeyValue>)
    requires |kvs| > 0
    ensures var init, kv := kvs[..|kvs| - 1], kvs[|kvs| - 1];
            && KeySet(kvs) == KeySet(init) + {kv.key}
            && KeysOf(init) == KeysOf(kvs)[..|kvs| - 1]
            && (DistinctKeys(kvs) ==> DistinctKeys(init) && kv.key !in KeySet(init))
  {
    var init := kvs[..|kvs| - 1];
    assert forall i :: 0 <= i < |init| ==> init[i] == kvs[i];
    assert KeySet(kvs) == KeySet(init) + {kvs[|kvs| - 1].key};
  }

  /** A batch of puts on distinct keys stores every entry and leaves every other key alone. */
  lemma {:induction false} PutAllStores(m: Store, kvs: seq<KeyValue>)
    requires DistinctKeys(kvs)
    ensures var s := PutAll(m, kvs).store;
            && (forall k :: k in s <==> k in m || k in KeySet(kvs))
            && (forall i :: 0 <= i < |kvs| ==> s[kvs[i].key] == kvs[i].value)
            && (forall k :: k in m && k !in KeySet(kvs) ==> s[k] == m[k])
    decreases |kvs|
  {
    if kvs != [] {
      var init := kvs[..|kvs| - 1];
      KeySetSnoc(kvs);
      PutAllStores(m, init);
      var s := PutAll(m, kvs).store;
      var kv := kvs[|kvs| - 1];
      assert s == PutAll(m, init).store[kv.key := kv.value];
      forall i | 0 <= i < |kvs| ensures s[kvs[i].key] == kvs[i].value {
        if i < |init| {
          assert kvs[i] == init[i];
        }
      }
    }
  }

  /**
    A batch of puts on distinct keys reports as replaced exactly what a batch
    get of those keys would have returned before the write.
  */
  lemma {:induction false} PutAllReportsReplaced(m: Store, kvs: seq<KeyValue>)
    requires DistinctKeys(kvs)
    ensures PutAll(m, kvs).reply == Found(m, KeysOf(kvs))
    decreases |kvs|
  {
    if kvs != [] {
      var init := kvs[..|kvs| - 1];
      var kv := kvs[|kvs| - 1];
      KeySetSnoc(kvs);
      PutAllReportsReplaced(m, init);
      PutAllStores(m, init);
      var s := PutAll(m, init).store;
      assert kv.key in s <==> kv.key in m;
      assert kv.key in m ==> s[kv.key] == m[kv.key];
      assert Entry(s, kv.key) == Entry(m, kv.key);
    }
  }

  /** The keys deleted one after the other, each reporting the entry it removed. */
  function DeleteAll(m: Store, keys: seq<Key>): Step<seq<KeyValue>>
    decreases |keys|
  {
    if keys == [] then Step(m, [])
    else
      var before := DeleteAll(m, keys[..|keys| - 1]);
      var k := keys[|keys| - 1];
      Step(before.store - {k}, before.reply + OptionToSeq(Entry(before.store, k)))
  }

  function BatchDeleteStep(m: Store, req: BatchDeleteRequest): Step<BatchDeleteResponse> {
    var all := DeleteAll(m, req.keys);
    Step(all.store, BatchDeleteResponse(if req.prevKv then all.reply else []))
  }

  /**
    A batch delete removes exactly the requested keys and, for distinct keys,
    reports as removed what a batch get of those keys would have returned.
  */
  lemma {:induction false} DeleteAllRemoves(m: Store, keys: seq<Key>)
    ensures DeleteAll(m, keys).store == m - Requested(keys)
    ensures Distinct(keys) ==> DeleteAll(m, keys).reply == Found(m, keys)
    decreases |keys|
  {
    if keys != [] {
      var init := keys[..|keys| - 1];
      var k := keys[|keys| - 1];
      DeleteAllRemoves(m, init);
      assert Requested(keys) == Requested(init) + {k};
      if Distinct(keys) {
        assert k !in Requested(init);
      }
    }
  }

  // ---------------------------------------------------------------------------
  // DeleteRange

  function DeleteRangeState(m: Store, sel: Selector): Store {
    map k | k in m.Keys && !Matches(sel, k) :: m[k]
  }

  /**
    `resp` answers a delete-range over `m`: it counts the selected keys and,
    when asked, lists their entries in ascending key order.
  */
  predicate IsDeleteRangeReply(m: Store, req: DeleteRangeRequest, resp: DeleteRangeResponse) {
    && resp.deleted == |Matching(m, req.selector)|
    && (if req.prevKv then IsScan(m, req.selector, false, resp.prevKvs) else resp.prevKvs == [])
  }

  /** After a delete-range, ranging over the same selector finds nothing; every other key is kept. */
  lemma RangeAfterDeleteRange(m: Store, sel: Selector, keysOnly: bool, kvs: seq<KeyValue>)
    ensures IsScan(DeleteRangeState(m, sel), sel, keysOnly, kvs) <==> kvs == []
    ensures forall k :: k in m && !Matches(sel, k) ==> k in DeleteRangeState(m, sel)
  {
    var s := DeleteRangeState(m, sel);
    assert Matching(s, sel) == {};
    assert kvs != [] ==> kvs[0].key in KeySet(kvs);
  }

  /**
    The client tests' data set: entries with distinct keys under a common
    prefix, put one by one in ascending key order into a store holding nothing
    under that prefix. A prefix range then returns exactly those entries in
    that order, and a prefix delete-range counts all of them.
  */
  lemma PutsThenPrefixScan(m: Store, p: Key, kvs: seq<KeyValue>)
    requires SortedByKey(kvs)
    requires forall i :: 0 <= i < |kvs| ==> HasPrefix(kvs[i].key, p)
    requires forall k :: k in m ==> !HasPrefix(k, p)
    ensures IsScan(PutAll(m, kvs).store, Prefix(p), false, kvs)
    ensures |Matching(PutAll(m, kvs).store, Prefix(p))| == |kvs|
  {
    SortedIsDistinct(kvs);
    PutAllStores(m, kvs);
    var s := PutAll(m, kvs).store;
    assert Matching(s, Prefix(p)) == KeySet(kvs);
    ScanCount(s, Prefix(p), false, kvs);
  }

  /** Entries with distinct keys have as many keys as entries. */
  lemma {:induction false} DistinctKeyCount(kvs: seq<KeyValue>)
    requires DistinctKeys(kvs)
    ensures |KeySet(kvs)| == |kvs|
    decreases |kvs|
  {
    if kvs != [] {
      var init := kvs[..|kvs| - 1];
      KeySetSnoc(kvs);
      DistinctKeyCount(init);
    }
  }

  /**
    The batch-put test: a batch of entries with distinct keys, in any order,
    under a prefix that holds nothing yet. Without previous entries asked for,
    the reply is empty; afterwards a prefix range returns one entry per batch
    entry, with exactly the batch's keys.
  */
  lemma BatchPutThenPrefixCount(m: Store, p: Key, req: BatchPutRequest, reply: seq<KeyValue>)
    requires DistinctKeys(req.kvs)
    requires forall i :: 0 <= i < |req.kvs| ==> HasPrefix(req.kvs[i].key, p)
    requires forall k :: k in m ==> !HasPrefix(k, p)
    requires IsScan(BatchPutStep(m, req).store, Prefix(p), false, reply)
    ensures !req.prevKv ==> BatchPutStep(m, req).reply.prevKvs == []
    ensures KeySet(reply) == KeySet(req.kvs)
    ensures |reply| == |req.kvs|
  {
    PutAllStores(m, req.kvs);
    var s := BatchPutStep(m, req).store;
    assert Matching(s, Prefix(p)) == KeySet(req.kvs);
    ScanCount(s, Prefix(p), false, reply);
    DistinctKeyCount(req.kvs);
  }

  // ---------------------------------------------------------------------------
  // CompareAndPut

  function CasStep(m: Store, req: CompareAndPutRequest): Step<CompareAndPutResponse> {
    var success := if req.key in m then m[req.key] == req.expected else req.expected == [];
    Step(if success then m[req.key := req.value] else m,
         CompareAndPutResponse(success, Entry(m, req.key)))
  }

  /**
    The four outcomes the client tests check: expecting a value on an absent
    key fails with no entry; an empty expectation on an absent key creates it;
    a stale expectation fails, reports the current entry and changes nothing;
    a matching expectation writes and reports the replaced entry.
  */
  lemma CompareAndPutOutcomes(m: Store, req: CompareAndPutRequest)
    ensures req.key !in m && req.expected != [] ==>
      CasStep(m, req) == Step(m, CompareAndPutResponse(false, None))
    ensures req.key !in m && req.expected == [] ==>
      CasStep(m, req) == Step(m[req.key := req.value], CompareAndPutResponse(true, None))
    ensures req.key in m && m[req.key] != req.expected ==>
      CasStep(m, req) == Step(m, CompareAndPutResponse(false, Some(KeyValue(req.key, m[req.key]))))
    ensures req.key in m && m[req.key] == req.expected ==>
      CasStep(m, req) == Step(m[req.key := req.value], CompareAndPutResponse(true, Some(KeyValue(req.key, m[req.key]))))
  {
  }

  /**
    A failed compare-and-put hands back what the caller needs to retry: asking
    again with the reported entry's value (or with the absence it reports)
    succeeds and performs the put.
  */
  lemma CompareAndPutRetry(m: Store, req: CompareAndPutRequest)
    requires !CasStep(m, req).reply.success
    ensures var first := CasStep(m, req);
            var current := if first.reply.prevKv.Some? then first.reply.prevKv.value.value else [];
            var second := CasStep(first.store, req.(expected := current));
            && second.reply.success
            && second.store == PutStep(m, PutRequest(req.key, req.value, false)).store
  {
  }

  // ---------------------------------------------------------------------------
  // MoveValue

  /**
    Moving takes the value from `fromKey` when it has one: `fromKey` is cleared,
    `toKey` gets the value, and the reply is the entry keyed `fromKey`.
    Otherwise nothing changes and the reply is `toKey`'s entry, if any.
  */
  function MoveStep(m: Store, req: MoveValueRequest): Step<MoveValueResponse> {
    if req.fromKey in m then
      var v := m[req.fromKey];
      Step((m - {req.fromKey})[req.toKey := v], MoveValueResponse(Some(KeyValue(req.fromKey, v))))
    else
      Step(m, MoveValueResponse(Entry(m, req.toKey)))
  }

  /** The three outcomes the client tests check, in the order they check them. */
  lemma MoveValueOutcomes(m: Store, req: MoveValueRequest)
    ensures req.fromKey !in m && req.toKey !in m ==> MoveStep(m, req) == Step(m, MoveValueResponse(None))
    ensures req.fromKey !in m && req.toKey in m ==>
      MoveStep(m, req) == Step(m, MoveValueResponse(Some(KeyValue(req.toKey, m[req.toKey]))))
    ensures req.fromKey in m ==>
      var s := MoveStep(m, req).store;
      && MoveStep(m, req).reply.kv == Some(KeyValue(req.fromKey, m[req.fromKey]))
      && req.toKey in s && s[req.toKey] == m[req.fromKey]
      && (req.fromKey != req.toKey ==> req.fromKey !in s)
  {
  }

  /** Moving a value to a free key and back restores the store. */
  lemma MoveBackRestores(m: Store, a: Key, b: Key)
    requires a in m && b !in m
    ensures var there := MoveStep(m, MoveValueRequest(a, b));
            var back := MoveStep(there.store, MoveValueRequest(b, a));
            back.store == m && back.reply.kv == Some(KeyValue(b, m[a]))
  {
    var there := MoveStep(m, MoveValueRequest(a, b)).store;
    var back := MoveStep(there, MoveValueRequest(b, a)).store;
    assert a != b;
    assert b in there && there[b] == m[a];
    assert back.Keys == m.Keys;
    assert forall k :: k in m ==> back[k] == m[k];
  }
}
