/**
  A reference store that meets the contract of module Kv: the content is one
  map, updated in place by each request. It stands for the remote store the
  meta client talks to (the client's tests run against an in-memory store of
  this kind); it is not code of the client.
*/
module ReferenceStore {
  import opened Options
  import opened Keys
  import opened Kv

  class MemStore {
    var data: Store

    constructor()
      ensures data == map[]
    {
      data := map[];
    }

    /** The entries `sel` selects, smallest key first. */
    method Scan(sel: Selector, keysOnly: bool) returns (kvs: seq<KeyValue>)
      ensures IsScan(data, sel, keysOnly, kvs)
    {
      var pending := Matching(data, sel);
      kvs := [];
      while pending != {}
        invariant KeySet(kvs) + pending == Matching(data, sel)
        invariant SortedByKey(kvs)
        invariant forall i :: 0 <= i < |kvs| ==>
          kvs[i].key in data && kvs[i].value == Shown(data[kvs[i].key], keysOnly)
        invariant forall i, x :: 0 <= i < |kvs| && x in pending ==> Less(kvs[i].key, x)
        decreases pending
      {
        var k := MinKey(pending);
        var next := kvs + [KeyValue(k, Shown(data[k], keysOnly))];
        assert KeySet(next) == KeySet(kvs) + {k} by {
          assert forall i :: 0 <= i < |kvs| ==> next[i] == kvs[i];
          assert next[|kvs|].key == k;
        }
        kvs := next;
        pending := pending - {k};
      }
    }

    method Range(req: RangeRequest) returns (resp: RangeResponse)
      ensures IsScan(data, req.selector, req.keysOnly, resp.kvs)
    {
      var kvs := Scan(req.selector, req.keysOnly);
      resp := RangeResponse(kvs);
    }

    method Put(req: PutRequest) returns (resp: PutResponse)
      modifies this
      ensures Step(data, resp) == PutStep(old(data), req)
    {
      var prev := None;
      if req.prevKv && req.key in data {
        prev := Some(KeyValue(req.key, data[req.key]));
      }
      data := data[req.key := req.value];
      resp := PutResponse(prev);
    }

    method BatchGet(req: BatchGetRequest) returns (resp: BatchGetResponse)
      ensures resp.kvs == Found(data, req.keys)
    {
      var kvs := [];
      var i := 0;
      while i < |req.keys|
        invariant 0 <= i <= |req.keys|
        invariant kvs == Found(data, req.keys[..i])
      {
        var k := req.keys[i];
        if k in data {
          kvs := kvs + [KeyValue(k, data[k])];
        }
        i := i + 1;
        assert req.keys[..i][..i - 1] == req.keys[..i - 1];
      }
      assert req.keys[..i] == req.keys;
      resp := BatchGetResponse(kvs);
    }

    method BatchPut(req: BatchPutRequest) returns (resp: BatchPutResponse)
      modifies this
      ensures Step(data, resp) == BatchPutStep(old(data), req)
    {
      var prev := [];
      var i := 0;
      while i < |req.kvs|
        invariant 0 <= i <= |req.kvs|
        invariant Step(data, prev) == PutAll(old(data), req.kvs[..i])
      {
        var kv := req.kvs[i];
        assert req.kvs[..i + 1][..i] == req.kvs[..i] && req.kvs[..i + 1][i] == kv;
        if kv.key in data {
          prev := prev + [KeyValue(kv.key, data[kv.key])];
        } else {
          assert prev + [] == prev;
        }
        data := data[kv.key := kv.value];
        i := i + 1;
      }
      assert req.kvs[..i] == req.kvs;
      resp := BatchPutResponse(if req.prevKv then prev else []);
    }

    method BatchDelete(req: BatchDeleteRequest) returns (resp: BatchDeleteResponse)
      modifies this
      ensures Step(data, resp) == BatchDeleteStep(old(data), req)
    {
      var prev := [];
      var i := 0;
      while i < |req.keys|
        invariant 0 <= i <= |req.keys|
        invariant Step(data, prev) == DeleteAll(old(data), req.keys[..i])
      {
        var k := req.keys[i];
        assert req.keys[..i + 1][..i] == req.keys[..i] && req.keys[..i + 1][i] == k;
        if k in data {
          prev := prev + [KeyValue(k, data[k])];
        } else {
          assert prev + [] == prev;
        }
        data := data - {k};
        i := i + 1;
      }
      assert req.keys[..i] == req.keys;
      resp := BatchDeleteResponse(if req.prevKv then prev else []);
    }

    method DeleteRange(req: DeleteRangeRequest) returns (resp: DeleteRangeResponse)
      modifies this
      ensures data == DeleteRangeState(old(data), req.selector)
      ensures IsDeleteRangeReply(old(data), req, resp)
    {
      var removed := Scan(req.selector, false);
      ScanCount(data, req.selector, false, removed);
      data := DeleteRangeState(data, req.selector);
      resp := DeleteRangeResponse(|removed|, if req.prevKv then removed else []);
    }

    method CompareAndPut(req: CompareAndPutRequest) returns (resp: CompareAndPutResponse)
      modifies this
      ensures Step(data, resp) == CasStep(old(data), req)
    {
      var prev := Entry(data, req.key);
      var success := if prev.Some? then prev.value.value == req.expected else req.expected == [];
      if success {
        data := data[req.key := req.value];
      }
      resp := CompareAndPutResponse(success, prev);
    }

    method MoveValue(req: MoveValueRequest) returns (resp: MoveValueResponse)
      modifies this
      ensures Step(data, resp) == MoveStep(old(data), req)
    {
      if req.fromKey in data {
        var v := data[req.fromKey];
        data := data - {req.fromKey};
        data := data[req.toKey := v];
        resp := MoveValueResponse(Some(KeyValue(req.fromKey, v)));
      } else {
        resp := MoveValueResponse(Entry(data, req.toKey));
      }
    }
  }
}
