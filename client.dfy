/**
  The composite meta client. A builder collects an identity, a role and which
  of the four protocols (heartbeat, router, store, lock) to activate; `Build`
  gives a client holding a sub-client slot per protocol, present exactly for
  the activated ones. `Start` starts the present sub-clients in a fixed order,
  and every operation first resolves its sub-client through an accessor that
  refuses an absent one with `NotStarted`.

  The sub-clients themselves, the network and the wire conversions are not
  part of this model: what they do to a call is given to it as a `Wire`, and
  which sub-clients fail to start is given as a map of errors.
*/
module MetaClientModel {
  import opened Options
  import Seqs
  import Kv
  import ReferenceStore

  newtype u64 = x: int | 0 <= x < 0x1_0000_0000_0000_0000

  /** (cluster_id, member_id) */
  type Id = (u64, u64)

  datatype Role = Datanode | Frontend

  datatype Protocol = Heartbeat | Router | Store | Lock

  /** A protocol's sub-client: absent, or present and started or not yet. */
  datatype Slot = Disabled | Enabled(started: bool)

  datatype Error =
    | NotStarted(name: string)
    | ConvertRequest
    | ConvertResponse
    | Transport
    | IllegalState

  datatype Result<T> = Ok(value: T) | Err(error: Error)

  /** The handle an accessor hands out: a copy of the present sub-client. */
  datatype SubClient = SubClient(protocol: Protocol, started: bool)

  /** What the network and the response conversion do to one call. */
  datatype Wire = Wire(delivered: bool, responseConverts: bool)

  /**
    The name an accessor reports in its NotStarted error. The router's
    accessor reports "store_client", as the source has it.
  */
  function AccessorName(p: Protocol): string {
    match p
    case Heartbeat => "heartbeat_client"
    case Router => "store_client"
    case Store => "store_client"
    case Lock => "lock_client"
  }

  /** One slot per protocol. */
  datatype Slots = Slots(heartbeat: Slot, router: Slot, store: Slot, lock: Slot) {
    function Get(p: Protocol): Slot {
      match p
      case Heartbeat => heartbeat
      case Router => router
      case Store => store
      case Lock => lock
    }

    function Set(p: Protocol, s: Slot): (r: Slots)
      ensures r.Get(p) == s
      ensures forall q :: q != p ==> r.Get(q) == Get(q)
    {
      match p
      case Heartbeat => this.(heartbeat := s)
      case Router => this.(router := s)
      case Store => this.(store := s)
      case Lock => this.(lock := s)
    }
  }

  // ---------------------------------------------------------------------------
  // Accessors and the path of one call

  /** An accessor: the sub-client of `p` if present, NotStarted otherwise. */
  function Resolve(p: Protocol, slot: Slot): Result<SubClient> {
    if slot.Disabled? then Err(NotStarted(AccessorName(p))) else Ok(SubClient(p, slot.started))
  }

  /**
    The error that stops a call before it reaches the remote service, if any:
    the accessor's error, a sub-client that was never started, or a call the
    network did not deliver.
  */
  function Reach(c: Result<SubClient>, wire: Wire): (stop: Option<Error>)
    ensures c.Err? ==> stop == Some(c.error)
    ensures stop.None? <==> c.Ok? && c.value.started && wire.delivered
  {
    if c.Err? then Some(c.error)
    else if !c.value.started then Some(IllegalState)
    else if !wire.delivered then Some(Transport)
    else None
  }

  /** The reply of a call that reached the service, after converting it back. */
  function Converted<T>(reply: T, wire: Wire): Result<T> {
    if wire.responseConverts then Ok(reply) else Err(ConvertResponse)
  }

  // ---------------------------------------------------------------------------
  // Start

  /** The order in which `start` starts the sub-clients. */
  const StartOrder: seq<Protocol> := [Heartbeat, Router, Store, Lock]

  function Started(s: Slot): Slot {
    if s.Enabled? then Enabled(true) else s
  }

  /** The sub-client of `p` is present and its start fails. */
  predicate Fails(s: Slots, p: Protocol, failures: map<Protocol, Error>) {
    s.Get(p).Enabled? && p in failures
  }

  datatype StartResult = StartResult(slots: Slots, outcome: Result<()>)

  /**
    Starting the sub-clients of `order` one after the other: an absent one is
    skipped, a failing one ends the run with its error.
  */
  function StartFrom(s: Slots, order: seq<Protocol>, failures: map<Protocol, Error>): StartResult
    decreases |order|
  {
    if order == [] then StartResult(s, Ok(()))
    else
      var p := order[0];
      if s.Get(p).Disabled? then StartFrom(s, order[1..], failures)
      else if p in failures then StartResult(s, Err(failures[p]))
      else StartFrom(s.Set(p, Enabled(true)), order[1..], failures)
  }

  /** The position in `order` of the first present sub-client that fails to start, or |order|. */
  function FirstFailure(s: Slots, order: seq<Protocol>, failures: map<Protocol, Error>): (f: nat)
    ensures f <= |order|
    ensures forall i :: 0 <= i < f ==> !Fails(s, order[i], failures)
    ensures f < |order| ==> Fails(s, order[f], failures)
    decreases |order|
  {
    if order == [] then 0
    else if Fails(s, order[0], failures) then 0
    else 1 + FirstFailure(s, order[1..], failures)
  }

  lemma {:induction false} FirstFailureFrame(s: Slots, t: Slots, order: seq<Protocol>, failures: map<Protocol, Error>)
    requires forall i :: 0 <= i < |order| ==> s.Get(order[i]) == t.Get(order[i])
    ensures FirstFailure(s, order, failures) == FirstFailure(t, order, failures)
    decreases |order|
  {
    if order != [] {
      FirstFailureFrame(s, t, order[1..], failures);
    }
  }

  /** Starting never touches a protocol outside `order`. */
  lemma {:induction false} StartFromFrame(s: Slots, order: seq<Protocol>, failures: map<Protocol, Error>, p: Protocol)
    requires p !in order
    ensures StartFrom(s, order, failures).slots.Get(p) == s.Get(p)
    decreases |order|
  {
    if order != [] {
      var q := order[0];
      assert p != q;
      if s.Get(q).Enabled? && q !in failures {
        StartFromFrame(s.Set(q, Enabled(true)), order[1..], failures, p);
      } else if s.Get(q).Disabled? {
        StartFromFrame(s, order[1..], failures, p);
      }
    }
  }

  /**
    What a start run does: it fails exactly when some present sub-client
    fails, and then with the first such one's error; every sub-client before
    that one is started if present, and it and every later one are left as
    they were. Absent sub-clients stay absent.
  */
  lemma {:induction false} StartFromSpec(s: Slots, order: seq<Protocol>, failures: map<Protocol, Error>)
    requires Seqs.Distinct(order)
    ensures var r := StartFrom(s, order, failures);
            var f := FirstFailure(s, order, failures);
            && r.outcome == (if f < |order| then Err(failures[order[f]]) else Ok(()))
            && (forall i :: 0 <= i < f ==> r.slots.Get(order[i]) == Started(s.Get(order[i])))
            && (forall i :: f <= i < |order| ==> r.slots.Get(order[i]) == s.Get(order[i]))
    decreases |order|
  {
    if order != [] {
      var p := order[0];
      var rest := order[1..];
      assert Seqs.Distinct(rest);
      assert p !in rest;
      assert forall i :: 1 <= i < |order| ==> order[i] == rest[i - 1];
      if s.Get(p).Disabled? {
        StartFromSpec(s, rest, failures);
        StartFromFrame(s, rest, failures, p);
      } else if p !in failures {
        var t := s.Set(p, Enabled(true));
        assert forall i :: 0 <= i < |rest| ==> s.Get(rest[i]) == t.Get(rest[i]);
        FirstFailureFrame(s, t, rest, failures);
        StartFromSpec(t, rest, failures);
        StartFromFrame(t, rest, failures, p);
      }
    }
  }

  /**
    When only absent sub-clients would fail, start succeeds and leaves every
    present sub-client started.
  */
  lemma StartWithoutFailures(s: Slots, failures: map<Protocol, Error>)
    requires forall p :: p in failures ==> s.Get(p).Disabled?
    ensures StartFrom(s, StartOrder, failures) ==
            StartResult(Slots(Started(s.heartbeat), Started(s.router), Started(s.store), Started(s.lock)), Ok(()))
  {
    StartFromSpec(s, StartOrder, failures);
    var r := StartFrom(s, StartOrder, failures).slots;
    assert r.Get(StartOrder[0]) == Started(s.heartbeat);
    assert r.Get(StartOrder[1]) == Started(s.router);
    assert r.Get(StartOrder[2]) == Started(s.store);
    assert r.Get(StartOrder[3]) == Started(s.lock);
  }

  /** A protocol is present after a start run exactly when it was present before. */
  lemma StartKeepsActivation(s: Slots, failures: map<Protocol, Error>, p: Protocol)
    ensures StartFrom(s, StartOrder, failures).slots.Get(p).Enabled? <==> s.Get(p).Enabled?
  {
    StartFromSpec(s, StartOrder, failures);
    assert p == StartOrder[0] || p == StartOrder[1] || p == StartOrder[2] || p == StartOrder[3];
  }

  // ---------------------------------------------------------------------------
  // Builder

  datatype MetaClientBuilder = MetaClientBuilder(
    id: Id,
    role: Role,
    enableHeartbeat: bool,
    enableRouter: bool,
    enableStore: bool,
    enableLock: bool)
  {
    /** A builder for the identity and role, with nothing activated. */
    static function New(clusterId: u64, memberId: u64, role: Role): (b: MetaClientBuilder)
      ensures b.id == (clusterId, memberId) && b.role == role
      ensures b.Activated() == {}
    {
      MetaClientBuilder((clusterId, memberId), role, false, false, false, false)
    }

    function Enables(p: Protocol): bool {
      match p
      case Heartbeat => enableHeartbeat
      case Router => enableRouter
      case Store => enableStore
      case Lock => enableLock
    }

    /** The activation set. */
    function Activated(): set<Protocol> {
      set p | p in {Heartbeat, Router, Store, Lock} && Enables(p)
    }

    /** The slots a built client starts with: a not-yet-started sub-client per activated protocol. */
    function Activation(): (s: Slots)
      ensures forall p :: s.Get(p) == (if p in Activated() then Enabled(false) else Disabled)
    {
      Slots(
        if enableHeartbeat then Enabled(false) else Disabled,
        if enableRouter then Enabled(false) else Disabled,
        if enableStore then Enabled(false) else Disabled,
        if enableLock then Enabled(false) else Disabled)
    }

    function EnableHeartbeat(): (b: MetaClientBuilder)
      ensures b.Activated() == Activated() + {Heartbeat}
      ensures b.id == id && b.role == role
    {
      this.(enableHeartbeat := true)
    }

    function EnableRouter(): (b: MetaClientBuilder)
      ensures b.Activated() == Activated() + {Router}
      ensures b.id == id && b.role == role
    {
      this.(enableRouter := true)
    }

    function EnableStore(): (b: MetaClientBuilder)
      ensures b.Activated() == Activated() + {Store}
      ensures b.id == id && b.role == role
    {
      this.(enableStore := true)
    }

    function EnableLock(): (b: MetaClientBuilder)
      ensures b.Activated() == Activated() + {Lock}
      ensures b.id == id && b.role == role
    {
      this.(enableLock := true)
    }

    /**
      The client for this builder, or null where the source aborts: when no
      protocol is activated.
    */
    method Build() returns (c: MetaClient?)
      ensures c == null <==> Activated() == {}
      ensures c != null ==> fresh(c) && c.Id() == id && c.CurrentSlots() == Activation()
    {
      if !(enableHeartbeat || enableRouter || enableStore || enableLock) {
        assert Activated() == {} by {
          forall p ensures !Enables(p) {
          }
        }
        return null;
      }
      assert Activated() != {} by {
        if enableHeartbeat { assert Heartbeat in Activated(); }
        else if enableRouter { assert Router in Activated(); }
        else if enableStore { assert Store in Activated(); }
        else { assert Lock in Activated(); }
      }
      c := new MetaClient(id);
      if enableHeartbeat {
        c.heartbeat := Enabled(false);
      }
      if enableRouter {
        c.router := Enabled(false);
      }
      if enableStore {
        c.store := Enabled(false);
      }
      if enableLock {
        c.lock := Enabled(false);
      }
    }
  }

  /**
    For every non-empty activation, once start has succeeded: a call for a
    protocol outside the activation is refused with NotStarted before any
    network access, and a call for one inside it reaches the remote service
    whenever the network delivers it.
  */
  lemma ActivationGatesCalls(b: MetaClientBuilder, failures: map<Protocol, Error>, p: Protocol, wire: Wire)
    requires b.Activated() != {}
    requires StartFrom(b.Activation(), StartOrder, failures).outcome.Ok?
    ensures var s := StartFrom(b.Activation(), StartOrder, failures).slots;
            && (p !in b.Activated() ==> Reach(Resolve(p, s.Get(p)), wire) == Some(NotStarted(AccessorName(p))))
            && (p in b.Activated() ==> (Reach(Resolve(p, s.Get(p)), wire).None? <==> wire.delivered))
  {
    StartFromSpec(b.Activation(), StartOrder, failures);
    assert p == StartOrder[0] || p == StartOrder[1] || p == StartOrder[2] || p == StartOrder[3];
  }

  // ---------------------------------------------------------------------------
  // The client

  class MetaClient {
    const id: Id
    var heartbeat: Slot
    var router: Slot
    var store: Slot
    var lock: Slot

    /** A client for `id` with no sub-client present. */
    constructor(id: Id)
      ensures this.id == id
      ensures CurrentSlots() == Slots(Disabled, Disabled, Disabled, Disabled)
    {
      this.id := id;
      heartbeat, router, store, lock := Disabled, Disabled, Disabled, Disabled;
    }

    function Id(): Id {
      id
    }

    function CurrentSlots(): Slots
      reads this
    {
      Slots(heartbeat, router, store, lock)
    }

    /**
      Starts the present sub-clients in the order heartbeat, router, store,
      lock, stopping at the first one that fails. `urls` is handed to every
      sub-client unchanged; which of them fail is given by `failures`.
    */
    method Start(urls: seq<string>, failures: map<Protocol, Error>) returns (r: Result<()>)
      modifies this
      ensures StartResult(CurrentSlots(), r) == StartFrom(old(CurrentSlots()), StartOrder, failures)
    {
      ghost var s0 := CurrentSlots();
      assert StartOrder[1..] == [Router, Store, Lock];
      assert StartOrder[1..][1..] == [Store, Lock];
      assert StartOrder[1..][1..][1..] == [Lock];
      if heartbeat.Enabled? {
        if Heartbeat in failures {
          return Err(failures[Heartbeat]);
        }
        heartbeat := Enabled(true);
      }
      ghost var s1 := CurrentSlots();
      assert StartFrom(s0, StartOrder, failures) == StartFrom(s1, [Router, Store, Lock], failures);
      if router.Enabled? {
        if Router in failures {
          return Err(failures[Router]);
        }
        router := Enabled(true);
      }
      ghost var s2 := CurrentSlots();
      assert StartFrom(s1, [Router, Store, Lock], failures) == StartFrom(s2, [Store, Lock], failures);
      if store.Enabled? {
        if Store in failures {
          return Err(failures[Store]);
        }
        store := Enabled(true);
      }
      ghost var s3 := CurrentSlots();
      assert StartFrom(s2, [Store, Lock], failures) == StartFrom(s3, [Lock], failures);
      if lock.Enabled? {
        if Lock in failures {
          return Err(failures[Lock]);
        }
        lock := Enabled(true);
      }
      assert StartFrom(s3, [Lock], failures) == StartFrom(CurrentSlots(), [], failures);
      return Ok(());
    }

    // -------------------------------------------------------------------------
    // Accessors

    function HeartbeatClient(): (r: Result<SubClient>)
      reads this
      ensures r.Err? <==> heartbeat.Disabled?
      ensures r.Err? ==> r.error == NotStarted("heartbeat_client")
      ensures r.Ok? ==> r.value == SubClient(Heartbeat, heartbeat.started)
    {
      Resolve(Heartbeat, heartbeat)
    }

    function RouterClient(): (r: Result<SubClient>)
      reads this
      ensures r.Err? <==> router.Disabled?
      ensures r.Err? ==> r.error == NotStarted("store_client")
      ensures r.Ok? ==> r.value == SubClient(Router, router.started)
    {
      Resolve(Router, router)
    }

    function StoreClient(): (r: Result<SubClient>)
      reads this
      ensures r.Err? <==> store.Disabled?
      ensures r.Err? ==> r.error == NotStarted("store_client")
      ensures r.Ok? ==> r.value == SubClient(Store, store.started)
    {
      Resolve(Store, store)
    }

    function LockClient(): (r: Result<SubClient>)
      reads this
      ensures r.Err? <==> lock.Disabled?
      ensures r.Err? ==> r.error == NotStarted("lock_client")
      ensures r.Ok? ==> r.value == SubClient(Lock, lock.started)
    {
      Resolve(Lock, lock)
    }

    // -------------------------------------------------------------------------
    // Heartbeat, router and lock calls: only their dispatch is modelled

    method AskLeader(wire: Wire) returns (r: Result<()>)
      ensures heartbeat.Disabled? ==> r == Err(NotStarted("heartbeat_client"))
      ensures Reach(HeartbeatClient(), wire).Some? ==> r == Err(Reach(HeartbeatClient(), wire).value)
      ensures r.Ok? <==> heartbeat == Enabled(true) && wire.delivered
    {
      var stop := Reach(HeartbeatClient(), wire);
      if stop.Some? {
        return Err(stop.value);
      }
      return Ok(());
    }

    /** Opens the heartbeat stream; the stream itself is not modelled. */
    method HeartbeatStream(wire: Wire) returns (r: Result<()>)
      ensures heartbeat.Disabled? ==> r == Err(NotStarted("heartbeat_client"))
      ensures Reach(HeartbeatClient(), wire).Some? ==> r == Err(Reach(HeartbeatClient(), wire).value)
      ensures r.Ok? <==> heartbeat == Enabled(true) && wire.delivered
    {
      var stop := Reach(HeartbeatClient(), wire);
      if stop.Some? {
        return Err(stop.value);
      }
      return Ok(());
    }

    /**
      Converts the request before resolving the router, so a request that
      does not convert is reported ahead of an absent router.
    */
    method CreateRoute(requestConverts: bool, wire: Wire) returns (r: Result<()>)
      ensures !requestConverts ==> r == Err(ConvertRequest)
      ensures requestConverts && router.Disabled? ==> r == Err(NotStarted("store_client"))
      ensures requestConverts && Reach(RouterClient(), wire).Some? ==> r == Err(Reach(RouterClient(), wire).value)
      ensures requestConverts && Reach(RouterClient(), wire).None? && !wire.responseConverts ==> r == Err(ConvertResponse)
      ensures r.Ok? <==> requestConverts && router == Enabled(true) && wire.delivered && wire.responseConverts
    {
      if !requestConverts {
        return Err(ConvertRequest);
      }
      var stop := Reach(RouterClient(), wire);
      if stop.Some? {
        return Err(stop.value);
      }
      r := Converted((), wire);
    }

    method Route(wire: Wire) returns (r: Result<()>)
      ensures router.Disabled? ==> r == Err(NotStarted("store_client"))
      ensures Reach(RouterClient(), wire).Some? ==> r == Err(Reach(RouterClient(), wire).value)
      ensures Reach(RouterClient(), wire).None? && !wire.responseConverts ==> r == Err(ConvertResponse)
      ensures r.Ok? <==> router == Enabled(true) && wire.delivered && wire.responseConverts
    {
      var stop := Reach(RouterClient(), wire);
      if stop.Some? {
        return Err(stop.value);
      }
      r := Converted((), wire);
    }

    method DeleteRoute(wire: Wire) returns (r: Result<()>)
      ensures router.Disabled? ==> r == Err(NotStarted("store_client"))
      ensures Reach(RouterClient(), wire).Some? ==> r == Err(Reach(RouterClient(), wire).value)
      ensures Reach(RouterClient(), wire).None? && !wire.responseConverts ==> r == Err(ConvertResponse)
      ensures r.Ok? <==> router == Enabled(true) && wire.delivered && wire.responseConverts
    {
      var stop := Reach(RouterClient(), wire);
      if stop.Some? {
        return Err(stop.value);
      }
      r := Converted((), wire);
    }

    method LockCall(wire: Wire) returns (r: Result<()>)
      ensures lock.Disabled? ==> r == Err(NotStarted("lock_client"))
      ensures Reach(LockClient(), wire).Some? ==> r == Err(Reach(LockClient(), wire).value)
      ensures r.Ok? <==> lock == Enabled(true) && wire.delivered
    {
      var stop := Reach(LockClient(), wire);
      if stop.Some? {
        return Err(stop.value);
      }
      return Ok(());
    }

    method Unlock(wire: Wire) returns (r: Result<()>)
      ensures lock.Disabled? ==> r == Err(NotStarted("lock_client"))
      ensures Reach(LockClient(), wire).Some? ==> r == Err(Reach(LockClient(), wire).value)
      ensures r.Ok? <==> lock == Enabled(true) && wire.delivered
    {
      var stop := Reach(LockClient(), wire);
      if stop.Some? {
        return Err(stop.value);
      }
      return Ok(());
    }

    // -------------------------------------------------------------------------
    // Store calls: forwarded to the remote store `kv`

    method Range(kv: ReferenceStore.MemStore, req: Kv.RangeRequest, wire: Wire) returns (r: Result<Kv.RangeResponse>)
      ensures Reach(StoreClient(), wire).Some? ==> r == Err(Reach(StoreClient(), wire).value)
      ensures Reach(StoreClient(), wire).None? ==> (r.Ok? <==> wire.responseConverts)
      ensures Reach(StoreClient(), wire).None? && !wire.responseConverts ==> r == Err(ConvertResponse)
      ensures r.Ok? ==> Kv.IsScan(kv.data, req.selector, req.keysOnly, r.value.kvs)
    {
      var stop := Reach(StoreClient(), wire);
      if stop.Some? {
        return Err(stop.value);
      }
      var resp := kv.Range(req);
      r := Converted(resp, wire);
    }

    method Put(kv: ReferenceStore.MemStore, req: Kv.PutRequest, wire: Wire) returns (r: Result<Kv.PutResponse>)
      modifies kv
      ensures Reach(StoreClient(), wire).Some? ==>
        r == Err(Reach(StoreClient(), wire).value) && kv.data == old(kv.data)
      ensures Reach(StoreClient(), wire).None? ==>
        var step := Kv.PutStep(old(kv.data), req);
        kv.data == step.store && r == Converted(step.reply, wire)
    {
      var stop := Reach(StoreClient(), wire);
      if stop.Some? {
        return Err(stop.value);
      }
      var resp := kv.Put(req);
      r := Converted(resp, wire);
    }

    method BatchGet(kv: ReferenceStore.MemStore, req: Kv.BatchGetRequest, wire: Wire) returns (r: Result<Kv.BatchGetResponse>)
      ensures Reach(StoreClient(), wire).Some? ==> r == Err(Reach(StoreClient(), wire).value)
      ensures Reach(StoreClient(), wire).None? ==>
        r == Converted(Kv.BatchGetResponse(Kv.Found(kv.data, req.keys)), wire)
    {
      var stop := Reach(StoreClient(), wire);
      if stop.Some? {
        return Err(stop.value);
      }
      var resp := kv.BatchGet(req);
      r := Converted(resp, wire);
    }

    method BatchPut(kv: ReferenceStore.MemStore, req: Kv.BatchPutRequest, wire: Wire) returns (r: Result<Kv.BatchPutResponse>)
      modifies kv
      ensures Reach(StoreClient(), wire).Some? ==>
        r == Err(Reach(StoreClient(), wire).value) && kv.data == old(kv.data)
      ensures Reach(StoreClient(), wire).None? ==>
        var step := Kv.BatchPutStep(old(kv.data), req);
        kv.data == step.store && r == Converted(step.reply, wire)
    {
      var stop := Reach(StoreClient(), wire);
      if stop.Some? {
        return Err(stop.value);
      }
      var resp := kv.BatchPut(req);
      r := Converted(resp, wire);
    }

    method BatchDelete(kv: ReferenceStore.MemStore, req: Kv.BatchDeleteRequest, wire: Wire) returns (r: Result<Kv.BatchDeleteResponse>)
      modifies kv
      ensures Reach(StoreClient(), wire).Some? ==>
        r == Err(Reach(StoreClient(), wire).value) && kv.data == old(kv.data)
      ensures Reach(StoreClient(), wire).None? ==>
        var step := Kv.BatchDeleteStep(old(kv.data), req);
        kv.data == step.store && r == Converted(step.reply, wire)
    {
      var stop := Reach(StoreClient(), wire);
      if stop.Some? {
        return Err(stop.value);
      }
      var resp := kv.BatchDelete(req);
      r := Converted(resp, wire);
    }

    method CompareAndPut(kv: ReferenceStore.MemStore, req: Kv.CompareAndPutRequest, wire: Wire) returns (r: Result<Kv.CompareAndPutResponse>)
      modifies kv
      ensures Reach(StoreClient(), wire).Some? ==>
        r == Err(Reach(StoreClient(), wire).value) && kv.data == old(kv.data)
      ensures Reach(StoreClient(), wire).None? ==>
        var step := Kv.CasStep(old(kv.data), req);
        kv.data == step.store && r == Converted(step.reply, wire)
    {
      var stop := Reach(StoreClient(), wire);
      if stop.Some? {
        return Err(stop.value);
      }
      var resp := kv.CompareAndPut(req);
      r := Converted(resp, wire);
    }

    method DeleteRange(kv: ReferenceStore.MemStore, req: Kv.DeleteRangeRequest, wire: Wire) returns (r: Result<Kv.DeleteRangeResponse>)
      modifies kv
      ensures Reach(StoreClient(), wire).Some? ==>
        r == Err(Reach(StoreClient(), wire).value) && kv.data == old(kv.data)
      ensures Reach(StoreClient(), wire).None? ==>
        && kv.data == Kv.DeleteRangeState(old(kv.data), req.selector)
        && (r.Ok? <==> wire.responseConverts)
        && (!wire.responseConverts ==> r == Err(ConvertResponse))
        && (r.Ok? ==> Kv.IsDeleteRangeReply(old(kv.data), req, r.value))
    {
      var stop := Reach(StoreClient(), wire);
      if stop.Some? {
        return Err(stop.value);
      }
      var resp := kv.DeleteRange(req);
      r := Converted(resp, wire);
    }

    method MoveValue(kv: ReferenceStore.MemStore, req: Kv.MoveValueRequest, wire: Wire) returns (r: Result<Kv.MoveValueResponse>)
      modifies kv
      ensures Reach(StoreClient(), wire).Some? ==>
        r == Err(Reach(StoreClient(), wire).value) && kv.data == old(kv.data)
      ensures Reach(StoreClient(), wire).None? ==>
        var step := Kv.MoveStep(old(kv.data), req);
        kv.data == step.store && r == Converted(step.reply, wire)
    {
      var stop := Reach(StoreClient(), wire);
      if stop.Some? {
        return Err(stop.value);
      }
      var resp := kv.MoveValue(req);
      r := Converted(resp, wire);
    }
  }
}
