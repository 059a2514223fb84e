/**
 * The reference adapter: the store contract over a transactional engine.
 * The engine's contents are a map from key to bytes; what the engine
 * answers at each step of a transaction that does not follow from those
 * contents (a read failing, a write refused, a commit losing a conflict)
 * is an oracle, the Faults of the call.
 */
module BadgerDb {
  import opened Wrappers
  import opened Kvdb

  /** The engine's answers for one transaction: for each step, None when
      the step succeeds, or the error the engine reports. get is txn.Get,
      copy is item.ValueCopy, write is txn.Set or txn.Delete, commit is
      txn.Commit. */
  datatype Faults = Faults(
    get: Option<EngineError>,
    copy: Option<EngineError>,
    write: Option<EngineError>,
    commit: Option<EngineError>)

  const NoFaults := Faults(None, None, None, None)

  /** What a call leaves in the engine, and what it returns. */
  datatype Outcome<R> = Outcome(items: Items, resp: R, err: Option<Error>)

  /** txn.Get: the item of key, the engine's not-found signal when there is
      none, or the failure the engine reports instead. */
  function TxnGet(items: Items, key: Key, fault: Option<EngineError>): Result<Bytes, EngineError>
  {
    if fault.Some? then Failure(fault.value)
    else if key in items then Success(items[key])
    else Failure(EngineKeyNotFound)
  }

  /** The error of a two-step transaction: the first step that fails. */
  function FirstFault(first: Option<EngineError>, second: Option<EngineError>): Option<EngineError>
  {
    if first.Some? then first else second
  }

  /** PutItem: the item is set and committed in one update transaction. An
      engine conflict becomes ErrTransactionConflict; every other engine
      error is returned as it is; a failed transaction writes nothing. */
  function PutItemOutcome(items: Items, req: PutItemRequest, f: Faults): (o: Outcome<PutItemResponse>)
    ensures PutItemHonoured(items, req, o.items, o.err)
    ensures o.err == None <==> f.write == None && f.commit == None
    ensures o.err != None ==> o.items == items
    ensures o.err == Some(TransactionConflict) <==> FirstFault(f.write, f.commit) == Some(EngineConflict)
    ensures o.err.Some? && o.err != Some(TransactionConflict) ==> o.err == Some(Engine(FirstFault(f.write, f.commit).value))
  {
    match FirstFault(f.write, f.commit)
    case None => Outcome(items[req.key := req.value], PutItemResponse, None)
    case Some(e) =>
      Outcome(items, PutItemResponse, Some(if e == EngineConflict then TransactionConflict else Engine(e)))
  }

  /** GetItem: reads the item in a read-only transaction. The engine's
      not-found signal becomes ErrKeyNotFound; any other engine error is
      dropped, and the call answers the requested key with no value. */
  function GetItemOutcome(items: Items, req: GetItemRequest, f: Faults): (o: Outcome<GetItemResponse>)
    ensures o.items == items
    ensures o.err == None || o.err == Some(KeyNotFound)
    ensures o.err == None ==> o.resp.key == req.key
    ensures f.get == None && f.copy == None ==> GetItemHonoured(items, req, o.resp, o.err)
    ensures f.get == None && f.copy == None ==> (o.err == None <==> req.key in items)
  {
    var read := TxnGet(items, req.key, f.get);
    var viewErr := if read.Failure? then Some(read.error) else f.copy;
    var value := if read.Success? && f.copy == None then read.value else [];
    if viewErr == Some(EngineKeyNotFound) then Outcome(items, GetItemResponse("", []), Some(KeyNotFound))
    else Outcome(items, GetItemResponse(req.key, value), None)
  }

  /** DeleteItem: reads the key, deletes it and commits, all in one
      transaction. A missing key is ErrKeyNotFound; an engine conflict at
      commit is ErrTransactionConflict; a read or delete failure is
      returned as it is; any other commit failure is dropped. */
  function DeleteItemOutcome(items: Items, req: DeleteItemRequest, f: Faults): (o: Outcome<DeleteItemResponse>)
    ensures o.items == items || (req.key in items && o.items == items - {req.key})
    ensures o.items != items ==> o.err == None
    ensures f.get == None && req.key !in items ==> o.err == Some(KeyNotFound) && o.items == items
    ensures o.err == Some(TransactionConflict) ==> o.items == items
    ensures f.commit.Some? ==> o.items == items
    ensures f.commit == None || f.commit == Some(EngineConflict) ==> DeleteItemHonoured(items, req, o.items, o.err)
    ensures f.get.Some? && f.get != Some(EngineKeyNotFound) ==> o.err == Some(Engine(f.get.value)) && o.items == items
    ensures f.get == None && req.key in items && f.write.Some? ==> o.err == Some(Engine(f.write.value)) && o.items == items
    ensures f.get == None && req.key in items && f.write == None && f.commit == Some(EngineConflict) ==> o.err == Some(TransactionConflict)
    ensures f == NoFaults && req.key in items ==> o.err == None && o.items == items - {req.key}
  {
    match TxnGet(items, req.key, f.get)
    case Failure(e) =>
      Outcome(items, DeleteItemResponse, Some(if e == EngineKeyNotFound then KeyNotFound else Engine(e)))
    case Success(_) =>
      if f.write.Some? then Outcome(items, DeleteItemResponse, Some(Engine(f.write.value)))
      else if f.commit == Some(EngineConflict) then Outcome(items, DeleteItemResponse, Some(TransactionConflict))
      else if f.commit.Some? then Outcome(items, DeleteItemResponse, None)
      else Outcome(items - {req.key}, DeleteItemResponse, None)
  }

  /** Upsert then read: once PutItem succeeds, a fault-free GetItem of the
      key returns the value put. */
  lemma PutThenGet(items: Items, req: PutItemRequest, f: Faults, g: Faults)
    requires PutItemOutcome(items, req, f).err == None
    requires g.get == None && g.copy == None
    ensures var after := PutItemOutcome(items, req, f).items;
      GetItemOutcome(after, GetItemRequest(req.key), g).resp == GetItemResponse(req.key, req.value)
      && GetItemOutcome(after, GetItemRequest(req.key), g).err == None
  {
  }

  /** Of two successful PutItem calls on one key, the later value is read. */
  lemma LastWriteWins(items: Items, key: Key, v1: Bytes, v2: Bytes, f1: Faults, f2: Faults, g: Faults)
    requires PutItemOutcome(items, PutItemRequest(key, v1), f1).err == None
    requires PutItemOutcome(PutItemOutcome(items, PutItemRequest(key, v1), f1).items, PutItemRequest(key, v2), f2).err == None
    requires g.get == None && g.copy == None
    ensures var after := PutItemOutcome(PutItemOutcome(items, PutItemRequest(key, v1), f1).items, PutItemRequest(key, v2), f2).items;
      GetItemOutcome(after, GetItemRequest(key), g).resp.value == v2
  {
    PutThenGet(PutItemOutcome(items, PutItemRequest(key, v1), f1).items, PutItemRequest(key, v2), f2, g);
  }

  /** A fault-free DeleteItem of a present key removes it: a fault-free
      GetItem then reports ErrKeyNotFound, and every other key keeps its
      item. */
  lemma DeleteThenGet(items: Items, req: DeleteItemRequest, g: Faults)
    requires req.key in items
    requires g.get == None && g.copy == None
    ensures var o := DeleteItemOutcome(items, req, NoFaults);
      && o.err == None
      && GetItemOutcome(o.items, GetItemRequest(req.key), g).err == Some(KeyNotFound)
      && forall k :: k in items && k != req.key ==> k in o.items && o.items[k] == items[k]
  {
  }

  /** GetItem drops every engine error but not-found: when the read, or
      copying the value of a present key, fails with any other error, it
      reports no error, the requested key and no value; for a key that has
      no item this breaks the store contract. */
  lemma GetItemDropsEngineFailure(items: Items, req: GetItemRequest, f: Faults)
    requires || (f.get.Some? && f.get != Some(EngineKeyNotFound))
             || (f.get == None && req.key in items && f.copy.Some? && f.copy != Some(EngineKeyNotFound))
    ensures GetItemOutcome(items, req, f) == Outcome(items, GetItemResponse(req.key, []), None)
    ensures req.key !in items ==> !GetItemHonoured(items, req, GetItemOutcome(items, req, f).resp, GetItemOutcome(items, req, f).err)
  {
  }

  /** DeleteItem drops a commit failure other than a conflict: it reports
      success while the item is still there, which the store contract
      forbids. */
  lemma DeleteItemDropsCommitFailure(items: Items, req: DeleteItemRequest, detail: string)
    requires req.key in items
    ensures var o := DeleteItemOutcome(items, req, Faults(None, None, None, Some(EngineFailure(detail))));
      && o.err == None
      && o.items == items
      && req.key in o.items
      && !DeleteItemHonoured(items, req, o.items, o.err)
  {
    assert req.key !in items - {req.key};
  }

  /** A store over the engine. */
  class BadgerStore {
    var items: Items
    var closed: bool

    constructor (db: Items)
      ensures items == db && !closed
    {
      items := db;
      closed := false;
    }

    method PutItem(req: PutItemRequest, f: Faults) returns (resp: PutItemResponse, err: Option<Error>)
      requires !closed
      modifies this
      ensures !closed
      ensures Outcome(items, resp, err) == PutItemOutcome(old(items), req, f)
    {
      resp := PutItemResponse;
      // Update: txn.Set, then commit unless the set failed
      var txnErr := f.write;
      if txnErr == None {
        txnErr := f.commit;
      }
      if txnErr.Some? {
        if txnErr.value == EngineConflict {
          return resp, Some(TransactionConflict);
        }
        return resp, Some(Engine(txnErr.value));
      }
      items := items[req.key := req.value];
      err := None;
    }

    method GetItem(req: GetItemRequest, f: Faults) returns (resp: GetItemResponse, err: Option<Error>)
      requires !closed
      ensures Outcome(items, resp, err) == GetItemOutcome(items, req, f)
    {
      var itemValue: Bytes := [];
      var viewErr: Option<EngineError> := None;
      // View: txn.Get, then item.ValueCopy
      var read := TxnGet(items, req.key, f.get);
      if read.Failure? {
        viewErr := Some(read.error);
      } else if f.copy.Some? {
        viewErr := f.copy;
      } else {
        itemValue := read.value;
      }
      if viewErr == Some(EngineKeyNotFound) {
        return GetItemResponse("", []), Some(KeyNotFound);
      }
      return GetItemResponse(req.key, itemValue), None;
    }

    method DeleteItem(req: DeleteItemRequest, f: Faults) returns (resp: DeleteItemResponse, err: Option<Error>)
      requires !closed
      modifies this
      ensures !closed
      ensures Outcome(items, resp, err) == DeleteItemOutcome(old(items), req, f)
    {
      resp := DeleteItemResponse;
      var read := TxnGet(items, req.key, f.get);
      if read.Failure? {
        if read.error == EngineKeyNotFound {
          return resp, Some(KeyNotFound);
        }
        return resp, Some(Engine(read.error));
      }
      if f.write.Some? {
        return resp, Some(Engine(f.write.value));
      }
      if f.commit.Some? {
        if f.commit.value == EngineConflict {
          return resp, Some(TransactionConflict);
        }
        return resp, None;
      }
      items := items - {req.key};
      err := None;
    }

    /** Close closes the engine and returns its error, if any. */
    method Close(fault: Option<EngineError>) returns (err: Option<Error>)
      requires !closed
      modifies this
      ensures closed && items == old(items)
      ensures fault == None ==> err == None
      ensures fault.Some? ==> err == Some(Engine(fault.value))
    {
      closed := true;
      err := if fault.Some? then Some(Engine(fault.value)) else None;
    }
  }

  const DriverName := "badgerdb"

  /** The badger driver: opens the engine at a location; an engine that
      fails to open is returned as an error as it is. engineOpen stands
      for the engine's own open. */
  function BadgerDriver(engineOpen: string -> Result<Items, EngineError>): (d: Driver)
    ensures forall uri :: d.open(uri).Success? <==> engineOpen(uri).Success?
    ensures forall uri :: engineOpen(uri).Success? ==> d.open(uri) == Success(engineOpen(uri).value)
    ensures forall uri :: engineOpen(uri).Failure? ==> d.open(uri) == Failure(Engine(engineOpen(uri).error))
  {
    Driver(uri => match engineOpen(uri)
                  case Success(db) => Success(db)
                  case Failure(e) => Failure(Engine(e)))
  }

  /** The package's registration of the driver under "badgerdb"; once it is
      registered, opening "badgerdb" is opening the engine. */
  method Init(registry: Registry, engineOpen: string -> Result<Items, EngineError>) returns (panic: Option<string>)
    modifies registry
    ensures DriverName in old(registry.drivers) ==>
      panic == Some(DuplicateRegistrationMessage(DriverName)) && registry.drivers == old(registry.drivers)
    ensures DriverName !in old(registry.drivers) ==>
      && panic == None
      && registry.drivers == old(registry.drivers)[DriverName := BadgerDriver(engineOpen)]
      && forall uri :: registry.Open(DriverName, uri) == BadgerDriver(engineOpen).open(uri)
  {
    panic := registry.Register(DriverName, BadgerDriver(engineOpen));
  }
}
