/**
 * The storage contract and the driver registry: the records a key-value
 * store exchanges, the two error sentinels it reports, the obligations of
 * a store as its interface documents them, and the process-wide table of
 * named drivers that open stores.
 */
module Kvdb {
  import opened Wrappers
  import StringOrder

  type Key = string
  type Bytes = seq<bv8>

  /** The items a store holds: at most one value per key. A store handle is
      modelled by the items its engine holds. */
  type Items = map<Key, Bytes>

  /** An error as the underlying engine reports it. An adapter recognises
      the engine's own not-found and conflict signals; anything else is a
      failure it does not classify. */
  datatype EngineError =
    | EngineKeyNotFound
    | EngineConflict
    | EngineFailure(detail: string)

  /** The errors a store or the registry returns: the two sentinels
      ErrKeyNotFound and ErrTransactionConflict, the registry's unknown
      driver error, and an engine error passed through as it is. */
  datatype Error =
    | KeyNotFound
    | TransactionConflict
    | UnknownDriver(name: string)
    | Engine(cause: EngineError)

  /** The text of the errors this package defines; an engine error keeps
      the engine's own text, which is not modelled. Go's %q quoting of the
      driver name is approximated by plain double quotes. */
  function Message(e: Error): string
    requires !e.Engine?
  {
    match e
    case KeyNotFound => "no item with the provided key exists"
    case TransactionConflict => "a transaction conflict has occurred"
    case UnknownDriver(name) => "kvdb: unknown storage driver \"" + name + "\""
  }

  datatype PutItemRequest = PutItemRequest(key: Key, value: Bytes)
  datatype PutItemResponse = PutItemResponse
  datatype GetItemRequest = GetItemRequest(key: Key)
  datatype GetItemResponse = GetItemResponse(key: Key, value: Bytes)
  datatype DeleteItemRequest = DeleteItemRequest(key: Key)
  datatype DeleteItemResponse = DeleteItemResponse

  // The KeyValueStore contract, one predicate per operation, over the
  // items before and after a call and what the call returned.

  /** PutItem: a call that succeeds has upserted the item. */
  ghost predicate PutItemHonoured(before: Items, req: PutItemRequest, after: Items, err: Option<Error>)
  {
    err == None ==> after == before[req.key := req.value]
  }

  /** GetItem: a key without an item yields ErrKeyNotFound; a call that
      succeeds returns the item of that key. */
  ghost predicate GetItemHonoured(items: Items, req: GetItemRequest, resp: GetItemResponse, err: Option<Error>)
  {
    && (req.key !in items ==> err == Some(KeyNotFound))
    && (err == None ==> req.key in items && resp == GetItemResponse(req.key, items[req.key]))
  }

  /** DeleteItem: a call that succeeds has removed the item, and a conflict
      leaves the store as it was. */
  ghost predicate DeleteItemHonoured(before: Items, req: DeleteItemRequest, after: Items, err: Option<Error>)
  {
    && (err == None ==> after == before - {req.key})
    && (err == Some(TransactionConflict) ==> after == before)
  }

  /** A driver opens a store at a location, or fails with an error. */
  datatype Driver = Driver(open: string -> Result<Items, Error>)

  function DuplicateRegistrationMessage(name: string): string
  {
    "duplicate registration of kv driver '" + name + "'"
  }

  /** The process-wide table from driver name to driver. */
  class Registry {
    var drivers: map<string, Driver>

    constructor ()
      ensures drivers == map[]
    {
      drivers := map[];
    }

    /** Register adds the driver under name. A second registration of the
        same name panics: the panic message is returned and the table is
        left as it was. */
    method Register(name: string, driver: Driver) returns (panic: Option<string>)
      modifies this
      ensures name in old(drivers) ==> panic == Some(DuplicateRegistrationMessage(name)) && drivers == old(drivers)
      ensures name !in old(drivers) ==> panic == None && drivers == old(drivers)[name := driver]
      ensures drivers.Keys == old(drivers.Keys) + {name}
    {
      if name in drivers {
        return Some(DuplicateRegistrationMessage(name));
      }
      drivers := drivers[name := driver];
      panic := None;
    }

    /** Drivers lists every registered name exactly once, in ascending
        order; the table is only read. */
    method Drivers() returns (list: seq<string>)
      ensures multiset(list) == multiset(drivers.Keys)
      ensures |list| == |drivers|
      ensures StringOrder.StrictlySorted(list)
    {
      var a := new string[|drivers|];
      var rest := drivers.Keys;
      var n := 0;
      while rest != {}
        invariant rest <= drivers.Keys
        invariant n + |rest| == a.Length
        invariant multiset(a[..n]) + multiset(rest) == multiset(drivers.Keys)
        decreases rest
      {
        var name :| name in rest;
        a[n] := name;
        assert a[..n + 1] == a[..n] + [name];
        n := n + 1;
        rest := rest - {name};
      }
      assert a[..] == a[..n];
      StringOrder.SortStrings(a);
      list := a[..];
      StringOrder.SortedListingIsStrict(list, drivers.Keys);
    }

    /** Open looks the driver up and returns what it opens, error
        included; an unregistered name is an unknown-driver error. */
    function Open(driverName: string, dataSourceName: string): (r: Result<Items, Error>)
      reads this
      ensures driverName !in drivers ==> r == Failure(UnknownDriver(driverName))
      ensures driverName !in drivers ==> Message(r.error) == "kvdb: unknown storage driver \"" + driverName + "\""
      ensures driverName in drivers ==> r == drivers[driverName].open(dataSourceName)
    {
      if driverName in drivers then drivers[driverName].open(dataSourceName)
      else Failure(UnknownDriver(driverName))
    }
  }
}
