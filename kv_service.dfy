/**
 * The request service: Set, Get and Delete requests carrying a structured
 * value, translated into store calls, with storage errors mapped to the
 * NotFound and Internal status codes and two fixed messages.
 */
module KvService {
  import opened Wrappers
  import opened Kvdb
  import opened BadgerDb

  /** The structured value envelope: null, number, string, boolean, a
      mapping or a list. */
  datatype Value =
    | NullValue
    | NumberValue(number: real)
    | StringValue(text: string)
    | BoolValue(flag: bool)
    | StructValue(fields: map<string, Value>)
    | ListValue(values: seq<Value>)

  /** The wire serialisation of a Value; either direction may fail. */
  datatype Codec = Codec(marshal: Value -> Option<Bytes>, unmarshal: Bytes -> Option<Value>)

  /** Decoding what was encoded gives back the value encoded. */
  ghost predicate RoundTrips(codec: Codec)
  {
    forall v :: codec.marshal(v).Some? ==> codec.unmarshal(codec.marshal(v).value) == Some(v)
  }

  datatype Code = NotFound | Internal

  datatype Status = Status(code: Code, message: string)

  const InternalServerMessage := "an internal server error has occurred"

  function KeyNotFoundMessage(key: Key): string
  {
    "key '" + key + "' not found"
  }

  const InternalStatus := Status(Internal, InternalServerMessage)

  function NotFoundStatus(key: Key): Status
  {
    Status(NotFound, KeyNotFoundMessage(key))
  }

  /** The only statuses the service returns for a request on key. */
  predicate FixedStatus(key: Key, st: Status)
  {
    st == InternalStatus || st == NotFoundStatus(key)
  }

  datatype SetRequest = SetRequest(key: Key, value: Value)
  datatype SetResponse = SetResponse
  datatype GetRequest = GetRequest(key: Key)
  datatype GetResponse = GetResponse(key: Key, value: Value)
  datatype DeleteRequest = DeleteRequest(key: Key)
  datatype DeleteResponse = DeleteResponse

  /** What a service call leaves in the store, and what it returns. */
  datatype Served<R> = Served(items: Items, reply: Result<R, Status>)

  /** Get's reply to what the store returned: ErrKeyNotFound is NotFound
      naming the key; any other store error is not looked at, and the
      stored bytes are decoded, a decoding failure being Internal. */
  function GetReply(req: GetRequest, resp: GetItemResponse, err: Option<Error>, codec: Codec): (r: Result<GetResponse, Status>)
    ensures r.Failure? ==> FixedStatus(req.key, r.error)
    ensures r.Failure? && r.error.code == NotFound <==> err == Some(KeyNotFound)
    ensures r.Success? <==> err != Some(KeyNotFound) && codec.unmarshal(resp.value).Some?
    ensures r.Success? ==> r.value.key == resp.key && Some(r.value.value) == codec.unmarshal(resp.value)
  {
    if err == Some(KeyNotFound) then Failure(NotFoundStatus(req.key))
    else match codec.unmarshal(resp.value)
      case None => Failure(InternalStatus)
      case Some(v) => Success(GetResponse(resp.key, v))
  }

  /** Delete's reply to what the store returned: ErrKeyNotFound is NotFound
      naming the key; every other outcome, an error or not, is success. */
  function DeleteReply(req: DeleteRequest, err: Option<Error>): (r: Result<DeleteResponse, Status>)
    ensures r.Failure? <==> err == Some(KeyNotFound)
    ensures r.Failure? ==> r.error == NotFoundStatus(req.key)
  {
    if err == Some(KeyNotFound) then Failure(NotFoundStatus(req.key)) else Success(DeleteResponse)
  }

  /** Set: encodes the value, then puts it. A failure to encode is Internal
      and the store is not called; any store error, a conflict included,
      is Internal as well. */
  function SetOutcome(items: Items, req: SetRequest, codec: Codec, f: Faults): (s: Served<SetResponse>)
    ensures codec.marshal(req.value).None? ==> s == Served(items, Failure(InternalStatus))
    ensures s.reply.Failure? ==> s.reply.error == InternalStatus && s.items == items
    ensures s.reply.Success? <==> codec.marshal(req.value).Some? && f.write == None && f.commit == None
    ensures s.reply.Success? ==> s.items == items[req.key := codec.marshal(req.value).value]
  {
    match codec.marshal(req.value)
    case None => Served(items, Failure(InternalStatus))
    case Some(bytes) =>
      var o := PutItemOutcome(items, PutItemRequest(req.key, bytes), f);
      Served(o.items, if o.err.Some? then Failure(InternalStatus) else Success(SetResponse))
  }

  function GetOutcome(items: Items, req: GetRequest, codec: Codec, f: Faults): Result<GetResponse, Status>
  {
    var o := GetItemOutcome(items, GetItemRequest(req.key), f);
    GetReply(req, o.resp, o.err, codec)
  }

  function DeleteOutcome(items: Items, req: DeleteRequest, f: Faults): Served<DeleteResponse>
  {
    var o := DeleteItemOutcome(items, DeleteItemRequest(req.key), f);
    Served(o.items, DeleteReply(req, o.err))
  }

  /** Get does not report a store error other than ErrKeyNotFound: its
      reply is the one it gives when the store reports no error. */
  lemma GetIgnoresOtherErrors(req: GetRequest, resp: GetItemResponse, err: Error, codec: Codec)
    requires err != KeyNotFound
    ensures GetReply(req, resp, Some(err), codec) == GetReply(req, resp, None, codec)
  {
  }

  /** A fault-free Get of a key with no item is NotFound naming the key. */
  lemma GetMissing(items: Items, req: GetRequest, codec: Codec, f: Faults)
    requires req.key !in items && f.get == None && f.copy == None
    ensures GetOutcome(items, req, codec, f) == Failure(NotFoundStatus(req.key))
  {
  }

  /** Set then Get: if decoding undoes encoding, a fault-free Get of the key
      of a successful Set returns the key and the value set. */
  lemma SetThenGet(items: Items, req: SetRequest, codec: Codec, f: Faults, g: Faults)
    requires RoundTrips(codec)
    requires SetOutcome(items, req, codec, f).reply.Success?
    requires g.get == None && g.copy == None
    ensures GetOutcome(SetOutcome(items, req, codec, f).items, GetRequest(req.key), codec, g)
         == Success(GetResponse(req.key, req.value))
  {
    var bytes := codec.marshal(req.value).value;
    PutThenGet(items, PutItemRequest(req.key, bytes), f, g);
  }

  /** A fault-free Delete of a key with an item succeeds, and a fault-free
      Get of the key is then NotFound. */
  lemma DeleteThenGetMissing(items: Items, req: DeleteRequest, codec: Codec, g: Faults)
    requires req.key in items
    requires g.get == None && g.copy == None
    ensures DeleteOutcome(items, req, NoFaults).reply == Success(DeleteResponse)
    ensures GetOutcome(DeleteOutcome(items, req, NoFaults).items, GetRequest(req.key), codec, g)
         == Failure(NotFoundStatus(req.key))
  {
    DeleteThenGet(items, DeleteItemRequest(req.key), g);
  }

  /** A fault-free Delete of a key with no item is NotFound naming the key. */
  lemma DeleteMissing(items: Items, req: DeleteRequest, f: Faults)
    requires req.key !in items && f.get == None
    ensures DeleteOutcome(items, req, f) == Served(items, Failure(NotFoundStatus(req.key)))
  {
  }

  /** A Delete whose commit loses a conflict replies success, although the
      item is still there. */
  lemma DeleteConflictRepliesSuccess(items: Items, req: DeleteRequest)
    requires req.key in items
    ensures var s := DeleteOutcome(items, req, Faults(None, None, None, Some(EngineConflict)));
      s.reply == Success(DeleteResponse) && s.items == items && req.key in s.items
  {
  }

  /** A Set that loses a conflict gets the same reply as one whose engine
      failed for any other reason: the caller cannot tell a retryable
      conflict from a fault. */
  lemma SetConflictIndistinguishable(items: Items, req: SetRequest, codec: Codec, detail: string)
    requires codec.marshal(req.value).Some?
    ensures SetOutcome(items, req, codec, Faults(None, None, None, Some(EngineConflict)))
         == SetOutcome(items, req, codec, Faults(None, None, None, Some(EngineFailure(detail))))
    ensures SetOutcome(items, req, codec, Faults(None, None, None, Some(EngineConflict))).reply == Failure(InternalStatus)
  {
  }

  /** Every failure the service returns carries one of the two fixed
      messages, built from the requested key alone: no engine error text
      reaches the caller. */
  lemma StatusesFixed(items: Items, key: Key, value: Value, codec: Codec, f: Faults)
    ensures var r := SetOutcome(items, SetRequest(key, value), codec, f).reply;
      r.Failure? ==> FixedStatus(key, r.error)
    ensures var r := GetOutcome(items, GetRequest(key), codec, f);
      r.Failure? ==> FixedStatus(key, r.error)
    ensures var r := DeleteOutcome(items, DeleteRequest(key), f).reply;
      r.Failure? ==> FixedStatus(key, r.error)
  {
  }

  /** Set("a", {"x": 1}), Get("a"), Delete("a"), Get("a") without engine
      faults: the value comes back, the delete succeeds, and the key is
      then NotFound. */
  lemma SetGetDeleteScenario(items: Items, codec: Codec)
    requires RoundTrips(codec)
    requires codec.marshal(StructValue(map["x" := NumberValue(1.0)])).Some?
    ensures var v := StructValue(map["x" := NumberValue(1.0)]);
      var s1 := SetOutcome(items, SetRequest("a", v), codec, NoFaults);
      var s3 := DeleteOutcome(s1.items, DeleteRequest("a"), NoFaults);
      && s1.reply == Success(SetResponse)
      && GetOutcome(s1.items, GetRequest("a"), codec, NoFaults) == Success(GetResponse("a", v))
      && s3.reply == Success(DeleteResponse)
      && GetOutcome(s3.items, GetRequest("a"), codec, NoFaults) == Failure(NotFoundStatus("a"))
  {
    var v := StructValue(map["x" := NumberValue(1.0)]);
    var s1 := SetOutcome(items, SetRequest("a", v), codec, NoFaults);
    SetThenGet(items, SetRequest("a", v), codec, NoFaults, NoFaults);
    DeleteThenGetMissing(s1.items, DeleteRequest("a"), codec, NoFaults);
  }

  /** Set("a", 42), then Set("a", "hello"): Get("a") returns "hello". */
  lemma OverwriteScenario(items: Items, codec: Codec)
    requires RoundTrips(codec)
    requires codec.marshal(NumberValue(42.0)).Some? && codec.marshal(StringValue("hello")).Some?
    ensures var s1 := SetOutcome(items, SetRequest("a", NumberValue(42.0)), codec, NoFaults);
      var s2 := SetOutcome(s1.items, SetRequest("a", StringValue("hello")), codec, NoFaults);
      GetOutcome(s2.items, GetRequest("a"), codec, NoFaults) == Success(GetResponse("a", StringValue("hello")))
  {
    var s1 := SetOutcome(items, SetRequest("a", NumberValue(42.0)), codec, NoFaults);
    SetThenGet(s1.items, SetRequest("a", StringValue("hello")), codec, NoFaults, NoFaults);
  }

  /** The service: a handle on one store, given at construction. */
  class KvService {
    const kvdb: BadgerStore
    const codec: Codec

    constructor (kvdb: BadgerStore, codec: Codec)
      ensures this.kvdb == kvdb && this.codec == codec
    {
      this.kvdb := kvdb;
      this.codec := codec;
    }

    method Set(req: SetRequest, f: Faults) returns (r: Result<SetResponse, Status>)
      requires !kvdb.closed
      modifies kvdb
      ensures !kvdb.closed
      ensures Served(kvdb.items, r) == SetOutcome(old(kvdb.items), req, codec, f)
    {
      var byteVal := codec.marshal(req.value);
      if byteVal.None? {
        return Failure(InternalStatus);
      }
      var putResp, err := kvdb.PutItem(PutItemRequest(req.key, byteVal.value), f);
      if err.Some? {
        return Failure(InternalStatus);
      }
      return Success(SetResponse);
    }

    method Get(req: GetRequest, f: Faults) returns (r: Result<GetResponse, Status>)
      requires !kvdb.closed
      ensures r == GetOutcome(kvdb.items, req, codec, f)
    {
      var getItemResp, err := kvdb.GetItem(GetItemRequest(req.key), f);
      if err == Some(KeyNotFound) {
        return Failure(NotFoundStatus(req.key));
      }
      var val := codec.unmarshal(getItemResp.value);
      if val.None? {
        return Failure(InternalStatus);
      }
      return Success(GetResponse(getItemResp.key, val.value));
    }

    method Delete(req: DeleteRequest, f: Faults) returns (r: Result<DeleteResponse, Status>)
      requires !kvdb.closed
      modifies kvdb
      ensures !kvdb.closed
      ensures Served(kvdb.items, r) == DeleteOutcome(old(kvdb.items), req, f)
    {
      var deleteResp, err := kvdb.DeleteItem(DeleteItemRequest(req.key), f);
      if err == Some(KeyNotFound) {
        return Failure(NotFoundStatus(req.key));
      }
      return Success(DeleteResponse);
    }
  }
}
