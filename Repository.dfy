/**
 * The backup-bin side of app/src/main/java/com/easyplan/repository/TaskRepository.kt:
 * one stored bin id; export creates a bin when none is stored (keeping the id
 * only when the create reply carries one) and otherwise overwrites the stored
 * bin; import fails at once when no id is stored.
 *
 * The REST service is not modelled: each request is reported as a `BinCall`
 * and its reply is given as a parameter, the callback running at once.
 */
module Repository {
  import opened Wrappers
  import opened Tasks

  /** `JsonBinService.TaskCollection`, the whole list sent as one document. */
  datatype TaskCollection = TaskCollection(tasks: seq<Task>, userId: string, lastUpdated: Millis)

  /** The decoded body of a reply: `record` and `metadata?.id`. */
  datatype Body = Body(record: Option<TaskCollection>, metadataId: Option<string>)

  /** How one request ended: `onFailure`, or `onResponse` with its status and body. */
  datatype Reply = NetworkFailure | Response(isSuccessful: bool, body: Option<Body>)

  /** A request issued to the bin service. */
  datatype BinCall = CreateBin(collection: TaskCollection) | UpdateBin(binId: string, collection: TaskCollection) | GetBin(binId: string)

  /** `auth.currentUser?.uid ?: "guest"`. */
  function UserIdFor(user: Option<string>): (u: string)
    ensures user.Some? ==> u == user.value
    ensures user.None? ==> u == "guest"
  {
    user.GetOr("guest")
  }

  /** A reply with a 2xx status. */
  predicate Successful(reply: Reply)
  {
    reply.Response? && reply.isSuccessful
  }

  /** `response.body()?.metadata?.id` of a successful reply. */
  function CreatedBinId(reply: Reply): (id: Option<string>)
    ensures id.Some? ==> Successful(reply)
  {
    if Successful(reply) && reply.body.Some? then reply.body.value.metadataId else None
  }

  /** `response.body()?.record?.tasks` of a successful reply. */
  function LoadedTasks(reply: Reply): (r: Option<seq<Task>>)
    ensures r.Some? ==> Successful(reply)
  {
    if Successful(reply) && reply.body.Some? && reply.body.value.record.Some?
    then Some(reply.body.value.record.value.tasks)
    else None
  }

  /** The one request an export issues, given the stored bin id. */
  function ExportCall(bin: Option<string>, c: TaskCollection): (call: BinCall)
    ensures bin.None? <==> call.CreateBin?
    ensures call.CreateBin? ==> call.collection == c
    ensures bin.Some? ==> call == UpdateBin(bin.value, c)
  {
    match bin
    case None => CreateBin(c)
    case Some(id) => UpdateBin(id, c)
  }

  /** The stored bin id after an export that got `reply`. */
  function BinAfterExport(bin: Option<string>, reply: Reply): (after: Option<string>)
    ensures bin.Some? ==> after == bin
    ensures bin.None? ==> after == CreatedBinId(reply)
  {
    if bin.None? then CreatedBinId(reply) else bin
  }

  /** What an export reports to its callback. */
  predicate ExportSucceeded(bin: Option<string>, reply: Reply)
  {
    if bin.None? then CreatedBinId(reply).Some? else Successful(reply)
  }

  /** The requests of a run of exports, each getting the next reply. */
  function ExportCalls(bin: Option<string>, cs: seq<TaskCollection>, replies: seq<Reply>): (calls: seq<BinCall>)
    requires |cs| == |replies|
    ensures |calls| == |cs|
    decreases |cs|
  {
    if cs == [] then []
    else [ExportCall(bin, cs[0])] + ExportCalls(BinAfterExport(bin, replies[0]), cs[1..], replies[1..])
  }

  /** Once a bin id is stored, every later export updates that same bin. */
  lemma {:induction false} StoredBinOnlyUpdated(id: string, cs: seq<TaskCollection>, replies: seq<Reply>)
    requires |cs| == |replies|
    ensures forall i :: 0 <= i < |cs| ==> ExportCalls(Some(id), cs, replies)[i] == UpdateBin(id, cs[i])
  {
    if cs != [] {
      StoredBinOnlyUpdated(id, cs[1..], replies[1..]);
    }
  }

  /**
   * From no bin: the first export creates one; once a create has returned an
   * id, no second create is ever issued.
   */
  lemma CreateAtMostOnce(cs: seq<TaskCollection>, replies: seq<Reply>, id: string)
    requires |cs| == |replies| && |cs| > 0
    requires CreatedBinId(replies[0]) == Some(id)
    ensures ExportCalls(None, cs, replies)[0] == CreateBin(cs[0])
    ensures forall i :: 1 <= i < |cs| ==> ExportCalls(None, cs, replies)[i] == UpdateBin(id, cs[i])
  {
    StoredBinOnlyUpdated(id, cs[1..], replies[1..]);
  }

  class TaskRepository {
    /** `prefs.getString(KEY_BIN_ID, null)`. */
    var binId: Option<string>

    constructor (saved: Option<string>)
      ensures binId == saved
    {
      binId := saved;
    }

    /** `getBinId`. */
    function GetBinId(): Option<string>
      reads this
    {
      binId
    }

    /** `syncToJsonBin`: a create when no id is stored, else an update of the stored bin. */
    method SyncToJsonBin(tasks: seq<Task>, user: Option<string>, now: Millis, reply: Reply)
      returns (ok: bool, call: BinCall)
      modifies this
      ensures call == ExportCall(old(binId), TaskCollection(tasks, UserIdFor(user), now))
      ensures binId == BinAfterExport(old(binId), reply)
      ensures ok == ExportSucceeded(old(binId), reply)
    {
      var collection := TaskCollection(tasks, UserIdFor(user), now);
      if binId == None {
        ok, call := CreateNewBin(collection, reply);
      } else {
        ok, call := UpdateExistingBin(binId.value, collection, reply);
      }
    }

    /** `createNewBin`: keeps the returned id only when the reply is a success carrying one. */
    method CreateNewBin(collection: TaskCollection, reply: Reply) returns (ok: bool, call: BinCall)
      modifies this
      ensures call == CreateBin(collection)
      ensures ok <==> Successful(reply) && CreatedBinId(reply).Some?
      ensures binId == if ok then CreatedBinId(reply) else old(binId)
    {
      call := CreateBin(collection);
      match reply
      case NetworkFailure =>
        ok := false;
      case Response(success, body) =>
        if success {
          var id := if body.Some? then body.value.metadataId else None;
          if id.Some? {
            binId := id;
            ok := true;
          } else {
            ok := false;
          }
        } else {
          ok := false;
        }
    }

    /** `updateExistingBin`: never touches the stored id; true iff the reply is a success. */
    method UpdateExistingBin(id: string, collection: TaskCollection, reply: Reply) returns (ok: bool, call: BinCall)
      ensures call == UpdateBin(id, collection)
      ensures ok <==> reply.Response? && reply.isSuccessful
    {
      call := UpdateBin(id, collection);
      match reply
      case NetworkFailure =>
        ok := false;
      case Response(success, _) =>
        ok := success;
    }

    /** `loadFromJsonBin`: no stored id means no request and no tasks. */
    method LoadFromJsonBin(reply: Reply) returns (loaded: Option<seq<Task>>, calls: seq<BinCall>)
      ensures binId.None? ==> loaded == None && calls == []
      ensures binId.Some? ==> calls == [GetBin(binId.value)] && loaded == LoadedTasks(reply)
      ensures !Successful(reply) ==> loaded == None
    {
      if binId == None {
        return None, [];
      }
      calls := [GetBin(binId.value)];
      match reply
      case NetworkFailure =>
        loaded := None;
      case Response(success, body) =>
        if success && body.Some? && body.value.record.Some? {
          loaded := Some(body.value.record.value.tasks);
        } else {
          loaded := None;
        }
    }

    /** `clearBinId`: the next export creates a new bin. */
    method ClearBinId()
      modifies this
      ensures binId == None
      ensures forall c :: ExportCall(binId, c).CreateBin?
    {
      binId := None;
    }
  }
}
