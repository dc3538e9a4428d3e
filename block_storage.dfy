/** The block-storage resource of ncloud/resource_ncloud_block_storage.go: the size rule, the
    transfer object built from either platform's API record, the wait rules after create and
    delete, the retry rule of the delete call, and the create/read/delete handlers. API calls are
    replaced by their answers, given as parameters. */
module BlockStorageResource {
  import opened Wrappers
  import opened Common
  import opened ConvertTypes
  import opened Schema

  // ================================================================== size

  const MinSize: int := 10
  const MaxSize: int := 1000

  /** `validation.IntBetween(10, 1000)` on the `size` attribute. */
  predicate ValidSize(size: int)
  {
    MinSize <= size <= MaxSize
  }

  const Int32Min: int := -0x8000_0000
  const Int32Max: int := 0x7fff_ffff

  /** Go's `int32(x)`: keeps the low 32 bits as a two's-complement value. */
  function ToInt32(x: int): (r: int)
    ensures Int32Min <= r <= Int32Max
    ensures Int32Min <= x <= Int32Max ==> r == x
  {
    (x + 0x8000_0000) % 0x1_0000_0000 - 0x8000_0000
  }

  /** Every size the schema accepts survives the `int32` conversion of the VPC request. */
  lemma AcceptedSizeFitsInt32(size: int)
    requires ValidSize(size)
    ensures ToInt32(size) == size
  {
  }

  /** Go's `/` on `int64`: truncates toward zero. */
  function GoDiv(a: int, b: int): int
    requires b > 0
  {
    if a >= 0 then a / b else -((-a) / b)
  }

  /** The reported size in GiB: the API's byte count divided by `Gigabyte`. */
  function SizeInGiB(bytes: int): int
  {
    GoDiv(bytes, Gigabyte)
  }

  /** A byte count is reported as the whole number of GiB it holds, rounded down. */
  lemma SizeInGiBBounds(bytes: int)
    requires bytes >= 0
    ensures SizeInGiB(bytes) >= 0
    ensures SizeInGiB(bytes) * Gigabyte <= bytes < (SizeInGiB(bytes) + 1) * Gigabyte
  {
    UnitTable();
  }

  /** A whole number of GiB, expressed in bytes, is reported as exactly that number. */
  lemma SizeInGiBRoundTrip(n: int)
    ensures SizeInGiB(n * Gigabyte) == n
  {
    UnitTable();
    if n < 0 {
      assert -(n * Gigabyte) == (-n) * Gigabyte;
    }
  }

  // ============================================================ API records

  /** A `{code, codeName}` pair of the API. */
  datatype CommonCode = CommonCode(code: Option<string>, codeName: Option<string>)

  /** An element of the classic API's `BlockStorageInstanceList`. */
  datatype ClassicInstance = ClassicInstance(
    blockStorageInstanceNo: Option<string>,
    serverInstanceNo: Option<string>,
    serverName: Option<string>,
    blockStorageType: CommonCode,
    blockStorageName: Option<string>,
    blockStorageSize: int,
    deviceName: Option<string>,
    blockStorageProductCode: Option<string>,
    blockStorageInstanceStatus: CommonCode,
    blockStorageInstanceOperation: CommonCode,
    blockStorageInstanceStatusName: Option<string>,
    blockStorageInstanceDescription: Option<string>,
    diskType: CommonCode,
    diskDetailType: CommonCode)

  /** An element of the VPC API's `BlockStorageInstanceList`. */
  datatype VpcInstance = VpcInstance(
    blockStorageInstanceNo: Option<string>,
    serverInstanceNo: Option<string>,
    blockStorageType: CommonCode,
    blockStorageName: Option<string>,
    blockStorageSize: int,
    deviceName: Option<string>,
    blockStorageProductCode: Option<string>,
    blockStorageInstanceStatus: CommonCode,
    blockStorageInstanceOperation: CommonCode,
    blockStorageInstanceStatusName: Option<string>,
    blockStorageDescription: Option<string>,
    blockStorageDiskType: CommonCode,
    blockStorageDiskDetailType: CommonCode,
    zoneCode: Option<string>)

  /** The transfer object both platforms are read into. */
  datatype BlockStorage = BlockStorage(
    blockStorageInstanceNo: Option<string>,
    serverInstanceNo: Option<string>,
    serverName: Option<string>,
    blockStorageType: Option<string>,
    blockStorageName: Option<string>,
    blockStorageSize: Option<int>,
    deviceName: Option<string>,
    blockStorageProductCode: Option<string>,
    status: Option<string>,
    operation: Option<string>,
    statusName: Option<string>,
    description: Option<string>,
    diskType: Option<string>,
    diskDetailType: Option<string>,
    zoneCode: Option<string>)

  function FromClassic(inst: ClassicInstance): BlockStorage
  {
    BlockStorage(
      inst.blockStorageInstanceNo, inst.serverInstanceNo, inst.serverName,
      inst.blockStorageType.code, inst.blockStorageName, Some(SizeInGiB(inst.blockStorageSize)),
      inst.deviceName, inst.blockStorageProductCode,
      inst.blockStorageInstanceStatus.code, inst.blockStorageInstanceOperation.code,
      inst.blockStorageInstanceStatusName, inst.blockStorageInstanceDescription,
      inst.diskType.code, inst.diskDetailType.code, None)
  }

  function FromVpc(inst: VpcInstance): BlockStorage
  {
    BlockStorage(
      inst.blockStorageInstanceNo, inst.serverInstanceNo, None,
      inst.blockStorageType.code, inst.blockStorageName, Some(SizeInGiB(inst.blockStorageSize)),
      inst.deviceName, inst.blockStorageProductCode,
      inst.blockStorageInstanceStatus.code, inst.blockStorageInstanceOperation.code,
      inst.blockStorageInstanceStatusName, inst.blockStorageDescription,
      inst.blockStorageDiskType.code, inst.blockStorageDiskDetailType.code, inst.zoneCode)
  }

  /** `getClassicBlockStorage`, given the API's answer: absent for an empty list, otherwise built
      from the first element. */
  function GetClassicBlockStorage(resp: Result<seq<ClassicInstance>>): (r: Result<Option<BlockStorage>>)
    ensures resp.Err? ==> r == Err(resp.error)
    ensures resp.Ok? ==> r.Ok? && (r.value.None? <==> |resp.value| == 0)
    ensures resp.Ok? && |resp.value| > 0 ==>
              var inst := resp.value[0];
              && r.value.value.blockStorageInstanceNo == inst.blockStorageInstanceNo
              && r.value.value.status == inst.blockStorageInstanceStatus.code
              && r.value.value.operation == inst.blockStorageInstanceOperation.code
              && r.value.value.blockStorageSize == Some(SizeInGiB(inst.blockStorageSize))
              && r.value.value.serverName == inst.serverName
              && r.value.value.zoneCode.None?
  {
    match resp
    case Err(e) => Err(e)
    case Ok(list) => if |list| > 0 then Ok(Some(FromClassic(list[0]))) else Ok(None)
  }

  /** `getVpcBlockStorage`, given the API's answer: absent for an empty list, otherwise built from
      the first element. */
  function GetVpcBlockStorage(resp: Result<seq<VpcInstance>>): (r: Result<Option<BlockStorage>>)
    ensures resp.Err? ==> r == Err(resp.error)
    ensures resp.Ok? ==> r.Ok? && (r.value.None? <==> |resp.value| == 0)
    ensures resp.Ok? && |resp.value| > 0 ==>
              var inst := resp.value[0];
              && r.value.value.blockStorageInstanceNo == inst.blockStorageInstanceNo
              && r.value.value.status == inst.blockStorageInstanceStatus.code
              && r.value.value.operation == inst.blockStorageInstanceOperation.code
              && r.value.value.blockStorageSize == Some(SizeInGiB(inst.blockStorageSize))
              && r.value.value.zoneCode == inst.zoneCode
              && r.value.value.serverName.None?
  {
    match resp
    case Err(e) => Err(e)
    case Ok(list) => if |list| > 0 then Ok(Some(FromVpc(list[0]))) else Ok(None)
  }

  /** Only the first record of a non-empty answer is looked at. */
  lemma LookupUsesFirstElementOnly(c1: seq<ClassicInstance>, c2: seq<ClassicInstance>, v1: seq<VpcInstance>, v2: seq<VpcInstance>)
    requires |c1| > 0 && |c2| > 0 && c1[0] == c2[0]
    requires |v1| > 0 && |v2| > 0 && v1[0] == v2[0]
    ensures GetClassicBlockStorage(Ok(c1)) == GetClassicBlockStorage(Ok(c2))
    ensures GetVpcBlockStorage(Ok(v1)) == GetVpcBlockStorage(Ok(v2))
  {
  }

  /** `getBlockStorage`: `SupportVPC` selects the VPC lookup, otherwise the classic one. Each
      argument is what that platform's API answers. */
  function GetBlockStorage(supportVpc: bool, classic: Result<seq<ClassicInstance>>, vpc: Result<seq<VpcInstance>>): Result<Option<BlockStorage>>
  {
    if supportVpc then GetVpcBlockStorage(vpc) else GetClassicBlockStorage(classic)
  }

  /** The platform flag alone decides which answer is used; a classic object has no zone and a VPC
      object has no server name. */
  lemma GetBlockStorageDispatch(supportVpc: bool, c1: Result<seq<ClassicInstance>>, c2: Result<seq<ClassicInstance>>,
                                v1: Result<seq<VpcInstance>>, v2: Result<seq<VpcInstance>>)
    ensures supportVpc ==> GetBlockStorage(supportVpc, c1, v1) == GetBlockStorage(supportVpc, c2, v1)
    ensures !supportVpc ==> GetBlockStorage(supportVpc, c1, v1) == GetBlockStorage(supportVpc, c1, v2)
    ensures var r := GetBlockStorage(supportVpc, c1, v1);
            r.Ok? && r.value.Some? ==> (if supportVpc then r.value.value.serverName.None? else r.value.value.zoneCode.None?)
  {
  }

  // ===================================================== create request

  /** The create request of either platform. */
  datatype CreateRequest =
    | ClassicCreate(
        serverInstanceNo: Option<string>,
        blockStorageSize: int,
        blockStorageName: Option<string>,
        blockStorageDescription: Option<string>,
        diskDetailTypeCode: Option<string>)
    | VpcCreate(
        regionCode: Option<string>,
        blockStorageSize: int,
        serverInstanceNo: Option<string>,
        blockStorageName: Option<string>,
        blockStorageDescription: Option<string>,
        diskDetailTypeCode: Option<string>,
        snapshotInstanceNo: Option<string>,
        zoneCode: Option<string>)

  /** `createClassicBlockStorage`/`createVpcBlockStorage`: the request each builds from `d`. */
  function CreateRequestOf(d: ResourceData, supportVpc: bool, regionCode: string): (req: CreateRequest)
    reads d
    ensures req.VpcCreate? <==> supportVpc
    ensures req.serverInstanceNo == Some(d.GetString("server_instance_no"))
    ensures ValidSize(d.GetInt("size")) ==> req.blockStorageSize == d.GetInt("size")
    ensures req.blockStorageName == SetString(d, "name")
    ensures req.blockStorageDescription == SetString(d, "description")
    ensures req.diskDetailTypeCode == SetString(d, "disk_detail_type")
    ensures supportVpc ==> req.snapshotInstanceNo == SetString(d, "snapshot_no") && req.zoneCode == SetString(d, "zone")
                           && req.regionCode == Some(regionCode)
  {
    var (name, nameOk) := d.GetOkString("name");
    var (desc, descOk) := d.GetOkString("description");
    var (detail, detailOk) := d.GetOkString("disk_detail_type");
    if supportVpc then
      var (snapshot, snapshotOk) := d.GetOkString("snapshot_no");
      var (zone, zoneOk) := d.GetOkString("zone");
      VpcCreate(
        Some(regionCode), ToInt32(d.GetInt("size")), Some(d.GetString("server_instance_no")),
        StringPtrOrNil(name, nameOk), StringPtrOrNil(desc, descOk), StringPtrOrNil(detail, detailOk),
        StringPtrOrNil(snapshot, snapshotOk), StringPtrOrNil(zone, zoneOk))
    else
      ClassicCreate(
        Some(d.GetString("server_instance_no")), d.GetInt("size"),
        StringPtrOrNil(name, nameOk), StringPtrOrNil(desc, descOk), StringPtrOrNil(detail, detailOk))
  }

  // ============================================================== wait rules

  /** The status strings a wait keeps polling on, and the ones it stops at. */
  datatype WaitRule = WaitRule(pending: set<string>, target: set<string>)

  const CreateWait: WaitRule := WaitRule({"INIT", "CREAT"}, {"ATTAC"})
  const DeleteWait: WaitRule := WaitRule({"INIT", "ATTAC"}, {"TERMINATED"})

  lemma WaitRulesDisjoint()
    ensures CreateWait.pending !! CreateWait.target
    ensures DeleteWait.pending !! DeleteWait.target
    ensures "ATTAC" in CreateWait.target && "ATTAC" in DeleteWait.pending
  {
  }

  /** What one call of a refresh closure hands to the waiter: a status or an error. */
  datatype Refresh = Observed(status: string) | RefreshFailed(err: string)

  /** The create refresh closure, as written: a missing instance is dereferenced (`None` stands for
      the resulting nil-pointer panic). */
  function CreateRefreshAsWritten(got: Result<Option<BlockStorage>>): Option<Refresh>
  {
    match got
    case Err(e) => Some(RefreshFailed(e))
    case Ok(None) => None
    case Ok(Some(b)) => Some(Observed(StringOrEmpty(b.status)))
  }

  /** The create refresh closure with a missing instance reported as an error. */
  function CreateRefresh(got: Result<Option<BlockStorage>>): (r: Refresh)
    ensures got.Err? ==> r == RefreshFailed(got.error)
    ensures got.Ok? && got.value.Some? ==> r == Observed(StringOrEmpty(got.value.value.status))
    ensures got.Ok? && got.value.None? ==> r.RefreshFailed?
  {
    match got
    case Err(e) => RefreshFailed(e)
    case Ok(None) => RefreshFailed("block storage instance not found")
    case Ok(Some(b)) => Observed(StringOrEmpty(b.status))
  }

  lemma CreateRefreshAsWrittenPanicsWhenAbsent()
    ensures CreateRefreshAsWritten(Ok(None)) == None
  {
  }

  /** Wherever the written closure does not panic, the corrected one answers the same. */
  lemma CreateRefreshAgreesWithAsWritten(got: Result<Option<BlockStorage>>)
    ensures CreateRefreshAsWritten(got).None? <==> got == Ok(None)
    ensures CreateRefreshAsWritten(got).Some? ==> CreateRefreshAsWritten(got) == Some(CreateRefresh(got))
  {
  }

  /** The delete refresh closure: an absent instance counts as `TERMINATED`. */
  function DeleteRefresh(got: Result<Option<BlockStorage>>): (r: Refresh)
    ensures got.Err? ==> r == RefreshFailed(got.error)
    ensures got == Ok(None) ==> r == Observed("TERMINATED")
    ensures got.Ok? && got.value.Some? ==> r == Observed(StringOrEmpty(got.value.value.status))
  {
    match got
    case Err(e) => RefreshFailed(e)
    case Ok(None) => Observed("TERMINATED")
    case Ok(Some(b)) => Observed(StringOrEmpty(b.status))
  }

  /** What the framework's waiter does with one refresh: stop at a target status (checked first),
      keep polling on a pending one, and fail on an error or any other status. */
  datatype PollStep = Done(status: string) | KeepPolling | Abort(err: string)

  function Poll(rule: WaitRule, r: Refresh): PollStep
  {
    match r
    case RefreshFailed(e) => Abort(e)
    case Observed(s) =>
      if s in rule.target then Done(s)
      else if s in rule.pending then KeepPolling
      else Abort("unexpected state '" + s + "'")
  }

  /** The end of a wait. `TimedOut` stands for the refreshes running out before a decision. */
  datatype WaitOutcome = Reached(status: string) | WaitFailed(err: string) | TimedOut

  /** The waiter run over the successive refreshes. */
  function WaitForState(rule: WaitRule, refreshes: seq<Refresh>): WaitOutcome
  {
    if |refreshes| == 0 then TimedOut
    else match Poll(rule, refreshes[0])
      case Done(s) => Reached(s)
      case Abort(e) => WaitFailed(e)
      case KeepPolling => WaitForState(rule, refreshes[1..])
  }

  ghost predicate StillPending(rule: WaitRule, r: Refresh)
  {
    r.Observed? && r.status !in rule.target && r.status in rule.pending
  }

  /** A wait reaches `s` exactly when `s` is a target status observed after pending ones only. */
  lemma {:induction false} WaitReachedIff(rule: WaitRule, rs: seq<Refresh>, s: string)
    ensures WaitForState(rule, rs) == Reached(s) <==>
            exists k :: 0 <= k < |rs| && rs[k] == Observed(s) && s in rule.target &&
                        forall j :: 0 <= j < k ==> StillPending(rule, rs[j])
  {
    if |rs| > 0 {
      WaitReachedIff(rule, rs[1..], s);
      if WaitForState(rule, rs) == Reached(s) {
        if Poll(rule, rs[0]).Done? {
          assert rs[0] == Observed(s) && s in rule.target;
        } else {
          var k :| 0 <= k < |rs[1..]| && rs[1..][k] == Observed(s) && s in rule.target &&
                   forall j :: 0 <= j < k ==> StillPending(rule, rs[1..][j]);
          assert forall j :: 0 <= j < k + 1 ==> StillPending(rule, rs[j]) by {
            forall j | 0 <= j < k + 1 ensures StillPending(rule, rs[j]) {
              if j > 0 {
                assert rs[j] == rs[1..][j - 1];
              }
            }
          }
          assert rs[k + 1] == Observed(s);
        }
      }
      if exists k :: 0 <= k < |rs| && rs[k] == Observed(s) && s in rule.target &&
                     forall j :: 0 <= j < k ==> StillPending(rule, rs[j]) {
        var k :| 0 <= k < |rs| && rs[k] == Observed(s) && s in rule.target &&
                 forall j :: 0 <= j < k ==> StillPending(rule, rs[j]);
        if k > 0 {
          assert StillPending(rule, rs[0]);
          assert rs[1..][k - 1] == Observed(s);
          assert forall j :: 0 <= j < k - 1 ==> StillPending(rule, rs[1..][j]) by {
            forall j | 0 <= j < k - 1 ensures StillPending(rule, rs[1..][j]) {
              assert rs[1..][j] == rs[j + 1];
            }
          }
        }
      }
    }
  }

  /** A wait can only ever stop at one of its target statuses. */
  lemma {:induction false} WaitReachesOnlyTarget(rule: WaitRule, rs: seq<Refresh>)
    ensures WaitForState(rule, rs).Reached? ==> WaitForState(rule, rs).status in rule.target
  {
    if |rs| > 0 && Poll(rule, rs[0]).KeepPolling? {
      WaitReachesOnlyTarget(rule, rs[1..]);
    }
  }

  function CreateRefreshes(gs: seq<Result<Option<BlockStorage>>>): seq<Refresh>
  {
    seq(|gs|, i requires 0 <= i < |gs| => CreateRefresh(gs[i]))
  }

  function DeleteRefreshes(gs: seq<Result<Option<BlockStorage>>>): seq<Refresh>
  {
    seq(|gs|, i requires 0 <= i < |gs| => DeleteRefresh(gs[i]))
  }

  /** The status a lookup reports, if it found the instance. */
  ghost predicate FoundWithStatus(got: Result<Option<BlockStorage>>, statuses: set<string>)
  {
    got.Ok? && got.value.Some? && StringOrEmpty(got.value.value.status) in statuses
  }

  /** `createBlockStorage`: the API's answer to the create call, then the wait for `ATTAC`. */
  function CreateBlockStorage(created: Result<Option<string>>, refreshes: seq<Result<Option<BlockStorage>>>): Result<Option<string>>
  {
    if created.Err? then Err(created.error)
    else match WaitForState(CreateWait, CreateRefreshes(refreshes))
      case Reached(_) => Ok(created.value)
      case WaitFailed(e) => Err("error waiting for BlockStorageInstance state to be \"ATTAC\": " + e)
      case TimedOut => Err("error waiting for BlockStorageInstance state to be \"ATTAC\": timeout")
  }

  /** Create succeeds exactly when the create call succeeded and the instance was seen `ATTAC`
      after being seen only `INIT` or `CREAT`; it then returns the created number. */
  lemma CreateWaitsForAttached(created: Result<Option<string>>, gs: seq<Result<Option<BlockStorage>>>)
    ensures CreateBlockStorage(created, gs).Ok? <==>
            created.Ok? && exists k :: 0 <= k < |gs| && FoundWithStatus(gs[k], {"ATTAC"}) &&
                                       forall j :: 0 <= j < k ==> FoundWithStatus(gs[j], {"INIT", "CREAT"})
    ensures CreateBlockStorage(created, gs).Ok? ==> CreateBlockStorage(created, gs).value == created.value
  {
    var rs := CreateRefreshes(gs);
    WaitReachedIff(CreateWait, rs, "ATTAC");
    WaitReachesOnlyTarget(CreateWait, rs);
    forall j | 0 <= j < |gs|
      ensures StillPending(CreateWait, rs[j]) <==> FoundWithStatus(gs[j], {"INIT", "CREAT"})
      ensures rs[j] == Observed("ATTAC") <==> FoundWithStatus(gs[j], {"ATTAC"})
    {
    }
  }

  // ========================================================== delete retry

  /** What the retry closure tells the framework's retry loop. */
  datatype RetryStep = Stop(err: Option<string>) | RetryAfter(cause: string)

  /** The body of an error carries the storage-detaching code. */
  ghost predicate Detaching(call: Option<string>, parseJson: string -> Option<CommonError>)
  {
    call.Some? && GetCommonErrorBody(call.value, parseJson).Ok? &&
    GetCommonErrorBody(call.value, parseJson).value.returnCode == ApiErrorDetachingMountedStorage
  }

  /** The delete retry closure as written; `call` is the delete call's error (`None`: it
      succeeded), and `None` as result stands for the nil dereference of an unparsable body. */
  function DeleteAttemptAsWritten(call: Option<string>, parseJson: string -> Option<CommonError>): Option<RetryStep>
  {
    if call.None? then Some(Stop(None))
    else match GetCommonErrorBody(call.value, parseJson)
      case Err(_) => None
      case Ok(body) =>
        if body.returnCode == ApiErrorDetachingMountedStorage then Some(RetryAfter(call.value))
        else Some(Stop(Some(call.value)))
  }

  /** The delete retry closure with an unparsable error body treated as a fatal error. */
  function DeleteAttempt(call: Option<string>, parseJson: string -> Option<CommonError>): (r: RetryStep)
    ensures r.RetryAfter? <==> Detaching(call, parseJson)
    ensures r == Stop(None) <==> call.None?
    ensures call.Some? ==> r == Stop(call) || r == RetryAfter(call.value)
  {
    if call.None? then Stop(None)
    else match GetCommonErrorBody(call.value, parseJson)
      case Err(_) => Stop(call)
      case Ok(body) =>
        if body.returnCode == ApiErrorDetachingMountedStorage then RetryAfter(call.value)
        else Stop(call)
  }

  /** A delete error without a body (a dropped connection reports just `EOF`) makes the written
      closure panic. */
  lemma DeleteAttemptAsWrittenPanicsOnBareError(parseJson: string -> Option<CommonError>)
    ensures DeleteAttemptAsWritten(Some("EOF"), parseJson) == None
  {
    assert forall i: nat :: !OccursAt("EOF", BodySeparator, i);
  }

  /** Wherever the written closure does not panic, the corrected one answers the same. */
  lemma DeleteAttemptAgreesWithAsWritten(call: Option<string>, parseJson: string -> Option<CommonError>)
    ensures DeleteAttemptAsWritten(call, parseJson).None? <==>
            call.Some? && GetCommonErrorBody(call.value, parseJson).Err?
    ensures DeleteAttemptAsWritten(call, parseJson).Some? ==>
            DeleteAttemptAsWritten(call, parseJson) == Some(DeleteAttempt(call, parseJson))
  {
  }

  /** The end of a retry loop. `RetryTimedOut` stands for the attempts running out. */
  datatype RetryOutcome = Finished(err: Option<string>) | RetryTimedOut

  /** The framework's retry loop run over successive attempts. */
  function RunRetry(steps: seq<RetryStep>): RetryOutcome
  {
    if |steps| == 0 then RetryTimedOut
    else match steps[0]
      case Stop(e) => Finished(e)
      case RetryAfter(_) => RunRetry(steps[1..])
  }

  lemma {:induction false} RunRetrySucceedsIff(steps: seq<RetryStep>)
    ensures RunRetry(steps) == Finished(None) <==>
            exists k :: 0 <= k < |steps| && steps[k] == Stop(None) && forall j :: 0 <= j < k ==> steps[j].RetryAfter?
  {
    if |steps| > 0 {
      RunRetrySucceedsIff(steps[1..]);
      if RunRetry(steps) == Finished(None) && steps[0].RetryAfter? {
        var k :| 0 <= k < |steps[1..]| && steps[1..][k] == Stop(None) && forall j :: 0 <= j < k ==> steps[1..][j].RetryAfter?;
        assert steps[k + 1] == Stop(None);
        assert forall j :: 0 <= j < k + 1 ==> steps[j].RetryAfter? by {
          forall j | 0 < j < k + 1 ensures steps[j].RetryAfter? {
            assert steps[j] == steps[1..][j - 1];
          }
        }
      }
      if exists k :: 0 <= k < |steps| && steps[k] == Stop(None) && forall j :: 0 <= j < k ==> steps[j].RetryAfter? {
        var k :| 0 <= k < |steps| && steps[k] == Stop(None) && forall j :: 0 <= j < k ==> steps[j].RetryAfter?;
        if k > 0 {
          assert steps[1..][k - 1] == Stop(None);
          assert forall j :: 0 <= j < k - 1 ==> steps[1..][j].RetryAfter? by {
            forall j | 0 <= j < k - 1 ensures steps[1..][j].RetryAfter? {
              assert steps[1..][j] == steps[j + 1];
            }
          }
        }
      }
    }
  }

  function DeleteAttempts(calls: seq<Option<string>>, parseJson: string -> Option<CommonError>): seq<RetryStep>
  {
    seq(|calls|, i requires 0 <= i < |calls| => DeleteAttempt(calls[i], parseJson))
  }

  /** `deleteBlockStorage`: the retried delete call (identical on both platforms), then the wait
      for `TERMINATED`. The result is the error returned, if any. */
  function DeleteBlockStorage(calls: seq<Option<string>>, parseJson: string -> Option<CommonError>,
                              refreshes: seq<Result<Option<BlockStorage>>>): Option<string>
  {
    match RunRetry(DeleteAttempts(calls, parseJson))
    case RetryTimedOut => Some("timeout while deleting block storage")
    case Finished(Some(e)) => Some(e)
    case Finished(None) =>
      match WaitForState(DeleteWait, DeleteRefreshes(refreshes))
      case Reached(_) => None
      case WaitFailed(e) => Some("error waiting for BlockStorageInstance state to be \"TERMINATED\": " + e)
      case TimedOut => Some("error waiting for BlockStorageInstance state to be \"TERMINATED\": timeout")
  }

  /** The delete call is repeated only while it fails with the detaching code, and stops at the
      first call that succeeds. */
  lemma DeleteRetriesOnlyWhileDetaching(calls: seq<Option<string>>, parseJson: string -> Option<CommonError>)
    ensures RunRetry(DeleteAttempts(calls, parseJson)) == Finished(None) <==>
            exists k :: 0 <= k < |calls| && calls[k].None? && forall j :: 0 <= j < k ==> Detaching(calls[j], parseJson)
  {
    var steps := DeleteAttempts(calls, parseJson);
    RunRetrySucceedsIff(steps);
    assert forall j :: 0 <= j < |calls| ==> (steps[j].RetryAfter? <==> Detaching(calls[j], parseJson));
    assert forall j :: 0 <= j < |calls| ==> (steps[j] == Stop(None) <==> calls[j].None?);
  }

  /** Delete succeeds exactly when some delete call succeeds after only detaching failures, and
      the instance is then seen `TERMINATED` or found absent after being seen only `INIT` or
      `ATTAC`. */
  lemma DeleteSucceedsIff(calls: seq<Option<string>>, parseJson: string -> Option<CommonError>,
                          gs: seq<Result<Option<BlockStorage>>>)
    ensures DeleteBlockStorage(calls, parseJson, gs).None? <==>
            (exists k :: 0 <= k < |calls| && calls[k].None? && forall j :: 0 <= j < k ==> Detaching(calls[j], parseJson)) &&
            (exists m :: 0 <= m < |gs| && (gs[m] == Ok(None) || FoundWithStatus(gs[m], {"TERMINATED"})) &&
                         forall i :: 0 <= i < m ==> FoundWithStatus(gs[i], {"INIT", "ATTAC"}))
  {
    DeleteRetriesOnlyWhileDetaching(calls, parseJson);
    var rs := DeleteRefreshes(gs);
    WaitReachedIff(DeleteWait, rs, "TERMINATED");
    WaitReachesOnlyTarget(DeleteWait, rs);
    forall j | 0 <= j < |gs|
      ensures StillPending(DeleteWait, rs[j]) <==> FoundWithStatus(gs[j], {"INIT", "ATTAC"})
      ensures rs[j] == Observed("TERMINATED") <==> gs[j] == Ok(None) || FoundWithStatus(gs[j], {"TERMINATED"})
    {
    }
  }

  /** Once a successful delete call is followed by a lookup that finds nothing, delete succeeds. */
  lemma DeleteEndsWhenInstanceGone(calls: seq<Option<string>>, parseJson: string -> Option<CommonError>,
                                   refreshes: seq<Result<Option<BlockStorage>>>)
    requires |calls| > 0 && calls[0].None?
    requires |refreshes| > 0 && refreshes[0] == Ok(None)
    ensures DeleteBlockStorage(calls, parseJson, refreshes).None?
  {
    assert DeleteAttempts(calls, parseJson)[0] == Stop(None);
    assert DeleteRefreshes(refreshes)[0] == Observed("TERMINATED");
  }

  // ================================================================ handlers

  /** Attribute keys of the resource's schema. */
  const SchemaKeys: set<string> := {
    "server_instance_no", "size", "name", "description", "disk_detail_type", "zone", "snapshot_no",
    "block_storage_no", "server_name", "type", "device_name", "product_code", "status", "operation",
    "disk_type", "instance_status", "instance_operation", "instance_status_name", "instance_no"
  }

  /** The JSON field names of the transfer object. */
  const DtoKeys: set<string> := {
    "block_storage_no", "server_instance_no", "server_name", "type", "name", "size", "device_name",
    "product_code", "status", "operation", "status_name", "description", "disk_type",
    "disk_detail_type", "zone"
  }

  function StrOrNil(p: Option<string>): Option<AttrValue>
  {
    if p.Some? then Some(Str(p.value)) else None
  }

  /** The field of `b` stored under JSON name `k`, or `None` when it is nil. */
  function DtoField(b: BlockStorage, k: string): Option<AttrValue>
  {
    if k == "block_storage_no" then StrOrNil(b.blockStorageInstanceNo)
    else if k == "server_instance_no" then StrOrNil(b.serverInstanceNo)
    else if k == "server_name" then StrOrNil(b.serverName)
    else if k == "type" then StrOrNil(b.blockStorageType)
    else if k == "name" then StrOrNil(b.blockStorageName)
    else if k == "size" then (if b.blockStorageSize.Some? then Some(Int(b.blockStorageSize.value)) else None)
    else if k == "device_name" then StrOrNil(b.deviceName)
    else if k == "product_code" then StrOrNil(b.blockStorageProductCode)
    else if k == "status" then StrOrNil(b.status)
    else if k == "operation" then StrOrNil(b.operation)
    else if k == "status_name" then StrOrNil(b.statusName)
    else if k == "description" then StrOrNil(b.description)
    else if k == "disk_type" then StrOrNil(b.diskType)
    else if k == "disk_detail_type" then StrOrNil(b.diskDetailType)
    else if k == "zone" then StrOrNil(b.zoneCode)
    else None
  }

  /** The object as an attribute map under its JSON field names; nil fields are omitted. */
  function DtoAttributes(b: BlockStorage): map<string, AttrValue>
  {
    map k | k in DtoKeys && DtoField(b, k).Some? :: DtoField(b, k).value
  }

  /** The entries of the object's map that the schema knows, which the read writes into `d`:
      all but `status_name`, the one JSON name the schema lacks. */
  function SchemaWrites(b: BlockStorage): map<string, AttrValue>
  {
    DtoAttributes(b) - {"status_name"}
  }

  lemma SchemaWritesWithinSchema(b: BlockStorage)
    ensures SchemaWrites(b).Keys <= SchemaKeys
    ensures forall k :: k in DtoAttributes(b) && k in SchemaKeys ==> k in SchemaWrites(b)
  {
  }

  /** The deprecated attributes the classic read copies from the current ones. */
  function DeprecatedMirror(b: BlockStorage): map<string, AttrValue>
  {
    map[
      "instance_operation" := Str(StringOrEmpty(b.operation)),
      "instance_status" := Str(StringOrEmpty(b.status)),
      "instance_no" := Str(StringOrEmpty(b.blockStorageInstanceNo))
    ]
  }

  /** What a read does to `d`: whether it clears the ID, and which attributes it writes. */
  datatype ReadEffect = ReadEffect(clearId: bool, writes: map<string, AttrValue>)

  /** The read as written; `None` stands for the nil dereference when the classic lookup finds
      nothing. (On VPC the nil object converts to an empty map, so nothing is written.) */
  function ReadEffectAsWritten(supportVpc: bool, r: Option<BlockStorage>): Option<ReadEffect>
  {
    match r
    case None => if supportVpc then Some(ReadEffect(true, map[])) else None
    case Some(b) =>
      Some(ReadEffect(false, if supportVpc then SchemaWrites(b) else SchemaWrites(b) + DeprecatedMirror(b)))
  }

  /** The read with an absent instance ending the read once the ID is cleared. */
  function ReadEffectFor(supportVpc: bool, r: Option<BlockStorage>): ReadEffect
  {
    match r
    case None => ReadEffect(true, map[])
    case Some(b) => ReadEffect(false, if supportVpc then SchemaWrites(b) else SchemaWrites(b) + DeprecatedMirror(b))
  }

  lemma ReadAsWrittenPanicsOnMissingClassic()
    ensures ReadEffectAsWritten(false, None) == None
  {
  }

  /** Wherever the written read does not panic, the corrected one has the same effect. */
  lemma ReadEffectAgreesWithAsWritten(supportVpc: bool, r: Option<BlockStorage>)
    ensures ReadEffectAsWritten(supportVpc, r).None? <==> !supportVpc && r.None?
    ensures ReadEffectAsWritten(supportVpc, r).Some? ==> ReadEffectAsWritten(supportVpc, r) == Some(ReadEffectFor(supportVpc, r))
  {
  }

  /** The entries of the object's map the deprecated attributes copy, and the keys it never has. */
  lemma DtoAttributesFacts(b: BlockStorage)
    ensures var m := DtoAttributes(b);
            && "instance_operation" !in m && "instance_status" !in m && "instance_no" !in m
            && (b.operation.Some? ==> "operation" in m && m["operation"] == Str(b.operation.value))
            && (b.status.Some? ==> "status" in m && m["status"] == Str(b.status.value))
            && (b.blockStorageInstanceNo.Some? ==> "block_storage_no" in m && m["block_storage_no"] == Str(b.blockStorageInstanceNo.value))
  {
  }

  /** On classic the deprecated attributes mirror `operation`, `status` and `block_storage_no`;
      on VPC none of them is written. `status_name` is never written: the schema has no such key. */
  lemma ReadMirrorsDeprecatedOnClassic(supportVpc: bool, b: BlockStorage)
    ensures var w := ReadEffectFor(supportVpc, Some(b)).writes;
            && !ReadEffectFor(supportVpc, Some(b)).clearId
            && "status_name" !in w
            && (!supportVpc ==>
                  && w["instance_operation"] == Str(StringOrEmpty(b.operation))
                  && w["instance_status"] == Str(StringOrEmpty(b.status))
                  && w["instance_no"] == Str(StringOrEmpty(b.blockStorageInstanceNo))
                  && (b.operation.Some? ==> w["instance_operation"] == w["operation"])
                  && (b.status.Some? ==> w["instance_status"] == w["status"])
                  && (b.blockStorageInstanceNo.Some? ==> w["instance_no"] == w["block_storage_no"]))
            && (supportVpc ==> "instance_operation" !in w && "instance_status" !in w && "instance_no" !in w)
  {
    DtoAttributesFacts(b);
  }

  /** `d` after applying `e` to the state `(id, attrs)`. */
  ghost predicate Applied(e: ReadEffect, id: string, attrs: map<string, AttrValue>, d: ResourceData)
    reads d
  {
    d.id == (if e.clearId then "" else id) && d.attrs == attrs + e.writes
  }

  lemma MergeThree<K, V>(a: map<K, V>, w: map<K, V>, k1: K, v1: V, k2: K, v2: V, k3: K, v3: V)
    ensures (a + w)[k1 := v1][k2 := v2][k3 := v3] == a + (w + map[k1 := v1, k2 := v2, k3 := v3])
  {
  }

  /** `resourceNcloudBlockStorageRead` (and the update handler, which only reads); `fetched` is
      what the lookup of `d.id` answers. */
  method ResourceRead(d: ResourceData, supportVpc: bool, fetched: Result<Option<BlockStorage>>) returns (err: Option<string>)
    modifies d
    ensures fetched.Err? ==> err == Some(fetched.error) && d.id == old(d.id) && d.attrs == old(d.attrs)
    ensures fetched.Ok? ==> err.None? && Applied(ReadEffectFor(supportVpc, fetched.value), old(d.id), old(d.attrs), d)
  {
    if fetched.Err? {
      return Some(fetched.error);
    }
    var r := fetched.value;
    if r.None? {
      d.SetId("");
      return None;
    }
    var b := r.value;
    d.SetAll(SchemaWrites(b));
    if !supportVpc {
      d.Set("instance_operation", Str(StringOrEmpty(b.operation)));
      d.Set("instance_status", Str(StringOrEmpty(b.status)));
      d.Set("instance_no", Str(StringOrEmpty(b.blockStorageInstanceNo)));
      MergeThree(old(d.attrs), SchemaWrites(b), "instance_operation", Str(StringOrEmpty(b.operation)),
                 "instance_status", Str(StringOrEmpty(b.status)), "instance_no", Str(StringOrEmpty(b.blockStorageInstanceNo)));
    }
    return None;
  }

  /** `resourceNcloudBlockStorageCreate`: create and wait, record the ID, then read. */
  method ResourceCreate(d: ResourceData, supportVpc: bool, created: Result<Option<string>>,
                        refreshes: seq<Result<Option<BlockStorage>>>, fetched: Result<Option<BlockStorage>>)
    returns (err: Option<string>)
    modifies d
    ensures var c := CreateBlockStorage(created, refreshes);
            && (c.Err? ==> err == Some(c.error) && d.id == old(d.id) && d.attrs == old(d.attrs))
            && (c.Ok? && fetched.Err? ==> err == Some(fetched.error) && d.id == StringOrEmpty(c.value) && d.attrs == old(d.attrs))
            && (c.Ok? && fetched.Ok? ==> err.None? && Applied(ReadEffectFor(supportVpc, fetched.value), StringOrEmpty(c.value), old(d.attrs), d))
  {
    var c := CreateBlockStorage(created, refreshes);
    if c.Err? {
      return Some(c.error);
    }
    d.SetId(StringOrEmpty(c.value));
    err := ResourceRead(d, supportVpc, fetched);
  }

  /** `resourceNcloudBlockStorageDelete`: delete, wait, then clear the ID. */
  method ResourceDelete(d: ResourceData, calls: seq<Option<string>>, parseJson: string -> Option<CommonError>,
                        refreshes: seq<Result<Option<BlockStorage>>>)
    returns (err: Option<string>)
    modifies d
    ensures err == DeleteBlockStorage(calls, parseJson, refreshes)
    ensures d.attrs == old(d.attrs)
    ensures d.id == if err.None? then "" else old(d.id)
  {
    err := DeleteBlockStorage(calls, parseJson, refreshes);
    if err.None? {
      d.SetId("");
    }
  }
}
