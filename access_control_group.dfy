/** The access-control-group data source of internal/service/server/access_control_group_data_source.go:
    build the list request from the configured arguments, turn every returned record into an
    attribute map, and write the one resource that survives filtering. */
module AccessControlGroup {
  import opened Wrappers
  import opened ConvertTypes
  import opened Schema

  // ------------------------------------------------------------- requests

  /** `vserver.GetAccessControlGroupListRequest`, restricted to the fields the data source sets. */
  datatype VpcListRequest = VpcListRequest(
    regionCode: Option<string>,
    accessControlGroupName: Option<string>,
    vpcNo: Option<string>,
    accessControlGroupNoList: Option<seq<string>>)

  /** `server.GetAccessControlGroupListRequest`, restricted to the fields the data source sets. */
  datatype ClassicListRequest = ClassicListRequest(
    accessControlGroupName: Option<string>,
    accessControlGroupConfigurationNoList: Option<seq<string>>,
    isDefault: Option<bool>,
    pageNo: Option<int>)

  /** `getVpcAccessControlGroupList`, request part: `name` and `vpc_no` are sent when set, and a set
      `id` becomes the one-element number list. */
  method VpcRequest(d: ResourceData, regionCode: string) returns (req: VpcListRequest)
    ensures req.regionCode == Some(regionCode)
    ensures req.accessControlGroupName == SetString(d, "name")
    ensures req.vpcNo == SetString(d, "vpc_no")
    ensures req.accessControlGroupNoList.Some? <==> SetString(d, "id").Some?
    ensures SetString(d, "id").Some? ==> req.accessControlGroupNoList == Some([SetString(d, "id").value])
  {
    var (name, nameOk) := d.GetOkString("name");
    var (vpcNo, vpcNoOk) := d.GetOkString("vpc_no");
    req := VpcListRequest(Some(regionCode), StringPtrOrNil(name, nameOk), StringPtrOrNil(vpcNo, vpcNoOk), None);
    var (id, idOk) := d.GetOkString("id");
    if idOk {
      req := req.(accessControlGroupNoList := Some([id]));
    }
  }

  /** `getClassicAccessControlGroupList`, request part, as written: `id` and `configuration_no` are
      string attributes, so the `[]interface{}` assertion on either one panics (`None`). */
  function ClassicRequestAsWritten(d: ResourceData): (req: Option<ClassicListRequest>)
    reads d
    ensures req.None? <==> SetString(d, "id").Some? || SetString(d, "configuration_no").Some?
    ensures req.Some? ==> req.value.accessControlGroupConfigurationNoList.None?
    ensures req.Some? ==> req.value.pageNo == Some(1)
  {
    var (name, nameOk) := d.GetOkString("name");
    if d.GetOkString("id").1 || d.GetOkString("configuration_no").1 then None
    else
      var (isDefault, isDefaultOk) := d.GetOkBool("is_default");
      var (isDefaultGroup, isDefaultGroupOk) := d.GetOkBool("is_default_group");
      var flag := if isDefaultOk then Some(isDefault) else if isDefaultGroupOk then Some(isDefaultGroup) else None;
      Some(ClassicListRequest(StringPtrOrNil(name, nameOk), None, flag, Some(1)))
  }

  /** Looking an access control group up by its number on classic panics before any request is sent. */
  lemma ClassicRequestAsWrittenPanicsOnId(d: ResourceData)
    requires "id" in d.attrs && d.attrs["id"] == Str("12345")
    ensures ClassicRequestAsWritten(d) == None
  {
  }

  /** `getClassicAccessControlGroupList`, request part, with the number wrapped into a one-element
      list: `id` takes precedence over `configuration_no`, `is_default` over `is_default_group`,
      and the first page is always asked for. */
  method ClassicRequest(d: ResourceData) returns (req: ClassicListRequest)
    ensures req.accessControlGroupName == SetString(d, "name")
    ensures req.accessControlGroupConfigurationNoList ==
              if SetString(d, "id").Some? then Some([SetString(d, "id").value])
              else if SetString(d, "configuration_no").Some? then Some([SetString(d, "configuration_no").value])
              else None
    ensures req.isDefault.Some? <==> SetTrue(d, "is_default") || SetTrue(d, "is_default_group")
    ensures req.isDefault != Some(false)
    ensures req.pageNo == Some(1)
  {
    var (name, nameOk) := d.GetOkString("name");
    req := ClassicListRequest(StringPtrOrNil(name, nameOk), None, None, None);

    var (id, idOk) := d.GetOkString("id");
    var (configurationNo, configurationNoOk) := d.GetOkString("configuration_no");
    if idOk {
      req := req.(accessControlGroupConfigurationNoList := Some([id]));
    } else if configurationNoOk {
      req := req.(accessControlGroupConfigurationNoList := Some([configurationNo]));
    }

    var (isDefault, isDefaultOk) := d.GetOkBool("is_default");
    var (isDefaultGroup, isDefaultGroupOk) := d.GetOkBool("is_default_group");
    if isDefaultOk {
      req := req.(isDefault := Some(isDefault));
    } else if isDefaultGroupOk {
      req := req.(isDefault := Some(isDefaultGroup));
    }

    req := req.(pageNo := Some(1));
  }

  /** Where the written request does not panic, it is the corrected one. */
  lemma ClassicRequestAgreesWhenNoNumber(d: ResourceData)
    requires SetString(d, "id").None? && SetString(d, "configuration_no").None?
    ensures ClassicRequestAsWritten(d).Some?
    ensures ClassicRequestAsWritten(d).value.accessControlGroupName == SetString(d, "name")
    ensures ClassicRequestAsWritten(d).value.isDefault.Some? <==> SetTrue(d, "is_default") || SetTrue(d, "is_default_group")
    ensures ClassicRequestAsWritten(d).value.isDefault != Some(false)
  {
  }

  // ------------------------------------------------------------ conversion

  /** An access control group as the VPC API returns it; every field is taken as present. */
  datatype VpcRecord = VpcRecord(
    accessControlGroupNo: string,
    accessControlGroupName: string,
    accessControlGroupDescription: string,
    isDefault: bool,
    vpcNo: string)

  /** An access control group as the classic API returns it; only `IsDefaultGroup` may be nil. */
  datatype ClassicRecord = ClassicRecord(
    accessControlGroupConfigurationNo: string,
    accessControlGroupName: string,
    accessControlGroupDescription: string,
    isDefaultGroup: Option<bool>)

  /** One `map[string]interface{}` of the `resources` list. */
  type Resource = map<string, AttrValue>

  /** `m` is the map the VPC list makes of `r`: the group number under both `id` and
      `access_control_group_no`, and the other four fields under their own keys. */
  ghost predicate VpcConverted(r: VpcRecord, m: Resource)
  {
    && m.Keys == {"id", "access_control_group_no", "name", "description", "is_default", "vpc_no"}
    && m["id"] == Str(r.accessControlGroupNo)
    && m["access_control_group_no"] == m["id"]
    && m["name"] == Str(r.accessControlGroupName)
    && m["description"] == Str(r.accessControlGroupDescription)
    && m["is_default"] == Bool(r.isDefault)
    && m["vpc_no"] == Str(r.vpcNo)
  }

  /** `m` is the map the classic list makes of `r`: the configuration number under `id`,
      `access_control_group_no` and `configuration_no`; the default flag under both `is_default` and
      `is_default_group` exactly when the record carries one. */
  ghost predicate ClassicConverted(r: ClassicRecord, m: Resource)
  {
    && m.Keys == {"id", "access_control_group_no", "name", "description", "configuration_no"}
                 + (if r.isDefaultGroup.Some? then {"is_default", "is_default_group"} else {})
    && m["id"] == Str(r.accessControlGroupConfigurationNo)
    && m["access_control_group_no"] == m["id"]
    && m["configuration_no"] == m["id"]
    && m["name"] == Str(r.accessControlGroupName)
    && m["description"] == Str(r.accessControlGroupDescription)
    && (r.isDefaultGroup.Some? ==>
          m["is_default"] == Bool(r.isDefaultGroup.value) && m["is_default_group"] == m["is_default"])
  }

  /** `getVpcAccessControlGroupList`, conversion part: one map per record, in order. */
  method VpcResources(records: seq<VpcRecord>) returns (resources: seq<Resource>)
    ensures |resources| == |records|
    ensures forall i :: 0 <= i < |records| ==> VpcConverted(records[i], resources[i])
  {
    resources := [];
    for i := 0 to |records|
      invariant |resources| == i
      invariant forall j :: 0 <= j < i ==> VpcConverted(records[j], resources[j])
    {
      var r := records[i];
      var instance := map[
        "id" := Str(r.accessControlGroupNo),
        "access_control_group_no" := Str(r.accessControlGroupNo),
        "name" := Str(r.accessControlGroupName),
        "description" := Str(r.accessControlGroupDescription),
        "is_default" := Bool(r.isDefault),
        "vpc_no" := Str(r.vpcNo)
      ];
      resources := resources + [instance];
    }
  }

  /** `getClassicAccessControlGroupList`, conversion part: one map per record, in order, the
      default flag added in place when the record has one. */
  method ClassicResources(records: seq<ClassicRecord>) returns (resources: seq<Resource>)
    ensures |resources| == |records|
    ensures forall i :: 0 <= i < |records| ==> ClassicConverted(records[i], resources[i])
  {
    resources := [];
    for i := 0 to |records|
      invariant |resources| == i
      invariant forall j :: 0 <= j < i ==> ClassicConverted(records[j], resources[j])
    {
      var r := records[i];
      var instance := map[
        "id" := Str(r.accessControlGroupConfigurationNo),
        "access_control_group_no" := Str(r.accessControlGroupConfigurationNo),
        "name" := Str(r.accessControlGroupName),
        "description" := Str(r.accessControlGroupDescription),
        "configuration_no" := Str(r.accessControlGroupConfigurationNo)
      ];
      if r.isDefaultGroup.Some? {
        instance := instance["is_default" := Bool(r.isDefaultGroup.value)];
        instance := instance["is_default_group" := Bool(r.isDefaultGroup.value)];
      }
      resources := resources + [instance];
    }
  }

  /** On both platforms the map's `id` is the group's number, so the ID written on success is it. */
  lemma ConvertedIdIsGroupNumber(v: VpcRecord, vm: Resource, c: ClassicRecord, cm: Resource)
    requires VpcConverted(v, vm) && ClassicConverted(c, cm)
    ensures "id" in vm && vm["id"] == vm["access_control_group_no"] == Str(v.accessControlGroupNo)
    ensures "id" in cm && cm["id"] == cm["configuration_no"] == Str(c.accessControlGroupConfigurationNo)
    ensures ("is_default" in cm) == ("is_default_group" in cm) == c.isDefaultGroup.Some?
  {
  }

  // ------------------------------------------------------------------ read

  /** `verify.ValidateOneResult`: an error unless the count is exactly one. */
  function ValidateOneResult(n: nat): (err: Option<string>)
    ensures err.None? <==> n == 1
  {
    if n == 0 then Some("no results. please change search criteria and try again")
    else if n > 1 then Some("more than one found results. please change search criteria and try again")
    else None
  }

  /** The resources left after the optional `filter` block; `filter == None` is an unset block. */
  function Filtered(filter: Option<seq<Resource> -> seq<Resource>>, resources: seq<Resource>): seq<Resource>
  {
    if filter.Some? then filter.value(resources) else resources
  }

  /** `dataSourceNcloudAccessControlGroupRead`: `fetchedVpc`/`fetchedClassic` stand for the list
      call of the platform `supportVpc` selects, `filter` for `ApplyFilters`. On success the ID and
      attributes come from the one remaining resource; on failure `d` is untouched. `resources` is
      the converted list before filtering. */
  method DataSourceRead(d: ResourceData, supportVpc: bool,
                        fetchedVpc: Result<seq<VpcRecord>>, fetchedClassic: Result<seq<ClassicRecord>>,
                        filter: Option<seq<Resource> -> seq<Resource>>)
    returns (err: Option<string>, resources: seq<Resource>)
    modifies d
    ensures supportVpc && fetchedVpc.Err? ==> err == Some(fetchedVpc.error)
    ensures !supportVpc && fetchedClassic.Err? ==> err == Some(fetchedClassic.error)
    ensures supportVpc && fetchedVpc.Ok? ==>
              |resources| == |fetchedVpc.value| &&
              forall i :: 0 <= i < |resources| ==> VpcConverted(fetchedVpc.value[i], resources[i])
    ensures !supportVpc && fetchedClassic.Ok? ==>
              |resources| == |fetchedClassic.value| &&
              forall i :: 0 <= i < |resources| ==> ClassicConverted(fetchedClassic.value[i], resources[i])
    ensures err.None? <==> (if supportVpc then fetchedVpc.Ok? else fetchedClassic.Ok?) && |Filtered(filter, resources)| == 1
    ensures err.None? ==>
              var m := Filtered(filter, resources)[0];
              d.attrs == old(d.attrs) + m &&
              d.id == (if "id" in m && m["id"].Str? then m["id"].s else old(d.id))
    ensures err.Some? ==> d.attrs == old(d.attrs) && d.id == old(d.id)
    ensures err.None? && filter.None? ==>
              d.id == if supportVpc then fetchedVpc.value[0].accessControlGroupNo
                      else fetchedClassic.value[0].accessControlGroupConfigurationNo
  {
    if supportVpc {
      if fetchedVpc.Err? {
        return Some(fetchedVpc.error), [];
      }
      resources := VpcResources(fetchedVpc.value);
    } else {
      if fetchedClassic.Err? {
        return Some(fetchedClassic.error), [];
      }
      resources := ClassicResources(fetchedClassic.value);
    }

    var remaining := resources;
    if filter.Some? {
      remaining := filter.value(resources);
    }

    err := ValidateOneResult(|remaining|);
    if err.Some? {
      return;
    }

    d.SetFromMap(remaining[0]);
  }
}
