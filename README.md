# Block storage and access control groups of the Ncloud Terraform provider, in Dafny

This project models the core of the Naver Cloud Platform Terraform provider. It covers:

- the API error codes, the byte-unit table and the retryable-error test of `ncloud/common.go`;
- the pointer helpers and the error-body split of `ncloud/convert_types.go`;
- the `ncloud_block_storage` resource (`ncloud/resource_ncloud_block_storage.go`):
  - the size rule and the `int32` conversion of the VPC request;
  - the lookup that turns the first record of either platform's answer into one transfer object;
  - the wait rules after create (`INIT`/`CREAT` until `ATTAC`) and after delete (`INIT`/`ATTAC`
    until `TERMINATED`, an absent instance counting as `TERMINATED`);
  - the retry of the delete call while the storage is still detaching (code `24002`);
  - the create, read and delete handlers, which update the Terraform state in place;
- the `ncloud_access_control_group` data source
  (`internal/service/server/access_control_group_data_source.go`):
  - the VPC and classic list requests;
  - the conversion of every returned record into an attribute map;
  - the rule that exactly one resource must remain after filtering.

Files:

- `wrappers.dfy`: `Option` stands for a Go pointer, `Result` for a `(value, error)` pair.
- `schema.dfy`: the slice of the SDK's `schema.ResourceData` the handlers use. It is a class with
  an ID and an attribute map, updated in place by `SetId`/`Set`, and read with `GetOk`. `GetOk`
  reports the zero value as unset, so a bool is "set" only when it is true.
- `common.dfy`, `convert_types.dfy`, `block_storage.dfy`, `access_control_group.dfy`: one module
  per source file.

API calls are replaced by their answers, passed as parameters. The framework's waiter and retry
loop are folds over the successive answers: `WaitForState` over refreshes, `RunRetry` over retry
steps. For the nil dereferences and failing type assertions listed under "## Findings", an "as
written" function returns `None` to stand for the panic. A corrected function sits beside it, and
a lemma shows that the two agree wherever the written code does not panic. Other pointers the
source dereferences without a check are taken as non-nil; "## Left out" lists them.

## Model

| member | source | states |
|---|---|---|
| Common.DetachingCodeIsDistinct | ncloud/common.go:13-26 | the detaching code is `24002`, and no other declared code has that value |
| Common.UnitSizeStep | ncloud/common.go:28-34 | each unit of the `1 << (10 * iota)` block is 1024 times the previous one |
| Common.UnitTable | ncloud/common.go:28-34 | BYTE..TERABYTE are 1, 1024, 1048576, 1073741824 and 1099511627776 |
| Common.IsRetryableErrIff | ncloud/common.go:67-75 | the test holds iff the response is non-nil, its return code is non-nil, and the code is in the list |
| Common.IsRetryableErrNeverWithoutCode | ncloud/common.go:67-75 | a nil response, a nil code or an empty list is never retryable |
| Common.IsRetryableErrIgnoresOrder | ncloud/common.go:67-75 | only the set of codes matters, not their order or repetition |
| Common.GetCommonErrorBodyAsWritten | ncloud/common.go:78-99 | it panics iff the body is isolated and decodes; a missing or repeated separator gives "error body is incorrect" |
| Common.CommonErrorBodyAsWrittenNeverSucceeds | ncloud/common.go:93 | this parser never returns a body: it fails or panics |
| Common.CommonErrorBodyAsWrittenPanicsOnBody | ncloud/common.go:93 | a well-formed `... Body: {}` error makes it panic |
| Common.CommonErrorBodyAgreesWhenNoPanic | ncloud/common.go:78-91 | where it returns, it returns the same error as the convert_types.go parser |
| ConvertTypes.StringPtrRoundTrip | ncloud/convert_types.go:142-147 | `ok == false` gives nil; `ok == true` gives a pointer to the value, which `StringOrEmpty` reads back |
| ConvertTypes.StringOrEmptyRoundTrip | ncloud/convert_types.go:150-156 | nil reads as ""; re-wrapping the value with "ok iff non-nil" gives back the same pointer |
| ConvertTypes.StringPtrArrToStringArr | ncloud/convert_types.go:159-166 | same length, and element i is what pointer i points to, in order |
| ConvertTypes.FindFrom | ncloud/convert_types.go:55 | the result is the first occurrence of the separator at or after `from`, or none exists |
| ConvertTypes.SplitInTwo | ncloud/convert_types.go:55-62 | for a non-self-overlapping separator, the split has two pieces iff it occurs exactly once, and then the second piece is the text after it |
| ConvertTypes.ErrorPayload | ncloud/convert_types.go:55-62 | a payload exists iff `Body: ` occurs exactly once, and it is the text after that occurrence |
| ConvertTypes.GetCommonErrorBody | ncloud/convert_types.go:54-75 | without exactly one separator: "error body is incorrect: " + text; otherwise it succeeds iff the payload decodes, with the decoded body |
| BlockStorageResource.ToInt32 | ncloud/resource_ncloud_block_storage.go:241 | `int32(x)` lies in the int32 range and is `x` when `x` already does |
| BlockStorageResource.AcceptedSizeFitsInt32 | ncloud/resource_ncloud_block_storage.go:241 | every size 10..1000 survives the `int32` conversion unchanged |
| BlockStorageResource.SizeInGiBBounds | ncloud/resource_ncloud_block_storage.go:295 | a byte count is reported as the whole number of GiB it holds, rounded down |
| BlockStorageResource.SizeInGiBRoundTrip | ncloud/resource_ncloud_block_storage.go:333 | n GiB in bytes is reported as exactly n |
| BlockStorageResource.GetClassicBlockStorage | ncloud/resource_ncloud_block_storage.go:272-308 | an API error is passed on; an empty list is absent; otherwise the object comes from the first record, with no zone |
| BlockStorageResource.GetVpcBlockStorage | ncloud/resource_ncloud_block_storage.go:310-347 | an API error is passed on; an empty list is absent; otherwise the object comes from the first record, with no server name |
| BlockStorageResource.LookupUsesFirstElementOnly | ncloud/resource_ncloud_block_storage.go:286-287 | two answers with the same first record give the same object |
| BlockStorageResource.GetBlockStorageDispatch | ncloud/resource_ncloud_block_storage.go:264-270 | `SupportVPC` alone decides which platform's answer is used |
| BlockStorageResource.CreateRequestOf | ncloud/resource_ncloud_block_storage.go:215-248 | the platform picks the request kind; optional fields are sent iff set; an accepted size is sent unchanged; on VPC the region is sent |
| BlockStorageResource.WaitRulesDisjoint | ncloud/resource_ncloud_block_storage.go:192-194 | the pending and target sets of each wait are disjoint; `ATTAC` ends the create wait but keeps the delete wait polling |
| BlockStorageResource.CreateRefresh | ncloud/resource_ncloud_block_storage.go:195-201 | a lookup error is passed on; a found instance reports its status; an absent one is an error |
| BlockStorageResource.CreateRefreshAsWrittenPanicsWhenAbsent | ncloud/resource_ncloud_block_storage.go:200 | the written closure panics when the lookup finds nothing |
| BlockStorageResource.CreateRefreshAgreesWithAsWritten | ncloud/resource_ncloud_block_storage.go:195-201 | the written closure panics only on an absent instance, and otherwise equals the corrected one |
| BlockStorageResource.DeleteRefresh | ncloud/resource_ncloud_block_storage.go:364-373 | a lookup error is passed on; an absent instance counts as `TERMINATED`; a found one reports its status |
| BlockStorageResource.WaitReachedIff | ncloud/resource_ncloud_block_storage.go:207-210 | a wait reaches `s` iff `s` is a target status observed after pending statuses only |
| BlockStorageResource.WaitReachesOnlyTarget | ncloud/resource_ncloud_block_storage.go:207-210 | a wait stops only at one of its target statuses |
| BlockStorageResource.CreateWaitsForAttached | ncloud/resource_ncloud_block_storage.go:178-213 | create succeeds iff the create call succeeded and the instance was seen `ATTAC` after only `INIT`/`CREAT`; it returns the created number |
| BlockStorageResource.DeleteAttempt | ncloud/resource_ncloud_block_storage.go:432-445 | retry iff the error body carries `24002`; stop with success iff the call succeeded; otherwise stop with the call's error |
| BlockStorageResource.DeleteAttemptAsWrittenPanicsOnBareError | ncloud/resource_ncloud_block_storage.go:437-439 | an error without a body (`EOF`) makes the written closure dereference nil |
| BlockStorageResource.DeleteAttemptAgreesWithAsWritten | ncloud/resource_ncloud_block_storage.go:433-445 | the written closure panics iff the error body does not parse, and otherwise equals the corrected one |
| BlockStorageResource.RunRetrySucceedsIff | ncloud/resource_ncloud_block_storage.go:428-446 | the retry loop succeeds iff some attempt succeeds after retryable failures only |
| BlockStorageResource.DeleteRetriesOnlyWhileDetaching | ncloud/resource_ncloud_block_storage.go:393-411 | the delete call succeeds iff some call succeeds and every earlier call failed with the detaching code |
| BlockStorageResource.DeleteSucceedsIff | ncloud/resource_ncloud_block_storage.go:349-385 | delete succeeds iff some call succeeds after only detaching failures, and the instance is then seen `TERMINATED` or absent after being seen only `INIT`/`ATTAC` |
| BlockStorageResource.DeleteEndsWhenInstanceGone | ncloud/resource_ncloud_block_storage.go:361-384 | a successful delete call followed by a lookup that finds nothing ends the delete with success |
| BlockStorageResource.SchemaWritesWithinSchema | ncloud/resource_ncloud_block_storage.go:149-151 | the read writes only schema keys, and every schema key the object's map has |
| BlockStorageResource.DtoAttributesFacts | ncloud/resource_ncloud_block_storage.go:457-474 | the object's map has no deprecated key; its `operation`, `status` and `block_storage_no` entries hold the object's fields |
| BlockStorageResource.ReadMirrorsDeprecatedOnClassic | ncloud/resource_ncloud_block_storage.go:153-158 | on classic, `instance_operation`, `instance_status` and `instance_no` equal `operation`, `status` and `block_storage_no`; on VPC none of them is written |
| BlockStorageResource.ReadAsWrittenPanicsOnMissingClassic | ncloud/resource_ncloud_block_storage.go:145-158 | on classic, a lookup that finds nothing reaches the nil dereference |
| BlockStorageResource.ReadEffectAgreesWithAsWritten | ncloud/resource_ncloud_block_storage.go:137-161 | the written read panics iff classic finds nothing, and otherwise has the corrected read's effect |
| BlockStorageResource.ResourceRead | ncloud/resource_ncloud_block_storage.go:137-161 | a lookup error leaves the state untouched; otherwise the state is the old one with the read's effect applied |
| BlockStorageResource.ResourceCreate | ncloud/resource_ncloud_block_storage.go:123-135 | a failed create leaves the state untouched; otherwise the ID is the created number, and then the read is applied |
| BlockStorageResource.ResourceDelete | ncloud/resource_ncloud_block_storage.go:163-172 | the error is the delete's; the ID is cleared iff it succeeded; no attribute changes |
| AccessControlGroup.VpcRequest | internal/service/server/access_control_group_data_source.go:95-104 | region always sent; `name`/`vpc_no` sent iff set; a set `id` becomes the one-element number list, otherwise the list is unset |
| AccessControlGroup.ClassicRequestAsWritten | internal/service/server/access_control_group_data_source.go:135-151 | it panics iff `id` or `configuration_no` is set; otherwise no number list, and page 1 |
| AccessControlGroup.ClassicRequestAsWrittenPanicsOnId | internal/service/server/access_control_group_data_source.go:139-140 | looking a group up by `id` on classic panics |
| AccessControlGroup.ClassicRequest | internal/service/server/access_control_group_data_source.go:132-151 | `id` takes precedence over `configuration_no`; the flag is sent iff `is_default` or `is_default_group` is true, and never as false; `PageNo` is 1 |
| AccessControlGroup.ClassicRequestAgreesWhenNoNumber | internal/service/server/access_control_group_data_source.go:145-151 | without a number, the written request has the corrected request's name and flag rule |
| AccessControlGroup.VpcResources | internal/service/server/access_control_group_data_source.go:115-129 | one map per record, in order; `id == access_control_group_no ==` the record's number; the other fields under their keys |
| AccessControlGroup.ClassicResources | internal/service/server/access_control_group_data_source.go:162-180 | one map per record, in order; `id`, `access_control_group_no` and `configuration_no` are the configuration number; `is_default == is_default_group` are present iff the record has the flag |
| AccessControlGroup.ConvertedIdIsGroupNumber | internal/service/server/access_control_group_data_source.go:164-175 | a converted map always has an `id`, equal to the group's number on both platforms |
| AccessControlGroup.ValidateOneResult | internal/service/server/access_control_group_data_source.go:86-88 | no error iff the count is exactly one |
| AccessControlGroup.DataSourceRead | internal/service/server/access_control_group_data_source.go:67-93 | a list error is returned; success iff exactly one resource remains after the filter; the state then holds that resource and its ID, which without a filter is the only record's group number; on failure the state is untouched |

## Left out

- SDK and HTTP calls, and logging (`logCommonRequest`, `logErrorResponse`, `logResponse`, `logCommonResponse`). Each API call is a parameter holding its answer.
- The timing of `resource.StateChangeConf.WaitForState` and `resource.Retry`: timeouts, delays, `MinTimeout` and the 5-second sleep. Running out of answers stands for the timeout, and its error text is not the library's.
- The reflection helpers of `ncloud/convert_types.go` (`validElem`, `validField`, `StringField`, `GetCommonResponse`, `GetRegion`, `GetZone`): they depend on Go runtime reflection.
- ConvertTypes.GetCommonErrorBody: JSON decoding is an abstract parser `parseJson`. A body that decodes but lacks `responseError` or its string fields makes the source panic; the model folds that into the parser's failure. The decoder's own error text is not modelled.
- `GetCommonErrorBody` is declared twice in package `ncloud`, once in `ncloud/common.go` and once in `ncloud/convert_types.go`, with different result types. Go rejects that at compile time. The model keeps the convert_types.go copy. The common.go copy is modelled only as written, as Common.GetCommonErrorBodyAsWritten, and the type `ResponseError` is not modelled.
- `ConvertToMap`, `SetSingularResourceDataFromMap`, `SetSingularResourceDataFromMapSchema`, `ApplyFilters`, `verify.ValidateOneResult` and `ExpandStringInterfaceList`: their bodies are not part of this model. They are modelled by these assumptions:
  - the map keeps the non-nil fields under their JSON names;
  - the `Schema` variant writes only the schema's keys;
  - the plain variant writes every entry and takes the ID from `id`;
  - the filter is any function on the list;
  - the count check fails unless the count is one, with messages of the model's own wording;
  - a nil object converts to an empty map.
- Schema.ResourceData: `d.Set` with a nil `*string` is taken to store "". Type conversion and schema validation by the SDK are not modelled.
- BlockStorageResource.CreateBlockStorage: the create response's `BlockStorageInstanceList[0]` is taken to exist. The created number is the parameter `created`.
- BlockStorageResource.FromClassic and BlockStorageResource.FromVpc: the nested `Code` pointers and the size pointer are taken as present. The size is an unbounded integer rather than `int64`.
- ConvertTypes.Split models `strings.Split` for a non-empty separator only. The one separator used is `Body: `.
- AccessControlGroup.VpcResources: every field of a VPC record is taken as non-nil. The source dereferences all five without a check, so a nil field panics there, and the model cannot express that record.
- AccessControlGroup.ClassicResources: every field of a classic record but `IsDefaultGroup` is taken as non-nil. The source dereferences them without a check, so a nil field panics there, and the model cannot express that record.
- ConvertTypes.StringPtrOrNil: the value is typed as a string. The source asserts `v.(string)` on an `interface{}`, which panics for a value of another type; every caller passes a string attribute.
- ConvertTypes.StringPtrArrToStringArr: a nil element panics in the source; the model requires every element to be non-nil.
- `resourceNcloudBlockStorageUpdate` only calls the read, so BlockStorageResource.ResourceRead covers it.
- The schema declarations are modelled only as the key set `SchemaKeys` and the size bound 10..1000. This also leaves out `ForceNew`, `Deprecated`, `ConflictsWith` and the timeouts.
- The other files of the repository are not part of this model: the sourcebuild data sources, the MySQL acceptance tests and the placement-group type.

## Findings

| source | as written | input that shows it | evidently intended | confidence | as-written member | corrected member |
|---|---|---|---|---|---|---|
| ncloud/resource_ncloud_block_storage.go:437-439 | the parse error of `GetCommonErrorBody` is dropped and `errBody.ReturnCode` is read from a nil pointer (also lines 402-404) | the delete call fails with the error text `EOF`, which has no `Body: ` part | stop retrying and return the call's error | high, not executed | BlockStorageResource.DeleteAttemptAsWrittenPanicsOnBareError | BlockStorageResource.DeleteAttempt |
| ncloud/resource_ncloud_block_storage.go:145-158 | after `d.SetId("")` for a nil object the read goes on, and on classic reads `r.Operation` | classic, and the lookup answers an empty list because the storage was deleted outside Terraform | clear the ID and return | high, not executed | BlockStorageResource.ReadAsWrittenPanicsOnMissingClassic | BlockStorageResource.ReadEffectFor |
| ncloud/resource_ncloud_block_storage.go:200 | the create refresh reads `instance.Status` without checking for nil | the first lookup after create answers an empty list | report the missing instance as a refresh error | medium, not executed | BlockStorageResource.CreateRefreshAsWrittenPanicsWhenAbsent | BlockStorageResource.CreateRefresh |
| internal/service/server/access_control_group_data_source.go:140 | `id` (and at line 142 `configuration_no`), both string attributes, are asserted to be `[]interface{}` | classic, with `id = "12345"` | send the number as a one-element list, as the VPC request does | high, not executed | AccessControlGroup.ClassicRequestAsWrittenPanicsOnId | AccessControlGroup.ClassicRequest |
| ncloud/common.go:93 | the decoded `responseError` is asserted to be `map[string]string`, which JSON decoding never produces | the error text `404 Not Found Body: {}` | assert `map[string]interface{}`, as ncloud/convert_types.go:69 does | high, not executed | Common.CommonErrorBodyAsWrittenPanicsOnBody | ConvertTypes.GetCommonErrorBody |
