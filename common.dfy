/** API return codes, the byte-unit table and the retryable-error test of ncloud/common.go. */
module Common {
  import opened Wrappers
  import opened ConvertTypes

  // Return codes the cloud API puts in an error body.
  const ApiErrorAuthorityParameter: string := "800"
  const ApiErrorUnknown: string := "1300"
  const ApiErrorObjectInOperation: string := "25013"
  const ApiErrorPortForwardingObjectInOperation: string := "25033"
  /** Server termination and creation were requested at the same time. */
  const ApiErrorServerObjectInOperation: string := "23006"
  const ApiErrorServerObjectInOperation2: string := "25017"
  const ApiErrorPreviousServersHaveNotBeenEntirelyTerminated: string := "23003"
  /** The storage is still being detached from its server. */
  const ApiErrorDetachingMountedStorage: string := "24002"
  const ApiErrorAcgCantChangeSameTime: string := "1007009"

  /** Every declared code, in declaration order. */
  const ApiErrorCodes: seq<string> := [
    ApiErrorAuthorityParameter, ApiErrorUnknown,
    ApiErrorObjectInOperation, ApiErrorPortForwardingObjectInOperation,
    ApiErrorServerObjectInOperation, ApiErrorServerObjectInOperation2,
    ApiErrorPreviousServersHaveNotBeenEntirelyTerminated,
    ApiErrorDetachingMountedStorage,
    ApiErrorAcgCantChangeSameTime
  ]

  lemma DetachingCodeIsDistinct()
    ensures ApiErrorDetachingMountedStorage == "24002"
    ensures forall i :: 0 <= i < |ApiErrorCodes| && ApiErrorCodes[i] == ApiErrorDetachingMountedStorage ==> i == 7
  {
  }

  // ---------------------------------------------------------------- units

  function Pow2(n: nat): (r: nat)
    ensures r >= 1
  {
    if n == 0 then 1 else 2 * Pow2(n - 1)
  }

  /** The value of the `iota`-th constant of the `1 << (10 * iota)` block. */
  function UnitSize(iota: nat): nat
  {
    Pow2(10 * iota)
  }

  const Byte: nat := UnitSize(0)
  const Kilobyte: nat := UnitSize(1)
  const Megabyte: nat := UnitSize(2)
  const Gigabyte: nat := UnitSize(3)
  const Terabyte: nat := UnitSize(4)

  lemma {:induction false} Pow2Add(a: nat, b: nat)
    ensures Pow2(a + b) == Pow2(a) * Pow2(b)
  {
    if a > 0 {
      Pow2Add(a - 1, b);
    }
  }

  /** Each unit is 1024 times the one before it. */
  lemma UnitSizeStep(iota: nat)
    ensures UnitSize(iota + 1) == 1024 * UnitSize(iota)
  {
    Pow2Add(10 * iota, 10);
    assert Pow2(10) == 1024;
  }

  lemma UnitTable()
    ensures Byte == 1
    ensures Kilobyte == 1024
    ensures Megabyte == 1048576
    ensures Gigabyte == 1073741824
    ensures Terabyte == 1099511627776
  {
    UnitSizeStep(0);
    UnitSizeStep(1);
    UnitSizeStep(2);
    UnitSizeStep(3);
  }

  // ------------------------------------------------------- retryable errors

  /** The common header every API response carries; each field may be absent. */
  datatype CommonResponse = CommonResponse(requestId: Option<string>, returnCode: Option<string>, returnMessage: Option<string>)

  /** Scans `codes` in order and answers true at the first one equal to the response's return code;
      `resp == None` is a nil response. */
  function IsRetryableErr(resp: Option<CommonResponse>, codes: seq<string>): bool
  {
    if |codes| == 0 then false
    else if resp.Some? && resp.value.returnCode.Some? && resp.value.returnCode.value == codes[0] then true
    else IsRetryableErr(resp, codes[1..])
  }

  lemma {:induction false} IsRetryableErrIff(resp: Option<CommonResponse>, codes: seq<string>)
    ensures IsRetryableErr(resp, codes) <==>
            resp.Some? && resp.value.returnCode.Some? && resp.value.returnCode.value in codes
  {
    if |codes| > 0 {
      IsRetryableErrIff(resp, codes[1..]);
      assert codes == [codes[0]] + codes[1..];
    }
  }

  lemma {:induction false} IsRetryableErrNeverWithoutCode(resp: Option<CommonResponse>, codes: seq<string>)
    requires resp.None? || resp.value.returnCode.None? || |codes| == 0
    ensures !IsRetryableErr(resp, codes)
  {
    IsRetryableErrIff(resp, codes);
  }

  function CodeSet(codes: seq<string>): set<string>
  {
    set c | c in codes
  }

  /** Only the set of codes matters, not their order or repetition. */
  lemma IsRetryableErrIgnoresOrder(resp: Option<CommonResponse>, codes: seq<string>, others: seq<string>)
    requires CodeSet(codes) == CodeSet(others)
    ensures IsRetryableErr(resp, codes) == IsRetryableErr(resp, others)
  {
    IsRetryableErrIff(resp, codes);
    IsRetryableErrIff(resp, others);
    if resp.Some? && resp.value.returnCode.Some? {
      var c := resp.value.returnCode.value;
      assert c in codes <==> c in CodeSet(codes);
      assert c in others <==> c in CodeSet(others);
    }
  }

  // ----------------------------------------------- the second error-body parser

  /** The `GetCommonErrorBody` of this file as written. `decodes` tells whether the isolated body
      is a JSON object. After a successful decode the `responseError` value is asserted to be a
      `map[string]string`, which a decoded JSON value never is, so that step panics (`None`). */
  function GetCommonErrorBodyAsWritten(text: string, decodes: string -> bool): (r: Option<Result<CommonError>>)
    ensures r.None? <==> ErrorPayload(text).Some? && decodes(ErrorPayload(text).value)
    ensures !OccursOnce(text, BodySeparator) ==> r == Some(Err("error body is incorrect: " + text))
  {
    match ErrorPayload(text)
    case None => Some(Err("error body is incorrect: " + text))
    case Some(errMsg) => if decodes(errMsg) then None else Some(Err("invalid JSON in error body"))
  }

  /** This parser never yields a body: it either fails or panics. */
  lemma CommonErrorBodyAsWrittenNeverSucceeds(text: string, decodes: string -> bool)
    ensures GetCommonErrorBodyAsWritten(text, decodes).Some? ==> GetCommonErrorBodyAsWritten(text, decodes).value.Err?
  {
  }

  /** A well-formed error body makes it panic. */
  lemma CommonErrorBodyAsWrittenPanicsOnBody(decodes: string -> bool)
    requires decodes("{}")
    ensures GetCommonErrorBodyAsWritten("404 Not Found Body: {}", decodes) == None
  {
    var text := "404 Not Found Body: {}";
    assert OccursAt(text, BodySeparator, 14);
    forall j: nat | OccursAt(text, BodySeparator, j)
      ensures j == 14
    {
      assert text[j] == 'B';
    }
    assert text[20..] == "{}";
  }

  /** Where the written parser returns, it returns what the parser of convert_types.go does for any
      decoder that fails on the same inputs. */
  lemma CommonErrorBodyAgreesWhenNoPanic(text: string, decodes: string -> bool, parseJson: string -> Option<CommonError>)
    requires forall s :: parseJson(s).None? <==> !decodes(s)
    ensures GetCommonErrorBodyAsWritten(text, decodes).Some? ==>
            GetCommonErrorBodyAsWritten(text, decodes).value == GetCommonErrorBody(text, parseJson)
  {
  }
}
