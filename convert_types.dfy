/** Pointer/string helpers and the error-body split of ncloud/convert_types.go. */
module ConvertTypes {
  import opened Wrappers

  // ------------------------------------------------------ pointer helpers

  /** `StringPtrOrNil(v, ok)`: nil unless `ok`, else a pointer to `v`. Callers pass the pair
      `d.GetOk(key)` returns for a string attribute, so `v` is a string. */
  function StringPtrOrNil(v: string, ok: bool): Option<string>
  {
    if !ok then None else Some(v)
  }

  /** `StringOrEmpty(p)`: the pointee, or "" for nil. The SDK's `ncloud.StringValue` behaves the same. */
  function StringOrEmpty(p: Option<string>): string
  {
    if p.Some? then p.value else ""
  }

  lemma StringPtrRoundTrip(s: string, v: string)
    ensures StringOrEmpty(StringPtrOrNil(s, true)) == s
    ensures StringOrEmpty(StringPtrOrNil(v, false)) == ""
    ensures StringPtrOrNil(v, false) == None && StringPtrOrNil(s, true) == Some(s)
  {
  }

  /** Reading a pointer back out and re-wrapping it as "present iff non-nil" gives the same pointer. */
  lemma StringOrEmptyRoundTrip(p: Option<string>)
    ensures StringPtrOrNil(StringOrEmpty(p), p.Some?) == p
    ensures p.None? ==> StringOrEmpty(p) == ""
  {
  }

  /** Dereferences every pointer, in order; a nil element would be a nil dereference. */
  method StringPtrArrToStringArr(ptrArray: seq<Option<string>>) returns (arr: seq<string>)
    requires forall i :: 0 <= i < |ptrArray| ==> ptrArray[i].Some?
    ensures |arr| == |ptrArray|
    ensures forall i :: 0 <= i < |arr| ==> Some(arr[i]) == ptrArray[i]
  {
    arr := [];
    for i := 0 to |ptrArray|
      invariant |arr| == i
      invariant forall j :: 0 <= j < i ==> Some(arr[j]) == ptrArray[j]
    {
      arr := arr + [ptrArray[i].value];
    }
  }

  // ------------------------------------------------- strings.Split on a separator

  ghost predicate OccursAt(s: string, sep: string, i: nat)
  {
    i + |sep| <= |s| && s[i..i + |sep|] == sep
  }

  /** The separator occurs in `s` at exactly one position. */
  ghost predicate OccursOnce(s: string, sep: string)
  {
    exists i :: OccursAt(s, sep, i) && forall j :: OccursAt(s, sep, j) ==> j == i
  }

  /** No occurrence of `sep` can start inside another one: no later character repeats the first. */
  ghost predicate NoSelfOverlap(sep: string)
  {
    forall d :: 0 < d < |sep| ==> sep[d] != sep[0]
  }

  /** The first occurrence of `sep` at or after `from`, as `strings.Index` finds it. */
  function FindFrom(s: string, sep: string, from: nat): (r: Option<nat>)
    decreases |s| - from
    ensures r.Some? ==> from <= r.value && OccursAt(s, sep, r.value)
    ensures r.Some? ==> forall j :: from <= j < r.value ==> !OccursAt(s, sep, j)
    ensures r.None? ==> forall j :: from <= j ==> !OccursAt(s, sep, j)
  {
    if from + |sep| > |s| then None
    else if s[from..from + |sep|] == sep then Some(from)
    else FindFrom(s, sep, from + 1)
  }

  /** The pieces of `s[from..]` between the occurrences of `sep`, as `strings.Split` cuts them. */
  function SplitFrom(s: string, sep: string, from: nat): (parts: seq<string>)
    requires |sep| > 0 && from <= |s|
    decreases |s| - from
    ensures |parts| >= 1
  {
    match FindFrom(s, sep, from)
    case None => [s[from..]]
    case Some(i) => [s[from..i]] + SplitFrom(s, sep, i + |sep|)
  }

  function Split(s: string, sep: string): seq<string>
    requires |sep| > 0
  {
    SplitFrom(s, sep, 0)
  }

  lemma NoOverlappingOccurrences(s: string, sep: string, i: nat, j: nat)
    requires NoSelfOverlap(sep) && OccursAt(s, sep, i) && i < j < i + |sep|
    ensures !OccursAt(s, sep, j)
  {
    assert s[j] == sep[j - i] by {
      assert s[i..i + |sep|][j - i] == s[j];
    }
    if j + |sep| <= |s| {
      assert s[j..j + |sep|][0] != sep[0];
    }
  }

  /** Splitting yields exactly two pieces iff the separator occurs exactly once, and then the
      second piece is everything after it. */
  lemma SplitInTwo(s: string, sep: string)
    requires |sep| > 0 && NoSelfOverlap(sep)
    ensures |Split(s, sep)| == 2 <==> OccursOnce(s, sep)
    ensures forall i: nat :: OccursAt(s, sep, i) && |Split(s, sep)| == 2 ==> Split(s, sep)[1] == s[i + |sep|..]
  {
    match FindFrom(s, sep, 0)
    case None =>
    case Some(i) =>
      var rest := SplitFrom(s, sep, i + |sep|);
      assert Split(s, sep) == [s[..i]] + rest;
      forall j: nat | i < j < i + |sep|
        ensures !OccursAt(s, sep, j)
      {
        NoOverlappingOccurrences(s, sep, i, j);
      }
      if FindFrom(s, sep, i + |sep|).None? {
        assert rest == [s[i + |sep|..]];
        assert forall j :: OccursAt(s, sep, j) ==> j == i;
      } else {
        var k := FindFrom(s, sep, i + |sep|).value;
        assert |rest| >= 2;
        assert OccursAt(s, sep, k) && k != i;
      }
  }

  // ------------------------------------------------------------ error bodies

  /** The separator between the HTTP status text and the JSON body in an API error. */
  const BodySeparator: string := "Body: "

  lemma BodySeparatorDoesNotOverlap()
    ensures |BodySeparator| == 6 && NoSelfOverlap(BodySeparator)
  {
  }

  /** The `responseError` object of an error body. */
  datatype CommonError = CommonError(returnCode: string, returnMessage: string)

  /** The split-and-pick step: the text after the separator when splitting gives two pieces. */
  function ErrorPayload(text: string): (payload: Option<string>)
    ensures payload.Some? <==> OccursOnce(text, BodySeparator)
    ensures forall i: nat :: OccursAt(text, BodySeparator, i) && payload.Some? ==> payload.value == text[i + |BodySeparator|..]
  {
    BodySeparatorDoesNotOverlap();
    SplitInTwo(text, BodySeparator);
    var sa := Split(text, BodySeparator);
    if |sa| != 2 then None else Some(sa[1])
  }

  /** `GetCommonErrorBody`: isolate the body, then decode it with `parseJson`, which stands for the
      JSON decoding of the body and answers `None` where decoding fails. */
  function GetCommonErrorBody(text: string, parseJson: string -> Option<CommonError>): (r: Result<CommonError>)
    ensures !OccursOnce(text, BodySeparator) ==> r == Err("error body is incorrect: " + text)
    ensures forall i: nat :: OccursAt(text, BodySeparator, i) && OccursOnce(text, BodySeparator) ==>
              (r.Ok? <==> parseJson(text[i + |BodySeparator|..]).Some?) &&
              (r.Ok? ==> Some(r.value) == parseJson(text[i + |BodySeparator|..]))
  {
    match ErrorPayload(text)
    case None => Err("error body is incorrect: " + text)
    case Some(errMsg) =>
      match parseJson(errMsg)
      case None => Err("invalid JSON in error body")
      case Some(e) => Ok(e)
  }
}
