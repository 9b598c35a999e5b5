/** The Twitter connection's small decisions: the error message for an HTTP
    failure and the HTTP method of a streaming request. */
module TwitterConnection {
  import opened Values
  import opened Requests
  import opened Paths
  import opened TwitterPaging

  /** `httpError`: a scalar result is reported as the HTTP status code, a
      dash and the result; anything else is left to the base connection's
      formatter, whose message is `parentError`. */
  function HttpError(httpCode: int, result: Value, parentError: string): (m: string)
    ensures !IsScalar(result) ==> m == parentError
    ensures IsScalar(result) ==> |m| > |IntToString(httpCode)| && m[..|IntToString(httpCode)|] == IntToString(httpCode)
    ensures IsScalar(result) ==> m[|IntToString(httpCode)|..] == " - " + ScalarToString(result)
  {
    if IsScalar(result) then
      var code := IntToString(httpCode);
      var m := code + " - " + ScalarToString(result);
      assert m[..|code|] == code && m[|code|..] == " - " + ScalarToString(result);
      m
    else parentError
  }

  /** The message of a scalar result reads back: its leading digits are the
      status code, followed by " - " and the result itself. */
  lemma HttpErrorReadsBack(httpCode: nat, result: Value, parentError: string)
    requires IsScalar(result)
    ensures var m := HttpError(httpCode, result, parentError);
      var d := DigitRun(m);
      d + 3 <= |m| && DigitsValue(m[..d]) == httpCode && m[d..d + 3] == " - " && m[d + 3..] == ScalarToString(result)
  {
    var code := NatToString(httpCode);
    var m := HttpError(httpCode, result, parentError);
    var tail := ScalarToString(result);
    assert IntToString(httpCode) == code;
    assert m[|code|..] == " - " + tail;
    assert m[|code|] == ' ';
    assert m[..|code|] == code;
    DigitRunIs(m, |code|);
    NatToStringValue(httpCode);
    assert m[|code|..][3..] == tail;
  }

  const FilterResource := "statuses/filter"

  /** `stream` uses POST for the filter stream and GET for every other one. */
  function StreamMethod(resource: string): (verb: string)
    ensures verb == "POST" <==> resource == FilterResource
    ensures verb == "GET" <==> resource != FilterResource
  {
    if resource == FilterResource then "POST" else "GET"
  }

  /** `stream`: a fresh request for the resource with the chosen method and
      the given parameters, run through the paginating `singleRequest`. */
  method Stream(send: Transport, resource: string, params: seq<Field>, fuel: nat) returns (out: Outcome<Value>)
    ensures out == Paginate(send, Req(StreamMethod(resource), resource, params, []), fuel).0
  {
    var request := new Request(StreamMethod(resource), resource, params);
    out := SingleRequest(send, request, fuel);
  }
}
