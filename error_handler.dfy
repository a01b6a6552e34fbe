/**
 * JSON values and HTTP responses, and the uniform error body built by
 * `make_error_response`: `{"status": "error", "detail": {"message": <content>}}`.
 */
module ErrorHandler {
  import opened Py

  /** The JSON values the handlers produce: strings and objects whose members keep
      their insertion order, as Python dicts do. */
  datatype Json = JStr(s: string) | JObj(members: seq<(string, Json)>)

  datatype HttpResponse = HttpResponse(status: int, body: Json)

  /** The keys of an object, in order (none for a string). */
  function Keys(j: Json): (ks: seq<string>)
    ensures j.JObj? ==> |ks| == |j.members|
    ensures j.JObj? ==> forall i :: 0 <= i < |ks| ==> ks[i] == j.members[i].0
  {
    match j
    case JStr(_) => []
    case JObj(ms) => seq(|ms|, i requires 0 <= i < |ms| => ms[i].0)
  }

  /** `j[key]` for an object whose first member named `key` is returned. */
  function Get(j: Json, key: string): Option<Json> {
    if j.JStr? then None else Find(j.members, key)
  }

  function Find(ms: seq<(string, Json)>, key: string): (r: Option<Json>)
    ensures r.Some? <==> exists i :: 0 <= i < |ms| && ms[i].0 == key
    ensures |ms| > 0 && ms[0].0 == key ==> r == Some(ms[0].1)
  {
    if |ms| == 0 then None
    else if ms[0].0 == key then Some(ms[0].1)
    else
      var r := Find(ms[1..], key);
      assert forall i :: 1 <= i < |ms| ==> ms[i] == ms[1..][i - 1];
      r
  }

  const ErrorStatus := "error"

  /** `make_error_response(status_code, content)`. */
  function MakeErrorResponse(statusCode: int, content: string): (r: HttpResponse)
    ensures r.status == statusCode
    ensures Keys(r.body) == ["status", "detail"]
    ensures Get(r.body, "status") == Some(JStr(ErrorStatus))
    ensures Get(r.body, "detail").Some?
    ensures Keys(Get(r.body, "detail").value) == ["message"]
    ensures Get(Get(r.body, "detail").value, "message") == Some(JStr(content))
  {
    HttpResponse(statusCode, JObj([("status", JStr(ErrorStatus)), ("detail", JObj([("message", JStr(content))]))]))
  }

  /** Reads a response as an error response: its status and message when the body
      has exactly the uniform error shape, and nothing otherwise. */
  function ReadErrorResponse(r: HttpResponse): Option<(int, string)> {
    match r.body
    case JObj(ms) =>
      if |ms| == 2 && ms[0] == ("status", JStr(ErrorStatus)) && ms[1].0 == "detail"
         && ms[1].1.JObj? && |ms[1].1.members| == 1 && ms[1].1.members[0].0 == "message"
         && ms[1].1.members[0].1.JStr?
      then Some((r.status, ms[1].1.members[0].1.s))
      else None
    case JStr(_) => None
  }

  /** Every error response reads back as the status and message it was built from. */
  lemma ErrorResponseRoundTrip(statusCode: int, content: string)
    ensures ReadErrorResponse(MakeErrorResponse(statusCode, content)) == Some((statusCode, content))
  {
  }

  /** Only error responses read as error responses: the shape has no other members. */
  lemma ErrorResponseShapeIsExact(r: HttpResponse)
    requires ReadErrorResponse(r).Some?
    ensures r == MakeErrorResponse(ReadErrorResponse(r).value.0, ReadErrorResponse(r).value.1)
  {
    var ms := r.body.members;
    assert ms == [ms[0], ms[1]];
    assert ms[1].1.members == [ms[1].1.members[0]];
  }

  /** Distinct arguments give distinct responses. */
  lemma MakeErrorResponseInjective(c1: int, m1: string, c2: int, m2: string)
    requires MakeErrorResponse(c1, m1) == MakeErrorResponse(c2, m2)
    ensures c1 == c2 && m1 == m2
  {
    ErrorResponseRoundTrip(c1, m1);
    ErrorResponseRoundTrip(c2, m2);
  }
}
