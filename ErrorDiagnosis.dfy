/** The error dialog: the troubleshooting steps chosen from the status
    code, message and response body of a failed request, and the response
    body as shown. */
module ErrorDiagnosis {
  import opened JsString

  /** The fields of a failed request that the dialog reads. A status of
      `undefined` is `None`. */
  datatype ApiError = ApiError(
    statusCode: Option<int>,
    statusText: Option<string>,
    message: string,
    responseBody: Option<string>,
    url: Option<string>)

  /** The groups of the decision table, one per branch. */
  datatype Group = Auth | NotFound | ServerError | Network | Timeout | InvalidQuery | Generic

  /** No status group applies: the status is set, not 0, and none of the
      codes singled out. */
  predicate OtherStatus(status: Option<int>) {
    status.Some? && status.value !in {0, 401, 403, 404, 500, 502, 503}
  }

  predicate BodyMentionsInvalid(body: Option<string>) {
    body.Some? && Contains(body.value, "Invalid")
  }

  /** The branch of `getDiagnosis` an error falls into. */
  function GroupOf(e: ApiError): (g: Group)
    ensures g == Auth <==> e.statusCode in {Some(401), Some(403)}
    ensures g == NotFound <==> e.statusCode == Some(404)
    ensures g == ServerError <==> e.statusCode in {Some(500), Some(502), Some(503)}
    ensures g == Network <==> e.statusCode in {None, Some(0)}
    ensures g == Timeout <==> OtherStatus(e.statusCode) && Contains(e.message, "timeout")
    ensures g == InvalidQuery <==>
      OtherStatus(e.statusCode) && !Contains(e.message, "timeout") && BodyMentionsInvalid(e.responseBody)
    ensures g == Generic <==>
      OtherStatus(e.statusCode) && !Contains(e.message, "timeout") && !BodyMentionsInvalid(e.responseBody)
  {
    match e.statusCode
    case None => Network
    case Some(code) =>
      if code == 401 || code == 403 then Auth
      else if code == 404 then NotFound
      else if code == 500 || code == 502 || code == 503 then ServerError
      else if code == 0 then Network
      else if Contains(e.message, "timeout") then Timeout
      else if BodyMentionsInvalid(e.responseBody) then InvalidQuery
      else Generic
  }

  const AuthLines: seq<string> := [
    "Authentication failed - verify API key is valid and has proper permissions",
    "Check if API key has expired or been revoked"]

  const NotFoundLines: seq<string> := [
    "Endpoint not found - verify Panorama server URL is correct",
    "Check if the API endpoint path is correct"]

  const ServerLines: seq<string> := [
    "Server error - Panorama may be experiencing issues",
    "Check Panorama server status and logs",
    "Verify network connectivity to Panorama server"]

  const NetworkLines: seq<string> := [
    "Network connectivity issue - unable to reach Panorama server",
    "Check CORS settings if accessing from browser",
    "Verify Panorama server is accessible from this network",
    "Check firewall rules allowing outbound HTTPS connections"]

  const TimeoutLines: seq<string> := [
    "Request timeout - query may be too large or server is slow",
    "Try reducing the time range or log limit",
    "Check Panorama server performance and load"]

  const InvalidLines: seq<string> := [
    "Invalid query parameters - check search filters",
    "Verify time range format is correct",
    "Check query syntax matches Panorama API requirements"]

  const GenericLines: seq<string> := [
    "Review error details below for specific issue",
    "Check Panorama API documentation for error codes",
    "Verify all configuration parameters are correct"]

  function Lines(g: Group): (lines: seq<string>)
    ensures |lines| >= 2
  {
    match g
    case Auth => AuthLines
    case NotFound => NotFoundLines
    case ServerError => ServerLines
    case Network => NetworkLines
    case Timeout => TimeoutLines
    case InvalidQuery => InvalidLines
    case Generic => GenericLines
  }

  /** `getDiagnosis`: one branch of the chain pushes its lines; when none
      did, the three generic lines are pushed. */
  method GetDiagnosis(e: ApiError) returns (diagnoses: seq<string>)
    ensures diagnoses == Lines(GroupOf(e))
    ensures |diagnoses| > 0
  {
    diagnoses := [];
    if e.statusCode == Some(401) || e.statusCode == Some(403) {
      diagnoses := diagnoses + [AuthLines[0]];
      diagnoses := diagnoses + [AuthLines[1]];
    } else if e.statusCode == Some(404) {
      diagnoses := diagnoses + [NotFoundLines[0]];
      diagnoses := diagnoses + [NotFoundLines[1]];
    } else if e.statusCode == Some(500) || e.statusCode == Some(502) || e.statusCode == Some(503) {
      diagnoses := diagnoses + [ServerLines[0]];
      diagnoses := diagnoses + [ServerLines[1]];
      diagnoses := diagnoses + [ServerLines[2]];
    } else if e.statusCode == Some(0) || e.statusCode.None? {
      diagnoses := diagnoses + [NetworkLines[0]];
      diagnoses := diagnoses + [NetworkLines[1]];
      diagnoses := diagnoses + [NetworkLines[2]];
      diagnoses := diagnoses + [NetworkLines[3]];
    } else if Contains(e.message, "timeout") {
      diagnoses := diagnoses + [TimeoutLines[0]];
      diagnoses := diagnoses + [TimeoutLines[1]];
      diagnoses := diagnoses + [TimeoutLines[2]];
    } else if e.responseBody.Some? && Contains(e.responseBody.value, "Invalid") {
      diagnoses := diagnoses + [InvalidLines[0]];
      diagnoses := diagnoses + [InvalidLines[1]];
      diagnoses := diagnoses + [InvalidLines[2]];
    }
    if |diagnoses| == 0 {
      diagnoses := diagnoses + [GenericLines[0]];
      diagnoses := diagnoses + [GenericLines[1]];
      diagnoses := diagnoses + [GenericLines[2]];
    }
  }

  /** A failed request without a status gets the network lines, whatever
      its message says. */
  lemma {:induction false} NoStatusIsNetwork(e: ApiError)
    requires e.statusCode.None?
    ensures Lines(GroupOf(e)) == NetworkLines
  {
  }

  const TruncationNotice: string := "\n\n... (truncated, use copy to see full response)"
  const BodyLimit: nat := 2000

  /** The response body as shown: whole up to 2000 characters, otherwise
      its first 2000 characters and a notice. */
  function DisplayedBody(body: string): (r: string)
    ensures |body| <= BodyLimit ==> r == body
    ensures |body| > BodyLimit ==> |r| == BodyLimit + |TruncationNotice| && r[..BodyLimit] == body[..BodyLimit]
    ensures |body| > BodyLimit ==> r[BodyLimit..] == TruncationNotice
  {
    if |body| > BodyLimit then body[..BodyLimit] + TruncationNotice else body
  }
}
