/** How the API wrapper turns an HTTP status code into the response body or an error. */
module NotionApi {
  import opened Common

  /** The fixed reason text for each status code the wrapper knows. */
  function Reason(status: nat): string
  {
    match status
    case 400 => "Bad Request: The request was malformed"
    case 401 => "Unauthorized: API token is invalid."
    case 403 => "Forbidden: The token does not have access to the requested scope."
    case 404 => "Not Found: The resource does not exist."
    case 429 => "Too Many Requests: Rate limit exceeded."
    case _ => "Unknown error."
  }

  /** The status codes with a reason of their own. */
  predicate KnownStatus(status: nat)
  {
    status == 400 || status == 401 || status == 403 || status == 404 || status == 429
  }

  /** Only the codes the wrapper does not know get the reason "Unknown error.". */
  lemma UnknownReason(status: nat)
    ensures Reason(status) == "Unknown error." <==> !KnownStatus(status)
  {
    var unknown := "Unknown error.";
    assert |unknown| == 14;
    if status == 400 {
      assert |Reason(status)| == 38;
    } else if status == 401 {
      assert |Reason(status)| == 35;
    } else if status == 403 {
      assert |Reason(status)| == 65;
    } else if status == 404 {
      assert |Reason(status)| == 39;
    } else if status == 429 {
      assert |Reason(status)| == 39;
    }
  }

  /** The parts of "<digits>: <reason>" can be read back by position. */
  lemma MessageShape(digits: string, reason: string)
    ensures var m := digits + ": " + reason;
      && |digits| < |m| && m[..|digits|] == digits
      && (m[|digits|..] == ": Unknown error." <==> reason == "Unknown error.")
  {
    var m := digits + ": " + reason;
    assert m[..|digits|] == digits;
    assert m[|digits|..] == ": " + reason;
    assert (": " + reason)[2..] == reason;
    assert ": Unknown error."[2..] == "Unknown error.";
  }

  /**
   * The body for status 200; for any other status the error
   * "<status>: <reason>", the reason being "Unknown error." for codes it does not know.
   */
  function HandleResponse<T>(status: nat, body: T): (r: Result<T, Error>)
    ensures r.Ok? <==> status == 200
    ensures r.Ok? ==> r.value == body
    ensures r.Err? ==> r.error.NotionApiError?
    ensures r.Err? ==> var digits := DecimalString(status);
      && |digits| < |r.error.message|
      && r.error.message[..|digits|] == digits
      && (!KnownStatus(status) <==> r.error.message[|digits|..] == ": Unknown error.")
  {
    if status == 200 then Ok(body)
    else
      var digits := DecimalString(status);
      var message := digits + ": " + Reason(status);
      MessageShape(digits, Reason(status));
      UnknownReason(status);
      Err(NotionApiError(message))
  }

  /** The status code can be read back from the front of every error message. */
  lemma {:induction false} StatusRecoverable<T>(status: nat, body: T)
    requires status != 200
    ensures var m := HandleResponse(status, body).error.message;
            var digits := DecimalString(status);
            m[..|digits|] == digits && m[|digits|..|digits| + 2] == ": "
            && DecimalValue(m[..|digits|]) == status
  {
    DecimalRoundTrip(status);
  }
}
