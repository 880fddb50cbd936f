/** `is_json_request` (opengold/server.py:81-86): JSON versus HTML response shape. */
module Negotiation {
  import opened Wrappers
  import opened Text

  const JsonMediaType := "application/json"

  /**
   * `headers.get('accept') or headers.get('HTTP_ACCEPT')`: the first header
   * when it is present and non-empty, otherwise the second, which may be absent.
   */
  function AcceptValue(headers: map<string, string>): (v: Option<string>)
    ensures v.Some? <==> ("accept" in headers && headers["accept"] != "") || "HTTP_ACCEPT" in headers
    ensures "accept" in headers && headers["accept"] != "" ==> v == Some(headers["accept"])
    ensures !("accept" in headers && headers["accept"] != "") && "HTTP_ACCEPT" in headers ==> v == Some(headers["HTTP_ACCEPT"])
  {
    if "accept" in headers && headers["accept"] != "" then Some(headers["accept"])
    else if "HTTP_ACCEPT" in headers then Some(headers["HTTP_ACCEPT"])
    else None
  }

  /** The request carries an accept value `is_json_request` can search (otherwise it raises). */
  predicate HasAccept(headers: map<string, string>) {
    AcceptValue(headers).Some?
  }

  /** A request wants JSON exactly when its accept value contains `application/json` anywhere. */
  function IsJsonRequest(headers: map<string, string>): (json: bool)
    requires HasAccept(headers)
    ensures json <==> exists i :: OccursAt(AcceptValue(headers).value, JsonMediaType, i)
  {
    RFind(AcceptValue(headers).value, JsonMediaType) > -1
  }
}
