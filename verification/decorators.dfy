/** `redirect_unless_json` (opengold/server.py:33-56). */
module Decorators {
  import opened Wrappers
  import opened Http
  import opened Negotiation

  /** The canonical page of a game, `'/%s/' % game_name`. */
  function GamePage(game: string): (url: string)
    ensures |url| == |game| + 2 && url[0] == '/' && url[|url| - 1] == '/'
  {
    "/" + game + "/"
  }

  /**
   * Rewrites the response an action handler produced. A 204 would stop an
   * HTML page's refresh, so for non-JSON requests it becomes a 302 back to
   * the game page; it keeps its cookie, which Brubeck's own `redirect` would
   * drop. `game` is the name after `unquote_game_name`, the outer decorator.
   */
  function RedirectUnlessJson(headers: map<string, string>, game: string, resp: Response): (r: Result<Response, Fault>)
    ensures r.Err? <==> resp.status == 204 && !HasAccept(headers)
    ensures r.Err? ==> r.error == NoAcceptHeader
    ensures r.Ok? ==> r.value.cookie == resp.cookie && r.value.body == resp.body && r.value.contentType == resp.contentType
    ensures r.Ok? ==> (r.value == resp <==> resp.status != 204 || IsJsonRequest(headers))
    ensures r.Ok? && r.value != resp ==>
      r.value.status == 302 && r.value.reason.None? && r.value.location == Some(GamePage(game))
  {
    if resp.status == 204 then
      if !HasAccept(headers) then Err(NoAcceptHeader)
      else if IsJsonRequest(headers) then Ok(resp)
      else Ok(resp.(status := 302, reason := None, location := Some(GamePage(game))))
    else Ok(resp)
  }

  /**
   * What a successful action answers: a bare 204 to a JSON client, a 302 to
   * the game page otherwise, carrying `cookie` either way; without an accept
   * header it raises.
   */
  ghost predicate Succeeds(headers: map<string, string>, game: string, cookie: Option<Cookie>, outcome: Result<Response, Fault>) {
    if !HasAccept(headers) then outcome == Err(NoAcceptHeader)
    else if IsJsonRequest(headers) then outcome == Ok(NoContent(cookie))
    else outcome == Ok(Response(302, None, NoBody, None, Some(GamePage(game)), cookie))
  }

  /** A success passed through the decorator is exactly what `Succeeds` describes. */
  lemma RedirectSuccess(headers: map<string, string>, game: string, cookie: Option<Cookie>)
    ensures Succeeds(headers, game, cookie, RedirectUnlessJson(headers, game, NoContent(cookie)))
  {
  }
}
