/**
 * The long-poll handlers `GameListHandler.get` and `GameHandler.get`
 * (opengold/server.py:94-126, 150-182). The wait itself is not modelled:
 * its result is a parameter.
 */
module Polling {
  import opened Wrappers
  import opened UrlQuote
  import opened PyInt
  import opened Http
  import opened Negotiation
  import opened Session

  /** How the wait for the next snapshot ended. */
  datatype PollResult =
    | Delivered(context: Context) // the event source produced a snapshot in time
    | TimedOut                    // the long-poll timeout fired first
    | SourceFailed                // the event source raised

  const JsPathKey := "js_path"
  const MainTemplate := "main"

  /**
   * The `*opt_id` list: empty when `id` is absent, empty or not an integer
   * (the `ValueError` is swallowed), otherwise the one integer it spells.
   */
  function IdArgument(id: Option<string>): (ids: seq<int>)
    ensures |ids| <= 1
    ensures ids == [] <==> !Truthy(id) || ParseInt(id.value).None?
    ensures ids != [] ==> ParseInt(id.value) == Some(ids[0])
  {
    if Truthy(id) then
      match ParseInt(id.value)
      case Some(n) => [n]
      case None => []
    else []
  }

  /** A client that sends back the id it was given in decimal has it read back exactly. */
  lemma IdArgumentRoundTrip(n: int)
    ensures IdArgument(Some(Show(n))) == [n]
  {
    ParseShow(n);
  }

  /** An `id` holding a character no integer can contain is ignored. */
  lemma IdArgumentIgnoresGarbage(s: string, k: int)
    requires 0 <= k < |s| && !IsNumeralChar(s[k])
    ensures IdArgument(Some(s)) == []
  {
    ParseRejectsForeignChar(s, k);
  }

  /** Renders how a long poll ended, for the request that waited. */
  function RenderPoll(req: Request, jsPath: string, poll: PollResult): (r: Result<Response, Fault>)
    ensures poll.SourceFailed? ==> r == Err(EventSourceFault)
    ensures !poll.SourceFailed? && !HasAccept(req.headers) ==> r == Err(NoAcceptHeader)
    ensures poll.Delivered? && HasAccept(req.headers) && IsJsonRequest(req.headers) ==>
      r == Ok(Response(200, None, JsonBody(poll.context), Some(JsonMediaType), None, None))
    ensures poll.Delivered? && HasAccept(req.headers) && !IsJsonRequest(req.headers) ==>
      && r.Ok? && r.value.status == 200 && r.value.location.None? && r.value.cookie.None?
      && r.value.body.TemplateBody? && r.value.body.template == MainTemplate
      && r.value.body.context.Keys == poll.context.Keys + {JsPathKey}
      && r.value.body.context[JsPathKey] == JString(jsPath)
      && (forall k :: k in poll.context && k != JsPathKey ==> r.value.body.context[k] == poll.context[k])
    ensures poll.TimedOut? && HasAccept(req.headers) && IsJsonRequest(req.headers) ==> r == Ok(NoContent(None))
    ensures poll.TimedOut? && HasAccept(req.headers) && !IsJsonRequest(req.headers) ==> r == Ok(Redirect(req.path))
  {
    match poll
    case SourceFailed => Err(EventSourceFault)
    case Delivered(context) =>
      if !HasAccept(req.headers) then Err(NoAcceptHeader)
      else if IsJsonRequest(req.headers) then
        Ok(Response(200, None, JsonBody(context), Some(JsonMediaType), None, None))
      else
        Ok(Response(200, None, TemplateBody(MainTemplate, context[JsPathKey := JString(jsPath)]), None, None, None))
    case TimedOut =>
      if !HasAccept(req.headers) then Err(NoAcceptHeader)
      else if IsJsonRequest(req.headers) then Ok(NoContent(None))
      else Ok(Redirect(req.path))
  }

  /**
   * A client can always tell a delivered snapshot from a timeout and from a
   * fault, and a JSON client receives the snapshot itself.
   */
  lemma PollOutcomesDistinct(req: Request, jsPath: string, p: PollResult, q: PollResult)
    requires HasAccept(req.headers)
    requires RenderPoll(req, jsPath, p) == RenderPoll(req, jsPath, q)
    ensures p.Delivered? == q.Delivered? && p.TimedOut? == q.TimedOut? && p.SourceFailed? == q.SourceFailed?
    ensures IsJsonRequest(req.headers) ==> p == q
  {
  }

  /** `GameListHandler.get`: wait for the list of games to change after `id`. */
  function GameListGet(req: Request, jsPath: string, poll: PollResult): Reply {
    Reply(Some(ListGames(IdArgument(Argument(req, "id")))), RenderPoll(req, jsPath, poll))
  }

  /**
   * `GameHandler.get`: wait for the game named by the unquoted path segment
   * `raw` to change after `id`, as seen by the browser's player in it, if any.
   */
  function GameGet(req: Request, raw: string, jsPath: string, poll: PollResult): Reply
    requires IsBytes(raw)
  {
    var game := Unquote(raw);
    Reply(Some(GameInfo(game, GetPlayer(req.cookies, game), IdArgument(Argument(req, "id")))),
          RenderPoll(req, jsPath, poll))
  }
}
