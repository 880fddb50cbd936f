/**
 * Requests and responses as the handlers of `opengold/server.py` see them,
 * with the game engine's calls recorded rather than performed.
 */
module Http {
  import opened Wrappers

  /** A JSON value, as `json.dumps` accepts it. */
  datatype Json =
    | JNull
    | JBool(b: bool)
    | JInt(i: int)
    | JString(s: string)
    | JArray(items: seq<Json>)
    | JObject(fields: map<string, Json>)

  /** The dictionary a game snapshot is rendered from. */
  type Context = map<string, Json>

  datatype Body =
    | NoBody
    | JsonBody(data: Context)
    | TemplateBody(template: string, context: Context)

  /** A `Set-Cookie` the response carries; signing with the cookie secret is not modelled. */
  datatype Cookie = Cookie(key: string, value: string)

  datatype Response = Response(
    status: nat,
    reason: Option<string>,
    body: Body,
    contentType: Option<string>,
    location: Option<string>,
    cookie: Option<Cookie>)

  /** Why a handler raised instead of rendering. */
  datatype Fault =
    | NoAcceptHeader   // `is_json_request` called `rfind` on `None`
    | EventSourceFault // the long-poll source raised something other than a timeout

  /** A call into the game engine, with the arguments the handler passed. */
  datatype EngineCall =
    | ListGames(since: seq<int>)
    | GameInfo(game: string, viewer: Option<string>, since: seq<int>)
    | JoinGame(game: string, player: string)
    | StartGame(game: string, player: string)
    | MakeMove(game: string, player: string, move: Option<string>)
    | SendChat(game: string, player: string, message: string)

  /** What one request did: the engine call it made, if any, and what it answered or raised. */
  datatype Reply = Reply(call: Option<EngineCall>, outcome: Result<Response, Fault>)

  /**
   * An inbound request. `path` is the path exactly as the router receives it
   * from the WSGI connection, with no further decoding. `cookies` holds the
   * cookies whose signature verifies under the application's secret, by key.
   */
  datatype Request = Request(
    path: string,
    headers: map<string, string>,
    args: map<string, string>,
    cookies: map<string, string>)

  /** `self.get_argument(name)`: the argument's value, or `None` when it is absent. */
  function Argument(req: Request, name: string): (v: Option<string>)
    ensures v.Some? <==> name in req.args
  {
    if name in req.args then Some(req.args[name]) else None
  }

  /** Python truthiness of an optional string: present and non-empty. */
  predicate Truthy(v: Option<string>) {
    v.Some? && v.value != ""
  }

  /** `set_status(204)` with nothing else set. */
  function NoContent(cookie: Option<Cookie>): Response {
    Response(204, None, NoBody, None, None, cookie)
  }

  /** `set_status(400, reason)`. */
  function BadRequest(reason: string): Response {
    Response(400, Some(reason), NoBody, None, None, None)
  }

  /** Brubeck's `redirect(url)`, which also drops any cookie the handler set. */
  function Redirect(url: string): Response {
    Response(302, None, NoBody, None, Some(url), None)
  }
}
