# opengold server: request-outcome model

This project models the HTTP handlers of `opengold/server.py`, the web front of
a turn-based multiplayer card game. Browsers find out about game changes by
long polling, and they act by posting joins, starts, moves and chats.

The model treats three things as inputs. The first is the game engine's answer.
The second is the player the signed per-game cookie names. The third is how the
long-poll wait ended. Given those, each handler is a pure function from the
request to a `Reply`. A reply records the engine call the handler made, if any,
and the response it rendered: status, reason text, body, content type,
`Location` and `Set-Cookie`. When the handler raises instead, the reply records
the fault.

Modules:

- `Wrappers`: `Option` and `Result`.
- `Text`: `str.rfind`.
- `UrlQuote`: Python 2.7's `urllib2.quote(s, '')` and `urllib2.unquote`.
- `PyInt`: Python 2.7's `int()` on a string.
- `Http`: the request and response records and the engine calls.
- `Negotiation`: `is_json_request`.
- `Session`: `PlayerMixin.get_player` and the cookie issued on joining.
- `Decorators`: `redirect_unless_json`.
- `Polling`: `GameListHandler` and `GameHandler`, with the `id` argument.
- `Actions`: `CreateGameHandler`, `ForwardToGameHandler` and the four action handlers.
- `Routes`: the route table.
- `Server`: dispatch, plus lemmas that span several handlers.

Some behaviour follows Python rather than a general description:

- A missing `Accept` value makes `is_json_request` call `rfind` on `None`. The
  model turns that `AttributeError` into `Err(NoAcceptHeader)`. Action
  handlers reach that call only for a 204, so a 400 never raises. For a join
  the engine accepts, the raise comes after `game.join` and `set_cookie` have
  run: the engine holds the player, but no response delivers the cookie
  (`Actions.AcceptedJoinWithoutAccept`).
- Python truthiness is kept. A cookie naming the empty player counts as "not
  joined" for join, start and move. Chat treats that cookie as present, so such
  a browser gets the success rendering without the engine being called: a 204
  to a JSON client, a 302 to the game page otherwise.
- The redirect after a successful action uses the game name after
  `unquote_game_name`. `Server.RedirectLandsOnGame` states exactly when that
  redirect leads back to the same game: the name must be one path segment with
  no well-formed `%XX` escape. `Server.EscapedNameRedirectsElsewhere` shows a
  name for which it does not. Both take the path as the router receives it, and
  assume the browser requests a `Location` back unchanged (see "Left out").
- `/nada` matches the `[^/]+` route, so it is redirected. The live test at
  test/server_templates.py:26 expects a 404 there. The model follows the route
  table.

## Model

| member | source | states |
|---|---|---|
| Text.RFind | opengold/server.py:86 | the result is -1 exactly when the pattern occurs nowhere; otherwise the pattern occurs at the result and at no later index |
| Negotiation.AcceptValue | opengold/server.py:85 | a non-empty `accept` header wins; otherwise the `HTTP_ACCEPT` value is used when present; the value is missing only when `accept` is absent or empty and `HTTP_ACCEPT` is absent |
| Negotiation.IsJsonRequest | opengold/server.py:81-86 | a request wants JSON exactly when its accept value contains `application/json` at some position; it can be asked only when an accept value exists |
| UrlQuote.Quote | opengold/server.py:73 | a quoted name is at least as long as the name and at most three times as long, and holds only safe characters and `%`, so never `/` |
| UrlQuote.Unquote | opengold/server.py:24-31 | unquoting never lengthens a string and keeps a byte string a byte string |
| UrlQuote.UnquoteQuote | opengold/server.py:63-73 | unquoting the quoted form of any byte string gives back that string |
| UrlQuote.QuoteInjective | opengold/server.py:73 | two byte strings with the same quoted form are equal, so two games never share a cookie key |
| UrlQuote.QuoteSafeName | opengold/server.py:73 | a name made only of letters, digits, `_`, `.` and `-` is its own cookie key |
| UrlQuote.UnquoteFixedPoint | opengold/server.py:29-30 | unquoting leaves a string unchanged exactly when it contains no well-formed `%XX` escape |
| PyInt.ParseShow | opengold/server.py:102-107 | `int` applied to the decimal numeral of any integer returns that integer |
| PyInt.ParseRejectsForeignChar | opengold/server.py:102-107 | a string holding any character other than white space, a digit or a sign is not an integer |
| Polling.IdArgument | opengold/server.py:102-107 | the id list has at most one element; it is empty exactly when `id` is absent, empty or not an integer (no error escapes); otherwise it holds the parsed value |
| Polling.IdArgumentRoundTrip | opengold/server.py:159-164 | an `id` holding the decimal numeral of n yields exactly `[n]` |
| Polling.IdArgumentIgnoresGarbage | opengold/server.py:159-164 | an `id` holding a character no integer contains yields the empty list |
| Polling.RenderPoll | opengold/server.py:111-126 | delivered with JSON gives 200, the context as a JSON body and `application/json`; delivered with HTML gives the `main` template with `js_path` added and the other keys kept; timeout with JSON gives a bare 204; timeout with HTML gives a 302 to the request path; a source fault is a fault and never a timeout; a missing accept value raises |
| Polling.PollOutcomesDistinct | opengold/server.py:168-182 | when an accept value exists, two waits rendered alike ended the same way; a JSON client can recover the delivered snapshot |
| Server.ListGamesSince | opengold/server.py:96-109 | a client that sends back the decimal id it last saw has the game list asked for changes after exactly that id |
| Server.WatchAfterJoin | opengold/server.py:152-166 | after the join cookie is stored, the game page asks the engine about the unquoted game as the joined player |
| Session.SessionKey | opengold/server.py:73 | a game's cookie key never contains `/` |
| Session.GetPlayer | opengold/server.py:68-73 | a player is found exactly when a verified cookie exists under the quoted game name, and the player is that cookie's value |
| Session.Store | opengold/server.py:223 | the browser's cookie jar after it stores the cookie set at this line: the cookie's key is added with its value, and every other cookie keeps its value |
| Session.SessionCookie | opengold/server.py:223 | the issued cookie is keyed by the quoted game name and carries the joined player's name |
| Session.IssueThenResolve | opengold/server.py:218-224 | once the cookie issued on joining is stored, `get_player` for that game returns the joined player |
| Session.SessionsIsolated | opengold/server.py:73 | storing the cookie for one game leaves the player found for every other game unchanged |
| Decorators.RedirectUnlessJson | opengold/server.py:33-56 | raises only for a 204 without an accept value; cookie, body and content type always survive; the response changes exactly when it is a 204 to a non-JSON request, and then it becomes a 302 to `/<unquoted name>/` with no reason |
| Decorators.RedirectSuccess | opengold/server.py:39-52 | a success becomes a bare 204 for JSON, a 302 to the game page for HTML, and a fault with no accept value; both rendered responses carry the cookie, and the fault carries none |
| Actions.CreateGet | opengold/server.py:131-138 | no engine call; a 302 to `/<name>/` when `name` is non-empty, otherwise to `/` |
| Actions.ChatPost | opengold/server.py:189-206 | the engine is called exactly when both message and player are non-empty, with those values; no player gives 400 "You are not in this game."; an engine refusal gives 400 "Could not send chat"; otherwise a player gets the success rendering |
| Actions.JoinPost | opengold/server.py:213-230 | a browser already in the game gets 400 "You are already in this game", and a missing name gets 400 "You must specify a name to join a game.", neither calling the engine; otherwise the engine is called with the name; refusal gives 400 "Could not add <name> to game"; only acceptance issues the cookie, keyed by the quoted game name |
| Actions.StartPost | opengold/server.py:237-248 | a player is forwarded to the engine and succeeds whatever the engine answers; anyone else gets 400 "You are not in this game" with no engine call |
| Actions.MovePost | opengold/server.py:255-268 | only a player reaches the engine, with the `move` argument as sent; acceptance succeeds, refusal gives 400 "Could not submit move"; anyone else gets 400 "You are not in this game" with no engine call |
| Actions.JoinTwiceRefused | opengold/server.py:218-219 | after a successful join's cookie is stored, a second join to that game is refused without calling the engine |
| Actions.AcceptedJoinWithoutAccept | opengold/server.py:218-224 | a join the engine accepts, sent with no accept value, still calls the engine with the name, but ends in the fault, so no response carries the session cookie |
| Actions.JoinThenStart | opengold/server.py:241-243 | after a successful join's cookie is stored, start calls the engine as the joined player |
| Actions.RefusalsIgnoreAccept | opengold/server.py:42-54 | a refused chat, join or move is rendered the same whatever the accept headers are |
| Actions.EmptyChatIsNoOp | opengold/server.py:196-204 | an empty or missing chat message never calls the engine; with a player it gets the success rendering |
| Routes.Resolve | opengold/server.py:277-284 | the game-name segment of a route taken from a byte-string path is itself a byte string |
| Routes.ResolveIsFirstMatch | opengold/server.py:277-284 | the chosen route's pattern matches the path and no earlier pattern in the table does; no route is chosen exactly when no pattern matches |
| Routes.ResolveCapturesName | opengold/server.py:279-284 | the segment a route carries is matched by its pattern, and no longer segment is, so it is the group the greedy `[^/]+` captures |
| Routes.CreateShadowsForward | opengold/server.py:278-279 | `/create` matches the `[^/]+` pattern too, but goes to the create handler, which is listed first |
| Routes.ResolveGamePage | opengold/server.py:280 | `/<seg>/` reaches the game handler with the same segment |
| Routes.ResolveAction | opengold/server.py:281-284 | `/<seg>/join`, `/start`, `/move` and `/chat` reach their handlers with the same segment |
| Routes.ResolveForward | opengold/server.py:279 | `/<seg>` reaches the forwarding handler unless the segment is `create`, `create` followed by a newline, or a lone newline |
| Routes.NonSegmentPageMissesGame | opengold/server.py:280 | `/<name>/` does not reach the game handler when the name is empty or contains `/` |
| Server.Dispatch | opengold/server.py:277-284 | a path with no route gets no reply; an action that calls the engine does so for a browser already in the game, except for join, which calls it only for one that is not |
| Server.RedirectLandsOnGame | opengold/server.py:51 | the post-action redirect leads back to the same game exactly when the unquoted name is one path segment with no well-formed escape |
| Server.EscapedNameRedirectsElsewhere | opengold/server.py:29-51 | the game reached through `/%2541/` is named `%41`, and its redirect serves the game `A` instead |
| Server.ForwardReachesSameGame | opengold/server.py:143-147 | the forwarding redirect reaches the game handler with the very segment it was given |
| Server.CreateReachesNamedGame | opengold/server.py:135-136 | a name that is one path segment is forwarded to the game handler for that segment |
| Server.UnknownGameIsForwarded | opengold/server.py:279 | `/nada` gets a 302 to `/nada/`, not a 404 |
| Server.DispatchOfAction | opengold/server.py:281-284 | a request for `/<name>/join`, `/start`, `/move` or `/chat`, with a one-segment byte-string name, is served by that action's handler for that name |
| Server.StartWithoutJoining | opengold/server.py:241-246 | POST `/beta/start` with no `beta` cookie gets 400 "You are not in this game" and no engine call |
| Server.JoinAlpha | opengold/server.py:218-224 | a JSON join of `alpha` as `barrett`, when the engine accepts, calls the engine and answers 204 with the cookie `alpha=barrett` |
| Server.StartAlphaAsBarrett | opengold/server.py:241-244 | a start on `alpha` carrying that cookie calls the engine as `barrett` |

## Left out

- The long-poll wait (`with_timeout`, gevent or eventlet). It is cooperative concurrency and timing, so only its result is modelled, as `Delivered`, `TimedOut` or `SourceFailed`. The timeout value is therefore not used.
- The game engine module (`game.games`, `info`, `join`, `start`, `move`, `chat`) is not part of this model. Each call is recorded with its arguments, and its answer is a parameter. Whether a mutation advances the game's version is the engine's business.
- Cookie signing and verification inside Brubeck's `get_cookie` and `set_cookie`, with the cookie secret. The request carries only the cookies that verify.
- Brubeck itself: argument decoding and stripping in `get_argument`, the status text `set_status` adds, the body `render` writes, and the 404 and 405 answers. Dispatch assumes each handler is reached with the verb it defines, and it assumes the router takes the first matching pattern.
- The transport between browser and router. `Request.path` is the path exactly as the router receives it from `WSGIConnection` (opengold/server.py:276). Whether the WSGI server percent-decodes `PATH_INFO` first is not modelled. A `Location` is assumed to be requested back verbatim, with no re-encoding by the client. `Server.RedirectLandsOnGame` and `Server.EscapedNameRedirectsElsewhere` hold under these two assumptions.
- Template loading and rendering, JSON serialisation, the Redis connection, application setup and `opengold/config.py`. These are I/O and configuration; `JS_PATH` is passed in.
- PyInt.ParseInt: covers the ASCII grammar of Python 2.7's `int()`: white space, an optional sign, optional white space, digits, white space. The extra Unicode digits and white space that `int()` accepts on `unicode` arguments are not modelled.
- UrlQuote.Quote: requires a byte string, which is what Python 2's `str` is. `quote` on `unicode` holding non-ASCII characters raises; that case is not modelled.
- Polling.GameListGet, Polling.GameGet and Actions.ForwardGet have no contract of their own. `Server.ListGamesSince`, `Server.WatchAfterJoin`, `Server.ForwardReachesSameGame` and `Polling.RenderPoll` state what they do.
