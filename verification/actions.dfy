/**
 * The redirect-only handlers and the four action handlers of
 * `opengold/server.py` (lines 129-147 and 185-268). Each action handler is
 * wrapped by `unquote_game_name` outside `redirect_unless_json`; the engine's
 * answer is a parameter and the call the handler makes is recorded.
 */
module Actions {
  import opened Wrappers
  import opened UrlQuote
  import opened Http
  import Negotiation
  import opened Session
  import opened Decorators

  const ChatNotInGame := "You are not in this game."
  const NotInGame := "You are not in this game"
  const AlreadyInGame := "You are already in this game"
  const NameRequired := "You must specify a name to join a game."
  const ChatRefused := "Could not send chat"
  const MoveRefused := "Could not submit move"

  function JoinRefused(player: string): string {
    "Could not add " + player + " to game"
  }

  /** `CreateGameHandler.get`: forward to the page of the game named by `name`, or to the index. */
  function CreateGet(req: Request): (r: Reply)
    ensures r.call.None? && r.outcome.Ok? && r.outcome.value.status == 302
    ensures Truthy(Argument(req, "name")) ==> r.outcome.value.location == Some(GamePage(req.args["name"]))
    ensures !Truthy(Argument(req, "name")) ==> r.outcome.value.location == Some("/")
  {
    var name := Argument(req, "name");
    if Truthy(name) then Reply(None, Ok(Redirect(GamePage(name.value))))
    else Reply(None, Ok(Redirect("/")))
  }

  /** `ForwardToGameHandler.get`: add the trailing slash, keeping the segment as it was sent. */
  function ForwardGet(raw: string): Reply {
    Reply(None, Ok(Redirect(GamePage(raw))))
  }

  /**
   * `ChatHandler.post`. The engine is asked only when both the message and
   * the player are non-empty; an empty message from a player is accepted
   * without asking it.
   */
  function ChatPost(req: Request, raw: string, sent: bool): (r: Reply)
    requires IsBytes(raw)
    ensures var game := Unquote(raw);
      var player := GetPlayer(req.cookies, game);
      var message := Argument(req, "message");
      && (r.call.Some? <==> Truthy(message) && Truthy(player))
      && (r.call.Some? ==> r.call.value == SendChat(game, player.value, message.value))
      && (player.None? ==> r.outcome == Ok(BadRequest(ChatNotInGame)))
      && (r.call.Some? && !sent ==> r.outcome == Ok(BadRequest(ChatRefused)))
      && (player.Some? && (r.call.None? || sent) ==> Succeeds(req.headers, game, None, r.outcome))
  {
    var game := Unquote(raw);
    var player := GetPlayer(req.cookies, game);
    var message := Argument(req, "message");
    if Truthy(message) && Truthy(player) then
      var resp := if sent then NoContent(None) else BadRequest(ChatRefused);
      Reply(Some(SendChat(game, player.value, message.value)), RedirectUnlessJson(req.headers, game, resp))
    else if player.None? then
      Reply(None, RedirectUnlessJson(req.headers, game, BadRequest(ChatNotInGame)))
    else
      Reply(None, RedirectUnlessJson(req.headers, game, NoContent(None)))
  }

  /**
   * `JoinHandler.post`. A browser already in the game, or a request without
   * a name, is refused before the engine is asked; the session cookie is
   * issued only when the engine accepts the player.
   */
  function JoinPost(req: Request, raw: string, joined: bool): (r: Reply)
    requires IsBytes(raw)
    ensures var game := Unquote(raw);
      var current := GetPlayer(req.cookies, game);
      var name := Argument(req, "player");
      && (Truthy(current) ==> r == Reply(None, Ok(BadRequest(AlreadyInGame))))
      && (!Truthy(current) && !Truthy(name) ==> r == Reply(None, Ok(BadRequest(NameRequired))))
      && (r.call.Some? <==> !Truthy(current) && Truthy(name))
      && (r.call.Some? ==> r.call.value == JoinGame(game, name.value))
      && (r.call.Some? && !joined ==> r.outcome == Ok(BadRequest(JoinRefused(name.value))))
      && (r.call.Some? && joined ==> Succeeds(req.headers, game, Some(SessionCookie(game, name.value)), r.outcome))
      && (r.outcome.Ok? && r.outcome.value.cookie.Some? ==> r.call.Some? && joined)
  {
    var game := Unquote(raw);
    var name := Argument(req, "player");
    if Truthy(GetPlayer(req.cookies, game)) then
      Reply(None, RedirectUnlessJson(req.headers, game, BadRequest(AlreadyInGame)))
    else if Truthy(name) then
      var resp := if joined then NoContent(Some(SessionCookie(game, name.value))) else BadRequest(JoinRefused(name.value));
      Reply(Some(JoinGame(game, name.value)), RedirectUnlessJson(req.headers, game, resp))
    else
      Reply(None, RedirectUnlessJson(req.headers, game, BadRequest(NameRequired)))
  }

  /**
   * `StartHandler.post`. A player in the game always succeeds, whatever the
   * engine answers; anyone else is refused without asking it.
   */
  function StartPost(req: Request, raw: string): (r: Reply)
    requires IsBytes(raw)
    ensures var game := Unquote(raw);
      var player := GetPlayer(req.cookies, game);
      && (Truthy(player) ==> r.call == Some(StartGame(game, player.value)) && Succeeds(req.headers, game, None, r.outcome))
      && (!Truthy(player) ==> r == Reply(None, Ok(BadRequest(NotInGame))))
  {
    var game := Unquote(raw);
    var player := GetPlayer(req.cookies, game);
    if Truthy(player) then
      Reply(Some(StartGame(game, player.value)), RedirectUnlessJson(req.headers, game, NoContent(None)))
    else
      Reply(None, RedirectUnlessJson(req.headers, game, BadRequest(NotInGame)))
  }

  /**
   * `MoveHandler.post`. Only a player in the game reaches the engine, with
   * the `move` argument as sent (possibly absent); the engine's verdict
   * decides between success and "Could not submit move".
   */
  function MovePost(req: Request, raw: string, accepted: bool): (r: Reply)
    requires IsBytes(raw)
    ensures var game := Unquote(raw);
      var player := GetPlayer(req.cookies, game);
      && (Truthy(player) ==> r.call == Some(MakeMove(game, player.value, Argument(req, "move"))))
      && (Truthy(player) && accepted ==> Succeeds(req.headers, game, None, r.outcome))
      && (Truthy(player) && !accepted ==> r.outcome == Ok(BadRequest(MoveRefused)))
      && (!Truthy(player) ==> r == Reply(None, Ok(BadRequest(NotInGame))))
  {
    var game := Unquote(raw);
    var player := GetPlayer(req.cookies, game);
    if Truthy(player) then
      var resp := if accepted then NoContent(None) else BadRequest(MoveRefused);
      Reply(Some(MakeMove(game, player.value, Argument(req, "move"))), RedirectUnlessJson(req.headers, game, resp))
    else
      Reply(None, RedirectUnlessJson(req.headers, game, BadRequest(NotInGame)))
  }

  /** Once the cookie from a successful join is stored, joining the same game again is refused. */
  lemma JoinTwiceRefused(req: Request, raw: string, joined: bool, again: bool)
    requires IsBytes(raw)
    requires JoinPost(req, raw, joined).outcome.Ok?
    requires JoinPost(req, raw, joined).outcome.value.cookie.Some?
    ensures var next := req.(cookies := Store(req.cookies, JoinPost(req, raw, joined).outcome.value.cookie.value));
      JoinPost(next, raw, again) == Reply(None, Ok(BadRequest(AlreadyInGame)))
  {
    var game := Unquote(raw);
    var name := Argument(req, "player");
    IssueThenResolve(req.cookies, game, name.value);
  }

  /**
   * A join the engine accepts, sent with no accept value, has already added the
   * player when the decorator raises: the engine holds the player, but no
   * response carries the session cookie to the browser.
   */
  lemma AcceptedJoinWithoutAccept(req: Request, raw: string)
    requires IsBytes(raw)
    requires !Truthy(GetPlayer(req.cookies, Unquote(raw)))
    requires Truthy(Argument(req, "player"))
    requires !Negotiation.HasAccept(req.headers)
    ensures JoinPost(req, raw, true).call == Some(JoinGame(Unquote(raw), req.args["player"]))
    ensures JoinPost(req, raw, true).outcome == Err(NoAcceptHeader)
  {
  }

  /** Once the cookie from a successful join is stored, starting the game asks the engine as the joined player. */
  lemma JoinThenStart(req: Request, raw: string, joined: bool)
    requires IsBytes(raw)
    requires JoinPost(req, raw, joined).outcome.Ok?
    requires JoinPost(req, raw, joined).outcome.value.cookie.Some?
    ensures var next := req.(cookies := Store(req.cookies, JoinPost(req, raw, joined).outcome.value.cookie.value));
      StartPost(next, raw).call == Some(StartGame(Unquote(raw), req.args["player"]))
  {
    var game := Unquote(raw);
    IssueThenResolve(req.cookies, game, req.args["player"]);
  }

  /**
   * A refusal is rendered as it is, whatever the accept headers: only a
   * success is rewritten into a redirect.
   */
  lemma RefusalsIgnoreAccept(req: Request, raw: string, sent: bool, joined: bool, accepted: bool, headers: map<string, string>)
    requires IsBytes(raw)
    ensures var other := req.(headers := headers);
      && (ChatPost(req, raw, sent).outcome == Ok(BadRequest(ChatRefused)) ==> ChatPost(other, raw, sent) == ChatPost(req, raw, sent))
      && (JoinPost(req, raw, joined).outcome.Ok? && JoinPost(req, raw, joined).outcome.value.status == 400 ==> JoinPost(other, raw, joined) == JoinPost(req, raw, joined))
      && (MovePost(req, raw, accepted).outcome == Ok(BadRequest(MoveRefused)) ==> MovePost(other, raw, accepted) == MovePost(req, raw, accepted))
  {
  }

  /** Repeated chat posts with an empty or missing message never reach the engine, so they wake no waiter. */
  lemma EmptyChatIsNoOp(req: Request, raw: string, sent: bool)
    requires IsBytes(raw)
    requires !Truthy(Argument(req, "message"))
    ensures ChatPost(req, raw, sent).call.None?
    ensures GetPlayer(req.cookies, Unquote(raw)).Some? ==> Succeeds(req.headers, Unquote(raw), None, ChatPost(req, raw, sent).outcome)
  {
  }
}
