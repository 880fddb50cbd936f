/**
 * The whole request path of opengold/server.py: the route table picks a
 * handler, which answers from the request and from what its collaborators
 * (configuration, game engine, long-poll source) report.
 */
module Server {
  import opened Wrappers
  import opened UrlQuote
  import opened Http
  import opened Session
  import opened Decorators
  import opened Polling
  import opened Actions
  import opened Routes
  import Text
  import Negotiation

  /**
   * The configured script path and the answers the collaborators give this
   * request; a handler consults only the one it needs.
   */
  datatype Environment = Environment(
    jsPath: string,
    joinAccepted: bool,
    chatSent: bool,
    moveAccepted: bool,
    poll: PollResult)

  /** Serves one request; `None` is the 404 of a path no pattern matches. */
  function Dispatch(req: Request, env: Environment): (r: Option<Reply>)
    requires IsBytes(req.path)
    ensures r.None? <==> Resolve(req.path).None?
    ensures r.Some? && Resolve(req.path).value.ActionRoute? && r.value.call.Some? ==>
      (Truthy(GetPlayer(req.cookies, Unquote(Resolve(req.path).value.raw))) <==> Resolve(req.path).value.action != Join)
  {
    match Resolve(req.path)
    case None => None
    case Some(route) =>
      Some(match route
        case GameListRoute => GameListGet(req, env.jsPath, env.poll)
        case CreateRoute => CreateGet(req)
        case ForwardRoute(raw) => ForwardGet(raw)
        case GameRoute(raw) => GameGet(req, raw, env.jsPath, env.poll)
        case ActionRoute(action, raw) => Perform(req, env, action, raw))
  }

  /** The action handler for `action`, given the engine's answer for it. */
  function Perform(req: Request, env: Environment, action: Action, raw: string): Reply
    requires IsBytes(raw)
  {
    match action
    case Join => JoinPost(req, raw, env.joinAccepted)
    case Start => StartPost(req, raw)
    case Move => MovePost(req, raw, env.moveAccepted)
    case Chat => ChatPost(req, raw, env.chatSent)
  }

  /** Following `url` reaches the game handler, which serves the game named `game`. */
  predicate LandsOn(url: string, game: string) {
    match Resolve(url)
    case Some(GameRoute(raw)) => Unquote(raw) == game
    case _ => false
  }

  /**
   * The redirect after a successful action names the game unquoted, so it
   * leads back to that game exactly when the name is a single path segment
   * holding no well-formed escape.
   */
  lemma RedirectLandsOnGame(game: string)
    ensures LandsOn(GamePage(game), game) <==> IsSegment(game) && forall i :: !EscapeAt(game, i)
  {
    UnquoteFixedPoint(game);
    if IsSegment(game) {
      ResolveGamePage(game);
    } else {
      NonSegmentPageMissesGame(game);
    }
  }

  /** A client that sends back, in decimal, the id it last saw has the engine asked for changes after exactly that id. */
  lemma ListGamesSince(req: Request, jsPath: string, poll: PollResult, n: int)
    requires "id" in req.args && req.args["id"] == PyInt.Show(n)
    ensures GameListGet(req, jsPath, poll).call == Some(ListGames([n]))
  {
    IdArgumentRoundTrip(n);
  }

  /** Once the cookie from a successful join is stored, watching the game shows it from the joined player's seat. */
  lemma WatchAfterJoin(req: Request, raw: string, joined: bool, jsPath: string, poll: PollResult)
    requires IsBytes(raw)
    requires JoinPost(req, raw, joined).outcome.Ok?
    requires JoinPost(req, raw, joined).outcome.value.cookie.Some?
    ensures var next := req.(cookies := Store(req.cookies, JoinPost(req, raw, joined).outcome.value.cookie.value));
      GameGet(next, raw, jsPath, poll).call
        == Some(GameInfo(Unquote(raw), Some(req.args["player"]), IdArgument(Argument(req, "id"))))
  {
    IssueThenResolve(req.cookies, Unquote(raw), req.args["player"]);
  }

  /** A game whose name itself looks like an escape: its redirect serves another game. */
  lemma EscapedNameRedirectsElsewhere()
    ensures Unquote("%2541") == "%41"
    ensures LandsOn(GamePage("%41"), "A")
    ensures !LandsOn(GamePage("%41"), "%41")
  {
    assert EscapeAt("%41", 0);
    RedirectLandsOnGame("%41");
    ResolveGamePage("%41");
  }

  /** `ForwardToGameHandler` leads to the game handler with the very segment it was given. */
  lemma ForwardReachesSameGame(raw: string)
    requires IsSegment(raw)
    ensures ForwardGet(raw).outcome.value.location == Some(GamePage(raw))
    ensures Resolve(GamePage(raw)) == Some(GameRoute(raw))
  {
    ResolveGamePage(raw);
  }

  /** `CreateGameHandler` leads to the game handler for a name that is a single path segment. */
  lemma CreateReachesNamedGame(req: Request)
    requires "name" in req.args && IsSegment(req.args["name"])
    ensures CreateGet(req).outcome.value.location == Some(GamePage(req.args["name"]))
    ensures Resolve(GamePage(req.args["name"])) == Some(GameRoute(req.args["name"]))
  {
    ResolveGamePage(req.args["name"]);
  }

  /** `/nada` is served by `ForwardToGameHandler` with a redirect, not answered with a 404. */
  lemma UnknownGameIsForwarded(req: Request, env: Environment)
    requires req.path == "/nada"
    ensures Dispatch(req, env) == Some(Reply(None, Ok(Redirect("/nada/"))))
  {
    assert req.path == "/" + "nada";
    ResolveForward("nada");
    assert GamePage("nada") == "/nada/";
  }

  /** The plain names the scenarios use are their own quoted and unquoted forms. */
  lemma PlainNames()
    ensures IsBytes("alpha") && Quote("alpha") == "alpha" && Unquote("alpha") == "alpha"
    ensures IsBytes("beta") && Quote("beta") == "beta" && Unquote("beta") == "beta"
  {
    QuoteSafeName("alpha");
    UnquotePlainName("alpha");
    QuoteSafeName("beta");
    UnquotePlainName("beta");
  }

  /** `/<game><suffix>` is a byte string when the game name and the suffix are. */
  lemma ActionPathBytes(game: string, suffix: string)
    requires IsBytes(game) && IsBytes(suffix)
    ensures IsBytes("/" + game + suffix)
  {
    var path := "/" + game + suffix;
    forall i | 0 <= i < |path|
      ensures path[i] as int < 256
    {
      if i == 0 {
      } else if i <= |game| {
        assert path[i] == game[i - 1];
      } else {
        assert path[i] == suffix[i - 1 - |game|];
      }
    }
  }

  /** A request for `/<game>/<action>` is served by that action's handler for `game`. */
  lemma DispatchOfAction(req: Request, env: Environment, game: string, action: Action)
    requires IsSegment(game) && IsBytes(game) && req.path == "/" + game + ActionSuffix(action)
    ensures IsBytes(req.path)
    ensures Dispatch(req, env) == Some(Perform(req, env, action, game))
  {
    var suffix := ActionSuffix(action);
    assert IsBytes(suffix);
    ActionPathBytes(game, suffix);
    ResolveAction(game, action);
  }

  /** Starting a game the browser has not joined is refused before the engine is asked. */
  lemma StartWithoutJoining(req: Request, env: Environment)
    requires req.path == "/beta/start"
    requires "beta" !in req.cookies
    ensures Dispatch(req, env) == Some(Reply(None, Ok(BadRequest("You are not in this game"))))
  {
    DispatchOfAction(req, env, "beta", Start);
    PlainNames();
  }

  lemma JoinAlphaReply(req: Request)
    requires req.args == map["player" := "barrett"]
    requires req.cookies == map[]
    requires req.headers == map["accept" := "application/json"]
    ensures JoinPost(req, "alpha", true) == Reply(Some(JoinGame("alpha", "barrett")), Ok(NoContent(Some(Cookie("alpha", "barrett")))))
  {
    PlainNames();
    assert Negotiation.AcceptValue(req.headers) == Some("application/json");
    assert Text.OccursAt("application/json", Negotiation.JsonMediaType, 0);
  }

  lemma StartAsBarrett(req: Request)
    requires req.cookies == map["alpha" := "barrett"]
    ensures StartPost(req, "alpha").call == Some(StartGame("alpha", "barrett"))
  {
    PlainNames();
  }

  /** Joining `alpha` as `barrett` asks the engine and, on success, issues the session cookie keyed `alpha`. */
  lemma JoinAlpha(req: Request, env: Environment)
    requires req.path == "/alpha/join"
    requires req.args == map["player" := "barrett"]
    requires req.cookies == map[]
    requires req.headers == map["accept" := "application/json"]
    requires env.joinAccepted
    ensures Dispatch(req, env) == Some(Reply(Some(JoinGame("alpha", "barrett")), Ok(NoContent(Some(Cookie("alpha", "barrett"))))))
  {
    DispatchOfAction(req, env, "alpha", Join);
    assert Perform(req, env, Join, "alpha") == JoinPost(req, "alpha", true);
    JoinAlphaReply(req);
  }

  /** A start request carrying the `alpha` cookie reaches the engine as the player it names. */
  lemma StartAlphaAsBarrett(req: Request, env: Environment)
    requires req.path == "/alpha/start"
    requires req.cookies == map["alpha" := "barrett"]
    ensures Dispatch(req, env) == Some(Reply(Some(StartGame("alpha", "barrett")), StartPost(req, "alpha").outcome))
  {
    DispatchOfAction(req, env, "alpha", Start);
    StartAsBarrett(req);
  }
}
