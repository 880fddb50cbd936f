/**
 * `PlayerMixin.get_player` (opengold/server.py:63-73) and the cookie `JoinHandler`
 * issues (opengold/server.py:223): a per-game session keyed by the quoted game name.
 */
module Session {
  import opened Wrappers
  import opened UrlQuote
  import opened Http

  /** The cookie key of a game: its name quoted with no safe characters. */
  function SessionKey(game: string): (key: string)
    requires IsBytes(game)
    ensures '/' !in key
  {
    Quote(game)
  }

  /** The player the browser is in `game` as, or `None` if it holds no verified cookie for it. */
  function GetPlayer(cookies: map<string, string>, game: string): (player: Option<string>)
    requires IsBytes(game)
    ensures player.Some? <==> SessionKey(game) in cookies
    ensures player.Some? ==> player.value == cookies[SessionKey(game)]
  {
    if SessionKey(game) in cookies then Some(cookies[SessionKey(game)]) else None
  }

  /** The session cookie issued when `player` joins `game`. */
  function SessionCookie(game: string, player: string): (c: Cookie)
    requires IsBytes(game)
    ensures c.key == SessionKey(game) && c.value == player
  {
    Cookie(SessionKey(game), player)
  }

  /**
   * The browser's cookie jar after it stores `c` from a `Set-Cookie`: the
   * verified cookies it sends with its next request.
   */
  function Store(cookies: map<string, string>, c: Cookie): (jar: map<string, string>)
    ensures jar.Keys == cookies.Keys + {c.key}
    ensures jar[c.key] == c.value
    ensures forall k :: k in cookies && k != c.key ==> jar[k] == cookies[k]
  {
    cookies[c.key := c.value]
  }

  /** Storing the cookie issued on joining makes `get_player` return the joined player. */
  lemma IssueThenResolve(cookies: map<string, string>, game: string, player: string)
    requires IsBytes(game)
    ensures GetPlayer(Store(cookies, SessionCookie(game, player)), game) == Some(player)
  {
  }

  /** Joining one game leaves the browser's session in every other game as it was. */
  lemma SessionsIsolated(cookies: map<string, string>, game: string, other: string, player: string)
    requires IsBytes(game) && IsBytes(other) && game != other
    ensures GetPlayer(Store(cookies, SessionCookie(game, player)), other) == GetPlayer(cookies, other)
  {
    if SessionKey(game) == SessionKey(other) {
      QuoteInjective(game, other);
    }
  }
}
