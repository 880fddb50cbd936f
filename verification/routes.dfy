/**
 * The route table of opengold/server.py:277-284, tried in order with the
 * first matching pattern winning. Each pattern is anchored by `^` and `$`,
 * and Python's `$` also matches just before one final newline.
 */
module Routes {
  import opened Wrappers
  import opened UrlQuote

  datatype Action = Join | Start | Move | Chat

  /** The handler a path reaches, with the raw (still quoted) game-name segment. */
  datatype Route =
    | GameListRoute
    | CreateRoute
    | ForwardRoute(raw: string)
    | GameRoute(raw: string)
    | ActionRoute(action: Action, raw: string)

  /** A pattern of the table: a fixed path, or `/(?P<game_name>[^/]+)` followed by a fixed suffix. */
  datatype Pattern = Exact(literal: string) | Segment(suffix: string)

  function ActionSuffix(a: Action): string {
    match a
    case Join => "/join"
    case Start => "/start"
    case Move => "/move"
    case Chat => "/chat"
  }

  /** The patterns in the order the table lists them. */
  const Table: seq<Pattern> := [
    Exact("/"), Exact("/create"), Segment(""), Segment("/"),
    Segment("/join"), Segment("/start"), Segment("/move"), Segment("/chat")]

  /** The position in `Table` of the pattern that leads to `r`. */
  function PatternIndex(r: Route): (i: nat)
    ensures i < |Table|
  {
    match r
    case GameListRoute => 0
    case CreateRoute => 1
    case ForwardRoute(_) => 2
    case GameRoute(_) => 3
    case ActionRoute(a, _) =>
      match a
      case Join => 4
      case Start => 5
      case Move => 6
      case Chat => 7
  }

  /** The raw segment a route carries, or "" for the two routes without one. */
  function Raw(r: Route): string {
    match r
    case GameListRoute => ""
    case CreateRoute => ""
    case ForwardRoute(raw) => raw
    case GameRoute(raw) => raw
    case ActionRoute(_, raw) => raw
  }

  /** `s` is `lit` followed by the end of the string, which Python's `$` allows after one newline. */
  predicate EndsWith(s: string, lit: string) {
    s == lit || s == lit + "\n"
  }

  /** A non-empty string without `/`: what `[^/]+` matches. */
  predicate IsSegment(g: string) {
    g != [] && forall i :: 0 <= i < |g| ==> g[i] != '/'
  }

  /** `^/(?P<game_name>[^/]+)<suffix>$` matches `path` with `g` as the game name. */
  predicate SegmentMatch(path: string, suffix: string, g: string) {
    && IsSegment(g)
    && 1 + |g| <= |path|
    && path[0] == '/'
    && path[1..1 + |g|] == g
    && EndsWith(path[1 + |g|..], suffix)
  }

  /** Whether a pattern of the table matches `path`, for some choice of game name. */
  ghost predicate Matches(p: Pattern, path: string) {
    match p
    case Exact(lit) => EndsWith(path, lit)
    case Segment(suffix) => exists g :: SegmentMatch(path, suffix, g)
  }

  /** The length of the longest prefix of `s` without `/`. */
  function SegmentLength(s: string): (k: nat)
    ensures k <= |s|
    ensures forall i :: 0 <= i < k ==> s[i] != '/'
    ensures k < |s| ==> s[k] == '/'
  {
    if s == [] || s[0] == '/' then 0 else 1 + SegmentLength(s[1..])
  }

  /** The route for a path `/<seg><tail>` whose segment `seg` is the maximal run without `/`. */
  function SegmentRoute(seg: string, tail: string): (r: Option<Route>)
    ensures r.Some? ==> Raw(r.value) == seg && PatternIndex(r.value) >= 2
  {
    if seg == [] then None
    else if EndsWith(tail, "") then Some(ForwardRoute(seg))
    else if EndsWith(tail, "/") then Some(GameRoute(seg))
    else if EndsWith(tail, "/join") then Some(ActionRoute(Join, seg))
    else if EndsWith(tail, "/start") then Some(ActionRoute(Start, seg))
    else if EndsWith(tail, "/move") then Some(ActionRoute(Move, seg))
    else if EndsWith(tail, "/chat") then Some(ActionRoute(Chat, seg))
    else None
  }

  /** Which handler serves `path`, or `None` when no pattern matches (a 404). */
  function Resolve(path: string): (r: Option<Route>)
    ensures r.Some? && IsBytes(path) ==> IsBytes(Raw(r.value))
  {
    if EndsWith(path, "/") then Some(GameListRoute)
    else if EndsWith(path, "/create") then Some(CreateRoute)
    else if path == [] || path[0] != '/' then None
    else
      var rest := path[1..];
      var k := SegmentLength(rest);
      assert IsBytes(path) ==> forall i :: 0 <= i < k ==> rest[..k][i] == path[1 + i];
      SegmentRoute(rest[..k], rest[k..])
  }

  /** A game name the segment pattern matches is the maximal `/`-free run after the first `/`. */
  lemma SegmentIsMaximal(path: string, suffix: string, g: string)
    requires SegmentMatch(path, suffix, g)
    requires suffix != [] && suffix[0] == '/'
    ensures SegmentLength(path[1..]) == |g|
  {
    assert path[1..][|g|] == path[1 + |g|] == '/';
  }

  /** Whether pattern `p` matches `path`, computed from the maximal segment as `Resolve` does. */
  predicate Hit(p: Pattern, path: string) {
    match p
    case Exact(lit) => EndsWith(path, lit)
    case Segment(suffix) =>
      && path != [] && path[0] == '/'
      && SegmentLength(path[1..]) > 0
      && EndsWith(path[1..][SegmentLength(path[1..])..], suffix)
  }

  /** The forwarding pattern matches exactly when everything after the first `/` is one segment. */
  lemma ForwardHitIffMatches(path: string)
    ensures Hit(Segment(""), path) <==> Matches(Segment(""), path)
  {
    if Matches(Segment(""), path) {
      var g :| SegmentMatch(path, "", g);
      var rest := path[1..];
      assert rest[|g|..] == path[1 + |g|..];
      forall i | 0 <= i < |rest|
        ensures rest[i] != '/'
      {
        if i < |g| {
          assert rest[i] == g[i];
        } else {
          assert rest[i] == rest[|g|..][i - |g|];
        }
      }
      assert SegmentLength(rest) == |rest|;
    } else if path != [] && path[0] == '/' {
      var k := SegmentLength(path[1..]);
      if k > 0 {
        assert !SegmentMatch(path, "", path[1..][..k]);
      }
    }
  }

  /** A pattern whose suffix starts with `/` matches exactly when the maximal segment is followed by it. */
  lemma SlashHitIffMatches(path: string, suffix: string)
    requires suffix != [] && suffix[0] == '/'
    ensures Hit(Segment(suffix), path) <==> Matches(Segment(suffix), path)
  {
    if Matches(Segment(suffix), path) {
      var g :| SegmentMatch(path, suffix, g);
      SegmentIsMaximal(path, suffix, g);
    } else if path != [] && path[0] == '/' {
      var k := SegmentLength(path[1..]);
      if k > 0 {
        assert !SegmentMatch(path, suffix, path[1..][..k]);
      }
    }
  }

  /** For every pattern of the table, the computed test agrees with the regular expression. */
  lemma HitIffMatches(p: Pattern, path: string)
    requires p.Exact? || p.suffix == [] || p.suffix[0] == '/'
    ensures Hit(p, path) <==> Matches(p, path)
  {
    if p.Segment? {
      if p.suffix == [] {
        ForwardHitIffMatches(path);
      } else {
        SlashHitIffMatches(path, p.suffix);
      }
    }
  }

  /** The table as the router lists it, entry by entry. */
  lemma TableEntries()
    ensures |Table| == 8
    ensures Table[0] == Exact("/") && Table[1] == Exact("/create")
    ensures Table[2] == Segment("") && Table[3] == Segment("/")
    ensures Table[4] == Segment("/join") && Table[5] == Segment("/start")
    ensures Table[6] == Segment("/move") && Table[7] == Segment("/chat")
  {
  }

  /** Past the two fixed patterns, `Resolve` takes the first segment pattern whose suffix ends the path. */
  lemma SegmentIsFirstHit(path: string)
    requires path != [] && path[0] == '/'
    requires !EndsWith(path, "/") && !EndsWith(path, "/create")
    ensures Resolve(path).Some? ==>
      && Hit(Table[PatternIndex(Resolve(path).value)], path)
      && forall j :: 0 <= j < PatternIndex(Resolve(path).value) ==> !Hit(Table[j], path)
    ensures Resolve(path).None? ==> forall j :: 0 <= j < |Table| ==> !Hit(Table[j], path)
  {
    TableEntries();
    var rest := path[1..];
    var k := SegmentLength(rest);
    var tail := rest[k..];
    assert Resolve(path) == SegmentRoute(rest[..k], tail);
    assert rest[..k] == [] <==> k == 0;
    assert forall j :: 2 <= j < |Table| ==> (Hit(Table[j], path) <==> k > 0 && EndsWith(tail, Table[j].suffix));
  }

  /** `Resolve` answers with the first pattern of the table the computed test accepts. */
  lemma ResolveIsFirstHit(path: string)
    ensures Resolve(path).Some? ==>
      && Hit(Table[PatternIndex(Resolve(path).value)], path)
      && forall j :: 0 <= j < PatternIndex(Resolve(path).value) ==> !Hit(Table[j], path)
    ensures Resolve(path).None? ==> forall j :: 0 <= j < |Table| ==> !Hit(Table[j], path)
  {
    TableEntries();
    if EndsWith(path, "/") || EndsWith(path, "/create") {
    } else if path == [] || path[0] != '/' {
      assert forall j :: 2 <= j < |Table| ==> !Hit(Table[j], path);
    } else {
      SegmentIsFirstHit(path);
    }
  }

  /**
   * `Resolve` picks the first pattern of the table that matches, and reports
   * no route exactly when none does.
   */
  lemma ResolveIsFirstMatch(path: string)
    ensures Resolve(path).Some? ==>
      && Matches(Table[PatternIndex(Resolve(path).value)], path)
      && forall j :: 0 <= j < PatternIndex(Resolve(path).value) ==> !Matches(Table[j], path)
    ensures Resolve(path).None? ==> forall j :: 0 <= j < |Table| ==> !Matches(Table[j], path)
  {
    forall j | 0 <= j < |Table|
      ensures Hit(Table[j], path) <==> Matches(Table[j], path)
    {
      HitIffMatches(Table[j], path);
    }
    ResolveIsFirstHit(path);
  }

  /** The pattern of a segment route matches its path with the route's segment as the game name. */
  lemma ResolveSegmentMatches(path: string)
    requires Resolve(path).Some? && PatternIndex(Resolve(path).value) >= 2
    ensures SegmentMatch(path, Table[PatternIndex(Resolve(path).value)].suffix, Raw(Resolve(path).value))
  {
    var rest := path[1..];
    var k := SegmentLength(rest);
    var route := Resolve(path).value;
    assert route == SegmentRoute(rest[..k], rest[k..]).value;
    assert rest[..k] == path[1..1 + k] && rest[k..] == path[1 + k..];
    var i := PatternIndex(route);
    assert Table[i] == [Exact("/"), Exact("/create"), Segment(""), Segment("/"),
      Segment("/join"), Segment("/start"), Segment("/move"), Segment("/chat")][i];
  }

  /**
   * The segment a segment route carries is the game name its pattern matched,
   * and the longest one it can match, as the greedy `[^/]+` captures it.
   */
  lemma ResolveCapturesName(path: string)
    requires Resolve(path).Some? && PatternIndex(Resolve(path).value) >= 2
    ensures SegmentMatch(path, Table[PatternIndex(Resolve(path).value)].suffix, Raw(Resolve(path).value))
    ensures forall g :: SegmentMatch(path, Table[PatternIndex(Resolve(path).value)].suffix, g) ==>
      |g| <= |Raw(Resolve(path).value)|
  {
    ResolveSegmentMatches(path);
    SegmentRouteRaw(path);
    var suffix := Table[PatternIndex(Resolve(path).value)].suffix;
    forall g | SegmentMatch(path, suffix, g)
      ensures |g| <= |Raw(Resolve(path).value)|
    {
      SegmentMatchWithinRun(path, suffix, g);
    }
  }

  /** No matched game name runs past the first `/` after the leading one. */
  lemma SegmentMatchWithinRun(path: string, suffix: string, g: string)
    requires SegmentMatch(path, suffix, g)
    ensures |g| <= SegmentLength(path[1..])
  {
    var rest := path[1..];
    assert forall i :: 0 <= i < |g| ==> rest[i] == g[i];
  }

  /** A segment route carries the maximal run of non-`/` characters after the leading `/`. */
  lemma SegmentRouteRaw(path: string)
    requires Resolve(path).Some? && PatternIndex(Resolve(path).value) >= 2
    ensures path != [] && path[0] == '/'
    ensures Raw(Resolve(path).value) == path[1..][..SegmentLength(path[1..])]
  {
  }

  /** `/create` also matches the `[^/]+` pattern, but the create handler, listed first, serves it. */
  lemma CreateShadowsForward()
    ensures Matches(Segment(""), "/create")
    ensures Resolve("/create") == Some(CreateRoute)
  {
    assert SegmentMatch("/create", "", "create");
  }

  /** A game page `/<seg>/` reaches the game handler with the same segment. */
  lemma ResolveGamePage(seg: string)
    requires IsSegment(seg)
    ensures Resolve("/" + seg + "/") == Some(GameRoute(seg))
  {
    SplitAtSegment(seg, "/");
    var path := "/" + seg + "/";
    assert path[|path| - 1] == '/';
  }

  /** `/<seg><suffix>` splits into the segment `seg` and the rest `suffix`, when `suffix` starts with `/`. */
  lemma SplitAtSegment(seg: string, suffix: string)
    requires IsSegment(seg) && suffix != [] && suffix[0] == '/'
    ensures var path := "/" + seg + suffix;
      && path[1..][..SegmentLength(path[1..])] == seg
      && path[1..][SegmentLength(path[1..])..] == suffix
  {
    var path := "/" + seg + suffix;
    assert path[1..] == seg + suffix;
    assert (seg + suffix)[|seg|] == '/';
    assert (seg + suffix)[..|seg|] == seg;
    assert (seg + suffix)[|seg|..] == suffix;
  }

  /** A path `/<seg><suffix>` that neither fixed pattern claims is routed on `seg` and `suffix`. */
  lemma ResolveThroughSegment(seg: string, suffix: string)
    requires IsSegment(seg) && suffix != [] && suffix[0] == '/'
    requires !EndsWith("/" + seg + suffix, "/") && !EndsWith("/" + seg + suffix, "/create")
    ensures Resolve("/" + seg + suffix) == SegmentRoute(seg, suffix)
  {
    SplitAtSegment(seg, suffix);
  }

  /** Each action suffix selects its own handler. */
  lemma SegmentRouteAction(seg: string, a: Action)
    requires seg != []
    ensures SegmentRoute(seg, ActionSuffix(a)) == Some(ActionRoute(a, seg))
  {
    match a {
      case Join =>
      case Start => assert "/start"[1] != "/join\n"[1];
      case Move =>
      case Chat =>
    }
  }

  /** An action path `/<seg>/join` (and likewise for the others) reaches that action's handler. */
  lemma ResolveAction(seg: string, a: Action)
    requires IsSegment(seg)
    ensures Resolve("/" + seg + ActionSuffix(a)) == Some(ActionRoute(a, seg))
  {
    var path := "/" + seg + ActionSuffix(a);
    assert path[1 + |seg|] == '/';
    assert 2 <= 1 + |seg| < 7 ==> "/create\n"[1 + |seg|] != '/';
    assert !EndsWith(path, "/create");
    assert path[|path| - 1] != '/' && path[|path| - 1] != '\n';
    assert !EndsWith(path, "/");
    ResolveThroughSegment(seg, ActionSuffix(a));
    SegmentRouteAction(seg, a);
  }

  /** A path `/<seg>` reaches `ForwardToGameHandler`, unless the create route or the index claims it first. */
  lemma ResolveForward(seg: string)
    requires IsSegment(seg) && seg != "\n" && !EndsWith(seg, "create")
    ensures Resolve("/" + seg) == Some(ForwardRoute(seg))
  {
    var path := "/" + seg;
    assert path[1..] == seg;
    assert seg[..|seg|] == seg;
  }

  /** A game page whose name is not a segment (empty, or holding `/`) is not served by the game handler. */
  lemma NonSegmentPageMissesGame(name: string)
    requires !IsSegment(name)
    ensures forall g :: Resolve("/" + name + "/") != Some(GameRoute(g))
  {
    var path := "/" + name + "/";
    assert path[1..] == name + "/";
    if name != [] {
      var j :| 0 <= j < |name| && name[j] == '/';
      var k := SegmentLength(path[1..]);
      assert (name + "/")[j] == '/';
      assert k <= j;
      var tail := path[1..][k..];
      assert |tail| >= 2 && tail[|tail| - 1] == '/';
    }
  }
}
