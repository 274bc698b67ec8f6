/** The task router: the auth middleware in front of every route, then the
    first route, in declaration order, whose method and path match. Paths are
    matched the way the router does by default: literal segments ignore
    ASCII case, and one trailing slash is optional. */
module TaskRoutes {
  import opened Wrappers
  import opened TaskModel
  type Params = map<string, string>

  /** The controller functions a route hands a request to, in the order
      `getAllMyTasks`, `createTask`, `getMyTasksByCompletionStatus`,
      `getTaskById`, `updateTask` and `deleteTask`. */
  datatype Handler =
    | ListMine
    | CreateOne
    | ListMineByStatus
    | ReadOne
    | UpdateOne
    | DeleteOne

  /** A route: the HTTP method, the path pattern and its handler. A pattern
      segment starting with ':' captures one path segment. */
  datatype Route = Route(verb: string, pattern: string, handler: Handler)

  /** The routes in declaration order; "/status" precedes "/:id". */
  const Routes: seq<Route> := [
    Route("GET", "/", ListMine),
    Route("POST", "/", CreateOne),
    Route("GET", "/status", ListMineByStatus),
    Route("GET", "/:id", ReadOne),
    Route("PUT", "/:id", UpdateOne),
    Route("DELETE", "/:id", DeleteOne)
  ]

  /** How a request fares: refused by the auth middleware, handed to a
      handler with the caller and the captured parameters, or matched by no
      route of this router. */
  datatype Routing =
    | Unauthenticated
    | Dispatched(caller: UserId, handler: Handler, params: Params)
    | NoRoute

  function LowerAscii(c: char): char {
    if 'A' <= c <= 'Z' then (c as int - 'A' as int + 'a' as int) as char else c
  }

  predicate EqualsIgnoreCase(a: string, b: string) {
    |a| == |b| && forall i :: 0 <= i < |a| ==> LowerAscii(a[i]) == LowerAscii(b[i])
  }

  /** A literal pattern matches itself with or without one trailing slash. */
  predicate LiteralMatches(pattern: string, path: string) {
    var base := if |pattern| > 0 && pattern[|pattern| - 1] == '/' then pattern[..|pattern| - 1] else pattern;
    EqualsIgnoreCase(path, base) || EqualsIgnoreCase(path, base + "/")
  }

  /** The one segment a "/:name" pattern captures: non-empty, without '/',
      after the leading slash and before an optional trailing one. */
  function SegmentOf(path: string): (r: Option<string>)
    ensures r.Some? ==> r.value != [] && '/' !in r.value
    ensures r.Some? ==> path == "/" + r.value || path == "/" + r.value + "/"
  {
    if |path| >= 2 && path[0] == '/' then
      var body := if path[|path| - 1] == '/' then path[1..|path| - 1] else path[1..];
      if body != [] && '/' !in body then Some(body) else None
    else None
  }

  /** The parameters `pattern` captures from `path`, or `None` if it does not match. */
  function MatchPath(pattern: string, path: string): Option<Params> {
    if |pattern| >= 2 && pattern[..2] == "/:" then
      match SegmentOf(path)
      case Some(v) => Some(map[pattern[2..] := v])
      case None => None
    else if LiteralMatches(pattern, path) then Some(map[])
    else None
  }

  predicate RouteMatches(r: Route, verb: string, path: string) {
    r.verb == verb && MatchPath(r.pattern, path).Some?
  }

  /** The position of the first route matching the request. */
  function FirstMatch(routes: seq<Route>, verb: string, path: string): (r: Option<nat>)
    ensures r.Some? ==> && r.value < |routes|
                        && RouteMatches(routes[r.value], verb, path)
                        && forall j :: 0 <= j < r.value ==> !RouteMatches(routes[j], verb, path)
    ensures r.None? ==> forall j :: 0 <= j < |routes| ==> !RouteMatches(routes[j], verb, path)
  {
    if routes == [] then None
    else if RouteMatches(routes[0], verb, path) then Some(0)
    else
      match FirstMatch(routes[1..], verb, path)
      case Some(i) => Some(i + 1)
      case None => None
  }

  /** `router.use(authMiddleware)` then the route table. `caller` is the user
      id the middleware resolves from the bearer token, if any. */
  function Dispatch(caller: Option<UserId>, verb: string, path: string): (d: Routing)
    ensures caller.None? ==> d == Unauthenticated
    ensures d.Dispatched? ==> caller == Some(d.caller)
    ensures d.Dispatched? ==> exists i :: 0 <= i < |Routes| && Routes[i].handler == d.handler
                                   && RouteMatches(Routes[i], verb, path)
                                   && MatchPath(Routes[i].pattern, path) == Some(d.params)
                                   && (forall j :: 0 <= j < i ==> !RouteMatches(Routes[j], verb, path))
    ensures d == NoRoute <==> caller.Some? && forall j :: 0 <= j < |Routes| ==> !RouteMatches(Routes[j], verb, path)
  {
    if caller.None? then Unauthenticated
    else
      match FirstMatch(Routes, verb, path)
      case Some(i) => Dispatched(caller.value, Routes[i].handler, MatchPath(Routes[i].pattern, path).value)
      case None => NoRoute
  }

  // ---------------------------------------------------------------------------
  // What the table dispatches

  /** The first matching route is the one the table holds at the first
      position that matches. */
  lemma FirstMatchAt(verb: string, path: string, i: nat)
    requires i < |Routes| && RouteMatches(Routes[i], verb, path)
    requires forall j :: 0 <= j < i ==> !RouteMatches(Routes[j], verb, path)
    ensures FirstMatch(Routes, verb, path) == Some(i)
  {
  }

  /** A request is handed to the first route that matches it, with the
      parameters that route's pattern captures. */
  lemma DispatchAt(caller: UserId, verb: string, path: string, i: nat)
    requires i < |Routes| && RouteMatches(Routes[i], verb, path)
    requires forall j :: 0 <= j < i ==> !RouteMatches(Routes[j], verb, path)
    ensures Dispatch(Some(caller), verb, path)
         == Dispatched(caller, Routes[i].handler, MatchPath(Routes[i].pattern, path).value)
  {
    FirstMatchAt(verb, path, i);
  }

  /** How each pattern of the table matches a path. */
  lemma PatternsOfTable(path: string)
    ensures MatchPath("/", path) == if LiteralMatches("/", path) then Some(map[]) else None
    ensures MatchPath("/status", path) == if LiteralMatches("/status", path) then Some(map[]) else None
    ensures MatchPath("/:id", path) == if SegmentOf(path).Some? then Some(map["id" := SegmentOf(path).value]) else None
  {
    assert "/status"[..2][1] == 's';
    assert "/:id"[..2] == "/:" && "/:id"[2..] == "id";
  }

  /** `GET /` lists the caller's tasks and `POST /` creates one. */
  lemma RootRoutes(caller: UserId)
    ensures Dispatch(Some(caller), "GET", "/") == Dispatched(caller, ListMine, map[])
    ensures Dispatch(Some(caller), "POST", "/") == Dispatched(caller, CreateOne, map[])
  {
    assert EqualsIgnoreCase("/", "/");
    PatternsOfTable("/");
    DispatchAt(caller, "GET", "/", 0);
    DispatchAt(caller, "POST", "/", 1);
  }

  /** Nothing longer than one slash matches the root pattern. */
  lemma RootNeedsShortPath(path: string)
    requires |path| >= 2
    ensures !LiteralMatches("/", path)
  {
  }

  /** `GET /status`, in any letter case and with or without a trailing slash,
      reaches the completion-status listing and never `getTaskById` with id
      "status", because its route is declared first. */
  lemma StatusBeforeId(caller: UserId, path: string)
    requires LiteralMatches("/status", path)
    ensures Dispatch(Some(caller), "GET", path) == Dispatched(caller, ListMineByStatus, map[])
  {
    assert |path| >= 7;
    RootNeedsShortPath(path);
    PatternsOfTable(path);
    assert !RouteMatches(Routes[0], "GET", path) && RouteMatches(Routes[2], "GET", path);
    DispatchAt(caller, "GET", path, 2);
  }

  /** The spellings the status route accepts include these. */
  lemma StatusSpellings()
    ensures LiteralMatches("/status", "/status") && LiteralMatches("/status", "/status/")
    ensures LiteralMatches("/status", "/Status")
  {
    assert EqualsIgnoreCase("/status", "/status");
    assert EqualsIgnoreCase("/status/", "/status" + "/");
    assert EqualsIgnoreCase("/Status", "/status");
  }

  lemma LowerSlash(c: char)
    ensures LowerAscii(c) == '/' <==> c == '/'
  {
  }

  /** Equality up to ASCII case carries over to slices. */
  lemma SliceIgnoreCase(a: string, b: string, lo: nat, hi: nat)
    ensures EqualsIgnoreCase(a, b) && lo <= hi <= |a| ==> EqualsIgnoreCase(a[lo..hi], b[lo..hi])
  {
  }

  /** Case folding never turns another character into a slash. */
  lemma SlashIgnoreCase(a: string, b: string, i: nat)
    ensures EqualsIgnoreCase(a, b) && i < |a| ==> (a[i] == '/' <==> b[i] == '/')
  {
    if i < |a| && i < |b| {
      LowerSlash(a[i]);
      LowerSlash(b[i]);
    }
  }

  /** "/seg" or "/seg/" matches neither "/status" nor "/status/" when `seg` is a
      segment that differs from "status" beyond ASCII case. */
  lemma SegmentIsNotStatus(seg: string, path: string, lit: string)
    requires seg != [] && '/' !in seg && !EqualsIgnoreCase(seg, "status")
    requires path == "/" + seg || path == "/" + seg + "/"
    requires lit == "/status" || lit == "/status/"
    ensures !EqualsIgnoreCase(path, lit)
  {
    assert lit[1..7] == "status" && lit[6] == 's';
    assert |seg| == 6 ==> path[1..7] == seg;
    assert |seg| >= 7 ==> path[7] == seg[6] && seg[6] in seg;
    assert |seg| == 5 && path == "/" + seg + "/" ==> path[6] == '/';
    SliceIgnoreCase(path, lit, 1, 7);
    SlashIgnoreCase(path, lit, 6);
    SlashIgnoreCase(path, lit, 7);
  }

  /** A path "/seg" (or "/seg/") is neither the root nor "/status", and
      captures `seg`, when `seg` is a segment other than "status". */
  lemma SegmentIsNotLiteral(seg: string, path: string)
    requires seg != [] && '/' !in seg && !EqualsIgnoreCase(seg, "status")
    requires path == "/" + seg || path == "/" + seg + "/"
    ensures !LiteralMatches("/", path) && !LiteralMatches("/status", path)
    ensures SegmentOf(path) == Some(seg)
  {
    RootNeedsShortPath(path);
    SegmentIsNotStatus(seg, path, "/status");
    SegmentIsNotStatus(seg, path, "/status/");
    if path == "/" + seg + "/" {
      assert path[1..|path| - 1] == seg;
    } else {
      assert path[1..] == seg;
      assert path[|path| - 1] == seg[|seg| - 1];
      assert seg[|seg| - 1] in seg;
    }
  }

  /** The pattern "/:id" captures any other single segment as the id. */
  lemma IdPattern(seg: string)
    requires seg != [] && '/' !in seg && !EqualsIgnoreCase(seg, "status")
    ensures !LiteralMatches("/", "/" + seg) && !LiteralMatches("/status", "/" + seg)
    ensures MatchPath("/:id", "/" + seg) == Some(map["id" := seg])
  {
    SegmentIsNotLiteral(seg, "/" + seg);
    PatternsOfTable("/" + seg);
  }

  /** `GET` on any other single segment reads the task with that id. */
  lemma IdRoutesGet(caller: UserId, seg: string)
    requires seg != [] && '/' !in seg && !EqualsIgnoreCase(seg, "status")
    ensures Dispatch(Some(caller), "GET", "/" + seg) == Dispatched(caller, ReadOne, map["id" := seg])
  {
    var path := "/" + seg;
    IdPattern(seg);
    PatternsOfTable(path);
    assert !RouteMatches(Routes[0], "GET", path) && !RouteMatches(Routes[2], "GET", path);
    DispatchAt(caller, "GET", path, 3);
  }

  /** `PUT` on any other single segment updates the task with that id. */
  lemma IdRoutesPut(caller: UserId, seg: string)
    requires seg != [] && '/' !in seg && !EqualsIgnoreCase(seg, "status")
    ensures Dispatch(Some(caller), "PUT", "/" + seg) == Dispatched(caller, UpdateOne, map["id" := seg])
  {
    IdPattern(seg);
    assert forall j :: 0 <= j < 4 ==> Routes[j].verb != "PUT";
    DispatchAt(caller, "PUT", "/" + seg, 4);
  }

  /** `DELETE` on any other single segment deletes the task with that id. */
  lemma IdRoutesDelete(caller: UserId, seg: string)
    requires seg != [] && '/' !in seg && !EqualsIgnoreCase(seg, "status")
    ensures Dispatch(Some(caller), "DELETE", "/" + seg) == Dispatched(caller, DeleteOne, map["id" := seg])
  {
    IdPattern(seg);
    assert forall j :: 0 <= j < 5 ==> Routes[j].verb != "DELETE";
    DispatchAt(caller, "DELETE", "/" + seg, 5);
  }


  /** Only `GET` has a "/status" route: `PUT` and `DELETE` on "/status"
      reach the id handlers with id "status". */
  lemma StatusIsAnIdForWrites(caller: UserId)
    ensures Dispatch(Some(caller), "PUT", "/status") == Dispatched(caller, UpdateOne, map["id" := "status"])
    ensures Dispatch(Some(caller), "DELETE", "/status") == Dispatched(caller, DeleteOne, map["id" := "status"])
  {
    assert "/status"[1..] == "status";
    assert SegmentOf("/status") == Some("status");
    assert MatchPath("/:id", "/status") == Some(map["id" := "status"]) by {
      PatternsOfTable("/status");
    }
    assert forall j :: 0 <= j < 4 ==> Routes[j].verb != "PUT";
    assert forall j :: 0 <= j < 5 ==> Routes[j].verb != "DELETE";
    DispatchAt(caller, "PUT", "/status", 4);
    DispatchAt(caller, "DELETE", "/status", 5);
  }

  /** A method the table does not list matches no route, but the middleware
      has still run first. */
  lemma UnlistedMethod(caller: Option<UserId>, verb: string, path: string)
    requires verb != "GET" && verb != "POST" && verb != "PUT" && verb != "DELETE"
    ensures Dispatch(caller, verb, path) == (if caller.None? then Unauthenticated else NoRoute)
  {
    assert forall j :: 0 <= j < |Routes| ==> Routes[j].verb != verb;
    assert FirstMatch(Routes, verb, path).None?;
  }
}
