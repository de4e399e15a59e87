/** The routing tree of examples/composite/main.cpp, against a linear scan of its endpoints. */
module Routers {
  import opened Options

  datatype Request = Request(verb: string, path: string)

  datatype Handler =
    | Endpoint(verb: string, path: string, body: string)
    | RouteGroup(prefix: string, children: seq<Handler>)

  // ---------- Recursive dispatch ----------

  /** `starts_with`, and what it means: the string goes on after the prefix. */
  lemma StartsWithIff(s: string, prefix: string)
    ensures StartsWith(s, prefix) <==> exists rest :: s == prefix + rest
  {
    if StartsWith(s, prefix) {
      assert s == prefix + s[|prefix|..];
    }
    if rest :| s == prefix + rest {
      assert s[..|prefix|] == prefix;
    }
  }

  predicate StartsWith(s: string, prefix: string) {
    |s| >= |prefix| && s[..|prefix|] == prefix
  }

  /** What `try_handle` writes to the response, or `None` when it returns false. */
  function Handle(handler: Handler, request: Request): Option<string>
    decreases handler, 1
  {
    match handler
    case Endpoint(verb, path, body) =>
      if request.verb != verb || request.path != path then None else Some(body)
    case RouteGroup(prefix, children) =>
      if !StartsWith(request.path, prefix) then None else HandleFirst(children, request)
  }

  /** The answer of the first child that handles the request. */
  function HandleFirst(children: seq<Handler>, request: Request): Option<string>
    decreases children, 0
  {
    if children == [] then None
    else
      var answer := Handle(children[0], request);
      if answer.Some? then answer else HandleFirst(children[1..], request)
  }

  // ---------- The flat table ----------

  /** An endpoint with the prefixes of all groups around it. */
  datatype Route = Route(guards: seq<string>, verb: string, path: string, body: string)

  /** The endpoints of a tree in depth-first order. */
  function Routes(handler: Handler, guards: seq<string>): seq<Route>
    decreases handler, 1
  {
    match handler
    case Endpoint(verb, path, body) => [Route(guards, verb, path, body)]
    case RouteGroup(prefix, children) => RoutesOf(children, guards + [prefix])
  }

  function RoutesOf(children: seq<Handler>, guards: seq<string>): seq<Route>
    decreases children, 0
  {
    if children == [] then [] else Routes(children[0], guards) + RoutesOf(children[1..], guards)
  }

  predicate Pass(guards: seq<string>, path: string) {
    forall i | 0 <= i < |guards| :: StartsWith(path, guards[i])
  }

  predicate SameKey(route: Route, request: Request) {
    route.verb == request.verb && route.path == request.path
  }

  predicate Matches(route: Route, request: Request) {
    SameKey(route, request) && Pass(route.guards, request.path)
  }

  /** A linear scan for the first matching route. */
  function FirstMatch(routes: seq<Route>, request: Request): Option<string> {
    if routes == [] then None
    else if Matches(routes[0], request) then Some(routes[0].body)
    else FirstMatch(routes[1..], request)
  }

  /** The same scan without looking at guards. */
  function FirstWithKey(routes: seq<Route>, request: Request): Option<string> {
    if routes == [] then None
    else if SameKey(routes[0], request) then Some(routes[0].body)
    else FirstWithKey(routes[1..], request)
  }

  lemma {:induction false} FirstMatchConcat(a: seq<Route>, b: seq<Route>, request: Request)
    ensures FirstMatch(a + b, request)
            == if FirstMatch(a, request).Some? then FirstMatch(a, request) else FirstMatch(b, request)
  {
    if a == [] {
      assert a + b == b;
    } else {
      FirstMatchConcat(a[1..], b, request);
      assert (a + b)[1..] == a[1..] + b;
    }
  }

  /** Main result: recursive dispatch is the first match in the depth-first table. `guards` are the prefixes
      of the groups already entered; when they do not all hold, nothing below can match. */
  lemma {:induction false} HandleIsFirstMatch(handler: Handler, guards: seq<string>, request: Request)
    ensures FirstMatch(Routes(handler, guards), request)
            == if Pass(guards, request.path) then Handle(handler, request) else None
    decreases handler, 1
  {
    match handler
    case Endpoint(_, _, _) =>
    case RouteGroup(prefix, children) =>
      HandleFirstIsFirstMatch(children, guards + [prefix], request);
      assert Pass(guards + [prefix], request.path)
             <==> Pass(guards, request.path) && StartsWith(request.path, prefix) by {
        assert (guards + [prefix])[|guards|] == prefix;
        assert forall i | 0 <= i < |guards| :: (guards + [prefix])[i] == guards[i];
      }
  }

  lemma {:induction false} HandleFirstIsFirstMatch(children: seq<Handler>, guards: seq<string>, request: Request)
    ensures FirstMatch(RoutesOf(children, guards), request)
            == if Pass(guards, request.path) then HandleFirst(children, request) else None
    decreases children, 0
  {
    if children != [] {
      HandleIsFirstMatch(children[0], guards, request);
      HandleFirstIsFirstMatch(children[1..], guards, request);
      FirstMatchConcat(Routes(children[0], guards), RoutesOf(children[1..], guards), request);
    }
  }

  ghost predicate Extends(path: string, prefix: string) {
    exists rest :: path == prefix + rest
  }

  /** Route `r` is for this request: same method, same path, and the path extends every prefix around it. */
  ghost predicate IsFor(r: Route, request: Request) {
    r.verb == request.verb && r.path == request.path
    && forall i | 0 <= i < |r.guards| :: Extends(request.path, r.guards[i])
  }

  lemma MatchesIff(r: Route, request: Request)
    ensures Matches(r, request) <==> IsFor(r, request)
  {
    forall i | 0 <= i < |r.guards|
      ensures StartsWith(request.path, r.guards[i]) <==> Extends(request.path, r.guards[i])
    {
      StartsWithIff(request.path, r.guards[i]);
    }
  }

  lemma {:induction false} FirstMatchIs(routes: seq<Route>, request: Request) returns (k: nat)
    ensures FirstMatch(routes, request).None? ==> forall i | 0 <= i < |routes| :: !Matches(routes[i], request)
    ensures FirstMatch(routes, request).Some? ==>
              && k < |routes| && Matches(routes[k], request) && FirstMatch(routes, request) == Some(routes[k].body)
              && forall i | 0 <= i < k :: !Matches(routes[i], request)
  {
    k := 0;
    if routes != [] && !Matches(routes[0], request) {
      k := FirstMatchIs(routes[1..], request);
      k := k + 1;
      assert forall i | 1 <= i < |routes| :: routes[i] == routes[1..][i - 1];
    }
  }

  /** Main result: a tree answers with the body of its first endpoint, in depth-first order, that has the request's
      method and path and whose path extends the prefixes of all groups around it; and it declines the request
      exactly if it has no such endpoint. */
  lemma AnswersByFirstEndpoint(root: Handler, request: Request)
    ensures Handle(root, request) == None <==> forall r | r in Routes(root, []) :: !IsFor(r, request)
    ensures forall body :: Handle(root, request) == Some(body) <==>
              exists k: nat | k < |Routes(root, [])| ::
                && Routes(root, [])[k].body == body && IsFor(Routes(root, [])[k], request)
                && forall i | 0 <= i < k :: !IsFor(Routes(root, [])[i], request)
  {
    var routes := Routes(root, []);
    HandleIsFirstMatch(root, [], request);
    var k := FirstMatchIs(routes, request);
    forall r ensures Matches(r, request) <==> IsFor(r, request) {
      MatchesIff(r, request);
    }
    if FirstMatch(routes, request).Some? {
      assert routes[k] in routes && IsFor(routes[k], request);
    }
  }

  // ---------- When guards and order do not matter ----------

  /** Every endpoint's own path extends the prefixes around it. */
  predicate WellPrefixed(routes: seq<Route>) {
    forall i | 0 <= i < |routes| :: Pass(routes[i].guards, routes[i].path)
  }

  lemma {:induction false} GuardsCanBeDropped(routes: seq<Route>, request: Request)
    requires WellPrefixed(routes)
    ensures FirstMatch(routes, request) == FirstWithKey(routes, request)
  {
    if routes != [] {
      assert Pass(routes[0].guards, routes[0].path);
      assert forall i | 0 <= i < |routes[1..]| :: routes[1..][i] == routes[i + 1];
      GuardsCanBeDropped(routes[1..], request);
    }
  }

  /** In a tree whose endpoints extend their groups' prefixes, dispatch is a plain table lookup, and every
      endpoint's own request is answered. */
  lemma WellPrefixedTree(root: Handler, request: Request)
    requires forall r, i | r in Routes(root, []) && 0 <= i < |r.guards| :: Extends(r.path, r.guards[i])
    ensures Handle(root, request) == FirstWithKey(Routes(root, []), request)
    ensures Handle(root, request) == None <==>
            forall r | r in Routes(root, []) :: !(r.verb == request.verb && r.path == request.path)
  {
    var routes := Routes(root, []);
    forall k | 0 <= k < |routes| ensures Pass(routes[k].guards, routes[k].path) {
      assert routes[k] in routes;
      forall i | 0 <= i < |routes[k].guards| ensures StartsWith(routes[k].path, routes[k].guards[i]) {
        StartsWithIff(routes[k].path, routes[k].guards[i]);
      }
    }
    HandleIsFirstMatch(root, [], request);
    GuardsCanBeDropped(routes, request);
    AnswersByFirstEndpoint(root, request);
  }

  /** Any two endpoints that can answer the same request give the same answer. */
  ghost predicate OrderFree(routes: seq<Route>) {
    forall r, t | r in routes && t in routes && r.verb == t.verb && r.path == t.path
                  && Pass(r.guards, r.path) && Pass(t.guards, t.path) :: r.body == t.body
  }

  ghost predicate SameRoutes(a: seq<Route>, b: seq<Route>) {
    forall r :: r in a <==> r in b
  }

  lemma {:induction false} MatchIsInTable(routes: seq<Route>, request: Request) returns (r: Route)
    requires FirstMatch(routes, request).Some?
    ensures r in routes && Matches(r, request) && FirstMatch(routes, request) == Some(r.body)
  {
    if Matches(routes[0], request) {
      r := routes[0];
    } else {
      r := MatchIsInTable(routes[1..], request);
    }
  }

  lemma {:induction false} TableHasMatch(routes: seq<Route>, request: Request, r: Route)
    requires r in routes && Matches(r, request)
    ensures FirstMatch(routes, request).Some?
  {
    if !Matches(routes[0], request) {
      TableHasMatch(routes[1..], request, r);
    }
  }

  /** Tables with the same endpoints, in any order, answer alike if `OrderFree` holds. */
  lemma SameTableAnswers(a: seq<Route>, b: seq<Route>, request: Request)
    requires SameRoutes(a, b) && OrderFree(a)
    ensures FirstMatch(a, request) == FirstMatch(b, request)
  {
    if FirstMatch(a, request).Some? {
      var r := MatchIsInTable(a, request);
      TableHasMatch(b, request, r);
      var t := MatchIsInTable(b, request);
    } else if FirstMatch(b, request).Some? {
      var t := MatchIsInTable(b, request);
      TableHasMatch(a, request, t);
    }
  }

  /** Main result: trees whose endpoints are the same up to order answer every request alike. */
  lemma OrderDoesNotMatter(a: Handler, b: Handler, request: Request)
    requires SameRoutes(Routes(a, []), Routes(b, [])) && OrderFree(Routes(a, []))
    ensures Handle(a, request) == Handle(b, request)
  {
    HandleIsFirstMatch(a, [], request);
    HandleIsFirstMatch(b, [], request);
    SameTableAnswers(Routes(a, []), Routes(b, []), request);
  }

  lemma {:induction false} RoutesOfMembers(children: seq<Handler>, guards: seq<string>, r: Route)
    ensures r in RoutesOf(children, guards) <==> exists i | 0 <= i < |children| :: r in Routes(children[i], guards)
    decreases |children|
  {
    if children != [] {
      RoutesOfMembers(children[1..], guards, r);
      if i :| 0 <= i < |children| && r in Routes(children[i], guards) {
        assert i == 0 || (children[1..][i - 1] == children[i] && r in Routes(children[1..][i - 1], guards));
      }
      if i :| 0 <= i < |children[1..]| && r in Routes(children[1..][i], guards) {
        assert r in Routes(children[i + 1], guards);
      }
    }
  }

  ghost predicate Alike(a: Handler, b: Handler, guards: seq<string>) {
    SameRoutes(Routes(a, guards), Routes(b, guards))
  }

  ghost predicate HasCounterpart(a: Handler, b: seq<Handler>, guards: seq<string>) {
    exists j | 0 <= j < |b| :: Alike(a, b[j], guards)
  }

  /** Each child of `a` has a counterpart in `b` with the same endpoints. */
  ghost predicate Covered(a: seq<Handler>, b: seq<Handler>, guards: seq<string>) {
    forall i | 0 <= i < |a| :: HasCounterpart(a[i], b, guards)
  }

  lemma CoveredRoutes(a: seq<Handler>, b: seq<Handler>, guards: seq<string>, r: Route)
    requires Covered(a, b, guards) && r in RoutesOf(a, guards)
    ensures r in RoutesOf(b, guards)
  {
    RoutesOfMembers(a, guards, r);
    RoutesOfMembers(b, guards, r);
    var i :| 0 <= i < |a| && r in Routes(a[i], guards);
    var j :| 0 <= j < |b| && Alike(a[i], b[j], guards);
    assert r in Routes(b[j], guards);
  }

  /** Reordering the children of a group, each possibly reordered inside, keeps its endpoints. */
  lemma ReorderedGroup(prefix: string, a: seq<Handler>, b: seq<Handler>, guards: seq<string>)
    requires Covered(a, b, guards + [prefix]) && Covered(b, a, guards + [prefix])
    ensures SameRoutes(Routes(RouteGroup(prefix, a), guards), Routes(RouteGroup(prefix, b), guards))
  {
    var inner := guards + [prefix];
    forall r ensures r in RoutesOf(a, inner) <==> r in RoutesOf(b, inner) {
      if r in RoutesOf(a, inner) {
        CoveredRoutes(a, b, inner, r);
      }
      if r in RoutesOf(b, inner) {
        CoveredRoutes(b, a, inner, r);
      }
    }
  }

  // ---------- Reordering the children of a tree ----------

  /** `p` is a permutation of the first n numbers, with inverse `q`. */
  predicate Permutes(p: seq<nat>, q: seq<nat>, n: nat) {
    && |p| == |q| == n
    && (forall i | 0 <= i < n :: p[i] < n && q[p[i]] == i)
    && (forall i | 0 <= i < n :: q[i] < n && p[q[i]] == i)
  }

  /** `b` is `a` with the children of its groups reordered, at every level. */
  ghost predicate Reordered(a: Handler, b: Handler)
    decreases a
  {
    match a
    case Endpoint(_, _, _) => a == b
    case RouteGroup(prefix, children) =>
      b.RouteGroup? && b.prefix == prefix && |b.children| == |children|
      && exists p, q | Permutes(p, q, |children|) ::
           forall i | 0 <= i < |children| :: Reordered(children[p[i]], b.children[i])
  }

  lemma {:induction false} SameOrder(a: Handler)
    ensures Reordered(a, a)
    decreases a
  {
    match a
    case Endpoint(_, _, _) =>
    case RouteGroup(_, children) =>
      var id: seq<nat> := seq(|children|, i => i);
      assert Permutes(id, id, |children|);
      forall i | 0 <= i < |children| ensures Reordered(children[id[i]], children[i]) {
        SameOrder(children[i]);
      }
  }

  lemma PermutedIsCovered(a: seq<Handler>, b: seq<Handler>, p: seq<nat>, q: seq<nat>, guards: seq<string>)
    requires |a| == |b| && Permutes(p, q, |a|)
    requires forall i | 0 <= i < |a| :: Alike(a[p[i]], b[i], guards)
    ensures Covered(a, b, guards) && Covered(b, a, guards)
  {
    forall i | 0 <= i < |a| ensures HasCounterpart(a[i], b, guards) {
      var j := q[i];
      assert Alike(a[p[j]], b[j], guards);
    }
    forall i | 0 <= i < |b| ensures HasCounterpart(b[i], a, guards) {
      assert Alike(b[i], a[p[i]], guards);
    }
  }

  /** Reordering keeps the endpoints and their guards. */
  lemma {:induction false} ReorderedRoutes(a: Handler, b: Handler, guards: seq<string>)
    requires Reordered(a, b)
    ensures SameRoutes(Routes(a, guards), Routes(b, guards))
    decreases a
  {
    match a
    case Endpoint(_, _, _) =>
    case RouteGroup(prefix, children) =>
      var p, q :| Permutes(p, q, |children|)
                  && forall i | 0 <= i < |children| :: Reordered(children[p[i]], b.children[i]);
      forall i | 0 <= i < |children|
        ensures Alike(children[p[i]], b.children[i], guards + [prefix])
      {
        ReorderedRoutes(children[p[i]], b.children[i], guards + [prefix]);
      }
      PermutedIsCovered(children, b.children, p, q, guards + [prefix]);
      ReorderedGroup(prefix, children, b.children, guards);
  }

  /** `children` with child i first, replaced by `child`. */
  function Front(children: seq<Handler>, i: nat, child: Handler): seq<Handler>
    requires i < |children|
  {
    [child] + children[..i] + children[i + 1..]
  }

  lemma FrontIsReordered(prefix: string, children: seq<Handler>, i: nat, child: Handler)
    requires i < |children| && Reordered(children[i], child)
    ensures Reordered(RouteGroup(prefix, children), RouteGroup(prefix, Front(children, i, child)))
  {
    var n := |children|;
    var p: seq<nat> := seq(n, k => if k == 0 then i else if k <= i then k - 1 else k);
    var q: seq<nat> := seq(n, k => if k == i then 0 else if k < i then k + 1 else k);
    assert Permutes(p, q, n);
    forall k | 0 <= k < n ensures Reordered(children[p[k]], Front(children, i, child)[k]) {
      if k > 0 {
        SameOrder(children[p[k]]);
      }
    }
  }

  /** Any endpoint can be made the first of the table by moving it and the groups around it to the front. */
  lemma {:induction false} MoveToFront(a: Handler, guards: seq<string>, r: Route) returns (b: Handler)
    requires r in Routes(a, guards)
    ensures Reordered(a, b) && Routes(b, guards) != [] && Routes(b, guards)[0] == r
    decreases a
  {
    match a
    case Endpoint(_, _, _) => b := a;
    case RouteGroup(prefix, children) =>
      var inner := guards + [prefix];
      RoutesOfMembers(children, inner, r);
      var i :| 0 <= i < |children| && r in Routes(children[i], inner);
      var child := MoveToFront(children[i], inner, r);
      b := RouteGroup(prefix, Front(children, i, child));
      FrontIsReordered(prefix, children, i, child);
      assert RoutesOf(b.children, inner) == Routes(child, inner) + RoutesOf(b.children[1..], inner);
  }

  /** Some reordering of the tree gives a matching endpoint's answer. */
  lemma AnswerOf(root: Handler, r: Route, request: Request) returns (b: Handler)
    requires r in Routes(root, []) && Matches(r, request)
    ensures Reordered(root, b) && Handle(b, request) == Some(r.body)
  {
    b := MoveToFront(root, [], r);
    HandleIsFirstMatch(b, [], request);
  }

  /** Main result: no reordering of children, at any levels of the tree, changes the answer to any request iff
      endpoints that can answer the same request answer alike. */
  lemma OrderNeverMattersIff(root: Handler)
    ensures (forall b: Handler, request: Request | Reordered(root, b) :: Handle(b, request) == Handle(root, request))
       <==> OrderFree(Routes(root, []))
  {
    var routes := Routes(root, []);
    if OrderFree(routes) {
      forall b: Handler, request: Request | Reordered(root, b) ensures Handle(b, request) == Handle(root, request) {
        ReorderedRoutes(root, b, []);
        OrderDoesNotMatter(root, b, request);
      }
    } else {
      var r, t :| r in routes && t in routes && r.verb == t.verb && r.path == t.path
                  && Pass(r.guards, r.path) && Pass(t.guards, t.path) && r.body != t.body;
      var request := Request(r.verb, r.path);
      var b := AnswerOf(root, r, request);
      var c := AnswerOf(root, t, request);
      assert Handle(b, request) != Handle(c, request);
    }
  }

  // ---------- The code ----------

  class Response {
    var status: int
    var body: string

    constructor ()
      ensures status == 200 && body == ""
    {
      status, body := 200, "";
    }
  }

  /** `try_handle` of both kinds of node: it writes the response exactly when it returns true. */
  method TryHandle(handler: Handler, request: Request, response: Response) returns (handled: bool)
    modifies response
    ensures handled <==> Handle(handler, request).Some?
    ensures handled ==> response.status == 200 && Handle(handler, request) == Some(response.body)
    ensures !handled ==> response.status == old(response.status) && response.body == old(response.body)
    decreases handler
  {
    match handler
    case Endpoint(verb, path, body) =>
      if request.verb != verb || request.path != path {
        return false;
      }
      response.status := 200;
      response.body := body;
      return true;
    case RouteGroup(prefix, children) =>
      if !StartsWith(request.path, prefix) {
        return false;
      }
      for i := 0 to |children|
        invariant HandleFirst(children, request) == HandleFirst(children[i..], request)
        invariant response.status == old(response.status) && response.body == old(response.body)
      {
        handled := TryHandle(children[i], request, response);
        if handled {
          return true;
        }
        assert children[i..][1..] == children[i + 1..];
      }
      handled := false;
  }

  /** `dispatch`: the first match of the flat table, or 404. */
  method Dispatch(root: Handler, request: Request) returns (response: Response)
    ensures fresh(response)
    ensures match FirstMatch(Routes(root, []), request)
            case Some(body) => response.status == 200 && response.body == body
            case None => response.status == 404 && response.body == "not found"
    ensures response.status == 200 <==>
            exists r | r in Routes(root, []) :: IsFor(r, request)
  {
    HandleIsFirstMatch(root, [], request);
    AnswersByFirstEndpoint(root, request);
    response := new Response();
    var handled := TryHandle(root, request, response);
    if !handled {
      response.status := 404;
      response.body := "not found";
    }
  }
}
