// The dispatch chain: global middleware, route lookup, group and route
// middleware, handler.  Middleware are arbitrary finite programs that call the
// rest of the chain and end the response as they like.
module Dispatch {
  import opened Text
  import opened Http
  import opened Router
  import opened Splitting

  datatype Action = CallNext | EndResponse
  type Program = seq<Action>

  /** A route; its handler either ends the response or leaves it open. */
  datatype Route = Route(verb: Method, pattern: string, segs: seq<Seg>, middleware: seq<Program>, handlerEnds: bool)

  datatype Group = Group(prefix: string, middleware: seq<Program>)

  datatype App = App(global: seq<Program>, groups: seq<Group>, routes: seq<Route>)

  /** What can start: a global middleware, or a stage of the matched route's chain (the last is the handler). */
  datatype Stage = Global(index: nat) | Chain(index: nat)

  datatype Event = Started(stage: Stage) | Ended

  // ---------------------------------------------------------------------
  // Route lookup
  // ---------------------------------------------------------------------

  predicate MethodOk(route: Method, verb: Method) {
    route == ANY || route == verb || (verb == HEAD && route == GET)
  }

  predicate Serves(r: Route, path: string, verb: Method) {
    PathMatches(path, r.segs) && MethodOk(r.verb, verb)
  }

  datatype Lookup = NoRoute | NotAllowed(allow: seq<Method>) | Matched(index: nat, params: map<string, string>)

  /** The declaration order of the methods, which is the order of the Allow list. */
  function Rank(m: Method): nat {
    match m
    case UNKNOWN => 0 case GET => 1 case POST => 2 case PUT => 3 case PATCH => 4 case DELETE => 5
    case OPTIONS => 6 case HEAD => 7 case CONNECT => 8 case TRACE => 9 case ANY => 10
  }

  lemma RankInjective(a: Method, b: Method)
    requires Rank(a) == Rank(b)
    ensures a == b
  {
  }

  predicate Ascending(ms: seq<Method>) {
    forall i, j | 0 <= i < j < |ms| :: Rank(ms[i]) < Rank(ms[j])
  }

  /** `sort` and `unique`: each method once, in rank order. */
  method SortUnique(ms: seq<Method>) returns (r: seq<Method>)
    ensures Ascending(r)
    ensures forall m :: m in r <==> m in ms
  {
    r := [];
    for i := 0 to |ms|
      invariant Ascending(r)
      invariant forall m :: m in r <==> m in ms[..i]
    {
      assert ms[..i + 1] == ms[..i] + [ms[i]];
      r := Insert(r, ms[i]);
    }
    assert ms[..|ms|] == ms;
  }

  method Insert(s: seq<Method>, m: Method) returns (r: seq<Method>)
    requires Ascending(s)
    ensures Ascending(r)
    ensures forall x :: x in r <==> x in s || x == m
  {
    hide Rank;
    var i := 0;
    while i < |s| && Rank(s[i]) < Rank(m)
      invariant 0 <= i <= |s|
      invariant forall k | 0 <= k < i :: Rank(s[k]) < Rank(m)
    {
      i := i + 1;
    }
    if i < |s| && Rank(s[i]) == Rank(m) {
      RankInjective(s[i], m);
      return s;
    }
    assert s == s[..i] + s[i..];
    r := s[..i] + [m] + s[i..];
  }

  /** The Allow list: the methods of the routes whose path matches, HEAD implied by GET. */
  predicate IsAllow(allow: seq<Method>, routes: seq<Route>, path: string) {
    && (forall m :: m in allow <==>
          || (m != UNKNOWN && m != ANY && exists i | 0 <= i < |routes| :: PathMatches(path, routes[i].segs) && routes[i].verb == m)
          || (m == HEAD && exists i | 0 <= i < |routes| :: PathMatches(path, routes[i].segs) && routes[i].verb == GET))
    && (forall i, j | 0 <= i < j < |allow| :: allow[i] != allow[j])
    && (Ascending(allow) || (allow != [] && allow[|allow| - 1] == HEAD && GET in allow && Ascending(allow[..|allow| - 1])))
  }

  /** What a matching path binds. */
  function ParamsOf(path: string, segs: seq<Seg>): map<string, string>
    requires PathMatches(path, segs)
  {
    if segs == [] then map[] else Bindings(Split(path), segs, |segs|)
  }

  lemma ParamsAre(path: string, segs: seq<Seg>, params: map<string, string>)
    requires PathMatches(path, segs)
    requires segs != [] ==> |segs| <= |Split(path)| + 1 && params == Bindings(Split(path), segs, |segs|)
    requires segs == [] ==> params == map[]
    ensures params == ParamsOf(path, segs)
  {
  }

  /** Searches the routes in registration order. */
  method FindRoute(routes: seq<Route>, path: string, verb: Method) returns (found: Lookup)
    requires forall i | 0 <= i < |routes| :: WildcardLast(routes[i].segs)
    ensures found.Matched? ==>
              && found.index < |routes| && Serves(routes[found.index], path, verb)
              && (forall i | 0 <= i < found.index :: !Serves(routes[i], path, verb))
    ensures found.Matched? ==> found.params == ParamsOf(path, routes[found.index].segs)
    ensures !found.Matched? ==> forall i | 0 <= i < |routes| :: !Serves(routes[i], path, verb)
    ensures found.NoRoute? ==> forall i | 0 <= i < |routes| :: !PathMatches(path, routes[i].segs)
    ensures found.NotAllowed? ==>
              && (exists i | 0 <= i < |routes| :: PathMatches(path, routes[i].segs))
              && IsAllow(found.allow, routes, path)
  {
    hide PathMatches, ParamsOf, MethodOk, Ascending;
    var pathMatched := false;
    var allowed: seq<Method> := [];
    for i := 0 to |routes|
      invariant pathMatched <==> exists k | 0 <= k < i :: PathMatches(path, routes[k].segs)
      invariant forall k | 0 <= k < i :: !Serves(routes[k], path, verb)
      invariant forall m :: m in allowed <==>
                  m != UNKNOWN && m != ANY && exists k | 0 <= k < i :: PathMatches(path, routes[k].segs) && routes[k].verb == m
    {
      var r := routes[i];
      var ok, candidate := MatchAndBind(path, r.segs);
      if !ok { continue; }
      pathMatched := true;
      if MethodOk(r.verb, verb) {
        ParamsAre(path, r.segs, candidate);
        return Matched(i, candidate);
      }
      if r.verb != UNKNOWN && r.verb != ANY {
        allowed := allowed + [r.verb];
      }
    }
    if !pathMatched { return NoRoute; }
    var allow := AllowOf(allowed);
    return NotAllowed(allow);
  }

  /** The sorted methods, with HEAD added when only GET is there. */
  method AllowOf(allowed: seq<Method>) returns (allow: seq<Method>)
    ensures forall m :: m in allow <==> m in allowed || (m == HEAD && GET in allowed)
    ensures forall i, j | 0 <= i < j < |allow| :: allow[i] != allow[j]
    ensures Ascending(allow) || (allow != [] && allow[|allow| - 1] == HEAD && GET in allow && Ascending(allow[..|allow| - 1]))
  {
    hide Rank;
    allow := SortUnique(allowed);
    if GET in allow && HEAD !in allow {
      assert (allow + [HEAD])[..|allow|] == allow;
      allow := allow + [HEAD];
    }
  }

  // ---------------------------------------------------------------------
  // The chain of a matched route
  // ---------------------------------------------------------------------

  /** `pattern` falls under the group prefix at a path boundary. */
  predicate PrefixMatches(pattern: string, prefix: string) {
    prefix == "" || prefix == "/"
    || var p := if prefix[|prefix| - 1] == '/' then prefix[..|prefix| - 1] else prefix;
       p <= pattern && (|pattern| == |p| || pattern[|p|] == '/')
  }

  /** Under a prefix means: the prefix's parts come first among the pattern's. */
  lemma PrefixIsByParts(pattern: string, prefix: string)
    requires PrefixMatches(pattern, prefix)
    ensures Split(prefix) <= Split(pattern)
  {
    hide SplitFrom;
    var n := |prefix|;
    if n == 0 {
      SplitEnd("", '/');
    } else {
      var p := if prefix[n - 1] == '/' then prefix[..n - 1] else prefix;
      if prefix[n - 1] == '/' {
        assert prefix == p + "/";
        SplitTrail(p, 0);
      }
      if p == "" {
        SplitEnd("", '/');
      } else {
        assert pattern == p + pattern[|p|..];
        SplitPrefix(p, pattern[|p|..], 0);
      }
    }
  }

  /** On paths written from their parts it means exactly that, with or without a slash at the prefix's end. */
  lemma PrefixExactly(ps: seq<string>, qs: seq<string>)
    requires forall p | p in ps :: Piece(p)
    requires forall q | q in qs :: Piece(q)
    ensures PrefixMatches(Render(ps), Render(qs)) <==> qs <= ps
    ensures PrefixMatches(Render(ps), Render(qs) + "/") <==> qs <= ps
  {
    hide SplitFrom, Render, PrefixMatches;
    var pattern, prefix := Render(ps), Render(qs);
    SplitRender(ps);
    SplitRender(qs);
    SplitTrail(prefix, 0);
    if PrefixMatches(pattern, prefix) {
      PrefixIsByParts(pattern, prefix);
    }
    if PrefixMatches(pattern, prefix + "/") {
      PrefixIsByParts(pattern, prefix + "/");
    }
    if qs <= ps {
      var rest := ps[|qs|..];
      RenderCut(ps, |qs|);
      assert ps[..|qs|] == qs;
      RenderEnds(qs);
      RenderEnds(rest);
      PrefixOfSum(prefix, Render(rest));
    }
  }

  lemma PrefixOfSum(prefix: string, rest: string)
    requires prefix == "" || prefix[|prefix| - 1] != '/'
    requires rest == "" || rest[0] == '/'
    ensures PrefixMatches(prefix + rest, prefix) && PrefixMatches(prefix + rest, prefix + "/")
  {
    var p := prefix + "/";
    assert p[|p| - 1] == '/' && p[..|p| - 1] == prefix;
    assert prefix == "" ==> p == "/";
  }

  lemma {:induction false} RenderCut(ps: seq<string>, n: nat)
    requires n <= |ps|
    ensures Render(ps) == Render(ps[..n]) + Render(ps[n..])
  {
    if n > 0 {
      RenderCut(ps[1..], n - 1);
      assert ps[..n][1..] == ps[1..][..n - 1];
      assert ps[1..][n - 1..] == ps[n..];
    } else {
      assert ps[0..] == ps;
    }
  }

  lemma {:induction false} RenderEnds(ps: seq<string>)
    requires forall p | p in ps :: Piece(p)
    ensures if ps == [] then Render(ps) == "" else
              Render(ps) != "" && Render(ps)[0] == '/' && Render(ps)[|Render(ps)| - 1] != '/'
  {
    if ps != [] {
      var rest := Render(ps[1..]);
      RenderEnds(ps[1..]);
      assert Piece(ps[0]);
      assert Render(ps) == "/" + ps[0] + rest;
      if rest == "" {
        assert Render(ps)[|ps[0]|] == ps[0][|ps[0]| - 1];
      }
    }
  }

  lemma {:induction false} SplitTrail(a: string, start: nat)
    requires start <= |a|
    ensures SplitFrom(a + "/", '/', start) == SplitFrom(a, '/', start)
    decreases |a| - start
  {
    hide SplitFrom, FindFrom;
    FindKeeps(a, "/", '/', start);
    SplitStep(a + "/", '/', start);
    if start == |a| {
      FindPast(a, "", "/", '/');
      assert a + "" + "/" == a + "/";
      SplitEnd(a, '/');
      SplitEnd(a + "/", '/');
    } else {
      SplitStep(a, '/', start);
      var p := FindFrom(a, '/', start);
      assert (a + "/")[start..p] == a[start..p];
      if p < |a| {
        SplitTrail(a, p + 1);
      } else {
        SplitEnd(a + "/", '/');
      }
    }
  }

  lemma {:induction false} SplitPrefix(a: string, b: string, start: nat)
    requires start <= |a| && (b == "" || b[0] == '/')
    ensures SplitFrom(a, '/', start) <= SplitFrom(a + b, '/', start)
    decreases |a| - start
  {
    hide SplitFrom, FindFrom;
    if start == |a| {
      SplitEnd(a, '/');
    } else {
      SplitStep(a, '/', start);
      SplitStep(a + b, '/', start);
      var p := FindFrom(a, '/', start);
      FindKeeps(a, b, '/', start);
      assert (a + b)[start..p] == a[start..p];
      if p < |a| {
        SplitPrefix(a, b, p + 1);
      }
    }
  }

  lemma {:induction false} FindKeeps(a: string, b: string, c: char, start: nat)
    requires start <= |a| && (b == "" || b[0] == c)
    ensures FindFrom(a + b, c, start) == FindFrom(a, c, start)
    decreases |a| - start
  {
    if start < |a| && a[start] != c {
      FindKeeps(a, b, c, start + 1);
    }
  }

  function GroupPrograms(groups: seq<Group>, pattern: string): seq<Program> {
    if groups == [] then []
    else (if PrefixMatches(pattern, groups[0].prefix) then groups[0].middleware else [])
         + GroupPrograms(groups[1..], pattern)
  }

  /** Group middleware, route middleware, and the handler as a last stage that calls nothing. */
  function ChainOf(app: App, r: Route): (chain: seq<Program>)
    ensures chain != []
  {
    GroupPrograms(app.groups, r.pattern) + r.middleware + [if r.handlerEnds then [EndResponse] else []]
  }

  lemma GroupStep(groups: seq<Group>, pattern: string, i: nat)
    requires i < |groups|
    ensures GroupPrograms(groups[i..], pattern) ==
            (if PrefixMatches(pattern, groups[i].prefix) then groups[i].middleware else [])
            + GroupPrograms(groups[i + 1..], pattern)
  {
    hide PrefixMatches;
    assert groups[i..][1..] == groups[i + 1..];
  }

  method CollectGroups(groups: seq<Group>, pattern: string) returns (chain: seq<Program>)
    ensures chain == GroupPrograms(groups, pattern)
  {
    hide PrefixMatches, GroupPrograms;
    chain := [];
    assert groups[0..] == groups;
    for i := 0 to |groups|
      invariant chain + GroupPrograms(groups[i..], pattern) == GroupPrograms(groups, pattern)
    {
      GroupStep(groups, pattern, i);
      if PrefixMatches(pattern, groups[i].prefix) {
        chain := chain + groups[i].middleware;
      }
    }
    NoGroups(groups[|groups|..], pattern);
  }

  lemma NoGroups(groups: seq<Group>, pattern: string)
    requires groups == []
    ensures GroupPrograms(groups, pattern) == []
  {
  }

  method BuildChain(app: App, r: Route) returns (chain: seq<Program>)
    ensures chain == ChainOf(app, r)
  {
    hide GroupPrograms;
    chain := CollectGroups(app.groups, r.pattern);
    chain := chain + r.middleware;
    chain := chain + [if r.handlerEnds then [EndResponse] else []];
  }

  // ---------------------------------------------------------------------
  // Running it
  // ---------------------------------------------------------------------

  datatype World = World(idx: nat, j: nat, ended: bool, handled: bool, trace: seq<Event>)

  /** What the request resolves to, and what follows from it. */
  datatype Target = Nothing | Refused | Run(chain: seq<Program>)

  function End(w: World): World {
    if w.ended then w else w.(ended := true, trace := w.trace + [Ended])
  }

  /** `next()` of the global chain. */
  function Next(global: seq<Program>, t: Target, w: World): (v: World)
    requires w.idx <= |global|
    ensures w.idx <= v.idx <= |global|
    decreases |global| - w.idx, 0
  {
    if w.ended then w
    else if w.idx < |global| then
      RunGlobal(global, t, w.(idx := w.idx + 1, trace := w.trace + [Started(Global(w.idx))]), global[w.idx])
    else
      match t
      case Nothing => w
      case Refused => End(w.(handled := true))
      case Run(chain) => Step(chain, w.(handled := true, j := 0))
  }

  function RunGlobal(global: seq<Program>, t: Target, w: World, p: Program): (v: World)
    requires w.idx <= |global|
    ensures w.idx <= v.idx <= |global|
    decreases |global| - w.idx, |p|
  {
    if p == [] then w
    else if p[0] == CallNext then RunGlobal(global, t, Next(global, t, w), p[1..])
    else RunGlobal(global, t, End(w), p[1..])
  }

  /** `step()` of the matched route's chain. */
  function Step(chain: seq<Program>, w: World): (v: World)
    ensures w.j <= v.j && v.idx == w.idx
    decreases if w.j <= |chain| then |chain| - w.j else 0, 0
  {
    if w.j >= |chain| || w.ended then w
    else RunChain(chain, w.(j := w.j + 1, trace := w.trace + [Started(Chain(w.j))]), chain[w.j])
  }

  function RunChain(chain: seq<Program>, w: World, p: Program): (v: World)
    ensures w.j <= v.j && v.idx == w.idx
    decreases if w.j <= |chain| then |chain| - w.j else 0, |p|
  {
    if p == [] then w
    else if p[0] == CallNext then RunChain(chain, Step(chain, w), p[1..])
    else RunChain(chain, End(w), p[1..])
  }

  /** The first route, in registration order, that serves the request; the number of routes if none does. */
  function FirstServing(routes: seq<Route>, path: string, verb: Method): (i: nat)
    ensures i <= |routes| && (i < |routes| ==> Serves(routes[i], path, verb))
    ensures forall k | 0 <= k < i :: !Serves(routes[k], path, verb)
  {
    if routes == [] || Serves(routes[0], path, verb) then 0 else 1 + FirstServing(routes[1..], path, verb)
  }

  /** What a request comes to once the global middleware have passed it on. */
  function Resolve(app: App, path: string, verb: Method): Target {
    var i := FirstServing(app.routes, path, verb);
    if i < |app.routes| then Run(ChainOf(app, app.routes[i]))
    else if exists k | 0 <= k < |app.routes| :: PathMatches(path, app.routes[k].segs) then Refused
    else Nothing
  }

  /** Every route's segments come from its pattern. */
  predicate Registered(app: App) {
    forall i | 0 <= i < |app.routes| :: app.routes[i].segs == Compile(app.routes[i].pattern)
  }

  function Begin(): World { World(0, 0, false, false, []) }

  function Dispatched(global: seq<Program>, t: Target): World { Next(global, t, Begin()) }

  /** The dispatcher with the variables its closures share. */
  class Dispatcher {
    const app: App
    const path: string
    const verb: Method
    var idx: nat
    var j: nat
    var ended: bool
    var handled: bool
    var trace: seq<Event>
    var params: map<string, string>
    var allow: seq<Method>

    ghost function Abs(): World
      reads this
    {
      World(idx, j, ended, handled, trace)
    }

    /** The request's parameters are those of the route that serves it; a refusal lists the methods allowed. */
    ghost predicate Settled()
      reads this
    {
      && (handled && FirstServing(app.routes, path, verb) < |app.routes| ==>
            params == ParamsOf(path, app.routes[FirstServing(app.routes, path, verb)].segs))
      && (handled && Resolve(app, path, verb).Refused? ==> IsAllow(allow, app.routes, path))
    }

    constructor (app: App, path: string, verb: Method)
      ensures this.app == app && this.path == path && this.verb == verb && Abs() == Begin()
    {
      this.app, this.path, this.verb := app, path, verb;
      idx, j, ended, handled, trace := 0, 0, false, false, [];
      params, allow := map[], [];
    }

    method Send()
      modifies `ended, `trace
      ensures Abs() == End(old(Abs()))
    {
      if !ended {
        ended := true;
        trace := trace + [Ended];
      }
    }

    /** `next()`: the next global middleware, or the route lookup after the last. */
    method CallGlobal()
      requires Registered(app) && idx <= |app.global| && Settled()
      modifies this
      ensures Abs() == Next(app.global, Resolve(app, path, verb), old(Abs()))
      ensures old(idx) <= idx <= |app.global| && Settled()
      decreases |app.global| - idx, 0
    {
      hide Step, Resolve, ParamsOf, IsAllow, FirstServing;
      if ended { return; }
      if idx < |app.global| {
        var k := idx;
        trace := trace + [Started(Global(k))];
        idx := idx + 1;
        Interpret(app.global[k]);
        return;
      }
      var found := LookUp();
      match found
      case NoRoute =>
      case NotAllowed(allowed) =>
        handled := true;
        allow := allowed;
        Send();
      case Matched(index, bound) =>
        params := bound;
        handled := true;
        var chain := BuildChain(app, app.routes[index]);
        j := 0;
        CallChain(chain);
    }

    method LookUp() returns (found: Lookup)
      requires Registered(app)
      ensures var first, t := FirstServing(app.routes, path, verb), Resolve(app, path, verb);
              match found
              case NoRoute => t == Nothing && first == |app.routes|
              case NotAllowed(allowed) => t == Refused && first == |app.routes| && IsAllow(allowed, app.routes, path)
              case Matched(index, bound) =>
                && index == first < |app.routes| && t == Run(ChainOf(app, app.routes[first]))
                && bound == ParamsOf(path, app.routes[first].segs)
    {
      hide Serves, IsAllow, ParamsOf, PathMatches, ChainOf, Compile;
      found := FindRoute(app.routes, path, verb);
      FirstIsFirst(app.routes, path, verb);
    }

    method Interpret(p: Program)
      requires Registered(app) && idx <= |app.global| && Settled()
      modifies this
      ensures Abs() == RunGlobal(app.global, Resolve(app, path, verb), old(Abs()), p)
      ensures old(idx) <= idx <= |app.global| && Settled()
      decreases |app.global| - idx, |p|
    {
      hide Next, Resolve, ParamsOf, IsAllow, FirstServing;
      if p == [] { return; }
      if p[0] == CallNext {
        CallGlobal();
      } else {
        Send();
      }
      Interpret(p[1..]);
    }

    /** `step()`: the next stage of the matched route's chain. */
    method CallChain(chain: seq<Program>)
      modifies `j, `ended, `trace
      ensures Abs() == Step(chain, old(Abs()))
      decreases if j <= |chain| then |chain| - j else 0, 0
    {
      if j >= |chain| || ended { return; }
      var k := j;
      trace := trace + [Started(Chain(k))];
      j := j + 1;
      InterpretChain(chain, chain[k]);
    }

    method InterpretChain(chain: seq<Program>, p: Program)
      modifies `j, `ended, `trace
      ensures Abs() == RunChain(chain, old(Abs()), p)
      decreases if j <= |chain| then |chain| - j else 0, |p|
    {
      if p == [] { return; }
      if p[0] == CallNext {
        CallChain(chain);
      } else {
        Send();
      }
      InterpretChain(chain, p[1..]);
    }

    /** Handled when a route or a refusal ran, or some middleware ended the response. */
    method Dispatch() returns (r: bool)
      requires Registered(app) && Abs() == Begin()
      modifies this
      ensures Abs() == Dispatched(app.global, Resolve(app, path, verb)) && Settled()
      ensures r == (handled || ended)
    {
      hide Next;
      CallGlobal();
      r := handled || ended;
    }
  }

  /** Any serving route with none before it is the first. */
  lemma FirstIsFirst(routes: seq<Route>, path: string, verb: Method)
    ensures forall i | 0 <= i < |routes| && Serves(routes[i], path, verb)
                       && (forall k | 0 <= k < i :: !Serves(routes[k], path, verb)) :: i == FirstServing(routes, path, verb)
  {
    hide Serves;
  }

  // ---------------------------------------------------------------------
  // Nothing starts after the end
  // ---------------------------------------------------------------------

  /** The flag says what the trace says, and after Ended nothing starts and nothing ends again. */
  predicate Orderly(w: World) {
    && (w.ended <==> Ended in w.trace)
    && forall i | 0 <= i < |w.trace| - 1 :: w.trace[i] != Ended
  }

  lemma EndOrderly(w: World)
    requires Orderly(w)
    ensures Orderly(End(w))
  {
  }

  lemma {:induction false} StepOrderly(chain: seq<Program>, w: World)
    requires Orderly(w)
    ensures Orderly(Step(chain, w))
    decreases if w.j <= |chain| then |chain| - w.j else 0, 0
  {
    if w.j < |chain| && !w.ended {
      var w1 := w.(j := w.j + 1, trace := w.trace + [Started(Chain(w.j))]);
      assert Orderly(w1);
      RunChainOrderly(chain, w1, chain[w.j]);
    }
  }

  lemma {:induction false} RunChainOrderly(chain: seq<Program>, w: World, p: Program)
    requires Orderly(w)
    ensures Orderly(RunChain(chain, w, p))
    decreases if w.j <= |chain| then |chain| - w.j else 0, |p|
  {
    hide Orderly, Step, End;
    if p != [] {
      StepOrderly(chain, w);
      EndOrderly(w);
      EndKeepsPlace(w);
      RunChainOrderly(chain, if p[0] == CallNext then Step(chain, w) else End(w), p[1..]);
    }
  }

  lemma EndKeepsPlace(w: World)
    ensures End(w).idx == w.idx && End(w).j == w.j
  {
  }

  lemma {:induction false} NextOrderly(global: seq<Program>, t: Target, w: World)
    requires w.idx <= |global| && Orderly(w)
    ensures Orderly(Next(global, t, w))
    decreases |global| - w.idx, 0
  {
    hide Step, RunGlobal, End;
    if !w.ended {
      if w.idx < |global| {
        var w1 := w.(idx := w.idx + 1, trace := w.trace + [Started(Global(w.idx))]);
        assert Orderly(w1);
        RunGlobalOrderly(global, t, w1, global[w.idx]);
      } else if t.Run? {
        assert Orderly(w.(handled := true, j := 0));
        StepOrderly(t.chain, w.(handled := true, j := 0));
      } else if t.Refused? {
        assert Orderly(w.(handled := true));
        EndOrderly(w.(handled := true));
      }
    }
  }

  lemma {:induction false} RunGlobalOrderly(global: seq<Program>, t: Target, w: World, p: Program)
    requires w.idx <= |global| && Orderly(w)
    ensures Orderly(RunGlobal(global, t, w, p))
    decreases |global| - w.idx, |p|
  {
    hide Orderly, Next, End;
    if p != [] {
      NextOrderly(global, t, w);
      EndOrderly(w);
      EndKeepsPlace(w);
      RunGlobalOrderly(global, t, if p[0] == CallNext then Next(global, t, w) else End(w), p[1..]);
    }
  }

  /** Whatever the middleware do, no stage starts once the response has ended. */
  lemma NothingStartsAfterEnd(global: seq<Program>, t: Target, i: nat, k: nat)
    requires i < k < |Dispatched(global, t).trace|
    ensures Dispatched(global, t).trace[i] != Ended
  {
    hide Next;
    assert Orderly(Begin());
    NextOrderly(global, t, Begin());
  }

  // ---------------------------------------------------------------------
  // The order of the stages
  // ---------------------------------------------------------------------

  /** Calls the rest of the chain once, first; what it does afterwards cannot start anything. */
  predicate Passing(p: Program) {
    p != [] && p[0] == CallNext && OnlyEnds(p[1..])
  }

  predicate OnlyEnds(p: Program) {
    forall i | 0 <= i < |p| :: p[i] == EndResponse
  }

  function Globals(from: nat, n: nat): seq<Event>
    requires from <= n
    decreases n - from
  {
    if from == n then [] else [Started(Global(from))] + Globals(from + 1, n)
  }

  function Chains(from: nat, n: nat): seq<Event>
    requires from <= n
    decreases n - from
  {
    if from == n then [] else [Started(Chain(from))] + Chains(from + 1, n)
  }

  function Starts(trace: seq<Event>): seq<Event> {
    if trace == [] then []
    else Starts(trace[..|trace| - 1]) + if trace[|trace| - 1].Started? then [trace[|trace| - 1]] else []
  }

  lemma StartsSnoc(trace: seq<Event>, e: Event)
    ensures Starts(trace + [e]) == Starts(trace) + if e.Started? then [e] else []
  {
    assert (trace + [e])[..|trace|] == trace;
  }

  /** A program of ends only starts nothing. */
  lemma {:induction false} TailStartsNothing(chain: seq<Program>, w: World, p: Program)
    requires OnlyEnds(p)
    ensures Starts(RunChain(chain, w, p).trace) == Starts(w.trace)
    decreases p
  {
    hide Starts;
    if p != [] {
      StartsSnoc(w.trace, Ended);
      TailStartsNothing(chain, End(w), p[1..]);
    }
  }

  lemma {:induction false} GlobalTailStartsNothing(global: seq<Program>, t: Target, w: World, p: Program)
    requires w.idx <= |global|
    requires OnlyEnds(p)
    ensures Starts(RunGlobal(global, t, w, p).trace) == Starts(w.trace)
    decreases p
  {
    hide Starts;
    if p != [] {
      StartsSnoc(w.trace, Ended);
      GlobalTailStartsNothing(global, t, End(w), p[1..]);
    }
  }

  lemma {:induction false} ChainInOrder(chain: seq<Program>, w: World)
    requires chain != [] && w.j < |chain| && !w.ended
    requires forall i | 0 <= i < |chain| - 1 :: Passing(chain[i])
    requires OnlyEnds(chain[|chain| - 1])
    ensures Starts(Step(chain, w).trace) == Starts(w.trace) + Chains(w.j, |chain|)
    decreases |chain| - w.j
  {
    hide Starts, Step, RunChain, Passing, OnlyEnds, Chains;
    var p := chain[w.j];
    var w1 := w.(j := w.j + 1, trace := w.trace + [Started(Chain(w.j))]);
    StageStarts(chain, w);
    StartsSnoc(w.trace, Started(Chain(w.j)));
    ChainsFirst(w.j, |chain|);
    if w.j == |chain| - 1 {
      TailStartsNothing(chain, w1, p);
    } else {
      ChainInOrder(chain, w1);
      PassesOn(chain, w1, p);
      TailStartsNothing(chain, Step(chain, w1), p[1..]);
    }
  }

  lemma ChainsFirst(from: nat, n: nat)
    requires from < n
    ensures Chains(from, n) == [Started(Chain(from))] + Chains(from + 1, n)
    ensures from + 1 == n ==> Chains(from + 1, n) == []
  {
  }

  lemma StageStarts(chain: seq<Program>, w: World)
    requires w.j < |chain| && !w.ended
    ensures Step(chain, w) == RunChain(chain, w.(j := w.j + 1, trace := w.trace + [Started(Chain(w.j))]), chain[w.j])
  {
    hide RunChain;
  }

  lemma PassesOn(chain: seq<Program>, w: World, p: Program)
    requires Passing(p)
    ensures p != []
    ensures RunChain(chain, w, p) == RunChain(chain, Step(chain, w), p[1..]) && OnlyEnds(p[1..])
  {
    hide Step;
  }

  lemma GlobalPassesOn(global: seq<Program>, t: Target, w: World, p: Program)
    requires Passing(p) && w.idx <= |global|
    ensures p != []
    ensures RunGlobal(global, t, w, p) == RunGlobal(global, t, Next(global, t, w), p[1..]) && OnlyEnds(p[1..])
  {
    hide Next;
  }

  lemma GlobalStarts(global: seq<Program>, t: Target, w: World)
    requires w.idx < |global| && !w.ended
    ensures Next(global, t, w) ==
            RunGlobal(global, t, w.(idx := w.idx + 1, trace := w.trace + [Started(Global(w.idx))]), global[w.idx])
  {
    hide RunGlobal;
  }

  lemma {:induction false} GlobalInOrder(global: seq<Program>, chain: seq<Program>, w: World)
    requires w.idx <= |global| && !w.ended && chain != []
    requires forall i | 0 <= i < |global| :: Passing(global[i])
    requires forall i | 0 <= i < |chain| - 1 :: Passing(chain[i])
    requires OnlyEnds(chain[|chain| - 1])
    ensures Starts(Next(global, Run(chain), w).trace) ==
            Starts(w.trace) + Globals(w.idx, |global|) + Chains(0, |chain|)
    decreases |global| - w.idx
  {
    hide Starts, Step, RunGlobal;
    if w.idx == |global| {
      ChainInOrder(chain, w.(handled := true, j := 0));
    } else {
      hide Next, Passing, OnlyEnds;
      var p := global[w.idx];
      var w1 := w.(idx := w.idx + 1, trace := w.trace + [Started(Global(w.idx))]);
      GlobalStarts(global, Run(chain), w);
      StartsSnoc(w.trace, Started(Global(w.idx)));
      GlobalInOrder(global, chain, w1);
      GlobalPassesOn(global, Run(chain), w1, p);
      GlobalTailStartsNothing(global, Run(chain), Next(global, Run(chain), w1), p[1..]);
    }
  }

  /**
   * When every middleware passes a request on, each stage of the first route
   * that serves it starts once: global, group, route, handler.
   */
  lemma StagesInOrder(app: App, path: string, verb: Method, i: nat)
    requires i < |app.routes| && Serves(app.routes[i], path, verb)
    requires forall k | 0 <= k < i :: !Serves(app.routes[k], path, verb)
    requires forall k | 0 <= k < |app.global| :: Passing(app.global[k])
    requires forall g | 0 <= g < |app.groups| :: AllPassing(app.groups[g].middleware)
    requires AllPassing(app.routes[i].middleware)
    ensures Resolve(app, path, verb) == Run(ChainOf(app, app.routes[i]))
    ensures Starts(Dispatched(app.global, Resolve(app, path, verb)).trace) ==
            Globals(0, |app.global|) + Chains(0, |ChainOf(app, app.routes[i])|)
  {
    hide Next, Starts, GroupPrograms, Serves, PathMatches, Passing;
    FirstIsFirst(app.routes, path, verb);
    var r := app.routes[i];
    var chain, groups := ChainOf(app, r), GroupPrograms(app.groups, r.pattern);
    GroupsPass(app.groups, r.pattern);
    forall k | 0 <= k < |chain| - 1
      ensures Passing(chain[k])
    {
      assert chain[k] == if k < |groups| then groups[k] else r.middleware[k - |groups|];
    }
    GlobalInOrder(app.global, chain, Begin());
    NoStarts();
    assert [] + Globals(0, |app.global|) == Globals(0, |app.global|);
  }

  predicate AllPassing(ps: seq<Program>) {
    forall k | 0 <= k < |ps| :: Passing(ps[k])
  }

  lemma {:induction false} GroupsPass(groups: seq<Group>, pattern: string)
    requires forall g | 0 <= g < |groups| :: AllPassing(groups[g].middleware)
    ensures AllPassing(GroupPrograms(groups, pattern))
  {
    hide PrefixMatches, Passing;
    if groups != [] {
      assert AllPassing(groups[0].middleware);
      GroupsPass(groups[1..], pattern);
    }
  }

  lemma NoStarts()
    ensures Starts([]) == []
  {
  }
}
