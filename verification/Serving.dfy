// Who answers a request: which route, which middleware in which place, and what
// is reported when none does.
module Serving {
  import opened Http
  import opened Router
  import opened Dispatch

  // ---------------------------------------------------------------------
  // The route
  // ---------------------------------------------------------------------

  /** Without routes of its own for HEAD, an application answers HEAD as it answers GET. */
  lemma {:induction false} HeadFallsBack(routes: seq<Route>, path: string)
    requires forall r | r in routes :: r.verb != HEAD
    ensures FirstServing(routes, path, HEAD) == FirstServing(routes, path, GET)
    decreases routes
  {
    hide PathMatches;
    if routes != [] {
      assert routes[0].verb != HEAD;
      HeadFallsBack(routes[1..], path);
    }
  }

  /** A route for any method serves them all. */
  lemma AnyServes(routes: seq<Route>, path: string, verb: Method, i: nat)
    requires i < |routes| && routes[i].verb == ANY && PathMatches(path, routes[i].segs)
    ensures FirstServing(routes, path, verb) <= i
  {
    hide PathMatches;
    assert Serves(routes[i], path, verb);
  }

  /** Otherwise a request is served by a route for its own method, or HEAD by one for GET, and only if the path matches. */
  lemma OwnMethodServes(routes: seq<Route>, path: string, verb: Method)
    ensures var i := FirstServing(routes, path, verb);
            i < |routes| ==>
              && PathMatches(path, routes[i].segs)
              && (routes[i].verb == ANY || routes[i].verb == verb || (verb == HEAD && routes[i].verb == GET))
    ensures forall i | 0 <= i < |routes| && PathMatches(path, routes[i].segs) && routes[i].verb == verb ::
              FirstServing(routes, path, verb) <= i
  {
    hide PathMatches, FirstServing;
    forall i | 0 <= i < |routes| && PathMatches(path, routes[i].segs) && routes[i].verb == verb
      ensures FirstServing(routes, path, verb) <= i
    {
      assert Serves(routes[i], path, verb);
    }
  }

  /** A route written with a pattern serves every path written for it, unless an earlier one does. */
  lemma WrittenRouteServes(app: App, i: nat, segs: seq<Seg>, a: Args, verb: Method)
    requires Registered(app) && i < |app.routes| && segs != []
    requires (forall seg | seg in segs :: Writable(seg)) && WildcardLast(segs) && DistinctNames(segs) && Fits(segs, a)
    requires app.routes[i].pattern == Render(PartsOf(segs)) && app.routes[i].verb == verb
    ensures FirstServing(app.routes, Render(a.pieces + a.rest), verb) <= i
  {
    hide Compile, PathMatches, FirstServing, Render;
    CompileWritten(segs, []);
    assert PartsOf(segs) + [] == PartsOf(segs);
    MatchRendered(segs, a, 0, "");
    OwnMethodServes(app.routes, Render(a.pieces + a.rest), verb);
  }

  // ---------------------------------------------------------------------
  // The places in the chain
  // ---------------------------------------------------------------------

  /** How many middleware the covering groups before the `g`-th have. */
  function Before(groups: seq<Group>, pattern: string, g: nat): nat
    requires g <= |groups|
  {
    if g == 0 then 0
    else Before(groups, pattern, g - 1) + if PrefixMatches(pattern, groups[g - 1].prefix) then |groups[g - 1].middleware| else 0
  }

  lemma {:induction false} GroupsSplit(groups: seq<Group>, pattern: string, g: nat)
    requires g <= |groups|
    ensures GroupPrograms(groups, pattern) == GroupPrograms(groups[..g], pattern) + GroupPrograms(groups[g..], pattern)
    ensures |GroupPrograms(groups[..g], pattern)| == Before(groups, pattern, g)
    decreases g
  {
    hide PrefixMatches;
    if g == 0 {
      assert groups[0..] == groups && groups[..0] == [];
    } else {
      GroupsSplit(groups, pattern, g - 1);
      GroupStep(groups, pattern, g - 1);
      LastGroup(groups[..g - 1], groups[g - 1], pattern);
      assert groups[..g] == groups[..g - 1] + [groups[g - 1]];
    }
  }

  lemma {:induction false} LastGroup(groups: seq<Group>, last: Group, pattern: string)
    ensures GroupPrograms(groups + [last], pattern) ==
            GroupPrograms(groups, pattern) + if PrefixMatches(pattern, last.prefix) then last.middleware else []
    decreases groups
  {
    hide PrefixMatches;
    if groups == [] {
      assert groups + [last] == [last];
      assert [last][1..] == [];
    } else {
      assert (groups + [last])[1..] == groups[1..] + [last];
      LastGroup(groups[1..], last, pattern);
    }
  }

  /** A covering group's middleware stand together, in their order, after those of the groups registered before it. */
  lemma GroupPlace(app: App, r: Route, g: nat, k: nat)
    requires g < |app.groups| && k < |app.groups[g].middleware| && PrefixMatches(r.pattern, app.groups[g].prefix)
    ensures var at := Before(app.groups, r.pattern, g) + k;
            at < |ChainOf(app, r)| && ChainOf(app, r)[at] == app.groups[g].middleware[k]
  {
    hide PrefixMatches, GroupPrograms;
    GroupsSplit(app.groups, r.pattern, g);
    GroupStep(app.groups, r.pattern, g);
  }

  /** A group at the root covers every pattern, even one that is not written as a path. */
  lemma RootCovers(pattern: string)
    ensures PrefixMatches(pattern, "/") && PrefixMatches(pattern, "")
  {
  }

  /** After all of them come the route's own, and last the handler: there is nothing else. */
  lemma RoutePlace(app: App, r: Route)
    ensures var chain, n := ChainOf(app, r), Before(app.groups, r.pattern, |app.groups|);
            && |chain| == n + |r.middleware| + 1
            && (forall k | 0 <= k < |r.middleware| :: chain[n + k] == r.middleware[k])
            && chain[|chain| - 1] == if r.handlerEnds then [EndResponse] else []
  {
    hide PrefixMatches, GroupPrograms;
    var groups, n := app.groups, |app.groups|;
    GroupsSplit(groups, r.pattern, n);
    assert groups[..n] == groups;
    NoGroups(groups[n..], r.pattern);
  }

  // ---------------------------------------------------------------------
  // What is reported
  // ---------------------------------------------------------------------

  /** Middleware that only pass on. */
  predicate Transparent(ps: seq<Program>) { forall i | 0 <= i < |ps| :: ps[i] == [CallNext] }

  lemma OnePasses(global: seq<Program>, t: Target, w: World)
    requires w.idx < |global| && !w.ended && global[w.idx] == [CallNext]
    ensures Next(global, t, w) ==
            Next(global, t, w.(idx := w.idx + 1, trace := w.trace + [Started(Global(w.idx))]))
  {
    hide Next;
    GlobalStarts(global, t, w);
    var w1 := w.(idx := w.idx + 1, trace := w.trace + [Started(Global(w.idx))]);
    var p := [CallNext];
    assert p[1..] == [];
    assert RunGlobal(global, t, w1, p) == RunGlobal(global, t, Next(global, t, w1), p[1..]);
  }

  /** What every global middleware has passed on is a route's, refused and ended, or nobody's. */
  lemma {:induction false} PassedOn(global: seq<Program>, t: Target, w: World)
    requires w.idx <= |global| && !w.ended && Transparent(global)
    ensures var v := Next(global, t, w);
            match t
            case Nothing => !v.ended && v.handled == w.handled && Starts(v.trace) == Starts(w.trace) + Globals(w.idx, |global|)
            case Refused => v.ended && v.handled && Starts(v.trace) == Starts(w.trace) + Globals(w.idx, |global|)
            case Run(_) => v.handled
    decreases |global| - w.idx
  {
    hide Starts;
    if w.idx == |global| {
      StartsSnoc(w.trace, Ended);
      match t
      case Run(chain) => StepKeepsHandled(chain, w.(handled := true, j := 0));
      case _ =>
    } else {
      hide Next;
      var w1 := w.(idx := w.idx + 1, trace := w.trace + [Started(Global(w.idx))]);
      OnePasses(global, t, w);
      StartsSnoc(w.trace, Started(Global(w.idx)));
      PassedOn(global, t, w1);
    }
  }

  lemma {:induction false} StepKeepsHandled(chain: seq<Program>, w: World)
    ensures Step(chain, w).handled == w.handled
    decreases if w.j <= |chain| then |chain| - w.j else 0, 0
  {
    if w.j < |chain| && !w.ended {
      RunKeepsHandled(chain, w.(j := w.j + 1, trace := w.trace + [Started(Chain(w.j))]), chain[w.j]);
    }
  }

  lemma {:induction false} RunKeepsHandled(chain: seq<Program>, w: World, p: Program)
    ensures RunChain(chain, w, p).handled == w.handled
    decreases if w.j <= |chain| then |chain| - w.j else 0, |p|
  {
    if p != [] {
      if p[0] == CallNext {
        StepKeepsHandled(chain, w);
        RunKeepsHandled(chain, Step(chain, w), p[1..]);
      } else {
        RunKeepsHandled(chain, End(w), p[1..]);
      }
    }
  }

  /**
   * A request nobody serves: with a matching path it is refused, and ended, and
   * counts as handled; without one nothing is done, which the caller turns into a 404.
   */
  lemma NobodyServes(app: App, path: string, verb: Method)
    requires Transparent(app.global) && FirstServing(app.routes, path, verb) == |app.routes|
    ensures var v, known := Dispatched(app.global, Resolve(app, path, verb)),
                            exists i | 0 <= i < |app.routes| :: PathMatches(path, app.routes[i].segs);
            && v.handled == known && v.ended == known
            && Starts(v.trace) == Globals(0, |app.global|)
  {
    hide Next, FirstServing, PathMatches, Starts;
    PassedOn(app.global, Resolve(app, path, verb), Begin());
    NoStarts();
    assert [] + Globals(0, |app.global|) == Globals(0, |app.global|);
  }
}
