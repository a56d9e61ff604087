/** The caches against the table, over histories in which every request runs to
    its end between updates: what is cached belongs to a route in the table. */
module CacheSync {
  import opened Text
  import opened RouteTable
  import opened Caches
  import CutProtocol

  datatype State = State(table: RouteMap, proxies: Cache, pools: Cache)

  /** `retired` is the order in which the update's retire calls run; `alpns`
      and `sealed` are the client's choice. */
  datatype Step =
    | Update(feed: seq<Route>, retired: seq<Route>)
    | Serve(host: string, alpns: seq<string>, sealed: bool)

  const EMPTY: State := State(map[], map[], map[])

  function ForgetProxies(m: Cache, retired: seq<Route>): Cache
  {
    if retired == [] then m
    else
      var r := retired[|retired| - 1];
      WithoutPrefix(ForgetProxies(m, retired[..|retired| - 1]), AppPrefix(r.upstream, r.UpstreamName()))
  }

  function ForgetPools(m: Cache, retired: seq<Route>): Cache
  {
    if retired == [] then m
    else
      var r := retired[|retired| - 1];
      WithoutPrefix(ForgetPools(m, retired[..|retired| - 1]), AppPrefix(r.upstream, r.sni))
  }

  lemma {:induction false} ForgottenProxies(m: Cache, retired: seq<Route>)
    ensures ForgetProxies(m, retired) ==
            map k | k in m && forall r :: r in retired ==> !(AppPrefix(r.upstream, r.UpstreamName()) <= k) :: m[k]
  {
    if retired != [] {
      var n := |retired| - 1;
      ForgottenProxies(m, retired[..n]);
      assert retired == retired[..n] + [retired[n]];
    }
  }

  lemma {:induction false} ForgottenPools(m: Cache, retired: seq<Route>)
    ensures ForgetPools(m, retired) ==
            map k | k in m && forall r :: r in retired ==> !(AppPrefix(r.upstream, r.sni) <= k) :: m[k]
  {
    if retired != [] {
      var n := |retired| - 1;
      ForgottenPools(m, retired[..n]);
      assert retired == retired[..n] + [retired[n]];
    }
  }

  predicate Enabled(s: State, step: Step)
  {
    match step
    case Update(feed, retired) =>
      (forall r :: r in retired ==> r in RetiredRoutes(s.table, FoldFeed(feed)))
      && (forall r :: r in RetiredRoutes(s.table, FoldFeed(feed)) ==> r in retired)
    case Serve(host, alpns, _) =>
      LookupIn(s.table, host).Some? && !LookupIn(s.table, host).value.Quarantined()
      && CutProtocol.Select(LookupIn(s.table, host), alpns, true) == CutProtocol.Terminate
  }

  function Next(env: Env, s: State, step: Step): State
    requires Enabled(s, step)
  {
    match step
    case Update(feed, retired) =>
      State(FoldFeed(feed), ForgetProxies(s.proxies, retired), ForgetPools(s.pools, retired))
    case Serve(host, _, sealed) =>
      var route := LookupIn(s.table, host).value;
      var proxies := ProxiesAfter(env, s.proxies, route);
      s.(proxies := proxies,
         pools := if sealed && ProxyKey(env, route) in proxies then PoolsAfter(env, s.pools, route) else s.pools)
  }

  function After(env: Env, steps: seq<Step>): State
  {
    if steps == [] then EMPTY
    else
      var s := After(env, steps[..|steps| - 1]);
      if Enabled(s, steps[|steps| - 1]) then Next(env, s, steps[|steps| - 1]) else s
  }

  /** Some route in the table is served through this proxy. */
  ghost predicate ProxyLive(table: RouteMap, e: Entry)
  {
    exists h :: h in table && ForApp(e, table[h].upstream, table[h].UpstreamName())
  }

  /** Sealed streams of this route ride this pool: neither an alias nor a direct
      name is ever terminated. */
  predicate PoolRoute(route: Route, e: Entry)
  {
    !route.IsAlias() && !route.IsDirect() && ForApp(e, route.upstream, route.sni)
  }

  /** Some route in the table is served through this pool. */
  ghost predicate PoolLive(table: RouteMap, e: Entry)
  {
    exists h :: h in table && PoolRoute(table[h], e)
  }

  ghost predicate ProxiesLive(s: State)
  {
    forall k :: k in s.proxies ==> ProxyLive(s.table, s.proxies[k])
  }

  ghost predicate PoolsLive(s: State)
  {
    forall k :: k in s.pools ==> PoolLive(s.table, s.pools[k])
  }

  /** Every entry is filed under its own app's prefix. */
  ghost predicate Filed(m: Cache)
  {
    forall k :: k in m ==> AppPrefix(m[k].upstream, m[k].name) <= k
  }

  lemma {:induction false} AlwaysFiled(env: Env, steps: seq<Step>)
    ensures Filed(After(env, steps).proxies) && Filed(After(env, steps).pools)
  {
    if steps != [] {
      var s, step := After(env, steps[..|steps| - 1]), steps[|steps| - 1];
      AlwaysFiled(env, steps[..|steps| - 1]);
      if Enabled(s, step) && step.Update? {
        ForgottenProxies(s.proxies, step.retired);
        ForgottenPools(s.pools, step.retired);
      }
    }
  }

  lemma UpdateKeepsProxiesLive(env: Env, s: State, feed: seq<Route>, retired: seq<Route>)
    requires Enabled(s, Update(feed, retired)) && ProxiesLive(s) && Filed(s.proxies)
    ensures ProxiesLive(Next(env, s, Update(feed, retired)))
  {
    var m, table := ForgetProxies(s.proxies, retired), FoldFeed(feed);
    ForgottenProxies(s.proxies, retired);
    forall k | k in m
      ensures ProxyLive(table, m[k])
    {
      var h :| h in s.table && ForApp(m[k], s.table[h].upstream, s.table[h].UpstreamName());
      assert s.table[h] !in retired;
      assert s.table[h] !in RetiredRoutes(s.table, table);
      assert !Retires(s.table, table, h);
    }
  }

  /** After every sequential history each cached proxy still serves a route in
      the table: nothing outlives the app it was built for. */
  lemma {:induction false} CachedProxiesAreLive(env: Env, steps: seq<Step>)
    ensures ProxiesLive(After(env, steps))
  {
    if steps != [] {
      var front, step := steps[..|steps| - 1], steps[|steps| - 1];
      CachedProxiesAreLive(env, front);
      AlwaysFiled(env, front);
      var s := After(env, front);
      if Enabled(s, step) {
        match step
        case Update(feed, retired) => UpdateKeepsProxiesLive(env, s, feed, retired);
        case Serve(host, _, _) => ServeKeepsProxiesLive(env, s, step);
      }
    }
  }

  lemma ServeKeepsProxiesLive(env: Env, s: State, step: Step)
    requires step.Serve? && Enabled(s, step) && ProxiesLive(s)
    ensures ProxiesLive(Next(env, s, step))
  {
    var t, h := Next(env, s, step), ToLower(step.host);
    forall k | k in t.proxies
      ensures ProxyLive(t.table, t.proxies[k])
    {
      if k !in s.proxies || s.proxies[k] != t.proxies[k] {
        assert ForApp(t.proxies[k], s.table[h].upstream, s.table[h].UpstreamName());
      }
    }
  }

  /** Serving fills the caches: the proxy of a route that can be built or was
      there, and its pool for a sealed stream that has a proxy; it never touches
      the pools otherwise. */
  lemma ServeFillsCaches(env: Env, s: State, step: Step)
    requires step.Serve? && Enabled(s, step)
    ensures var t, route := Next(env, s, step), s.table[ToLower(step.host)];
            && t.table == s.table
            && (ProxyKey(env, route) in t.proxies <==> ProxyKey(env, route) in s.proxies || Buildable(env, route))
            && (step.sealed && ProxyKey(env, route) in t.proxies ==> PoolKey(env, route) in t.pools)
            && (!step.sealed || ProxyKey(env, route) !in t.proxies ==> t.pools == s.pools)
  {
  }

  // ---- Pools ----

  /** Retiring is decided by upstream name, pools are dropped by SNI. A route
      whose pool may be cached becomes an alias of its own name in another
      letter case: nothing retires, no retired route's prefix happens to cover
      the pool, and no later route leads to it. */
  ghost predicate LeavesPool(prev: RouteMap, next: RouteMap, h: string)
  {
    && h in prev && h in next && !Retires(prev, next, h)
    && !prev[h].IsAlias() && !prev[h].IsDirect() && next[h].IsAlias()
    && forall r :: r in RetiredRoutes(prev, next) ==>
         !(AppPrefix(r.upstream, r.sni) <= AppPrefix(prev[h].upstream, prev[h].sni))
  }

  ghost predicate NoPoolLeft(prev: RouteMap, next: RouteMap)
  {
    forall h :: !LeavesPool(prev, next, h)
  }

  lemma UpdateKeepsPoolsLive(env: Env, s: State, feed: seq<Route>, retired: seq<Route>)
    requires Enabled(s, Update(feed, retired)) && NoPoolLeft(s.table, FoldFeed(feed))
    requires PoolsLive(s) && Filed(s.pools)
    ensures PoolsLive(Next(env, s, Update(feed, retired)))
  {
    var m, table := ForgetPools(s.pools, retired), FoldFeed(feed);
    ForgottenPools(s.pools, retired);
    forall k | k in m
      ensures PoolLive(table, m[k])
    {
      var h :| h in s.table && PoolRoute(s.table[h], m[k]);
      assert s.table[h] !in retired;
      assert s.table[h] !in RetiredRoutes(s.table, table);
      assert !Retires(s.table, table, h);
      assert AppPrefix(s.table[h].upstream, s.table[h].sni) <= k;
      assert forall r :: r in RetiredRoutes(s.table, table) ==>
        r in retired && !(AppPrefix(r.upstream, r.sni) <= AppPrefix(s.table[h].upstream, s.table[h].sni));
      assert !LeavesPool(s.table, table, h);
      assert PoolRoute(table[h], m[k]);
    }
  }

  lemma ServeKeepsPoolsLive(env: Env, s: State, step: Step)
    requires step.Serve? && Enabled(s, step) && PoolsLive(s)
    ensures PoolsLive(Next(env, s, step))
  {
    var t, h := Next(env, s, step), ToLower(step.host);
    forall k | k in t.pools
      ensures PoolLive(t.table, t.pools[k])
    {
      if k !in s.pools || s.pools[k] != t.pools[k] {
        assert PoolRoute(s.table[h], t.pools[k]);
      }
    }
  }

  /** The same for mux pools, over histories in which no update turns a route
      into an alias of itself. */
  lemma {:induction false} CachedPoolsAreLive(env: Env, steps: seq<Step>)
    requires forall k :: 0 <= k < |steps| && steps[k].Update?
                         ==> NoPoolLeft(After(env, steps[..k]).table, FoldFeed(steps[k].feed))
    ensures PoolsLive(After(env, steps))
  {
    if steps != [] {
      var n := |steps| - 1;
      var front, step := steps[..n], steps[n];
      assert forall k :: 0 <= k < n ==> front[..k] == steps[..k];
      CachedPoolsAreLive(env, front);
      AlwaysFiled(env, front);
      var s := After(env, front);
      if Enabled(s, step) {
        match step
        case Update(feed, retired) => UpdateKeepsPoolsLive(env, s, feed, retired);
        case Serve(host, _, _) => ServeKeepsPoolsLive(env, s, step);
      }
    }
  }

  /** Replacing feed `f` by `g` leaves no pool behind, whatever was served
      before and whatever policies and addresses are valid. */
  ghost predicate UpdateKeepsPools(f: seq<Route>, g: seq<Route>)
  {
    forall env, steps, retired :: KeepsPoolsHere(env, f, g, steps, retired)
  }

  ghost predicate KeepsPoolsHere(env: Env, f: seq<Route>, g: seq<Route>, steps: seq<Step>, retired: seq<Route>)
  {
    var s := After(env, steps);
    s.table == FoldFeed(f) && PoolsLive(s) && Enabled(s, Update(g, retired))
    ==> PoolsLive(Next(env, s, Update(g, retired)))
  }

  /** Exactly the updates that turn no served route into an alias of itself keep
      every cached pool reachable. */
  lemma PoolsKeptIffNoSelfAlias(f: seq<Route>, g: seq<Route>)
    ensures UpdateKeepsPools(f, g) <==> NoPoolLeft(FoldFeed(f), FoldFeed(g))
  {
    if NoPoolLeft(FoldFeed(f), FoldFeed(g)) {
      forall env, steps, retired
        ensures KeepsPoolsHere(env, f, g, steps, retired)
      {
        var s := After(env, steps);
        if s.table == FoldFeed(f) && PoolsLive(s) && Enabled(s, Update(g, retired)) {
          AlwaysFiled(env, steps);
          UpdateKeepsPoolsLive(env, s, g, retired);
        }
      }
    } else {
      var h :| LeavesPool(FoldFeed(f), FoldFeed(g), h);
      var env, steps, retired := LeftoverPool(f, g, h);
      assert !KeepsPoolsHere(env, f, g, steps, retired);
    }
  }

  /** The run behind it: the route served under an empty policy, its feed put in
      place, then the update. */
  lemma LeftoverPool(f: seq<Route>, g: seq<Route>, h: string)
    returns (env: Env, steps: seq<Step>, retired: seq<Route>)
    requires LeavesPool(FoldFeed(f), FoldFeed(g), h)
    ensures !KeepsPoolsHere(env, f, g, steps, retired)
  {
    env := Env(p => p, p => Some(p), u => true);
    var prev, next := FoldFeed(f), FoldFeed(g);
    var r := prev[h].(policy := "", state := "");
    steps := ServedOnce(env, r);
    assert RetiredRoutes(map[h := r], prev) == {};
    steps := Extend(env, steps, Update(f, []));
    var s := After(env, steps);
    var k, e := PoolKey(env, r), NewPool(env, r);
    assert s.table == prev && s.pools == map[k := e];
    assert PoolRoute(prev[h], e);
    retired := Listed(RetiredRoutes(prev, next));
    PoolSurvives(prev, next, h, s.pools, k, retired);
    var t := Next(env, s, Update(g, retired));
    assert k in t.pools && t.pools[k] == e;
    forall x | x in next
      ensures !PoolRoute(next[x], e)
    {
      assert next[x].Key() == x && prev[h].Key() == h;
    }
    assert !PoolLive(t.table, t.pools[k]);
  }

  lemma PoolSurvives(prev: RouteMap, next: RouteMap, h: string, pools: Cache, k: string, retired: seq<Route>)
    requires LeavesPool(prev, next, h)
    requires k in pools && k == Key(prev[h].upstream, prev[h].sni, "empty")
    requires forall r :: r in retired ==> r in RetiredRoutes(prev, next)
    ensures var m := ForgetPools(pools, retired); k in m && m[k] == pools[k]
  {
    ForgottenPools(pools, retired);
    forall r | r in retired
      ensures !(AppPrefix(r.upstream, r.sni) <= k)
    {
      ShortPrefix(AppPrefix(r.upstream, r.sni), AppPrefix(prev[h].upstream, prev[h].sni), "empty");
    }
  }

  /** A prefix ends in a bar, so it reaches no further than a bar-free hash. */
  lemma ShortPrefix(p: string, app: string, hash: string)
    requires p != "" && p[|p| - 1] == BAR && BarFree(hash)
    ensures p <= app + hash <==> p <= app
  {
    if p <= app + hash {
      if |p| <= |app| {
        assert p == (app + hash)[..|p|] == app[..|p|];
      }
    }
  }

  lemma {:induction false} Listed(due: set<Route>) returns (list: seq<Route>)
    ensures forall r :: r in list <==> r in due
  {
    list := [];
    if r :| r in due {
      var rest := Listed(due - {r});
      list := [r] + rest;
    }
  }

  /** Without that condition a pool is left behind: a name served, then turned
      into an alias of itself in other letters, then dropped. */
  lemma SelfAliasLeavesPoolBehind(env: Env, upstream: string, name: string, other: string)
    requires name != other && SameLetters(name, other) && name != ""
    requires var r := Route(name, upstream, "", "", "", "", false); Buildable(env, r)
    ensures exists steps ::
              var s := After(env, steps);
              s.table == map[] && s.proxies == map[] && s.pools != map[]
  {
    var r := Route(name, upstream, "", "", "", "", false);
    var alias := Route(other, upstream, "", "", name, "", false);
    var h := r.Key();
    SameLettersIffLower(name, other);
    var steps := ServedOnce(env, r);
    var s := After(env, steps);
    assert FoldFeed([alias]) == map[h := alias] by { assert [alias][..0] == []; }
    assert RetiredRoutes(s.table, FoldFeed([alias])) == {};
    steps := Extend(env, steps, Update([alias], []));
    assert RetiredRoutes(map[h := alias], map[]) == {alias} by {
      assert alias in RetiredRoutes(map[h := alias], map[]) by { assert h in map[h := alias]; }
    }
    steps := Extend(env, steps, Update([], [alias]));
    AliasSweepsProxyOnly(env, r, alias);
  }

  /** Forgetting the alias reaches the proxy by upstream name, and misses the
      pool by SNI. */
  lemma AliasSweepsProxyOnly(env: Env, r: Route, alias: Route)
    requires Buildable(env, r) && !r.IsAlias() && r.policy == ""
    requires alias.upstream == r.upstream && alias.UpstreamName() == r.sni
    requires alias.sni != r.sni && |alias.sni| == |r.sni|
    ensures ForgetProxies(map[ProxyKey(env, r) := NewProxy(env, r)], [alias]) == map[]
    ensures PoolKey(env, r) in ForgetPools(map[PoolKey(env, r) := NewPool(env, r)], [alias])
  {
    var p, q := AppPrefix(r.upstream, r.sni), AppPrefix(alias.upstream, alias.sni);
    ForgottenProxies(map[ProxyKey(env, r) := NewProxy(env, r)], [alias]);
    ForgottenPools(map[PoolKey(env, r) := NewPool(env, r)], [alias]);
    assert alias in [alias];
    assert p != q by {
      assert p[|r.upstream| + 1..|p| - 1] == r.sni && q[|r.upstream| + 1..|q| - 1] == alias.sni;
    }
    ShortPrefix(q, p, "empty");
  }

  lemma Extend(env: Env, steps: seq<Step>, step: Step) returns (more: seq<Step>)
    requires Enabled(After(env, steps), step)
    ensures After(env, more) == Next(env, After(env, steps), step)
  {
    more := steps + [step];
    assert more[..|more| - 1] == steps;
  }

  /** A history that serves one sealed stream for a lone platform route. */
  lemma ServedOnce(env: Env, r: Route) returns (steps: seq<Step>)
    requires !r.IsAlias() && !r.IsDirect() && !r.Quarantined() && Buildable(env, r)
    ensures After(env, steps) == State(map[r.Key() := r],
                                       map[ProxyKey(env, r) := NewProxy(env, r)],
                                       map[PoolKey(env, r) := NewPool(env, r)])
  {
    assert FoldFeed([r]) == map[r.Key() := r] by { assert [r][..0] == []; }
    assert RetiredRoutes(map[], FoldFeed([r])) == {};
    steps := Extend(env, [], Update([r], []));
    LowerIdempotent(r.sni);
    assert LookupIn(map[r.Key() := r], r.sni) == Some(r);
    steps := Extend(env, steps, Serve(r.sni, [], true));
  }
}
