/** Terminated connections against the caches, any number at a time: each asks
    for a proxy, later for a mux pool for the same route, while others do the
    same and routes are forgotten. Every interleaving of the critical sections
    is a run. */
module SealedRuns {
  import opened Text
  import opened RouteTable
  import opened Caches

  /** `conns` are the connections that obtained a proxy, with their routes. */
  datatype State = State(proxies: Cache, pools: Cache, conns: map<nat, Route>)

  datatype Step = Open(c: nat, route: Route) | Seal(c: nat) | Forget(route: Route)

  const EMPTY: State := State(map[], map[], map[])

  predicate Enabled(s: State, step: Step)
  {
    match step
    case Open(c, _) => c !in s.conns
    case Seal(c) => c in s.conns
    case Forget(_) => true
  }

  function Next(env: Env, s: State, step: Step): State
    requires Enabled(s, step)
  {
    match step
    case Open(c, route) =>
      var proxies := ProxiesAfter(env, s.proxies, route);
      s.(proxies := proxies, conns := if ProxyKey(env, route) in proxies then s.conns[c := route] else s.conns)
    case Seal(c) => s.(pools := PoolsAfter(env, s.pools, s.conns[c]))
    case Forget(route) =>
      s.(proxies := WithoutPrefix(s.proxies, AppPrefix(route.upstream, route.UpstreamName())),
         pools := WithoutPrefix(s.pools, AppPrefix(route.upstream, route.sni)))
  }

  function After(env: Env, steps: seq<Step>): State
  {
    if steps == [] then EMPTY
    else
      var s := After(env, steps[..|steps| - 1]);
      if Enabled(s, steps[|steps| - 1]) then Next(env, s, steps[|steps| - 1]) else s
  }

  /** Hashes are hexadecimal or "empty". */
  ghost predicate PlainHashes(env: Env)
  {
    forall p :: BarFree(env.Hash(p))
  }

  /** No policy that parses shares its hash with one that does not. */
  ghost predicate HashSeparates(env: Env)
  {
    forall p, q :: env.Hash(p) == env.Hash(q) && env.Doc(p).Some? ==> env.Doc(q).Some?
  }

  /** The same in terms of the digest and the parser. */
  lemma SeparatesIffDigest(env: Env)
    ensures HashSeparates(env) <==>
              && (forall p, q :: p != "" && q != "" && env.digest(p) == env.digest(q) && env.parse(p).Some? ==> env.parse(q).Some?)
              && (forall q :: q != "" && env.digest(q) == "empty" ==> env.parse(q).Some?)
  {
    if HashSeparates(env) {
      forall q | q != "" && env.digest(q) == "empty"
        ensures env.parse(q).Some?
      {
        assert env.Hash("") == env.Hash(q) && env.Doc("").Some?;
      }
      forall p, q | p != "" && q != "" && env.digest(p) == env.digest(q) && env.parse(p).Some?
        ensures env.parse(q).Some?
      {
        assert env.Hash(p) == env.Hash(q) && env.Doc(p).Some?;
      }
    }
  }

  /** The entry's key ends in the hash of the policy it was built for. */
  ghost predicate KeyedByHash(env: Env, k: string, e: Entry)
  {
    k == Key(e.upstream, e.name, env.Hash(e.policy)) && BuiltRight(env, e)
  }

  ghost predicate AllKeyed(env: Env, m: Cache)
  {
    forall k :: k in m ==> KeyedByHash(env, k, m[k])
  }

  ghost predicate NoFallback(m: Cache)
  {
    forall k :: k in m ==> !m[k].fallback
  }

  ghost predicate PoliciesParse(env: Env, conns: map<nat, Route>)
  {
    forall c :: c in conns ==> env.Doc(conns[c].policy).Some?
  }

  /** Whatever bars the other parts hold, a hash without one ends the key. */
  lemma HashEndsKey(u: string, n: string, h: string, v: string, m: string, h': string)
    requires BarFree(h) && BarFree(h') && Key(u, n, h) == Key(v, m, h')
    ensures h == h'
  {
    assert Key(u, n, h) == (u + [BAR] + n) + [BAR] + h;
    assert Key(v, m, h') == (v + [BAR] + m) + [BAR] + h';
    SplitLastUnique(u + [BAR] + n, v + [BAR] + m, h, h', BAR);
  }

  ghost predicate Inv(env: Env, s: State)
  {
    AllKeyed(env, s.proxies) && NoFallback(s.proxies) && AllKeyed(env, s.pools)
  }

  lemma {:induction false} InvAlways(env: Env, steps: seq<Step>)
    ensures Inv(env, After(env, steps))
  {
    if steps != [] {
      InvAlways(env, steps[..|steps| - 1]);
    }
  }

  /** A retired route takes with it exactly what is filed under its prefixes, its
      own proxy and pool among it. */
  lemma ForgetTakesTheApp(env: Env, s: State, route: Route)
    requires Inv(env, s)
    ensures var t := Next(env, s, Forget(route));
            && t.conns == s.conns
            && (forall k :: k in t.proxies <==> k in s.proxies && !(AppPrefix(route.upstream, route.UpstreamName()) <= k))
            && (forall k :: k in t.proxies ==> t.proxies[k] == s.proxies[k])
            && (forall k :: k in t.pools <==> k in s.pools && !(AppPrefix(route.upstream, route.sni) <= k))
            && (forall k :: k in t.pools ==> t.pools[k] == s.pools[k])
            && (forall k :: k in t.proxies ==> !ForApp(t.proxies[k], route.upstream, route.UpstreamName()))
            && (forall k :: k in t.pools ==> !ForApp(t.pools[k], route.upstream, route.sni))
  {
  }

  /** A connection that got a proxy has a policy that parses. */
  lemma OpenKeepsPolicies(env: Env, s: State, c: nat, route: Route)
    requires PlainHashes(env) && HashSeparates(env) && Inv(env, s)
    requires Enabled(s, Open(c, route)) && PoliciesParse(env, s.conns)
    ensures PoliciesParse(env, Next(env, s, Open(c, route)).conns)
  {
    var k := ProxyKey(env, route);
    if k in s.proxies {
      var e := s.proxies[k];
      HashEndsKey(e.upstream, e.name, env.Hash(e.policy), route.upstream, route.UpstreamName(), env.Hash(route.policy));
    }
  }

  lemma {:induction false} FallbackNeverTaken(env: Env, steps: seq<Step>)
    requires PlainHashes(env) && HashSeparates(env)
    ensures PoliciesParse(env, After(env, steps).conns) && NoFallback(After(env, steps).pools)
  {
    if steps != [] {
      var front, step := steps[..|steps| - 1], steps[|steps| - 1];
      FallbackNeverTaken(env, front);
      InvAlways(env, front);
      if step.Open? && Enabled(After(env, front), step) {
        OpenKeepsPolicies(env, After(env, front), step.c, step.route);
      }
    }
  }

  /** The empty-policy fallback of the pools is unreachable, in every
      interleaving and for all routes, if and only if no policy that parses
      shares its hash with one that does not; in particular when the hash is
      injective. `r` is any route with a valid address. */
  lemma FallbackUnreachableIffHashSeparates(env: Env, r: Route)
    requires PlainHashes(env) && env.urlOk("https://" + Target(r))
    ensures (forall steps :: NoFallback(After(env, steps).pools)) <==> HashSeparates(env)
  {
    if HashSeparates(env) {
      forall steps
        ensures NoFallback(After(env, steps).pools)
      {
        FallbackNeverTaken(env, steps);
      }
    } else {
      var p, q :| env.Hash(p) == env.Hash(q) && env.Doc(p).Some? && env.Doc(q).None?;
      var steps := FallbackRun(env, r.(policy := p), r.(policy := q));
      assert !NoFallback(After(env, steps).pools);
    }
  }

  /** One connection caches a proxy, a second with a colliding policy hits it
      and asks for a pool. */
  lemma FallbackRun(env: Env, good: Route, bad: Route) returns (steps: seq<Step>)
    requires Buildable(env, good) && env.Doc(bad.policy).None?
    requires ProxyKey(env, good) == ProxyKey(env, bad)
    ensures !NoFallback(After(env, steps).pools)
  {
    steps := Extend(env, [], Open(0, good));
    steps := Extend(env, steps, Open(1, bad));
    assert 1 in After(env, steps).conns && After(env, steps).conns[1] == bad;
    assert After(env, steps).pools == map[];
    steps := Extend(env, steps, Seal(1));
    assert After(env, steps).pools[PoolKey(env, bad)].fallback;
  }

  lemma Extend(env: Env, steps: seq<Step>, step: Step) returns (more: seq<Step>)
    requires Enabled(After(env, steps), step)
    ensures After(env, more) == Next(env, After(env, steps), step)
  {
    more := steps + [step];
    assert more[..|more| - 1] == steps;
  }

  /** With an injective hash, whenever a connection asks for its pool, however
      many others came in between, the pool it gets enforces the connection's
      own policy, parsed. */
  lemma SealedStreamEnforcesItsPolicy(env: Env, steps: seq<Step>, c: nat)
    requires PlainHashes(env) && env.Injective() && c in After(env, steps).conns
    ensures var route, pools := After(env, steps).conns[c], Next(env, After(env, steps), Seal(c)).pools;
            && PoolKey(env, route) in pools
            && var p := pools[PoolKey(env, route)];
               p.policy == route.policy && Enforces(env, p)
  {
    var s := After(env, steps);
    var route, pools := s.conns[c], Next(env, s, Seal(c)).pools;
    InvAlways(env, steps);
    FallbackNeverTaken(env, steps);
    if PoolKey(env, route) in s.pools {
      var e := s.pools[PoolKey(env, route)];
      HashEndsKey(e.upstream, e.name, env.Hash(e.policy), route.upstream, route.sni, env.Hash(route.policy));
    }
  }
}
