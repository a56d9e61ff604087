/** The terminate handler's caches: one reverse proxy and one mux pool per app,
    rebuilt when the app's policy changes, dropped when its route is retired.
    Keys are "upstream|name|policy hash" strings matched by prefix. */
module Caches {
  import opened Text
  import opened RouteTable

  const BAR := '|'

  function AppPrefix(upstream: string, name: string): string
  {
    upstream + [BAR] + (name + [BAR])
  }

  function Key(upstream: string, name: string, hash: string): string
  {
    AppPrefix(upstream, name) + hash
  }

  predicate BarFree(s: string) { BAR !in s }

  lemma KeySplits(upstream: string, name: string, hash: string)
    ensures Key(upstream, name, hash) == upstream + [BAR] + (name + [BAR] + hash)
  {
  }

  /** With upstreams and names free of bars, the prefix test finds the entries
      of one app and no other's. */
  lemma PrefixMeansSameApp(u: string, n: string, hash: string, v: string, m: string)
    requires BarFree(u) && BarFree(n) && BarFree(v) && BarFree(m)
    ensures AppPrefix(v, m) <= Key(u, n, hash) <==> u == v && n == m
  {
    var k, p := Key(u, n, hash), AppPrefix(v, m);
    if p <= k {
      var rest := k[|p|..];
      assert k == p + rest == Key(v, m, rest);
      KeySplits(u, n, hash);
      KeySplits(v, m, rest);
      SplitUnique(u, v, n + [BAR] + hash, m + [BAR] + rest, BAR);
      SplitUnique(n, m, hash, rest, BAR);
    }
  }

  lemma KeysEqual(u: string, n: string, hash: string, v: string, m: string, hash': string)
    requires BarFree(u) && BarFree(n) && BarFree(v) && BarFree(m)
    ensures Key(u, n, hash) == Key(v, m, hash') <==> u == v && n == m && hash == hash'
  {
    if Key(u, n, hash) == Key(v, m, hash') {
      KeySplits(u, n, hash);
      KeySplits(v, m, hash');
      SplitUnique(u, v, n + [BAR] + hash, m + [BAR] + hash', BAR);
      SplitUnique(n, m, hash, hash', BAR);
    }
  }

  /** Exactly when no other app's prefix matches a key: its own upstream and
      name hold no bar. (A policy hash is hexadecimal or "empty".) */
  lemma OnlyOwnPrefixIffBarFree(v: string, m: string, hash: string)
    requires BarFree(hash)
    ensures (forall u, n :: AppPrefix(u, n) <= Key(v, m, hash) ==> u == v && n == m)
            <==> BarFree(v) && BarFree(m)
  {
    if BarFree(v) && BarFree(m) {
      forall u, n | AppPrefix(u, n) <= Key(v, m, hash)
        ensures u == v && n == m
      {
        TwoBars(u, n, v, m, hash);
      }
    } else {
      var u, n := ConfusedWith(v, m, hash);
      assert AppPrefix(u, n) <= Key(v, m, hash) && !(u == v && n == m);
    }
  }

  /** A key of bar-free parts has bars in two places only, and a prefix two. */
  lemma TwoBars(u: string, n: string, v: string, m: string, hash: string)
    requires BarFree(v) && BarFree(m) && BarFree(hash) && AppPrefix(u, n) <= Key(v, m, hash)
    ensures u == v && n == m
  {
    var p, k := AppPrefix(u, n), Key(v, m, hash);
    assert p[|u|] == BAR && p[|u| + 1 + |n|] == BAR;
    assert k[|u|] == BAR && k[|u| + 1 + |n|] == BAR;
    forall i | 0 <= i < |k| && k[i] == BAR
      ensures i == |v| || i == |v| + 1 + |m|
    {
      KeyAt(v, m, hash, i);
    }
    assert |u| == |v| && |n| == |m|;
    assert u == p[..|u|] == k[..|u|] == v;
    assert n == p[|u| + 1..|u| + 1 + |n|] == k[|u| + 1..|u| + 1 + |n|] == m;
  }

  lemma KeyAt(v: string, m: string, hash: string, i: nat)
    requires i < |Key(v, m, hash)|
    ensures var c := Key(v, m, hash)[i];
            c == if i < |v| then v[i]
                 else if i == |v| then BAR
                 else if i < |v| + 1 + |m| then m[i - |v| - 1]
                 else if i == |v| + 1 + |m| then BAR
                 else hash[i - |v| - |m| - 2]
  {
  }

  /** Another app whose prefix matches: the parts around the bar. */
  lemma ConfusedWith(v: string, m: string, hash: string) returns (u: string, n: string)
    requires !BarFree(v) || !BarFree(m)
    ensures AppPrefix(u, n) <= Key(v, m, hash) && !(u == v && n == m)
  {
    if !BarFree(v) {
      var i :| 0 <= i < |v| && v[i] == BAR;
      u, n := v[..i], v[i + 1..];
      assert Key(v, m, hash) == AppPrefix(u, n) + (m + [BAR] + hash);
    } else {
      var i :| 0 <= i < |m| && m[i] == BAR;
      u, n := v, m[..i];
      assert Key(v, m, hash) == AppPrefix(u, n) + (m[i + 1..] + [BAR] + hash);
    }
  }

  /** What a cache entry was built for. `doc` is the parsed policy it enforces;
      `fallback` marks one built with the empty policy after a parse failure. */
  datatype Entry = Entry(upstream: string, name: string, policy: string, doc: string, fallback: bool)

  predicate ForApp(e: Entry, upstream: string, name: string)
  {
    e.upstream == upstream && e.name == name
  }

  type Cache = map<string, Entry>

  /** Foreign code the caches rest on: the policy hash and the JSON parser of
      policies, and which targets make a valid URL. */
  datatype Env = Env(digest: string -> string, parse: string -> Option<string>, urlOk: string -> bool)
  {
    function Hash(policy: string): string { if policy == "" then "empty" else digest(policy) }

    /** parsePolicy: an absent policy is an empty document. */
    function Doc(policy: string): Option<string> { if policy == "" then Some("") else parse(policy) }

    ghost predicate Injective() { forall p, q :: Hash(p) == Hash(q) ==> p == q }
  }

  /** The entry's verifier enforces what the parser makes of its policy; an
      absent policy asks for nothing. */
  ghost predicate Enforces(env: Env, e: Entry)
  {
    !e.fallback && if e.policy == "" then e.doc == "" else env.parse(e.policy) == Some(e.doc)
  }

  /** An entry enforces its own parsed policy, or is a fallback because there
      was none. */
  predicate BuiltRight(env: Env, e: Entry)
  {
    if e.fallback then env.Doc(e.policy).None? else env.Doc(e.policy) == Some(e.doc)
  }

  /** Keys say what their entries were built for, and no app has two. */
  ghost predicate ValidCache(env: Env, m: Cache)
  {
    && (forall k :: k in m ==>
          && BarFree(m[k].upstream) && BarFree(m[k].name)
          && k == Key(m[k].upstream, m[k].name, env.Hash(m[k].policy))
          && BuiltRight(env, m[k]))
    && (forall j, k :: j in m && k in m && ForApp(m[j], m[k].upstream, m[k].name) ==> j == k)
  }

  function WithoutApp(m: Cache, upstream: string, name: string): Cache
  {
    map k | k in m && !ForApp(m[k], upstream, name) :: m[k]
  }

  function WithoutPrefix(m: Cache, prefix: string): Cache
  {
    map k | k in m && !(prefix <= k) :: m[k]
  }

  /** The string-prefix sweep is the removal of one app. */
  lemma PrefixSweepRemovesApp(env: Env, m: Cache, upstream: string, name: string)
    requires ValidCache(env, m) && BarFree(upstream) && BarFree(name)
    ensures WithoutPrefix(m, AppPrefix(upstream, name)) == WithoutApp(m, upstream, name)
    ensures ValidCache(env, WithoutApp(m, upstream, name))
  {
    forall k | k in m
      ensures AppPrefix(upstream, name) <= k <==> ForApp(m[k], upstream, name)
    {
      PrefixMeansSameApp(m[k].upstream, m[k].name, env.Hash(m[k].policy), upstream, name);
    }
  }

  lemma InsertKeepsValid(env: Env, m: Cache, e: Entry)
    requires ValidCache(env, m) && BarFree(e.upstream) && BarFree(e.name)
    requires BuiltRight(env, e)
    ensures ValidCache(env, WithoutApp(m, e.upstream, e.name)[Key(e.upstream, e.name, env.Hash(e.policy)) := e])
  {
  }

  /** A hit under this key is this app's entry, built for this policy hash. */
  lemma HitIsThisApp(env: Env, m: Cache, upstream: string, name: string, policy: string)
    requires ValidCache(env, m) && BarFree(upstream) && BarFree(name)
    requires Key(upstream, name, env.Hash(policy)) in m
    ensures var e := m[Key(upstream, name, env.Hash(policy))];
            && ForApp(e, upstream, name) && env.Hash(e.policy) == env.Hash(policy)
            && (env.Injective() ==> e.policy == policy)
  {
    var e := m[Key(upstream, name, env.Hash(policy))];
    KeysEqual(e.upstream, e.name, env.Hash(e.policy), upstream, name, env.Hash(policy));
  }

  /** Every hit enforces the requested policy exactly when the policy hash is
      injective: a collision would serve one policy's pool under another. */
  lemma HitsEnforcePolicyIffInjective(env: Env)
    ensures (forall m: Cache, u, n, policy ::
               ValidCache(env, m) && BarFree(u) && BarFree(n) && Key(u, n, env.Hash(policy)) in m
               ==> m[Key(u, n, env.Hash(policy))].policy == policy)
            <==> env.Injective()
  {
    if env.Injective() {
      forall m: Cache, u, n, policy
        | ValidCache(env, m) && BarFree(u) && BarFree(n) && Key(u, n, env.Hash(policy)) in m
        ensures m[Key(u, n, env.Hash(policy))].policy == policy
      {
        HitIsThisApp(env, m, u, n, policy);
      }
    } else {
      var p, q :| env.Hash(p) == env.Hash(q) && p != q;
      var e := if env.Doc(p).Some? then Entry("u", "n", p, env.Doc(p).value, false) else Entry("u", "n", p, "", true);
      var m: Cache := map[Key("u", "n", env.Hash(p)) := e];
      assert ValidCache(env, m);
      assert Key("u", "n", env.Hash(q)) in m && m[Key("u", "n", env.Hash(q))].policy != q;
    }
  }

  // ---- The caches as maps from app to entry ----

  function Target(route: Route): string
  {
    if "tunnel:" <= route.upstream then route.UpstreamName() else route.upstream
  }

  /** Whether a proxy can be built for a route. */
  predicate Buildable(env: Env, route: Route)
  {
    env.Doc(route.policy).Some? && env.urlOk("https://" + Target(route))
  }

  function ProxyKey(env: Env, route: Route): string
  {
    Key(route.upstream, route.UpstreamName(), env.Hash(route.policy))
  }

  function PoolKey(env: Env, route: Route): string
  {
    Key(route.upstream, route.sni, env.Hash(route.policy))
  }

  function NewProxy(env: Env, route: Route): Entry
    requires Buildable(env, route)
  {
    Entry(route.upstream, route.UpstreamName(), route.policy, env.Doc(route.policy).value, false)
  }

  function NewPool(env: Env, route: Route): Entry
  {
    if env.Doc(route.policy).Some?
    then Entry(route.upstream, route.sni, route.policy, env.Doc(route.policy).value, false)
    else Entry(route.upstream, route.sni, route.policy, "", true)
  }

  function ProxiesAfter(env: Env, m: Cache, route: Route): Cache
  {
    if ProxyKey(env, route) in m then m
    else
      var dropped := WithoutPrefix(m, AppPrefix(route.upstream, route.UpstreamName()));
      if Buildable(env, route) then dropped[ProxyKey(env, route) := NewProxy(env, route)] else dropped
  }

  function PoolsAfter(env: Env, m: Cache, route: Route): Cache
  {
    if PoolKey(env, route) in m then m
    else WithoutPrefix(m, AppPrefix(route.upstream, route.sni))[PoolKey(env, route) := NewPool(env, route)]
  }

  predicate Clean(route: Route)
  {
    BarFree(route.upstream) && BarFree(route.sni) && BarFree(route.canonical)
  }

  /** What it takes to build a proxy: a policy that is absent or parses, and a
      valid address, which for a tunnel is the app's own name: the canonical one
      where there is one. */
  lemma BuildableIff(env: Env, route: Route)
    ensures route.UpstreamName() == if route.canonical == "" then route.sni else route.canonical
    ensures Buildable(env, route) <==>
              && (route.policy == "" || env.parse(route.policy).Some?)
              && if |route.upstream| >= 7 && route.upstream[..7] == "tunnel:"
                 then env.urlOk("https://" + route.UpstreamName())
                 else env.urlOk("https://" + route.upstream)
  {
  }

  /** A hit changes nothing: the entry, and what rides on it, stays. */
  lemma HitKeepsCaches(env: Env, m: Cache, route: Route)
    ensures ProxyKey(env, route) in m ==> ProxiesAfter(env, m, route) == m
    ensures PoolKey(env, route) in m ==> PoolsAfter(env, m, route) == m
  {
  }

  // ---- A changed policy ----

  /** Hashes tell policies apart when the digest does and never spells "empty". */
  lemma InjectiveIffDigest(env: Env)
    ensures env.Injective() <==>
              && (forall p, q :: p != "" && q != "" && env.digest(p) == env.digest(q) ==> p == q)
              && (forall p :: p != "" ==> env.digest(p) != "empty")
  {
    if env.Injective() {
      forall p | p != ""
        ensures env.digest(p) != "empty"
      {
        assert env.Hash(p) == env.digest(p) && env.Hash("") == "empty";
      }
      forall p, q | p != "" && q != "" && env.digest(p) == env.digest(q)
        ensures p == q
      {
        assert env.Hash(p) == env.Hash(q);
      }
    }
  }

  /** The digest tells these two policies apart. */
  ghost predicate ToldApart(env: Env, p: string, q: string)
  {
    || (p != "" && q != "" && env.digest(p) != env.digest(q))
    || (p == "" && q != "" && env.digest(q) != "empty")
    || (p != "" && q == "" && env.digest(p) != "empty")
  }

  /** An app cached under one policy and asked for under another gets a proxy
      that enforces the new one, or none; nothing built for the old one is
      left. */
  lemma ChangedPolicyRebuildsProxy(env: Env, m: Cache, r: Route, q: string)
    requires ValidCache(env, m) && Clean(r) && ToldApart(env, r.policy, q)
    requires ProxyKey(env, r) in m
    ensures var r', after := r.(policy := q), ProxiesAfter(env, m, r.(policy := q));
            && (forall k :: k in after && ForApp(after[k], r.upstream, r.UpstreamName()) ==>
                  after[k].policy == q && Enforces(env, after[k]))
            && (ProxyKey(env, r') in after <==> Buildable(env, r'))
  {
    var r' := r.(policy := q);
    HitIsThisApp(env, m, r.upstream, r.UpstreamName(), r.policy);
    SecondKeyIsAbsent(env, m, r.upstream, r.UpstreamName(), r.policy, q);
    PrefixSweepRemovesApp(env, m, r.upstream, r.UpstreamName());
  }

  /** The same for its mux pool, which is rebuilt always. */
  lemma ChangedPolicyRebuildsPool(env: Env, m: Cache, r: Route, q: string)
    requires ValidCache(env, m) && Clean(r) && ToldApart(env, r.policy, q)
    requires PoolKey(env, r) in m
    ensures var r', after := r.(policy := q), PoolsAfter(env, m, r.(policy := q));
            && (forall k :: k in after && ForApp(after[k], r.upstream, r.sni) ==> after[k].policy == q)
            && PoolKey(env, r') in after
            && var p := after[PoolKey(env, r')];
               ForApp(p, r.upstream, r.sni) && (p.fallback <==> q != "" && env.parse(q).None?) && (p.fallback || Enforces(env, p))
  {
    HitIsThisApp(env, m, r.upstream, r.sni, r.policy);
    SecondKeyIsAbsent(env, m, r.upstream, r.sni, r.policy, q);
    PrefixSweepRemovesApp(env, m, r.upstream, r.sni);
  }

  lemma SecondKeyIsAbsent(env: Env, m: Cache, u: string, n: string, p: string, q: string)
    requires ValidCache(env, m) && BarFree(u) && BarFree(n) && ToldApart(env, p, q)
    requires Key(u, n, env.Hash(p)) in m
    ensures Key(u, n, env.Hash(q)) !in m
  {
    HitIsThisApp(env, m, u, n, p);
    KeysEqual(u, n, env.Hash(p), u, n, env.Hash(q));
    if Key(u, n, env.Hash(q)) in m {
      HitIsThisApp(env, m, u, n, q);
    }
  }

  /** A route's cached proxy survives the sweep of every other app if and only
      if the route's upstream and upstream name hold no bar: a name like "b|c"
      on an ordinary upstream, or a "tunnel:a|b" upstream, loses its proxy
      whenever the app named by the part before the bar is swept. */
  lemma ProxySurvivesOthersIffBarFree(env: Env, route: Route)
    requires Buildable(env, route) && BarFree(env.Hash(route.policy))
    ensures (forall u, n :: !ForApp(NewProxy(env, route), u, n) ==> SurvivesSweep(env, route, u, n))
            <==> BarFree(route.upstream) && BarFree(route.UpstreamName())
  {
    var v, m, hash := route.upstream, route.UpstreamName(), env.Hash(route.policy);
    OnlyOwnPrefixIffBarFree(v, m, hash);
    if !(BarFree(v) && BarFree(m)) {
      var u, n :| AppPrefix(u, n) <= Key(v, m, hash) && !(u == v && n == m);
      assert !ForApp(NewProxy(env, route), u, n) && !SurvivesSweep(env, route, u, n);
    }
  }

  /** A sweep of the app leaves a cached proxy of the route in place. */
  ghost predicate SurvivesSweep(env: Env, route: Route, upstream: string, name: string)
    requires Buildable(env, route)
  {
    ProxyKey(env, route) in WithoutPrefix(map[ProxyKey(env, route) := NewProxy(env, route)], AppPrefix(upstream, name))
  }

  lemma ProxiesStayValid(env: Env, m: Cache, route: Route)
    requires ValidCache(env, m) && Clean(route)
    ensures ValidCache(env, ProxiesAfter(env, m, route))
  {
    PrefixSweepRemovesApp(env, m, route.upstream, route.UpstreamName());
    if Buildable(env, route) {
      InsertKeepsValid(env, m, NewProxy(env, route));
    }
  }

  lemma PoolsStayValid(env: Env, m: Cache, route: Route)
    requires ValidCache(env, m) && Clean(route)
    ensures ValidCache(env, PoolsAfter(env, m, route))
  {
    PrefixSweepRemovesApp(env, m, route.upstream, route.sni);
    InsertKeepsValid(env, m, NewPool(env, route));
  }

  // ---- The handler ----

  class Handler {
    const env: Env
    var proxies: Cache
    var muxPools: Cache

    ghost predicate Valid()
      reads this
    {
      && ValidCache(env, proxies) && ValidCache(env, muxPools)
      && (forall k :: k in proxies ==> !proxies[k].fallback)
    }

    constructor (env: Env)
      ensures this.env == env && Valid() && proxies == map[] && muxPools == map[]
    {
      this.env, proxies, muxPools := env, map[], map[];
    }

    /** The range-and-delete loops of proxyFor, muxPoolFor and Forget. */
    static method SweepPrefix(m: Cache, prefix: string) returns (r: Cache)
      ensures r == WithoutPrefix(m, prefix)
    {
      r := m;
      var todo := m.Keys;
      while todo != {}
        invariant todo <= m.Keys
        invariant r == map k | k in m && (k in todo || !(prefix <= k)) :: m[k]
        decreases |todo|
      {
        var k :| k in todo;
        todo := todo - {k};
        if prefix <= k {
          r := r - {k};
        }
      }
    }

    /** The result was built for the route's upstream and name under its policy
        hash; every other app keeps its entry; a route whose policy does not
        parse costs its app the entry it had. */
    method ProxyFor(route: Route) returns (r: Option<Entry>)
      requires Valid() && Clean(route)
      modifies this`proxies
      ensures Valid() && proxies == ProxiesAfter(env, old(proxies), route)
      ensures r.Some? ==>
                && ProxyKey(env, route) in proxies && proxies[ProxyKey(env, route)] == r.value
                && ForApp(r.value, route.upstream, route.UpstreamName())
                && env.Hash(r.value.policy) == env.Hash(route.policy)
                && Enforces(env, r.value)
      ensures ProxyKey(env, route) in old(proxies) ==> proxies == old(proxies)
      ensures r.None? <==> ProxyKey(env, route) !in old(proxies) && !Buildable(env, route)
      ensures WithoutApp(proxies, route.upstream, route.UpstreamName())
              == WithoutApp(old(proxies), route.upstream, route.UpstreamName())
    {
      var key := ProxyKey(env, route);
      if key in proxies {
        HitIsThisApp(env, proxies, route.upstream, route.UpstreamName(), route.policy);
        return Some(proxies[key]);
      }
      ProxiesStayValid(env, proxies, route);
      PrefixSweepRemovesApp(env, proxies, route.upstream, route.UpstreamName());
      proxies := SweepPrefix(proxies, AppPrefix(route.upstream, route.UpstreamName()));
      if !Buildable(env, route) {
        return None;
      }
      proxies := proxies[key := NewProxy(env, route)];
      return Some(NewProxy(env, route));
    }

    method MuxPoolFor(route: Route) returns (p: Entry)
      requires Valid() && Clean(route)
      modifies this`muxPools
      ensures Valid() && muxPools == PoolsAfter(env, old(muxPools), route)
      ensures PoolKey(env, route) in old(muxPools) ==> muxPools == old(muxPools)
      ensures PoolKey(env, route) in muxPools && muxPools[PoolKey(env, route)] == p
      ensures ForApp(p, route.upstream, route.sni) && env.Hash(p.policy) == env.Hash(route.policy)
      ensures WithoutApp(muxPools, route.upstream, route.sni) == WithoutApp(old(muxPools), route.upstream, route.sni)
    {
      var key := PoolKey(env, route);
      if key in muxPools {
        HitIsThisApp(env, muxPools, route.upstream, route.sni, route.policy);
        return muxPools[key];
      }
      PoolsStayValid(env, muxPools, route);
      PrefixSweepRemovesApp(env, muxPools, route.upstream, route.sni);
      muxPools := SweepPrefix(muxPools, AppPrefix(route.upstream, route.sni));
      p := NewPool(env, route);
      muxPools := muxPools[key := p];
    }

    /** Drops the retired route's proxy by upstream name and its pool by SNI,
        and nothing of any other app. */
    method Forget(route: Route)
      requires Valid() && Clean(route)
      modifies this`proxies, this`muxPools
      ensures Valid()
      ensures proxies == WithoutApp(old(proxies), route.upstream, route.UpstreamName())
      ensures muxPools == WithoutApp(old(muxPools), route.upstream, route.sni)
    {
      PrefixSweepRemovesApp(env, proxies, route.upstream, route.UpstreamName());
      PrefixSweepRemovesApp(env, muxPools, route.upstream, route.sni);
      proxies := SweepPrefix(proxies, AppPrefix(route.upstream, route.UpstreamName()));
      muxPools := SweepPrefix(muxPools, AppPrefix(route.upstream, route.sni));
    }

    /** Handle up to a sealed WebSocket: the pool is asked for only after the
        proxy was obtained for the same route. With an injective policy hash
        the pool's empty-policy fallback is never taken: whatever pool serves
        the stream enforces this route's own parsed policy. */
    method ServeSealed(route: Route) returns (pool: Option<Entry>)
      requires Valid() && Clean(route)
      modifies this
      ensures Valid()
      ensures proxies == ProxiesAfter(env, old(proxies), route)
      ensures muxPools == if pool.Some? then PoolsAfter(env, old(muxPools), route) else old(muxPools)
      ensures pool.None? ==> !Buildable(env, route)
      ensures pool.Some? && env.Injective() ==>
                pool.value.policy == route.policy && Enforces(env, pool.value)
    {
      var rp := ProxyFor(route);
      if rp.None? {
        return None;
      }
      assert env.Injective() ==> rp.value.policy == route.policy;
      var p := MuxPoolFor(route);
      assert env.Injective() ==> p.policy == route.policy;
      assert BuiltRight(env, p);
      return Some(p);
    }
  }
}
