/** The routing table: a feed of routes folded into a map keyed by lower-case
    SNI, swapped in whole, with hooks that run after the swap. */
module RouteTable {
  import opened Text

  const STATE_QUARANTINED := "quarantined"
  const MODE_DIRECT := "direct"
  const MODE_DIRECT_PENDING := "direct-pending"

  datatype Route = Route(
    sni: string,
    upstream: string,
    policy: string,
    state: string,
    canonical: string,
    mode: string,
    proxyProtocol: bool)
  {
    predicate IsDirect() { mode == MODE_DIRECT }

    predicate IsDirectPending() { mode == MODE_DIRECT_PENDING }

    predicate IsAlias() { canonical != "" && canonical != sni }

    function UpstreamName(): string { if IsAlias() then canonical else sni }

    predicate Quarantined() { state == STATE_QUARANTINED }

    function Key(): string { ToLower(sni) }
  }

  type RouteMap = map<string, Route>

  function LookupIn(table: RouteMap, sni: string): Option<Route>
  {
    if ToLower(sni) in table then Some(table[ToLower(sni)]) else None
  }

  /** Every entry is stored under its own lower-case name. */
  ghost predicate Keyed(table: RouteMap)
  {
    forall h :: h in table ==> table[h].Key() == h
  }

  /** What a feed means: each entry overwrites earlier ones for its name. */
  function FoldFeed(feed: seq<Route>): (m: RouteMap)
    ensures Keyed(m)
  {
    if feed == [] then map[]
    else
      var last := feed[|feed| - 1];
      FoldFeed(feed[..|feed| - 1])[last.Key() := last]
  }

  function CountQuarantined(feed: seq<Route>): nat
  {
    if feed == [] then 0
    else CountQuarantined(feed[..|feed| - 1]) + if feed[|feed| - 1].Quarantined() then 1 else 0
  }

  /** The count is of the feed's entries in that state. */
  lemma {:induction false} CountsQuarantinedEntries(feed: seq<Route>)
    ensures CountQuarantined(feed) == |set i | 0 <= i < |feed| && feed[i].state == "quarantined"|
  {
    var places := set i | 0 <= i < |feed| && feed[i].state == "quarantined";
    if feed != [] {
      var n := |feed| - 1;
      CountsQuarantinedEntries(feed[..n]);
      var before := set i | 0 <= i < n && feed[..n][i].state == "quarantined";
      assert places == before + if feed[n].state == "quarantined" then {n} else {};
    }
  }

  /** `i` is the last place the feed names `sni`, up to letter case. */
  ghost predicate LastFor(feed: seq<Route>, sni: string, i: int)
  {
    && 0 <= i < |feed|
    && SameLetters(feed[i].sni, sni)
    && forall j :: i < j < |feed| ==> !SameLetters(feed[j].sni, sni)
  }

  /** A lookup, in whatever letter case, finds the feed's last entry for the
      name, and nothing exactly when the feed never names it. */
  lemma {:induction false} LookupFindsLastEntry(feed: seq<Route>, sni: string)
    ensures LookupIn(FoldFeed(feed), sni).None? <==>
            forall i :: 0 <= i < |feed| ==> !SameLetters(feed[i].sni, sni)
    ensures LookupIn(FoldFeed(feed), sni).Some? ==>
              exists i :: LastFor(feed, sni, i) && feed[i] == LookupIn(FoldFeed(feed), sni).value
  {
    if feed != [] {
      var n := |feed| - 1;
      var front := feed[..n];
      LookupFindsLastEntry(front, sni);
      SameLettersIffLower(feed[n].sni, sni);
      if SameLetters(feed[n].sni, sni) {
        assert LastFor(feed, sni, n);
      } else if LookupIn(FoldFeed(front), sni).Some? {
        var i :| LastFor(front, sni, i) && front[i] == LookupIn(FoldFeed(front), sni).value;
        assert LastFor(feed, sni, i);
      }
    }
  }

  lemma {:induction false} LookupIgnoresCase(table: RouteMap, a: string, b: string)
    requires SameLetters(a, b)
    ensures LookupIn(table, a) == LookupIn(table, b)
  {
    SameLettersIffLower(a, b);
  }

  predicate TurnsQuarantined(prev: RouteMap, next: RouteMap, h: string)
    requires h in next
  {
    next[h].Quarantined() && h in prev && !prev[h].Quarantined()
  }

  /** The hosts whose open traffic an update from `prev` to `next` must cut. */
  function NewlyQuarantined(prev: RouteMap, next: RouteMap): set<string>
  {
    set h | h in next && TurnsQuarantined(prev, next, h)
  }

  predicate Retires(prev: RouteMap, next: RouteMap, h: string)
    requires h in prev
  {
    || h !in next
    || next[h].upstream != prev[h].upstream
    || next[h].UpstreamName() != prev[h].UpstreamName()
    || next[h].mode != prev[h].mode
    || next[h].proxyProtocol != prev[h].proxyProtocol
  }

  /** The old routes whose cached state an update makes stale. */
  function RetiredRoutes(prev: RouteMap, next: RouteMap): set<Route>
  {
    set h | h in prev && Retires(prev, next, h) :: prev[h]
  }

  /** The guard on the quarantine hook counts feed entries before duplicates
      collapse: it can be positive for nothing, never zero for something. */
  lemma {:induction false} QuarantineGuardSuppressesNothing(feed: seq<Route>, h: string)
    requires h in FoldFeed(feed) && FoldFeed(feed)[h].Quarantined()
    ensures CountQuarantined(feed) > 0
  {
    var n := |feed| - 1;
    if h != feed[n].Key() {
      QuarantineGuardSuppressesNothing(feed[..n], h);
    }
  }

  /** One call of a hook, with the table the hook would have read. */
  datatype HookCall<T> = HookCall(arg: T, seen: RouteMap)

  /** The calls hit every due argument, nothing else, none twice, and every
      one of them ran with `table` already in place. */
  ghost predicate FiresOnceEach<T(!new)>(calls: seq<HookCall<T>>, due: set<T>, table: RouteMap)
  {
    && (forall i :: 0 <= i < |calls| ==> calls[i].arg in due && calls[i].seen == table)
    && (forall i, j :: 0 <= i < j < |calls| ==> calls[i].arg != calls[j].arg)
    && (forall a :: a in due ==> exists i :: 0 <= i < |calls| && calls[i].arg == a)
  }

  lemma FiresOneMore<T(!new)>(calls: seq<HookCall<T>>, due: set<T>, table: RouteMap, a: T)
    requires FiresOnceEach(calls, due, table) && a !in due
    ensures FiresOnceEach(calls + [HookCall(a, table)], due + {a}, table)
  {
    var more := calls + [HookCall(a, table)];
    forall b | b in due + {a}
      ensures exists i :: 0 <= i < |more| && more[i].arg == b
    {
      if b == a {
        assert more[|calls|].arg == b;
      } else {
        var i :| 0 <= i < |calls| && calls[i].arg == b;
        assert more[i].arg == b;
      }
    }
  }

  /** The hosts of `seen` an update turns quarantined. */
  function DueAmong(prev: RouteMap, next: RouteMap, seen: set<string>): set<string>
  {
    set h | h in seen && h in next && TurnsQuarantined(prev, next, h)
  }

  /** The quarantine hook: ranges over the new table in the arbitrary order of a
      Go map and calls for each host that passes both tests. */
  method NotifyQuarantined(prev: RouteMap, next: RouteMap) returns (calls: seq<HookCall<string>>)
    ensures FiresOnceEach(calls, NewlyQuarantined(prev, next), next)
  {
    calls := [];
    var todo := next.Keys;
    while todo != {}
      invariant todo <= next.Keys
      invariant FiresOnceEach(calls, DueAmong(prev, next, next.Keys - todo), next)
      decreases |todo|
    {
      var host :| host in todo;
      ghost var done := next.Keys - todo;
      todo := todo - {host};
      assert next.Keys - todo == done + {host};
      DueGrows(prev, next, done, host);
      if next[host].Quarantined() && host in prev && !prev[host].Quarantined() {
        FiresOneMore(calls, DueAmong(prev, next, done), next, host);
        calls := calls + [HookCall(host, next)];
      }
    }
    assert next.Keys - todo == next.Keys;
    assert DueAmong(prev, next, next.Keys) == NewlyQuarantined(prev, next);
  }

  lemma DueGrows(prev: RouteMap, next: RouteMap, seen: set<string>, host: string)
    requires host in next && host !in seen
    ensures host !in DueAmong(prev, next, seen)
    ensures DueAmong(prev, next, seen + {host})
         == DueAmong(prev, next, seen) + if TurnsQuarantined(prev, next, host) then {host} else {}
  {
  }

  /** The old routes of `seen` an update retires. */
  function RetiredAmong(prev: RouteMap, next: RouteMap, seen: set<string>): set<Route>
  {
    set h | h in seen && h in prev && Retires(prev, next, h) :: prev[h]
  }

  /** The retire hook: ranges over the old table. */
  method NotifyRetired(prev: RouteMap, next: RouteMap) returns (calls: seq<HookCall<Route>>)
    requires Keyed(prev)
    ensures FiresOnceEach(calls, RetiredRoutes(prev, next), next)
  {
    calls := [];
    var todo := prev.Keys;
    while todo != {}
      invariant todo <= prev.Keys
      invariant FiresOnceEach(calls, RetiredAmong(prev, next, prev.Keys - todo), next)
      decreases |todo|
    {
      var host :| host in todo;
      ghost var done := prev.Keys - todo;
      todo := todo - {host};
      assert prev.Keys - todo == done + {host};
      RetiredStep(calls, prev, next, done, host);
      if Retires(prev, next, host) {
        calls := calls + [HookCall(prev[host], next)];
      }
    }
    assert prev.Keys - todo == prev.Keys;
    assert RetiredAmong(prev, next, prev.Keys) == RetiredRoutes(prev, next);
  }

  /** Different hosts hold different routes. */
  lemma RetiredGrows(prev: RouteMap, next: RouteMap, seen: set<string>, host: string)
    requires Keyed(prev) && host in prev && host !in seen
    ensures prev[host] !in RetiredAmong(prev, next, seen)
    ensures RetiredAmong(prev, next, seen + {host})
         == RetiredAmong(prev, next, seen) + if Retires(prev, next, host) then {prev[host]} else {}
  {
    forall h | h in seen && h in prev
      ensures prev[h] != prev[host]
    {
      assert prev[h].Key() == h && prev[host].Key() == host;
    }
    forall r | r in RetiredAmong(prev, next, seen)
      ensures r in RetiredAmong(prev, next, seen + {host})
    {
      var h :| h in seen && h in prev && Retires(prev, next, h) && prev[h] == r;
      assert h in seen + {host};
    }
    if Retires(prev, next, host) {
      assert host in seen + {host};
    }
  }

  lemma RetiredStep(calls: seq<HookCall<Route>>, prev: RouteMap, next: RouteMap, seen: set<string>, host: string)
    requires Keyed(prev) && host in prev && host !in seen
    requires FiresOnceEach(calls, RetiredAmong(prev, next, seen), next)
    ensures FiresOnceEach(if Retires(prev, next, host) then calls + [HookCall(prev[host], next)] else calls,
                          RetiredAmong(prev, next, seen + {host}), next)
  {
    var due := RetiredAmong(prev, next, seen);
    RetiredGrows(prev, next, seen, host);
    if Retires(prev, next, host) {
      FiresOneMore(calls, due, next, prev[host]);
    } else {
      assert due + {} == due;
    }
  }

  class Table {
    var routes: RouteMap
    var version: string
    var count: nat
    var quarantined: nat

    // Whether each hook is installed.
    var quarantineHook: bool
    var retiredHook: bool

    // The feed now in force.
    ghost var feed: seq<Route>

    ghost predicate Valid()
      reads this
    {
      && routes == FoldFeed(feed)
      && count == |feed|
      && quarantined == CountQuarantined(feed)
    }

    constructor ()
      ensures Valid() && routes == map[] && version == "" && feed == []
      ensures !quarantineHook && !retiredHook
    {
      routes, version, count, quarantined := map[], "", 0, 0;
      quarantineHook, retiredHook, feed := false, false, [];
    }

    method OnQuarantine()
      requires Valid()
      modifies this`quarantineHook
      ensures Valid() && quarantineHook
    {
      quarantineHook := true;
    }

    method OnRetired()
      requires Valid()
      modifies this`retiredHook
      ensures Valid() && retiredHook
    {
      retiredHook := true;
    }

    method Lookup(sni: string) returns (r: Option<Route>)
      requires Valid()
      ensures r == LookupIn(routes, sni)
      ensures r.None? <==> forall i :: 0 <= i < |feed| ==> !SameLetters(feed[i].sni, sni)
      ensures r.Some? ==> exists i :: LastFor(feed, sni, i) && feed[i] == r.value
    {
      var key := ToLower(sni);
      LookupFindsLastEntry(feed, sni);
      if key in routes {
        r := Some(routes[key]);
      } else {
        r := None;
      }
    }

    /** `cuts` and `retired` are the hook calls the update makes. */
    method Update(newFeed: seq<Route>, newVersion: string)
      returns (changed: bool, cuts: seq<HookCall<string>>, retired: seq<HookCall<Route>>)
      requires Valid()
      modifies this`routes, this`version, this`count, this`quarantined, this`feed
      ensures Valid()
      ensures changed <==> newVersion == "" || newVersion != old(version)
      ensures !changed ==> unchanged(this) && cuts == [] && retired == []
      ensures changed ==> feed == newFeed && version == newVersion
      ensures changed && quarantineHook ==> FiresOnceEach(cuts, NewlyQuarantined(old(routes), routes), routes)
      ensures changed && retiredHook ==> FiresOnceEach(retired, RetiredRoutes(old(routes), routes), routes)
      ensures !quarantineHook ==> cuts == []
      ensures !retiredHook ==> retired == []
    {
      cuts, retired := [], [];
      if version == newVersion && newVersion != "" {
        return false, [], [];
      }
      var m: RouteMap := map[];
      var q := 0;
      for i := 0 to |newFeed|
        invariant m == FoldFeed(newFeed[..i])
        invariant q == CountQuarantined(newFeed[..i])
      {
        var r := newFeed[i];
        assert newFeed[..i + 1][..i] == newFeed[..i];
        if r.Quarantined() {
          q := q + 1;
        }
        m := m[ToLower(r.sni) := r];
      }
      assert newFeed[..|newFeed|] == newFeed;
      var prev := routes;
      routes, version, count, quarantined := m, newVersion, |newFeed|, q;
      feed := newFeed;

      if quarantineHook && q > 0 {
        cuts := NotifyQuarantined(prev, routes);
      } else {
        NothingDue(prev, newFeed);
      }
      if retiredHook {
        retired := NotifyRetired(prev, routes);
      }
      changed := true;
    }
  }

  lemma NothingDue(prev: RouteMap, feed: seq<Route>)
    ensures CountQuarantined(feed) == 0 ==> NewlyQuarantined(prev, FoldFeed(feed)) == {}
  {
    forall h | h in NewlyQuarantined(prev, FoldFeed(feed))
      ensures CountQuarantined(feed) > 0
    {
      QuarantineGuardSuppressesNothing(feed, h);
    }
  }
}
