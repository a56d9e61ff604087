/** The quarantine cut protocol: one updater that swaps the table and then cuts
    host by host, against any number of connections that each look up, dial,
    track, look up again and forward. Every interleaving is a run. */
module CutProtocol {
  import opened Text
  import opened RouteTable
  import opened Tracker

  datatype Status = Absent | Active | Quarantined

  function StatusOf(table: RouteMap, host: string): Status
  {
    if host !in table then Absent else if table[host].Quarantined() then Quarantined else Active
  }

  // ---- Transport selection ----

  datatype Choice = NotFound | Terminate | Spliced

  const RATLS_ALPN := "privasys-ratls/1"
  const ACME_ALPN := "acme-tls/1"

  /** Spliced whatever else the client offers. */
  predicate Direct(r: Route, alpns: seq<string>)
  {
    r.IsDirect() || (r.IsDirectPending() && |alpns| == 1 && alpns[0] == ACME_ALPN)
  }

  /** Whether the backend is told the client's address first. */
  predicate WantsHeader(r: Route, alpns: seq<string>)
  {
    Direct(r, alpns) && r.proxyProtocol && !("tunnel:" <= r.upstream)
  }

  /** An adopter hostname is never terminated, and while its certificate is
      pending nothing but the ACME challenge gets through. */
  function Select(route: Option<Route>, alpns: seq<string>, terminator: bool): (c: Choice)
    ensures route.Some? && route.value.IsAlias() ==> c != Terminate
    ensures route.Some? && route.value.IsAlias() && route.value.IsDirectPending() && alpns != [ACME_ALPN]
            ==> c == NotFound
  {
    match route
    case None => NotFound
    case Some(r) =>
      if !Direct(r, alpns) && r.IsAlias() then NotFound
      else if !Direct(r, alpns) && RATLS_ALPN !in alpns && terminator then Terminate
      else Spliced
  }

  /** The whole table of transports, in the feed's own fields: what is spliced,
      what is terminated, and nothing else gets through. */
  lemma SelectTable(r: Route, alpns: seq<string>, terminator: bool)
    ensures var adopter := r.canonical != "" && r.canonical != r.sni;
            var direct := r.mode == "direct" || (r.mode == "direct-pending" && alpns == ["acme-tls/1"]);
            && (Select(Some(r), alpns, terminator) == Spliced <==>
                  direct || (!adopter && ("privasys-ratls/1" in alpns || !terminator)))
            && (Select(Some(r), alpns, terminator) == Terminate <==>
                  !direct && !adopter && "privasys-ratls/1" !in alpns && terminator)
    ensures Select(None, alpns, terminator) == NotFound
  {
  }

  // ---- The machine ----

  datatype Pc =
    | Accepted
    | Routed(route: Route, spliced: bool)
    | Requested(route: Route, kind: Kind)
    | Tracked(route: Route, kind: Kind, id: nat)
    | Forwarding(route: Route, kind: Kind, id: nat)
    | Leaving(id: nat)
    | Closed

  /** `seen` is the status of the host at the second lookup and after every
      swap since; `cutEarly` says the tracker cut it before that lookup. */
  datatype Conn = Conn(name: string, alpns: seq<string>, pc: Pc, seen: seq<Status>, cutEarly: bool)
  {
    function Host(): string { ToLower(name) }
    predicate HasId() { pc.Tracked? || pc.Forwarding? || pc.Leaving? }
  }

  /** `todo` holds the hosts the running update has still to cut, and
      `events` the tracker's history, which fixes its contents. */
  datatype State = State(
    terminator: bool,
    table: RouteMap,
    todo: set<string>,
    events: seq<Event<string>>,
    conns: map<nat, Conn>)

  datatype Step =
    | Swap(feed: seq<Route>)
    | CutNext(host: string)
    | Accept(c: nat, name: string, alpns: seq<string>)
    | LookUp(c: nat)
    | GiveUp(c: nat)
    | Request(c: nat, kind: Kind)
    | Enter(c: nat)
    | Recheck(c: nat)
    | Forward(c: nat)
    | Finish(c: nat, again: bool)
    | Leave(c: nat)

  function Init(terminator: bool): State
  {
    State(terminator, map[], {}, [], map[])
  }

  /** The check before a request and after tracking: spliced traffic asks the
      live table by name, terminated traffic its own route first. */
  predicate SeesQuarantine(table: RouteMap, c: Conn)
    requires c.pc.Routed? || c.pc.Requested? || c.pc.Tracked?
  {
    if c.pc.Routed? then SeenQuarantined(table, c.pc.route, c.name, c.pc.spliced)
    else SeenQuarantined(table, c.pc.route, c.name, c.pc.kind.Splice?)
  }

  predicate SeenQuarantined(table: RouteMap, route: Route, name: string, spliced: bool)
  {
    var live := LookupIn(table, if spliced then name else route.sni);
    (!spliced && route.Quarantined()) || (live.Some? && live.value.Quarantined())
  }

  predicate Enabled(s: State, step: Step)
  {
    match step
    case Swap(_) => s.todo == {}
    case CutNext(h) => h in s.todo
    case Accept(c, _, _) => c !in s.conns
    case LookUp(c) => c in s.conns && s.conns[c].pc.Accepted?
    case GiveUp(c) => c in s.conns && (s.conns[c].pc.Routed? || s.conns[c].pc.Requested?)
    case Request(c, kind) =>
      c in s.conns && s.conns[c].pc.Routed? && !s.conns[c].pc.spliced && !kind.Splice?
    case Enter(c) =>
      c in s.conns && (s.conns[c].pc.Requested? || (s.conns[c].pc.Routed? && s.conns[c].pc.spliced))
    case Recheck(c) => c in s.conns && s.conns[c].pc.Tracked?
    case Forward(c) => c in s.conns && s.conns[c].pc.Forwarding?
    case Finish(c, again) =>
      c in s.conns && s.conns[c].pc.Forwarding?
      && (again ==> s.conns[c].pc.kind.Http? || s.conns[c].pc.kind.WebSocket?)
    case Leave(c) => c in s.conns && s.conns[c].pc.Leaving?
  }

  function Observe(c: Conn, table: RouteMap): Conn
  {
    if c.pc.Forwarding? then c.(seen := c.seen + [StatusOf(table, c.Host())]) else c
  }

  function AfterLookUp(s: State, c: Conn): Conn
  {
    var found := LookupIn(s.table, c.name);
    var choice := Select(found, c.alpns, s.terminator);
    if choice == NotFound || found.None? || found.value.Quarantined() then c.(pc := Closed)
    else c.(pc := Routed(found.value, choice == Spliced))
  }

  function AfterRecheck(s: State, c: Conn): Conn
    requires c.pc.Tracked?
  {
    if SeesQuarantine(s.table, c) then c.(pc := Leaving(c.pc.id))
    else c.(pc := Forwarding(c.pc.route, c.pc.kind, c.pc.id),
            seen := [StatusOf(s.table, c.Host())],
            cutEarly := FateOf(s.events, c.pc.id).CutDown?)
  }

  function TrackEvent(c: Conn): Event<string>
    requires c.pc.Routed? || c.pc.Requested?
  {
    if c.pc.Routed? then Track(ToLower(c.name), Kind.Splice)
    else Track(ToLower(c.pc.route.sni), c.pc.kind)
  }

  function AfterEnter(c: Conn, id: nat): Conn
    requires c.pc.Routed? || c.pc.Requested?
  {
    c.(pc := Tracked(c.pc.route, if c.pc.Routed? then Kind.Splice else c.pc.kind, id))
  }

  function Next(s: State, step: Step): State
    requires Enabled(s, step)
  {
    match step
    case Swap(feed) =>
      var table := FoldFeed(feed);
      s.(table := table, todo := NewlyQuarantined(s.table, table),
         conns := map c | c in s.conns :: Observe(s.conns[c], table))
    case CutNext(h) =>
      s.(todo := s.todo - {h}, events := s.events + [Cut(h)])
    case Accept(c, name, alpns) =>
      s.(conns := s.conns[c := Conn(name, alpns, Accepted, [], false)])
    case LookUp(c) =>
      s.(conns := s.conns[c := AfterLookUp(s, s.conns[c])])
    case GiveUp(c) =>
      s.(conns := s.conns[c := s.conns[c].(pc := Closed)])
    case Request(c, kind) =>
      var conn := s.conns[c];
      s.(conns := s.conns[c := conn.(pc := if SeesQuarantine(s.table, conn) then Closed
                                           else Requested(conn.pc.route, kind))])
    case Enter(c) =>
      s.(events := s.events + [TrackEvent(s.conns[c])],
         conns := s.conns[c := AfterEnter(s.conns[c], TracksIn(s.events) + 1)])
    case Recheck(c) =>
      s.(conns := s.conns[c := AfterRecheck(s, s.conns[c])])
    case Forward(c) => s
    case Finish(c, again) =>
      var conn := s.conns[c];
      s.(events := s.events + [Release(conn.pc.id)],
         conns := s.conns[c := conn.(pc := if again then Routed(conn.pc.route, false) else Closed)])
    case Leave(c) =>
      s.(events := s.events + [Release(s.conns[c].pc.id)],
         conns := s.conns[c := s.conns[c].(pc := Closed)])
  }

  /** A step that is not enabled changes nothing, so every sequence of steps
      is a run. */
  function Do(s: State, step: Step): State
  {
    if Enabled(s, step) then Next(s, step) else s
  }

  function After(s: State, steps: seq<Step>): State
  {
    if steps == [] then s else Do(After(s, steps[..|steps| - 1]), steps[|steps| - 1])
  }

  /** The tracker has started this connection's close function. */
  ghost predicate IsCut(s: State, c: Conn)
    requires c.HasId()
  {
    FateOf(s.events, c.pc.id).CutDown?
  }

  ghost predicate Dangerous(s: State, c: nat)
  {
    c in s.conns && s.conns[c].pc.Forwarding? && !IsCut(s, s.conns[c])
    && StatusOf(s.table, s.conns[c].Host()) == Quarantined
  }

  /** No connection the tracker has not cut forwards for a quarantined host. */
  ghost predicate Safe(s: State)
  {
    forall c :: c in s.conns ==> !Dangerous(s, c)
  }

  /** The host went from active to quarantined while this was observed. */
  ghost predicate TurnedQuarantined(seen: seq<Status>)
  {
    exists i :: 0 <= i < |seen| - 1 && seen[i] == Active && seen[i + 1] == Quarantined
  }

  // ---- The invariant ----

  ghost predicate RouteOk(c: Conn, route: Route)
  {
    route.Key() == c.Host() && !route.Quarantined()
  }

  /** An id in use is open on the connection's host or has been cut there. */
  ghost predicate IdOk(events: seq<Event<string>>, c: Conn)
    requires c.HasId()
  {
    var f := FateOf(events, c.pc.id);
    f == Open(c.Host()) || f.CutDown?
  }

  /** What a forwarding connection has seen agrees with the table, and it is
      cut exactly when that, or a cut before its second lookup, called for it. */
  ghost predicate SeenOk(s: State, c: Conn)
    requires c.pc.Forwarding?
  {
    && |c.seen| >= 1 && c.seen[0] != Quarantined
    && c.seen[|c.seen| - 1] == StatusOf(s.table, c.Host())
    && (c.Host() in s.todo ==>
          |c.seen| >= 2 && c.seen[|c.seen| - 2] == Active && c.seen[|c.seen| - 1] == Quarantined)
    && (c.cutEarly ==> IsCut(s, c))
    && (IsCut(s, c) ==> c.cutEarly || TurnedQuarantined(c.seen))
    && (TurnedQuarantined(c.seen) && c.Host() !in s.todo ==> IsCut(s, c))
  }

  ghost predicate ConnOk(s: State, c: Conn)
  {
    && (c.pc.Routed? || c.pc.Requested? || c.pc.Tracked? || c.pc.Forwarding? ==> RouteOk(c, c.pc.route))
    && (c.HasId() ==> IdOk(s.events, c))
    && (c.pc.Forwarding? ==> SeenOk(s, c))
  }

  ghost predicate Inv(s: State)
  {
    && Keyed(s.table)
    && (forall h :: h in s.todo ==> StatusOf(s.table, h) == Quarantined)
    && (forall c :: c in s.conns ==> ConnOk(s, s.conns[c]))
    && (forall c, d :: c in s.conns && d in s.conns && c != d && s.conns[c].HasId() && s.conns[d].HasId()
                       ==> s.conns[c].pc.id != s.conns[d].pc.id)
  }

  lemma FateAppend(events: seq<Event<string>>, e: Event<string>, id: nat)
    ensures FateOf(events + [e], id) == FateStep(FateOf(events, id), e, TracksIn(events), id)
  {
    assert (events + [e])[..|events + [e]| - 1] == events;
  }

  lemma SwapKeepsConn(s: State, c: nat, feed: seq<Route>)
    requires Inv(s) && s.todo == {} && c in s.conns
    ensures ConnOk(Next(s, Swap(feed)), Observe(s.conns[c], FoldFeed(feed)))
  {
    var s', was, conn := Next(s, Swap(feed)), s.conns[c], Observe(s.conns[c], FoldFeed(feed));
    if was.pc.Forwarding? {
      var n := |was.seen|;
      assert conn.seen[n - 1] == was.seen[n - 1] == StatusOf(s.table, was.Host());
      assert conn.seen[n] == StatusOf(s'.table, was.Host());
      assert TurnedQuarantined(was.seen) ==> TurnedQuarantined(conn.seen) by {
        if TurnedQuarantined(was.seen) {
          var i :| 0 <= i < |was.seen| - 1 && was.seen[i] == Active && was.seen[i + 1] == Quarantined;
          assert conn.seen[i] == Active && conn.seen[i + 1] == Quarantined;
        }
      }
      if TurnedQuarantined(conn.seen) && conn.Host() !in s'.todo {
        var i :| 0 <= i < |conn.seen| - 1 && conn.seen[i] == Active && conn.seen[i + 1] == Quarantined;
        assert i < n - 1;
        assert was.seen[i] == Active && was.seen[i + 1] == Quarantined;
      }
    }
  }

  /** A tracker event about another id, or a cut of another host, leaves a
      connection's standing as it was. */
  lemma EventKeepsConn(s: State, c: Conn, e: Event<string>, todo: set<string>)
    requires ConnOk(s, c)
    requires e.Release? && c.HasId() ==> e.id != c.pc.id
    requires e.Cut? ==> e.host in s.todo && todo == s.todo - {e.host}
    requires !e.Cut? ==> todo == s.todo
    ensures ConnOk(s.(events := s.events + [e], todo := todo), c)
  {
    if c.HasId() {
      FateAppend(s.events, e, c.pc.id);
      if c.pc.Forwarding? && e.Cut? && e.host == c.Host() {
        var n := |c.seen|;
        assert c.seen[n - 2] == Active && c.seen[n - 2 + 1] == Quarantined;
      }
    }
  }

  /** The id the next Track hands out is nobody's, and opens on the host
      tracked. */
  lemma NextIdIsFresh(events: seq<Event<string>>, e: Event<string>)
    requires e.Track?
    ensures FateOf(events, TracksIn(events) + 1) == Unborn
    ensures FateOf(events + [e], TracksIn(events) + 1) == Open(e.host)
  {
    RunAccountsForEveryId(events, TracksIn(events) + 1);
    FateAppend(events, e, TracksIn(events) + 1);
  }

  lemma EnterKeeps(s: State, c: nat)
    requires Inv(s) && Enabled(s, Enter(c))
    ensures Inv(Next(s, Enter(c)))
  {
    var s', e, id := Next(s, Enter(c)), TrackEvent(s.conns[c]), TracksIn(s.events) + 1;
    NextIdIsFresh(s.events, e);
    assert ConnOk(s', s'.conns[c]);
    forall d | d in s.conns && d != c
      ensures ConnOk(s', s.conns[d])
      ensures s.conns[d].HasId() ==> s.conns[d].pc.id != id
    {
      var t := s.(events := s.events + [e], todo := s.todo);
      EventKeepsConn(s, s.conns[d], e, s.todo);
      SameView(t, s', s.conns[d]);
    }
  }

  /** A connection's standing does not depend on the other connections. */
  lemma SameView(s: State, t: State, c: Conn)
    requires s.events == t.events && s.table == t.table && s.todo == t.todo && ConnOk(s, c)
    ensures ConnOk(t, c)
  {
  }

  lemma ReleaseKeeps(s: State, c: nat, after: Conn)
    requires Inv(s) && c in s.conns && s.conns[c].HasId()
    requires !after.HasId() && ConnOk(s, after)
    ensures Inv(s.(events := s.events + [Release(s.conns[c].pc.id)], conns := s.conns[c := after]))
  {
    var e := Release(s.conns[c].pc.id);
    var s' := s.(events := s.events + [e], conns := s.conns[c := after]);
    forall d | d in s'.conns
      ensures ConnOk(s', s'.conns[d])
    {
      EventKeepsConn(s, s'.conns[d], e, s.todo);
    }
  }

  lemma RecheckKeeps(s: State, c: nat)
    requires Inv(s) && Enabled(s, Recheck(c))
    ensures Inv(Next(s, Recheck(c)))
  {
    var s', conn := Next(s, Recheck(c)), s.conns[c];
    LowerIdempotent(conn.name);
    LowerIdempotent(conn.pc.route.sni);
    assert SeesQuarantine(s.table, conn) <==> StatusOf(s.table, conn.Host()) == Quarantined;
    assert ConnOk(s', s'.conns[c]);
    forall d | d in s'.conns
      ensures ConnOk(s', s'.conns[d])
    {
    }
  }

  lemma SwapKeeps(s: State, feed: seq<Route>)
    requires Inv(s) && s.todo == {}
    ensures Inv(Next(s, Swap(feed)))
  {
    var s' := Next(s, Swap(feed));
    forall c | c in s'.conns
      ensures ConnOk(s', s'.conns[c])
    {
      SwapKeepsConn(s, c, feed);
    }
  }

  lemma CutKeeps(s: State, h: string)
    requires Inv(s) && h in s.todo
    ensures Inv(Next(s, CutNext(h)))
  {
    var s' := Next(s, CutNext(h));
    forall c | c in s'.conns
      ensures ConnOk(s', s'.conns[c])
    {
      EventKeepsConn(s, s.conns[c], Cut(h), s.todo - {h});
    }
  }

  /** Replacing a connection by one that holds no id. */
  lemma ReplaceKeeps(s: State, c: nat, after: Conn)
    requires Inv(s) && ConnOk(s, after) && !after.HasId()
    ensures Inv(s.(conns := s.conns[c := after]))
  {
    var s' := s.(conns := s.conns[c := after]);
    forall d | d in s'.conns
      ensures ConnOk(s', s'.conns[d])
    {
    }
  }

  lemma NextKeepsInv(s: State, step: Step)
    requires Inv(s) && Enabled(s, step)
    ensures Inv(Next(s, step))
  {
    match step
    case Swap(feed) => SwapKeeps(s, feed);
    case CutNext(h) => CutKeeps(s, h);
    case Accept(c, name, alpns) => ReplaceKeeps(s, c, Conn(name, alpns, Accepted, [], false));
    case LookUp(c) => ReplaceKeeps(s, c, AfterLookUp(s, s.conns[c]));
    case GiveUp(c) => ReplaceKeeps(s, c, s.conns[c].(pc := Closed));
    case Request(c, kind) => ReplaceKeeps(s, c, Next(s, step).conns[c]);
    case Enter(c) => EnterKeeps(s, c);
    case Recheck(c) => RecheckKeeps(s, c);
    case Forward(c) =>
    case Finish(c, again) => ReleaseKeeps(s, c, Next(s, step).conns[c]);
    case Leave(c) => ReleaseKeeps(s, c, s.conns[c].(pc := Closed));
  }

  lemma {:induction false} InvAlways(terminator: bool, steps: seq<Step>)
    ensures Inv(After(Init(terminator), steps))
  {
    if steps != [] {
      var front := steps[..|steps| - 1];
      InvAlways(terminator, front);
      var s := After(Init(terminator), front);
      if Enabled(s, steps[|steps| - 1]) {
        NextKeepsInv(s, steps[|steps| - 1]);
      }
    }
  }

  // ---- What every run keeps ----

  /** Exactly when a forwarding connection is cut: once the updater is done
      with its host, it has been cut if and only if the tracker cut it before
      its second lookup or its host has since gone from active to quarantined. */
  lemma CutExactlyWhenDue(terminator: bool, steps: seq<Step>, c: nat)
    requires var s := After(Init(terminator), steps);
             c in s.conns && s.conns[c].pc.Forwarding? && s.conns[c].Host() !in s.todo
    ensures var s := After(Init(terminator), steps);
            IsCut(s, s.conns[c]) <==> s.conns[c].cutEarly || TurnedQuarantined(s.conns[c].seen)
  {
    InvAlways(terminator, steps);
  }

  /** Ending quarantined without ever turning quarantined takes an absence. */
  lemma {:induction false} QuarantinedViaAbsent(seen: seq<Status>)
    requires |seen| >= 1 && seen[0] != Quarantined && seen[|seen| - 1] == Quarantined
    requires !TurnedQuarantined(seen)
    ensures Absent in seen
  {
    var n := |seen|;
    var i := n - 2;
    assert seen[i + 1] == Quarantined;
    if seen[i] == Quarantined {
      QuarantinedViaAbsent(seen[..n - 1]);
    }
  }

  /** Whenever no cut is pending, an uncut connection that forwards for a
      quarantined host has seen that host missing from the table. */
  lemma QuiescentDangerNeedsAbsence(terminator: bool, steps: seq<Step>, c: nat)
    requires var s := After(Init(terminator), steps); s.todo == {} && Dangerous(s, c)
    ensures Absent in After(Init(terminator), steps).conns[c].seen
  {
    InvAlways(terminator, steps);
    QuarantinedViaAbsent(After(Init(terminator), steps).conns[c].seen);
  }
}
