/** What the cut protocol lets through: every lookup goes on exactly when it
    may, every kind of traffic can be served, and the tracker holds an entry for
    each connection in flight and for nothing else. */
module CutServing {
  import opened Text
  import opened RouteTable
  import opened Tracker
  import opened CutProtocol

  /** The status of a name is the state of the feed's last entry for it. */
  lemma StatusIsLastState(feed: seq<Route>, name: string)
    ensures var status := StatusOf(FoldFeed(feed), ToLower(name));
            && (status == Absent <==> forall i :: 0 <= i < |feed| ==> !SameLetters(feed[i].sni, name))
            && (status == Quarantined <==> exists i :: LastFor(feed, name, i) && feed[i].state == "quarantined")
  {
    LookupFindsLastEntry(feed, name);
    forall i, j | LastFor(feed, name, i) && LastFor(feed, name, j)
      ensures i == j
    {
    }
  }

  /** A route an update does not retire goes on to the same place under the same
      name, is direct for the same clients and announces the same ones; a changed
      policy or state alone retires nothing. */
  lemma UnretiredIsServedAlike(prev: RouteMap, next: RouteMap, h: string, alpns: seq<string>)
    requires h in prev
    ensures !Retires(prev, next, h) ==>
              && h in next && next[h].upstream == prev[h].upstream && next[h].UpstreamName() == prev[h].UpstreamName()
              && (Direct(next[h], alpns) <==> Direct(prev[h], alpns))
              && (WantsHeader(next[h], alpns) <==> WantsHeader(prev[h], alpns))
    ensures h in next && next[h] == prev[h].(policy := next[h].policy, state := next[h].state) ==>
              !Retires(prev, next, h)
  {
  }

  /** A header is sent ahead of direct traffic only, when the route asks for it,
      and never through a tunnel. */
  lemma HeaderTable(r: Route, alpns: seq<string>)
    ensures WantsHeader(r, alpns) <==>
              && r.proxyProtocol && !(|r.upstream| >= 7 && r.upstream[..7] == "tunnel:")
              && (r.mode == "direct" || (r.mode == "direct-pending" && alpns == ["acme-tls/1"]))
  {
  }

  // ---- The three lookups ----

  /** The first lookup goes on for an active host whose route gives the client a
      transport, and takes that transport; anything else ends there. */
  lemma LookUpGoesOnIff(terminator: bool, steps: seq<Step>, c: nat)
    requires Enabled(After(Init(terminator), steps), LookUp(c))
    ensures var s := After(Init(terminator), steps);
            var h, pc := s.conns[c].Host(), Next(s, LookUp(c)).conns[c].pc;
            if StatusOf(s.table, h) == Active && Select(Some(s.table[h]), s.conns[c].alpns, s.terminator) != NotFound
            then pc == Routed(s.table[h], Select(Some(s.table[h]), s.conns[c].alpns, s.terminator) == Spliced)
            else pc == Closed
  {
  }

  /** What a connection on its way asks the live table is its own host. */
  lemma SeesItsHost(s: State, c: Conn)
    requires c.pc.Routed? || c.pc.Requested? || c.pc.Tracked?
    requires ConnOk(s, c)
    ensures SeesQuarantine(s.table, c) <==> StatusOf(s.table, c.Host()) == Quarantined
  {
  }

  /** In every reachable state a terminated request goes on exactly when its
      host is not quarantined. */
  lemma RequestGoesOnIff(terminator: bool, steps: seq<Step>, c: nat, kind: Kind)
    requires Enabled(After(Init(terminator), steps), Request(c, kind))
    ensures var s := After(Init(terminator), steps);
            Next(s, Request(c, kind)).conns[c].pc ==
            if StatusOf(s.table, s.conns[c].Host()) != Quarantined then Requested(s.conns[c].pc.route, kind) else Closed
  {
    InvAlways(terminator, steps);
    var s := After(Init(terminator), steps);
    SeesItsHost(s, s.conns[c]);
  }

  /** In every reachable state a tracked connection, of whatever kind, starts
      forwarding exactly when its host is not quarantined, and otherwise leaves. */
  lemma RecheckForwardsIff(terminator: bool, steps: seq<Step>, c: nat)
    requires Enabled(After(Init(terminator), steps), Recheck(c))
    ensures var s := After(Init(terminator), steps);
            var pc := s.conns[c].pc;
            Next(s, Recheck(c)).conns[c].pc ==
            if StatusOf(s.table, s.conns[c].Host()) != Quarantined then Forwarding(pc.route, pc.kind, pc.id)
            else Leaving(pc.id)
  {
    InvAlways(terminator, steps);
    var s := After(Init(terminator), steps);
    SeesItsHost(s, s.conns[c]);
  }

  // ---- The end of a connection ----

  /** A step of this connection's own. */
  predicate OwnStep(step: Step, c: nat)
  {
    match step
    case LookUp(d) => d == c
    case GiveUp(d) => d == c
    case Recheck(d) => d == c
    case Finish(d, _) => d == c
    case Leave(d) => d == c
    case _ => false
  }

  /** The connection is closed, and the entry it held is not open any more. */
  ghost predicate Ended(s: State, t: State, c: nat)
    requires c in s.conns
  {
    && c in t.conns && t.conns[c].pc.Closed?
    && (s.conns[c].HasId() ==> !FateOf(t.events, s.conns[c].pc.id).Open?)
  }

  /** From every state, by its own steps alone, a connection can end, and its
      tracker entry is then released or was cut. */
  lemma EveryConnectionCanEnd(s: State, c: nat) returns (steps: seq<Step>)
    requires c in s.conns
    ensures forall i :: 0 <= i < |steps| ==> OwnStep(steps[i], c)
    ensures Ended(s, After(s, steps), c)
  {
    if s.conns[c].pc.Closed? {
      steps := [];
    } else if s.conns[c].pc.Accepted? || s.conns[c].pc.Tracked? {
      steps := EndsInTwo(s, c);
    } else {
      var step := LastStep(s, c);
      OneOrTwo(s, step, step);
      steps := [step];
    }
  }

  lemma EndsInTwo(s: State, c: nat) returns (steps: seq<Step>)
    requires c in s.conns && (s.conns[c].pc.Accepted? || s.conns[c].pc.Tracked?)
    ensures forall i :: 0 <= i < |steps| ==> OwnStep(steps[i], c)
    ensures Ended(s, After(s, steps), c)
  {
    var first := if s.conns[c].pc.Accepted? then LookUp(c) else Recheck(c);
    FirstStep(s, c);
    var t := Do(s, first);
    if t.conns[c].pc.Closed? {
      OneOrTwo(s, first, first);
      steps := [first];
    } else {
      var last := LastStep(t, c);
      OneOrTwo(s, first, last);
      steps := [first, last];
    }
  }

  lemma OneOrTwo(s: State, a: Step, b: Step)
    ensures After(s, [a]) == Do(s, a) && After(s, [a, b]) == Do(Do(s, a), b)
  {
    assert [a][..0] == [] && [a, b][..1] == [a];
  }

  lemma FirstStep(s: State, c: nat)
    requires c in s.conns
    ensures s.conns[c].pc.Accepted? ==>
              var t := Do(s, LookUp(c));
              c in t.conns && (t.conns[c].pc.Routed? || t.conns[c].pc.Closed?)
    ensures s.conns[c].pc.Tracked? ==>
              var t := Do(s, Recheck(c));
              c in t.conns && (t.conns[c].pc.Forwarding? || t.conns[c].pc.Leaving?) && t.conns[c].pc.id == s.conns[c].pc.id
  {
  }

  lemma LastStep(s: State, c: nat) returns (step: Step)
    requires c in s.conns
    requires s.conns[c].pc.Routed? || s.conns[c].pc.Requested? || s.conns[c].pc.Forwarding? || s.conns[c].pc.Leaving?
    ensures OwnStep(step, c)
    ensures Ended(s, Do(s, step), c)
  {
    if s.conns[c].HasId() {
      ReleaseEnds(s.events, s.conns[c].pc.id);
      step := if s.conns[c].pc.Forwarding? then Finish(c, false) else Leave(c);
    } else {
      step := GiveUp(c);
    }
  }

  /** After an HTTP request, or an upgrade that was declined, the connection may
      go on to a request of any kind; a splice or a sealed stream is the last. */
  lemma RequestsFollow(s: State, c: nat)
    requires c in s.conns && s.conns[c].pc.Forwarding?
    ensures Enabled(s, Finish(c, false))
    ensures Enabled(s, Finish(c, true)) <==> s.conns[c].pc.kind == Http || s.conns[c].pc.kind == WebSocket
    ensures Enabled(s, Finish(c, true)) ==>
              forall kind :: Enabled(Next(s, Finish(c, true)), Request(c, kind)) <==> kind != Kind.Splice
  {
  }

  /** A request that ends leaves the connection open for the next one exactly
      when it goes on, under the route it was accepted with. */
  lemma FinishGoesOnIff(s: State, c: nat, again: bool)
    requires Enabled(s, Finish(c, again))
    ensures Next(s, Finish(c, again)).conns[c].pc == if again then Routed(s.conns[c].pc.route, false) else Closed
    ensures !FateOf(Next(s, Finish(c, again)).events, s.conns[c].pc.id).Open?
  {
    ReleaseEnds(s.events, s.conns[c].pc.id);
  }

  // ---- Every kind of traffic can be served ----

  lemma AfterAppend(s: State, steps: seq<Step>, step: Step)
    ensures After(s, steps + [step]) == Do(After(s, steps), step)
  {
    assert (steps + [step])[..|steps + [step]| - 1] == steps;
  }

  lemma Extend(s: State, steps: seq<Step>, step: Step) returns (more: seq<Step>)
    ensures After(s, more) == Do(After(s, steps), step) && more == steps + [step]
  {
    AfterAppend(s, steps, step);
    more := steps + [step];
  }

  /** A table with this one route in it, no traffic but this connection. */
  function Lone(terminator: bool, r: Route, events: seq<Event<string>>, c: Conn): State
  {
    State(terminator, map[r.Key() := r], {}, events, map[0 := c])
  }

  lemma LoneTable(terminator: bool, r: Route) returns (steps: seq<Step>)
    requires !r.Quarantined()
    ensures After(Init(terminator), steps) == State(terminator, map[r.Key() := r], {}, [], map[])
  {
    assert FoldFeed([r]) == map[r.Key() := r] by { assert [r][..0] == []; }
    assert NewlyQuarantined(map[], map[r.Key() := r]) == {};
    steps := Extend(Init(terminator), [], Swap([r]));
  }

  lemma AcceptedRun(terminator: bool, r: Route, name: string, alpns: seq<string>) returns (steps: seq<Step>)
    requires !r.Quarantined() && ToLower(name) == r.Key() && Select(Some(r), alpns, terminator) != NotFound
    ensures After(Init(terminator), steps) ==
            Lone(terminator, r, [], Conn(name, alpns, Routed(r, Select(Some(r), alpns, terminator) == Spliced), [], false))
  {
    steps := LoneTable(terminator, r);
    var s := After(Init(terminator), steps);
    steps := Extend(Init(terminator), steps, Accept(0, name, alpns));
    var c := Conn(name, alpns, Accepted, [], false);
    assert After(Init(terminator), steps) == s.(conns := map[0 := c]);
    steps := Extend(Init(terminator), steps, LookUp(0));
    assert LookupIn(s.table, name) == Some(r);
  }

  /** A terminated connection asks once more before it tracks. */
  lemma RequestedStep(terminator: bool, r: Route, name: string, alpns: seq<string>, kind: Kind)
    requires !r.Quarantined() && !kind.Splice?
    ensures Do(Lone(terminator, r, [], Conn(name, alpns, Routed(r, false), [], false)), Request(0, kind))
         == Lone(terminator, r, [], Conn(name, alpns, Requested(r, kind), [], false))
  {
    assert LookupIn(map[r.Key() := r], r.sni) == Some(r);
  }

  lemma EnterStep(terminator: bool, r: Route, c: Conn, kind: Kind)
    requires ToLower(c.name) == r.Key() && c.seen == [] && !c.cutEarly
    requires c.pc == if kind.Splice? then Routed(r, true) else Requested(r, kind)
    ensures Do(Lone(terminator, r, [], c), Enter(0))
         == Lone(terminator, r, [Track(r.Key(), kind)], c.(pc := Tracked(r, kind, 1)))
  {
    var e: Event<string> := Track(r.Key(), kind);
    assert [] + [e] == [e];
    assert TrackEvent(c) == e;
  }

  lemma RecheckStep(terminator: bool, r: Route, c: Conn, kind: Kind)
    requires !r.Quarantined() && ToLower(c.name) == r.Key() && c.pc == Tracked(r, kind, 1)
    ensures Do(Lone(terminator, r, [Track(r.Key(), kind)], c), Recheck(0))
         == Lone(terminator, r, [Track(r.Key(), kind)],
                 c.(pc := Forwarding(r, kind, 1), seen := [Active], cutEarly := false))
  {
    var e: Event<string> := Track(r.Key(), kind);
    assert FateOf([e], 1) == Open(r.Key()) by {
      NextIdIsFresh([], e);
      assert [] + [e] == [e];
    }
    assert !SeenQuarantined(map[r.Key() := r], r, c.name, kind.Splice?);
  }

  /** For every route that is not quarantined, whatever its mode, and every
      client its transport table lets through, by its name in any letter case:
      a run in which that client's traffic of each kind is tracked, forwarded
      and not cut. */
  lemma ServedRun(r: Route, name: string, alpns: seq<string>, terminator: bool, kind: Kind) returns (steps: seq<Step>)
    requires !r.Quarantined() && SameLetters(name, r.sni)
    requires Select(Some(r), alpns, terminator) == if kind.Splice? then Spliced else Terminate
    ensures After(Init(terminator), steps) ==
            Lone(terminator, r, [Track(r.Key(), kind)], Conn(name, alpns, Forwarding(r, kind, 1), [Active], false))
  {
    SameLettersIffLower(name, r.sni);
    steps := AcceptedRun(terminator, r, name, alpns);
    var c := Conn(name, alpns, Routed(r, kind.Splice?), [], false);
    if !kind.Splice? {
      RequestedStep(terminator, r, name, alpns, kind);
      steps := Extend(Init(terminator), steps, Request(0, kind));
      c := c.(pc := Requested(r, kind));
    }
    EnterStep(terminator, r, c, kind);
    steps := Extend(Init(terminator), steps, Enter(0));
    RecheckStep(terminator, r, c.(pc := Tracked(r, kind, 1)), kind);
    steps := Extend(Init(terminator), steps, Recheck(0));
  }

  // ---- The tracker holds what is in flight ----

  ghost predicate Held(s: State, id: nat)
  {
    exists c :: c in s.conns && s.conns[c].HasId() && s.conns[c].pc.id == id
  }

  ghost predicate NoLeak(s: State)
  {
    forall id: nat :: FateOf(s.events, id).Open? ==> Held(s, id)
  }

  /** Any step but the last of a connection's own keeps its id in its hands. */
  lemma HolderStays(s: State, step: Step, c: nat)
    requires Enabled(s, step) && c in s.conns && s.conns[c].HasId()
    requires step != Leave(c) && !(step.Finish? && step.c == c)
    ensures var t := Next(s, step);
            c in t.conns && t.conns[c].HasId() && t.conns[c].pc.id == s.conns[c].pc.id
  {
  }

  lemma ReleaseEnds(events: seq<Event<string>>, id: nat)
    ensures !FateOf(events + [Release(id)], id).Open?
  {
    FateAppend(events, Release(id), id);
  }

  lemma OpenWasOpen(s: State, step: Step, id: nat)
    requires Enabled(s, step) && FateOf(Next(s, step).events, id).Open?
    ensures FateOf(s.events, id).Open? || (step.Enter? && id == TracksIn(s.events) + 1)
  {
    var t := Next(s, step);
    if t.events != s.events {
      var e := t.events[|s.events|];
      assert t.events == s.events + [e];
      FateAppend(s.events, e, id);
    }
  }

  lemma StepKeepsNoLeak(s: State, step: Step, id: nat)
    requires Enabled(s, step) && NoLeak(s) && FateOf(Next(s, step).events, id).Open?
    ensures Held(Next(s, step), id)
  {
    OpenWasOpen(s, step, id);
    if !FateOf(s.events, id).Open? {
      assert Next(s, step).conns[step.c].pc.id == id;
    } else {
      var c :| c in s.conns && s.conns[c].HasId() && s.conns[c].pc.id == id;
      if step == Leave(c) || (step.Finish? && step.c == c) {
        ReleaseEnds(s.events, id);
        assert false;
      }
      HolderStays(s, step, c);
    }
  }

  lemma {:induction false} NeverLeaks(terminator: bool, steps: seq<Step>)
    ensures NoLeak(After(Init(terminator), steps))
  {
    if steps != [] {
      var front, step := steps[..|steps| - 1], steps[|steps| - 1];
      NeverLeaks(terminator, front);
      var s := After(Init(terminator), front);
      if Enabled(s, step) {
        forall id: nat | FateOf(Next(s, step).events, id).Open?
          ensures Held(Next(s, step), id)
        {
          StepKeepsNoLeak(s, step, id);
        }
      }
    }
  }

  /** Connection `c` is in flight for host `h` and has not been cut. */
  ghost predicate InFlight(s: State, c: nat, h: string)
  {
    c in s.conns && s.conns[c].HasId() && s.conns[c].Host() == h && !IsCut(s, s.conns[c])
  }

  /** In every reachable state the entries the tracker holds for a host are
      those of the host's uncut connections between Track and release, one
      each: nothing in flight escapes a cut, and nothing that has ended is
      left behind. */
  lemma EntriesAreInFlight(terminator: bool, steps: seq<Step>, h: string, id: nat)
    ensures var s := After(Init(terminator), steps);
            id in Entries(Run(s.events).hosts, h) <==> exists c :: InFlight(s, c, h) && s.conns[c].pc.id == id
    ensures var s := After(Init(terminator), steps);
            forall c, d :: InFlight(s, c, h) && InFlight(s, d, h) && s.conns[c].pc.id == s.conns[d].pc.id ==> c == d
  {
    var s := After(Init(terminator), steps);
    InvAlways(terminator, steps);
    NeverLeaks(terminator, steps);
    RunAccountsForEveryId(s.events, id);
    assert Holds(Run(s.events).hosts, h, id) <==> FateOf(s.events, id) == Open(h);
    if FateOf(s.events, id) == Open(h) {
      var c :| c in s.conns && s.conns[c].HasId() && s.conns[c].pc.id == id;
      assert IdOk(s.events, s.conns[c]);
      assert InFlight(s, c, h);
    }
    forall c | InFlight(s, c, h) && s.conns[c].pc.id == id
      ensures FateOf(s.events, id) == Open(h)
    {
      assert IdOk(s.events, s.conns[c]);
    }
  }
}
