/** Which updates the cut protocol is safe under, and what forwarding implies
    about a run's past. */
module CutSafety {
  import opened Text
  import opened RouteTable
  import opened Tracker
  import opened CutProtocol
  import opened CutServing

  // ---- Safety of an update ----

  ghost predicate SafeOrPending(s: State)
  {
    forall c :: Dangerous(s, c) ==> s.conns[c].Host() in s.todo
  }

  /** No host enters the table quarantined. */
  ghost predicate NoSurprise(prev: RouteMap, next: RouteMap)
  {
    forall h :: StatusOf(next, h) == Quarantined ==> h in prev
  }

  lemma SwapKeepsPending(s: State, feed: seq<Route>)
    requires Inv(s) && s.todo == {} && Safe(s) && NoSurprise(s.table, FoldFeed(feed))
    ensures SafeOrPending(Next(s, Swap(feed)))
  {
    var s' := Next(s, Swap(feed));
    forall c | Dangerous(s', c)
      ensures s'.conns[c].Host() in s'.todo
    {
      assert !Dangerous(s, c);
    }
  }

  lemma RecheckIsNoDanger(s: State, c: nat)
    requires Inv(s) && Enabled(s, Recheck(c))
    ensures !Dangerous(Next(s, Recheck(c)), c)
  {
    assert ConnOk(s, s.conns[c]);
  }

  /** Only its own second lookup starts a connection forwarding. */
  lemma ForwarderWasThere(s: State, step: Step, c: nat)
    requires Enabled(s, step) && !step.Swap? && step != Recheck(c)
    requires c in Next(s, step).conns && Next(s, step).conns[c].pc.Forwarding?
    ensures c in s.conns && Next(s, step).conns[c] == s.conns[c]
    ensures Next(s, step).table == s.table
  {
  }

  lemma UncutWasUncut(s: State, step: Step, id: nat)
    requires Enabled(s, step) && !step.Swap?
    requires !FateOf(Next(s, step).events, id).CutDown?
    ensures !FateOf(s.events, id).CutDown?
    ensures step.CutNext? ==> FateOf(s.events, id) != Open(step.host)
  {
    var s' := Next(s, step);
    if s'.events != s.events {
      var e := s'.events[|s.events|];
      assert s'.events == s.events + [e];
      FateAppend(s.events, e, id);
    }
  }

  /** A step other than a swap makes no new danger: a connection dangerous
      after it was dangerous before. */
  lemma NoNewDanger(s: State, step: Step, c: nat)
    requires Inv(s) && Enabled(s, step) && !step.Swap? && Dangerous(Next(s, step), c)
    ensures Dangerous(s, c) && Next(s, step).conns[c] == s.conns[c]
    ensures step.CutNext? ==> s.conns[c].Host() != step.host
  {
    if step == Recheck(c) {
      RecheckIsNoDanger(s, c);
      assert false;
    } else {
      ForwarderWasThere(s, step, c);
      UncutWasUncut(s, step, s.conns[c].pc.id);
      assert IdOk(s.events, s.conns[c]);
    }
  }

  lemma StepKeepsPending(s: State, step: Step)
    requires Inv(s) && SafeOrPending(s) && Enabled(s, step) && !step.Swap?
    ensures SafeOrPending(Next(s, step))
  {
    var s' := Next(s, step);
    forall c | Dangerous(s', c)
      ensures s'.conns[c].Host() in s'.todo
    {
      NoNewDanger(s, step, c);
    }
  }

  /** Every run whose updates never bring a host in as quarantined: no uncut
      connection forwards for a quarantined host, except while the cut of that
      very host is still pending. */
  lemma {:induction false} NoSurpriseRunsAreSafe(terminator: bool, steps: seq<Step>)
    requires forall k :: 0 <= k < |steps| && steps[k].Swap?
                         ==> NoSurprise(After(Init(terminator), steps[..k]).table, FoldFeed(steps[k].feed))
    ensures SafeOrPending(After(Init(terminator), steps))
    ensures After(Init(terminator), steps).todo == {} ==> Safe(After(Init(terminator), steps))
  {
    if steps != [] {
      var n := |steps| - 1;
      var front, step := steps[..n], steps[n];
      forall k | 0 <= k < |front|
        ensures front[..k] == steps[..k]
      {
      }
      NoSurpriseRunsAreSafe(terminator, front);
      InvAlways(terminator, front);
      var s := After(Init(terminator), front);
      if Enabled(s, step) {
        if step.Swap? {
          SwapKeepsPending(s, step.feed);
        } else {
          StepKeepsPending(s, step);
        }
      }
    }
  }

  ghost predicate NoSwap(steps: seq<Step>)
  {
    forall k :: 0 <= k < |steps| ==> !steps[k].Swap?
  }

  lemma {:induction false} NoSwapKeepsPending(s: State, steps: seq<Step>)
    requires Inv(s) && SafeOrPending(s) && NoSwap(steps)
    ensures Inv(After(s, steps)) && SafeOrPending(After(s, steps))
  {
    if steps != [] {
      var n := |steps| - 1;
      NoSwapKeepsPending(s, steps[..n]);
      var t := After(s, steps[..n]);
      if Enabled(t, steps[n]) {
        NextKeepsInv(t, steps[n]);
        StepKeepsPending(t, steps[n]);
      }
    }
  }

  /** Replacing feed `f` by `g` keeps a quiescent safe gateway safe, whatever
      connections do meanwhile, once the update's cuts are through. */
  ghost predicate UpdateKeepsSafe(f: seq<Route>, g: seq<Route>)
  {
    forall terminator, before, during ::
      UpdateIsSafeHere(f, g, terminator, before, during)
  }

  ghost predicate UpdateIsSafeHere(f: seq<Route>, g: seq<Route>,
                                   terminator: bool, before: seq<Step>, during: seq<Step>)
  {
    var s := After(Init(terminator), before);
    s.table == FoldFeed(f) && s.todo == {} && Safe(s) && NoSwap(during) ==>
    var t := After(Next(s, Swap(g)), during);
    t.todo == {} ==> Safe(t)
  }

  /** The property holds of exactly the updates that bring no host in already
      quarantined: the hook does not fire for such a host, so a connection
      left over from before it went absent is never cut. */
  lemma UpdateSafeIffNoSurprise(f: seq<Route>, g: seq<Route>)
    ensures UpdateKeepsSafe(f, g) <==> NoSurprise(FoldFeed(f), FoldFeed(g))
  {
    if NoSurprise(FoldFeed(f), FoldFeed(g)) {
      forall terminator, before, during
        ensures UpdateIsSafeHere(f, g, terminator, before, during)
      {
        var s := After(Init(terminator), before);
        if s.table == FoldFeed(f) && s.todo == {} && Safe(s) && NoSwap(during) {
          InvAlways(terminator, before);
          SwapKeepsPending(s, g);
          NextKeepsInv(s, Swap(g));
          NoSwapKeepsPending(Next(s, Swap(g)), during);
        }
      }
    } else {
      var h :| StatusOf(FoldFeed(g), h) == Quarantined && h !in FoldFeed(f);
      var before, during := LeftoverRun(f, g, h);
      assert !UpdateIsSafeHere(f, g, false, before, during);
    }
  }

  // ---- The run that is not safe ----

  function LeftoverRoute(h: string): Route
  {
    Route(h, "10.0.0.1:443", "", "", "", "", false)
  }

  function Leftover(h: string, seen: seq<Status>): Conn
  {
    Conn(h, [RATLS_ALPN], Forwarding(LeftoverRoute(h), Kind.Splice, 1), seen, false)
  }

  /** A spliced connection opened while `h` is active, still forwarding after
      an update that dropped `h`. */
  lemma LeftoverState(f: seq<Route>, h: string) returns (steps: seq<Step>)
    requires ToLower(h) == h && h !in FoldFeed(f)
    ensures After(Init(false), steps) ==
            State(false, FoldFeed(f), {}, [Track(h, Kind.Splice)], map[0 := Leftover(h, [Active, Absent])])
  {
    steps := ServedRun(LeftoverRoute(h), h, [RATLS_ALPN], false, Kind.Splice);
    var s := After(Init(false), steps);
    AfterAppend(Init(false), steps, Swap(f));
    steps := steps + [Swap(f)];
    assert NewlyQuarantined(s.table, FoldFeed(f)) == {};
    assert Observe(Leftover(h, [Active]), FoldFeed(f)) == Leftover(h, [Active, Absent]);
  }

  lemma {:induction false} AfterCons(s: State, step: Step, steps: seq<Step>)
    ensures After(s, [step] + steps) == After(Do(s, step), steps)
  {
    if steps == [] {
      assert [step] + steps == [] + [step];
      AfterAppend(s, [], step);
    } else {
      var n := |steps| - 1;
      assert steps == steps[..n] + [steps[n]];
      assert [step] + steps == ([step] + steps[..n]) + [steps[n]];
      AfterAppend(s, [step] + steps[..n], steps[n]);
      AfterCons(s, step, steps[..n]);
    }
  }

  /** The updater alone can always finish its cuts, and cuts of other hosts
      leave an open id open. */
  lemma {:induction false} DrainCuts(s: State, h: string, id: nat) returns (steps: seq<Step>)
    requires h !in s.todo && FateOf(s.events, id) == Open(h)
    ensures NoSwap(steps)
    ensures var t := After(s, steps);
            && t.todo == {} && t.table == s.table && t.conns == s.conns
            && FateOf(t.events, id) == Open(h)
    decreases |s.todo|
  {
    if s.todo == {} {
      steps := [];
    } else {
      var x :| x in s.todo;
      FateAppend(s.events, Cut(x), id);
      var rest := DrainCuts(Next(s, CutNext(x)), h, id);
      AfterCons(s, CutNext(x), rest);
      steps := [CutNext(x)] + rest;
    }
  }

  /** The unsafe run: `h` active, a connection opened, `h` dropped, then `h`
      back as quarantined, and every cut done. */
  lemma LeftoverRun(f: seq<Route>, g: seq<Route>, h: string) returns (before: seq<Step>, during: seq<Step>)
    requires StatusOf(FoldFeed(g), h) == Quarantined && h !in FoldFeed(f)
    ensures var s := After(Init(false), before);
            && s.table == FoldFeed(f) && s.todo == {} && Safe(s) && NoSwap(during)
            && var t := After(Next(s, Swap(g)), during);
               t.todo == {} && !Safe(t)
  {
    LowerIdempotent(FoldFeed(g)[h].sni);
    before := LeftoverState(f, h);
    var s := After(Init(false), before);
    var s' := Next(s, Swap(g));
    FateAppend([], Track(h, Kind.Splice), 1);
    assert s.events == [] + [Track(h, Kind.Splice)];
    during := DrainCuts(s', h, 1);
    var t := After(s', during);
    assert t.conns[0].pc == Leftover(h, []).pc && t.conns[0].Host() == h;
    assert Dangerous(t, 0);
  }

  // ---- Forwarding implies tracked, then checked ----

  ghost predicate At(terminator: bool, steps: seq<Step>, m: nat, c: nat, pc: Pc)
    requires m <= |steps|
  {
    var s := After(Init(terminator), steps[..m]);
    c in s.conns && s.conns[c].pc == pc
  }

  /** Connection `c` entered the tracker at step `i` and has sat there as `pc`
      ever since. */
  ghost predicate TrackedSince(terminator: bool, steps: seq<Step>, c: nat, pc: Pc, i: nat)
  {
    && i < |steps| && steps[i] == Enter(c)
    && forall m :: i < m <= |steps| ==> At(terminator, steps, m, c, pc)
  }

  /** Connection `c` entered the tracker at step `i`, passed its second lookup
      at step `j` with its host not quarantined, and has forwarded under the
      same entry since. */
  ghost predicate CheckedSince(terminator: bool, steps: seq<Step>, c: nat, pc: Pc, i: nat, j: nat)
    requires pc.Forwarding?
  {
    && i < j < |steps| && steps[i] == Enter(c) && steps[j] == Recheck(c)
    && (forall m :: i < m <= j ==> At(terminator, steps, m, c, Tracked(pc.route, pc.kind, pc.id)))
    && (forall m :: j < m <= |steps| ==> At(terminator, steps, m, c, pc))
    && At(terminator, steps, j, c, Tracked(pc.route, pc.kind, pc.id))
    && var s := After(Init(terminator), steps[..j]);
       StatusOf(s.table, s.conns[c].Host()) != Quarantined
  }

  /** The only step that tracks a connection, and the only one that starts it
      forwarding. */
  lemma PcMoves(s: State, step: Step, c: nat)
    requires c in Do(s, step).conns
    ensures var pc := Do(s, step).conns[c].pc;
            && (pc.Tracked? ==> step == Enter(c) || (c in s.conns && s.conns[c].pc == pc))
            && (pc.Forwarding? ==>
                  || (c in s.conns && s.conns[c].pc == pc)
                  || (step == Recheck(c) && c in s.conns
                      && s.conns[c].pc == Tracked(pc.route, pc.kind, pc.id)
                      && !SeesQuarantine(s.table, s.conns[c])))
  {
  }

  lemma SameThroughout(terminator: bool, front: seq<Step>, steps: seq<Step>, c: nat, pc: Pc, from: nat, to: nat)
    requires front <= steps && to <= |front|
    requires forall m :: from < m <= to ==> At(terminator, front, m, c, pc)
    ensures forall m :: from < m <= to ==> At(terminator, steps, m, c, pc)
  {
    forall m | from < m <= to
      ensures At(terminator, steps, m, c, pc)
    {
      assert front[..m] == steps[..m];
      assert At(terminator, front, m, c, pc);
    }
  }

  lemma {:induction false} TrackedHasEntered(terminator: bool, steps: seq<Step>, c: nat, pc: Pc)
    requires At(terminator, steps, |steps|, c, pc) && pc.Tracked?
    ensures exists i: nat :: TrackedSince(terminator, steps, c, pc, i)
  {
    var n := |steps| - 1;
    assert steps[..|steps|] == steps;
    PcMoves(After(Init(terminator), steps[..n]), steps[n], c);
    if steps[n] == Enter(c) {
      assert TrackedSince(terminator, steps, c, pc, n);
    } else {
      assert steps[..n][..n] == steps[..n];
      TrackedHasEntered(terminator, steps[..n], c, pc);
      var i: nat :| TrackedSince(terminator, steps[..n], c, pc, i);
      SameThroughout(terminator, steps[..n], steps, c, pc, i, n);
      assert TrackedSince(terminator, steps, c, pc, i);
    }
  }

  /** In every run, a connection that forwards was tracked and then found its
      host not quarantined, in that order, under the entry it still holds. */
  lemma {:induction false} ForwardingWasTrackedThenChecked(terminator: bool, steps: seq<Step>, c: nat, pc: Pc)
    requires At(terminator, steps, |steps|, c, pc) && pc.Forwarding?
    ensures exists i: nat, j: nat :: CheckedSince(terminator, steps, c, pc, i, j)
  {
    var n := |steps| - 1;
    assert steps[..|steps|] == steps && steps[..n][..n] == steps[..n];
    PcMoves(After(Init(terminator), steps[..n]), steps[n], c);
    if At(terminator, steps[..n], n, c, pc) {
      ForwardingWasTrackedThenChecked(terminator, steps[..n], c, pc);
      var i: nat, j: nat :| CheckedSince(terminator, steps[..n], c, pc, i, j);
      StillChecked(terminator, steps[..n], steps, c, pc, i, j);
    } else {
      var was := Tracked(pc.route, pc.kind, pc.id);
      TrackedHasEntered(terminator, steps[..n], c, was);
      var i: nat :| TrackedSince(terminator, steps[..n], c, was, i);
      SameThroughout(terminator, steps[..n], steps, c, was, i, n);
      NotSeenNotQuarantined(terminator, steps[..n], c);
      assert CheckedSince(terminator, steps, c, pc, i, n);
    }
  }

  lemma StillChecked(terminator: bool, front: seq<Step>, steps: seq<Step>, c: nat, pc: Pc, i: nat, j: nat)
    requires front <= steps && |steps| == |front| + 1
    requires pc.Forwarding? && CheckedSince(terminator, front, c, pc, i, j)
    requires At(terminator, steps, |steps|, c, pc)
    ensures CheckedSince(terminator, steps, c, pc, i, j)
  {
    SameThroughout(terminator, front, steps, c, Tracked(pc.route, pc.kind, pc.id), i, j);
    SameThroughout(terminator, front, steps, c, pc, j, |front|);
    assert front[..j] == steps[..j];
  }

  lemma NotSeenNotQuarantined(terminator: bool, steps: seq<Step>, c: nat)
    requires var s := After(Init(terminator), steps);
             c in s.conns && s.conns[c].pc.Tracked? && !SeesQuarantine(s.table, s.conns[c])
    ensures var s := After(Init(terminator), steps);
            StatusOf(s.table, s.conns[c].Host()) != Quarantined
  {
    InvAlways(terminator, steps);
    LowerIdempotent(After(Init(terminator), steps).conns[c].name);
  }
}
