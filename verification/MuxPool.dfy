/** The pool of mux connections to one app: dialled lazily, pruned of dead
    members on every use, closed as a whole. */
module MuxPool {
  import opened Text
  import opened MuxConn

  const POOL_SIZE := 2

  /** The members not dead, in their order. */
  function Live(conns: seq<GwMuxConn>): (live: seq<GwMuxConn>)
    reads conns
    ensures |live| <= |conns|
    ensures forall c :: c in live ==> c in conns && !c.dead
    ensures forall c :: c in conns && !c.dead ==> c in live
  {
    if conns == [] then []
    else
      var front, last := conns[..|conns| - 1], conns[|conns| - 1];
      assert conns == front + [last];
      Live(front) + if last.dead then [] else [last]
  }

  /** No member carries fewer streams. */
  ghost predicate LeastLoaded(conns: seq<GwMuxConn>, best: GwMuxConn)
    reads conns
  {
    best in conns && forall c :: c in conns ==> |best.streams| <= |c.streams|
  }

  /** It stands at place `i`, and every earlier member carries more streams. */
  ghost predicate FirstOfItsLoad(conns: seq<GwMuxConn>, best: GwMuxConn, i: int)
    reads conns, best
  {
    0 <= i < |conns| && conns[i] == best && forall j :: 0 <= j < i ==> |best.streams| < |conns[j].streams|
  }

  ghost predicate AllBusy(conns: seq<GwMuxConn>)
    reads conns
  {
    forall c :: c in conns ==> |c.streams| > 0
  }

  class GwMuxPool {
    var conns: seq<GwMuxConn>

    ghost predicate Valid()
      reads this, conns
    {
      |conns| <= POOL_SIZE && forall c :: c in conns ==> c.Valid()
    }

    constructor ()
      ensures Valid() && conns == []
    {
      conns := [];
    }

    /** `dialled` is what a dial gives, if one is made. Hands out a live member
        with the fewest streams, or a new one when there is room and every live
        member is busy; fails only when nothing is live and the dial fails. */
    method Get(dialled: Option<GwMuxConn>) returns (r: Option<GwMuxConn>)
      requires Valid()
      requires dialled.Some? ==> dialled.value.Valid()
      modifies this`conns
      ensures Valid()
      ensures r.None? <==> dialled.None? && old(Live(conns)) == []
      ensures var live := old(Live(conns));
              if dialled.Some? && |live| < 2 && AllBusy(live)
              then r == dialled && conns == live + [dialled.value]
              else conns == live && (r.Some? ==> LeastLoaded(live, r.value) && exists i :: FirstOfItsLoad(live, r.value, i))
    {
      Prune();
      r := Best(conns);
      if |conns| < POOL_SIZE && (r.None? || |r.value.streams| > 0) && dialled.Some? {
        conns := conns + [dialled.value];
        r := dialled;
      }
    }

    /** The first of the members with the fewest streams. */
    static method Best(conns: seq<GwMuxConn>) returns (best: Option<GwMuxConn>)
      ensures best.None? <==> conns == []
      ensures best.Some? ==> LeastLoaded(conns, best.value)
      ensures best.Some? ==> exists i :: FirstOfItsLoad(conns, best.value, i)
      ensures AllBusy(conns) <==> best.None? || |best.value.streams| > 0
    {
      best := None;
      ghost var at := -1;
      for i := 0 to |conns|
        invariant best.None? <==> i == 0
        invariant best.Some? ==> LeastLoaded(conns[..i], best.value)
        invariant best.Some? ==> at < i && FirstOfItsLoad(conns, best.value, at)
      {
        assert conns[..i + 1] == conns[..i] + [conns[i]];
        if best.None? || |conns[i].streams| < |best.value.streams| {
          assert forall j :: 0 <= j < i ==> conns[j] in conns[..i];
          best, at := Some(conns[i]), i;
        }
      }
      assert conns[..|conns|] == conns;
    }

    /** Drops the dead members, keeping the order of the others. */
    method Prune()
      requires Valid()
      modifies this`conns
      ensures conns == old(Live(conns)) && Valid()
      ensures forall c :: c in conns ==> !c.dead && c in old(conns)
    {
      var live: seq<GwMuxConn> := [];
      for i := 0 to |conns|
        invariant conns == old(conns) && live == Live(conns[..i])
      {
        assert conns[..i + 1][..i] == conns[..i];
        if !conns[i].dead {
          live := live + [conns[i]];
        }
      }
      assert conns[..|conns|] == conns;
      conns := live;
    }

    /** Empties the pool and kills every member: each is dead, its table is
        empty, and every browser stream that rode a live one is finished. */
    method CloseAll()
      requires Valid()
      modifies this, conns, set c, st | c in conns && st in c.streams.Values :: st
      ensures Valid() && conns == []
      ensures forall c :: c in old(conns) ==> c.dead && (!old(c.dead) ==> c.streams == map[])
      ensures forall c, st :: c in old(conns) && !old(c.dead) && st in old(c.streams).Values ==> st.done
    {
      var all := conns;
      conns := [];
      for i := 0 to |all|
        invariant conns == []
        invariant forall j :: 0 <= j < i ==> all[j].dead
        invariant forall c :: c in all ==> c.Valid() && (old(c.dead) ==> c.dead)
        invariant forall c :: c in all && c.dead == old(c.dead) ==> c.streams == old(c.streams)
        invariant forall c :: c in all && c.dead && !old(c.dead) ==> c.streams == map[]
        invariant forall c, st :: c in all && c.dead && !old(c.dead) && st in old(c.streams).Values ==> st.done
      {
        all[i].Kill();
      }
    }
  }
}
