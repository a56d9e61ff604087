/** The quarantine tracker: open traffic per host, cut as a whole when the
    host turns quarantined. */
module Tracker {
  import opened Text

  datatype Kind = Splice | Http | WebSocket | SealedWS

  type Hosts<!H> = map<H, map<nat, Kind>>

  /** Everything the tracker's lock protects, the release closures handed out
      (`owners`, and `fired` for those whose once has run), and the close
      functions started so far. Hosts are in lower case. */
  datatype Ledger<!H> = Ledger(
    next: nat,
    hosts: Hosts<H>,
    owners: map<nat, H>,
    fired: set<nat>,
    closes: multiset<nat>)

  function Entries<H>(hosts: Hosts<H>, h: H): map<nat, Kind>
  {
    if h in hosts then hosts[h] else map[]
  }

  function WithoutEntry<H>(hosts: Hosts<H>, h: H, id: nat): Hosts<H>
  {
    if h !in hosts then hosts
    else if hosts[h] - {id} == map[] then hosts - {h}
    else hosts[h := hosts[h] - {id}]
  }

  function TrackOp<H>(l: Ledger<H>, h: H, kind: Kind): Ledger<H>
  {
    var id := l.next + 1;
    l.(next := id, hosts := l.hosts[h := Entries(l.hosts, h)[id := kind]], owners := l.owners[id := h])
  }

  function ReleaseOp<H>(l: Ledger<H>, id: nat): Ledger<H>
  {
    if id !in l.owners || id in l.fired then l
    else l.(fired := l.fired + {id}, hosts := WithoutEntry(l.hosts, l.owners[id], id))
  }

  function CutOp<H>(l: Ledger<H>, h: H): Ledger<H>
  {
    l.(hosts := l.hosts - {h}, closes := l.closes + multiset(Entries(l.hosts, h).Keys))
  }

  datatype Event<H> = Track(host: H, kind: Kind) | Release(id: nat) | Cut(host: H)

  function Apply<H>(l: Ledger<H>, e: Event<H>): Ledger<H>
  {
    match e
    case Track(h, kind) => TrackOp(l, h, kind)
    case Release(id) => ReleaseOp(l, id)
    case Cut(h) => CutOp(l, h)
  }

  function Run<H>(events: seq<Event<H>>): Ledger<H>
  {
    if events == [] then Ledger(0, map[], map[], {}, multiset{})
    else Apply(Run(events[..|events| - 1]), events[|events| - 1])
  }

  // ---- What a history means for one id, without the maps ----

  datatype Fate<H> = Unborn | Open(host: H) | Released | CutDown

  function TracksIn<H>(events: seq<Event<H>>): nat
  {
    if events == [] then 0
    else TracksIn(events[..|events| - 1]) + if events[|events| - 1].Track? then 1 else 0
  }

  /** The n-th Track opens id n; the first release of it or cut of its host
      after that decides its fate for good. */
  function FateStep<H(==)>(f: Fate<H>, e: Event<H>, tracked: nat, id: nat): Fate<H>
  {
    match f
    case Unborn => if e.Track? && tracked + 1 == id then Open(e.host) else Unborn
    case Open(h) =>
      if e.Release? && e.id == id then Released
      else if e.Cut? && e.host == h then CutDown
      else f
    case Released => f
    case CutDown => f
  }

  function FateOf<H(==)>(events: seq<Event<H>>, id: nat): Fate<H>
  {
    if events == [] then Unborn
    else
      var front := events[..|events| - 1];
      FateStep(FateOf(front, id), events[|events| - 1], TracksIn(front), id)
  }

  ghost predicate Holds<H>(hosts: Hosts<H>, h: H, id: nat)
  {
    h in hosts && id in hosts[h]
  }

  /** A ledger treats `id` as fate `f` says. */
  ghost predicate Agrees<H(!new)>(l: Ledger<H>, f: Fate<H>, id: nat)
  {
    && l.closes[id] == (if f.CutDown? then 1 else 0)
    && (id in l.owners <==> !f.Unborn?)
    && (f.Open? ==> l.owners[id] == f.host && id !in l.fired)
    && (f.Released? ==> id in l.fired)
    && (f.Unborn? ==> id !in l.fired)
    && (forall h :: Holds(l.hosts, h, id) <==> f == Open(h))
  }

  /** Conservation over every run: an id's close function has run once if its
      host was cut before it was released, and never otherwise; it is still in
      the tracker exactly while neither has happened. */
  lemma {:induction false} RunAccountsForEveryId<H(!new)>(events: seq<Event<H>>, id: nat)
    ensures Agrees(Run(events), FateOf(events, id), id)
    ensures FateOf(events, id) == Unborn <==> id == 0 || id > TracksIn(events)
  {
    if events != [] {
      var front := events[..|events| - 1];
      RunAccountsForEveryId(front, id);
      NextCountsTracks(front);
      EventKeeps(Run(front), FateOf(front, id), events[|events| - 1], id);
    }
  }

  lemma {:induction false} NextCountsTracks<H>(events: seq<Event<H>>)
    ensures Run(events).next == TracksIn(events)
  {
    if events != [] {
      NextCountsTracks(events[..|events| - 1]);
    }
  }

  ghost predicate NoEmptyMap<H(!new)>(hosts: Hosts<H>)
  {
    forall h :: h in hosts ==> hosts[h] != map[]
  }

  lemma {:induction false} NoHostKeepsAnEmptyMap<H(!new)>(events: seq<Event<H>>)
    ensures NoEmptyMap(Run(events).hosts)
  {
    if events != [] {
      var l, e := Run(events[..|events| - 1]), events[|events| - 1];
      NoHostKeepsAnEmptyMap(events[..|events| - 1]);
      if e.Track? {
        assert l.next + 1 in Entries(l.hosts, e.host)[l.next + 1 := e.kind];
      }
    }
  }

  /** The kind of the n-th Track. */
  function KindOf<H>(events: seq<Event<H>>, id: nat): Option<Kind>
  {
    if events == [] then None
    else
      var front, last := events[..|events| - 1], events[|events| - 1];
      if last.Track? && TracksIn(front) + 1 == id then Some(last.kind) else KindOf(front, id)
  }

  /** Every entry keeps the kind it was tracked with. */
  lemma {:induction false} EntriesKeepTheirKind<H(!new)>(events: seq<Event<H>>, h: H, id: nat)
    requires Holds(Run(events).hosts, h, id)
    ensures KindOf(events, id) == Some(Run(events).hosts[h][id])
  {
    var front, last := events[..|events| - 1], events[|events| - 1];
    var l := Run(front);
    NextCountsTracks(front);
    if last.Track? && l.next + 1 == id {
      RunAccountsForEveryId(front, id);
      assert !Holds(l.hosts, h, id);
      TrackHolds(l, last.host, last.kind, h, id);
    } else {
      if last.Track? {
        TrackHolds(l, last.host, last.kind, h, id);
      } else if last.Cut? {
        CutHolds(l, last.host, h, id);
      } else if last.id in l.owners && last.id !in l.fired {
        WithoutHolds(l.hosts, l.owners[last.id], last.id, h, id);
      }
      EntriesKeepTheirKind(front, h, id);
    }
  }

  lemma UnbornIsNotFired<H(!new)>(events: seq<Event<H>>, id: nat)
    requires id > TracksIn(events)
    ensures id !in Run(events).fired
  {
    RunAccountsForEveryId(events, id);
  }

  /** Where an id is held after a track, a release and a cut. */
  lemma TrackHolds<H>(l: Ledger<H>, g: H, kind: Kind, h: H, id: nat)
    ensures Holds(TrackOp(l, g, kind).hosts, h, id) <==>
            Holds(l.hosts, h, id) || (h == g && id == l.next + 1)
  {
    var hosts := l.hosts[g := Entries(l.hosts, g)[l.next + 1 := kind]];
    assert TrackOp(l, g, kind).hosts == hosts;
    assert h != g ==> (h in hosts <==> h in l.hosts);
  }

  lemma WithoutHolds<H>(hosts: Hosts<H>, g: H, r: nat, h: H, id: nat)
    ensures Holds(WithoutEntry(hosts, g, r), h, id) <==> Holds(hosts, h, id) && !(h == g && id == r)
  {
    if h == g && h in hosts {
      assert id in hosts[h] - {r} <==> id in hosts[h] && id != r;
    }
  }

  lemma CutHolds<H>(l: Ledger<H>, g: H, h: H, id: nat)
    ensures Holds(CutOp(l, g).hosts, h, id) <==> Holds(l.hosts, h, id) && h != g
    ensures CutOp(l, g).closes[id] == l.closes[id] + if Holds(l.hosts, g, id) then 1 else 0
  {
  }

  lemma TrackKeeps<H(!new)>(l: Ledger<H>, f: Fate<H>, g: H, kind: Kind, id: nat)
    requires Agrees(l, f, id)
    requires f == Unborn <==> id == 0 || id > l.next
    ensures Agrees(TrackOp(l, g, kind), FateStep(f, Event.Track(g, kind), l.next, id), id)
  {
    forall h
      ensures Holds(TrackOp(l, g, kind).hosts, h, id) <==> FateStep(f, Event.Track(g, kind), l.next, id) == Open(h)
    {
      TrackHolds(l, g, kind, h, id);
    }
  }

  lemma ReleaseKeeps<H(!new)>(l: Ledger<H>, f: Fate<H>, r: nat, id: nat)
    requires Agrees(l, f, id)
    ensures Agrees(ReleaseOp(l, r), FateStep(f, Event.Release(r), l.next, id), id)
  {
    if r in l.owners && r !in l.fired {
      forall h
        ensures Holds(ReleaseOp(l, r).hosts, h, id) <==> FateStep(f, Event.Release(r), l.next, id) == Open(h)
      {
        WithoutHolds(l.hosts, l.owners[r], r, h, id);
      }
    }
  }

  lemma CutKeeps<H(!new)>(l: Ledger<H>, f: Fate<H>, g: H, id: nat)
    requires Agrees(l, f, id)
    ensures Agrees(CutOp(l, g), FateStep(f, Event.Cut(g), l.next, id), id)
  {
    assert Holds(l.hosts, g, id) <==> f == Open(g);
    CutHolds(l, g, g, id);
    forall h
      ensures Holds(CutOp(l, g).hosts, h, id) <==> FateStep(f, Event.Cut(g), l.next, id) == Open(h)
    {
      CutHolds(l, g, h, id);
    }
  }

  lemma EventKeeps<H(!new)>(l: Ledger<H>, f: Fate<H>, e: Event<H>, id: nat)
    requires Agrees(l, f, id)
    requires f == Unborn <==> id == 0 || id > l.next
    ensures Agrees(Apply(l, e), FateStep(f, e, l.next, id), id)
  {
    match e
    case Track(g, kind) => TrackKeeps(l, f, g, kind, id);
    case Release(r) => ReleaseKeeps(l, f, r, id);
    case Cut(g) => CutKeeps(l, f, g, id);
  }

  /** The ids a history leaves open on a host. */
  ghost function OpenIds<H>(events: seq<Event<H>>, h: H): set<nat>
  {
    set id | 1 <= id <= TracksIn(events) && FateOf(events, id) == Open(h)
  }

  lemma EntriesAreOpenIds<H(!new)>(events: seq<Event<H>>, h: H)
    ensures Entries(Run(events).hosts, h).Keys == OpenIds(events, h)
  {
    forall id: nat
      ensures id in Entries(Run(events).hosts, h) <==> id in OpenIds(events, h)
    {
      RunAccountsForEveryId(events, id);
      assert Holds(Run(events).hosts, h, id) <==> FateOf(events, id) == Open(h);
    }
  }

  lemma RunAppend<H>(events: seq<Event<H>>, e: Event<H>)
    ensures Run(events + [e]) == Apply(Run(events), e)
    ensures TracksIn(events + [e]) == TracksIn(events) + if e.Track? then 1 else 0
  {
    assert (events + [e])[..|events + [e]| - 1] == events;
  }

  lemma NextIsFresh<H(!new)>(events: seq<Event<H>>)
    ensures Run(events).next == TracksIn(events)
    ensures Run(events).next + 1 !in Run(events).fired
  {
    assert Run(events).next == TracksIn(events) by {
      NextCountsTracks(events);
    }
    UnbornIsNotFired(events, TracksIn(events) + 1);
  }

  lemma TrackFacts<H(!new)>(events: seq<Event<H>>, h: H, kind: Kind)
    ensures Run(events + [Track(h, kind)]) == TrackOp(Run(events), h, kind)
    ensures Run(events).next + 1 == TracksIn(events + [Track(h, kind)])
    ensures Run(events).next + 1 !in Run(events).fired
  {
    var e: Event<H> := Track(h, kind);
    assert Run(events + [e]) == TrackOp(Run(events), h, kind) && TracksIn(events + [e]) == TracksIn(events) + 1 by {
      RunAppend(events, e);
    }
    NextIsFresh(events);
  }

  lemma CutFacts<H(!new)>(events: seq<Event<H>>, h: H)
    ensures Run(events + [Cut(h)]) == CutOp(Run(events), h)
  {
    RunAppend(events, Cut(h));
  }

  /** The closure Track returns. */
  class ReleaseHandle {
    const host: string
    const id: nat
    var done: bool

    constructor (host: string, id: nat)
      ensures this.host == host && this.id == id && !done
    {
      this.host, this.id, done := host, id, false;
    }
  }

  class Tracker {
    var next: nat
    var hosts: Hosts<string>
    var closes: seq<nat>
    ghost var owners: map<nat, string>
    ghost var fired: set<nat>
    ghost var events: seq<Event<string>>

    ghost function View(): Ledger<string>
      reads this
    {
      Ledger(next, hosts, owners, fired, multiset(closes))
    }

    /** The tracker is where its history leads. */
    ghost predicate Valid()
      reads this
    {
      View() == Run(events)
    }

    /** `release` came from this tracker and its once agrees with the history. */
    ghost predicate Issued(release: ReleaseHandle)
      reads this, release
    {
      && release.id in owners && owners[release.id] == release.host
      && (release.done <==> release.id in fired)
    }

    constructor ()
      ensures Valid() && events == []
    {
      next, hosts, closes := 0, map[], [];
      owners, fired, events := map[], {}, [];
    }

    method Track(host: string, kind: Kind) returns (release: ReleaseHandle)
      requires Valid()
      modifies this
      ensures Valid() && events == old(events) + [Event.Track(ToLower(host), kind)]
      ensures fresh(release) && Issued(release) && !release.done
      ensures release.id == TracksIn(events) && closes == old(closes)
    {
      var h := ToLower(host);
      var id := Insert(h, kind);
      release := new ReleaseHandle(h, id);
    }

    /** The part of Track that runs under the lock. */
    method Insert(h: string, kind: Kind) returns (id: nat)
      requires Valid()
      modifies this
      ensures Valid() && events == old(events) + [Event.Track(h, kind)]
      ensures id == TracksIn(events) && id !in fired && id in owners && owners[id] == h
      ensures closes == old(closes)
    {
      TrackFacts(events, h, kind);
      id := next + 1;
      next := id;
      hosts := hosts[h := Entries(hosts, h)[id := kind]];
      owners := owners[id := h];
      events := events + [Event.Track(h, kind)];
    }

    /** Running the closure, any number of times. */
    method Release(release: ReleaseHandle)
      requires Valid() && Issued(release)
      modifies this, release
      ensures Valid() && events == old(events) + [Event.Release(release.id)]
      ensures Issued(release) && release.done
      ensures closes == old(closes)
    {
      RunAppend(events, Event.Release(release.id));
      if !release.done {
        release.done := true;
        if release.host in hosts {
          var m := hosts[release.host] - {release.id};
          if m == map[] {
            hosts := hosts - {release.host};
          } else {
            hosts := hosts[release.host := m];
          }
        }
        fired := fired + {release.id};
      }
      events := events + [Event.Release(release.id)];
    }

    method Open(host: string) returns (n: nat)
      requires Valid()
      ensures n == |OpenIds(events, ToLower(host))|
    {
      EntriesAreOpenIds(events, ToLower(host));
      var m := Entries(hosts, ToLower(host));
      n := |m|;
      assert n == |m.Keys|;
    }

    /** Cuts exactly the ids still open, each once, and says how many. */
    method CutHost(host: string) returns (n: nat)
      requires Valid()
      modifies this
      ensures Valid() && events == old(events) + [Cut(ToLower(host))]
      ensures n == |OpenIds(old(events), ToLower(host))|
      ensures multiset(closes) == old(multiset(closes)) + multiset(OpenIds(old(events), ToLower(host)))
    {
      var ids := Drop(ToLower(host));
      CloseAll(ids);
      n := |ids|;
      CutFacts(old(events), ToLower(host));
    }

    /** The part of CutHost that runs under the lock: the entries go, and their
        ids are what is left to close. */
    method Drop(h: string) returns (ids: set<nat>)
      requires Valid()
      modifies this`hosts, this`events
      ensures ids == OpenIds(old(events), h) && events == old(events) + [Cut(h)]
      ensures View().(closes := multiset(closes) + multiset(ids)) == CutOp(Run(old(events)), h)
    {
      EntriesAreOpenIds(events, h);
      ids := Entries(hosts, h).Keys;
      hosts := hosts - {h};
      events := events + [Cut(h)];
    }

    /** Starts the close function of every id in the set, in any order. */
    method CloseAll(ids: set<nat>)
      modifies this`closes
      ensures multiset(closes) == old(multiset(closes)) + multiset(ids)
    {
      var todo := ids;
      while todo != {}
        invariant todo <= ids
        invariant multiset(closes) == old(multiset(closes)) + multiset(ids - todo)
        decreases |todo|
      {
        var id :| id in todo;
        assert ids - (todo - {id}) == ids - todo + {id};
        todo := todo - {id};
        closes := closes + [id];
      }
      assert ids - todo == ids;
    }
  }
}
