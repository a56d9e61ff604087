/** The registry of enclave tunnels: per enclave, the sessions it holds open. */
module TunnelRegistry {
  import opened Text

  /** A registered session of the enclave with id `enclave`. `id` is the entry's identity: its place in the
      history of registrations. */
  datatype Entry<H> = Entry(id: nat, enclave: H, sess: nat, at: int)

  /** The entries of one enclave that are registered and not unregistered, in
      order of registration. */
  function LiveOf<H(==)>(history: seq<Entry<H>>, gone: set<nat>, enclave: H): seq<Entry<H>>
  {
    if history == [] then []
    else
      var e := history[|history| - 1];
      LiveOf(history[..|history| - 1], gone, enclave)
      + if e.enclave == enclave && e.id !in gone then [e] else []
  }

  ghost predicate Numbered<H>(history: seq<Entry<H>>)
  {
    forall i :: 0 <= i < |history| ==> history[i].id == i
  }

  /** Ids grow along a list. */
  ghost predicate Ascending<H>(list: seq<Entry<H>>)
  {
    forall i, j :: 0 <= i < j < |list| ==> list[i].id < list[j].id
  }

  lemma {:induction false} LiveAreAscending<H(!new)>(history: seq<Entry<H>>, gone: set<nat>, enclave: H)
    requires Numbered(history)
    ensures Ascending(LiveOf(history, gone, enclave))
    ensures forall x :: x in LiveOf(history, gone, enclave) <==>
                        x in history && x.enclave == enclave && x.id !in gone
  {
    if history != [] {
      var n := |history| - 1;
      LiveAreAscending(history[..n], gone, enclave);
      assert history == history[..n] + [history[n]];
      assert forall x :: x in history[..n] ==> x.id < n;
    }
  }

  function DropId<H>(list: seq<Entry<H>>, id: nat): seq<Entry<H>>
  {
    if list == [] then []
    else
      var e := list[|list| - 1];
      DropId(list[..|list| - 1], id) + if e.id != id then [e] else []
  }

  lemma {:induction false} GoneDropsId<H(!new)>(history: seq<Entry<H>>, gone: set<nat>, enclave: H, id: nat)
    ensures LiveOf(history, gone + {id}, enclave) == DropId(LiveOf(history, gone, enclave), id)
  {
    if history != [] {
      var n := |history| - 1;
      GoneDropsId(history[..n], gone, enclave, id);
      var front := LiveOf(history[..n], gone, enclave);
      assert front + [] == front;
      assert DropId(front, id) + [] == DropId(front, id);
      if history[n].enclave == enclave && history[n].id !in gone {
        assert (front + [history[n]])[..|front|] == front;
      }
    }
  }

  lemma {:induction false} DropAbsent<H(!new)>(list: seq<Entry<H>>, id: nat)
    requires forall i :: 0 <= i < |list| ==> list[i].id != id
    ensures DropId(list, id) == list
  {
    if list != [] {
      DropAbsent(list[..|list| - 1], id);
    }
  }

  /** Cutting one element out of an ascending list is dropping its id. */
  lemma {:induction false} DropAt<H(!new)>(list: seq<Entry<H>>, i: nat)
    requires i < |list| && Ascending(list)
    ensures DropId(list, list[i].id) == list[..i] + list[i + 1..]
  {
    var n := |list| - 1;
    if i == n {
      DropAbsent(list[..n], list[i].id);
    } else {
      DropAt(list[..n], i);
      assert list[..i] + list[i + 1..] == (list[..n][..i] + list[..n][i + 1..]) + [list[n]];
    }
  }

  // ---- Counting over a map ----

  ghost function Total<K, V>(m: map<K, seq<V>>): nat
    decreases |m|
  {
    if m == map[] then 0
    else
      var k :| k in m;
      |m[k]| + Total(m - {k})
  }

  lemma {:induction false} TotalSplit<K, V>(m: map<K, seq<V>>, k: K)
    requires k in m
    ensures Total(m) == |m[k]| + Total(m - {k})
    decreases |m|
  {
    var j :| j in m && Total(m) == |m[j]| + Total(m - {j});
    if j != k {
      TotalSplit(m - {j}, k);
      TotalSplit(m - {k}, j);
      assert m - {j} - {k} == m - {k} - {j};
    }
  }

  lemma TotalSet<K, V>(m: map<K, seq<V>>, k: K, list: seq<V>)
    ensures Total(m[k := list]) == |list| + Total(m - {k})
    ensures k !in m ==> m - {k} == m
  {
    TotalSplit(m[k := list], k);
    assert m[k := list] - {k} == m - {k};
  }

  /** The map holds this enclave's live entries, or nothing when it has none. */
  ghost predicate GroupedAt<H>(sessions: map<H, seq<Entry<H>>>, history: seq<Entry<H>>, gone: set<nat>, enclave: H)
  {
    var live := LiveOf(history, gone, enclave);
    if enclave in sessions then live != [] && sessions[enclave] == live else live == []
  }

  ghost predicate Groups<H(!new)>(sessions: map<H, seq<Entry<H>>>, history: seq<Entry<H>>, gone: set<nat>)
  {
    forall e :: GroupedAt(sessions, history, gone, e)
  }

  lemma RegisterGroups<H(!new)>(sessions: map<H, seq<Entry<H>>>, history: seq<Entry<H>>, gone: set<nat>, e: Entry<H>)
    requires Groups(sessions, history, gone) && e.id !in gone
    ensures var list := if e.enclave in sessions then sessions[e.enclave] else [];
            Groups(sessions[e.enclave := list + [e]], history + [e], gone)
  {
    var list := if e.enclave in sessions then sessions[e.enclave] else [];
    var now := sessions[e.enclave := list + [e]];
    assert (history + [e])[..|history|] == history;
    forall x
      ensures GroupedAt(now, history + [e], gone, x)
    {
      assert GroupedAt(sessions, history, gone, x);
      assert LiveOf(history, gone, x) + [] == LiveOf(history, gone, x);
    }
  }

  lemma RegisterTotal<H(!new)>(sessions: map<H, seq<Entry<H>>>, e: Entry<H>)
    ensures var list := if e.enclave in sessions then sessions[e.enclave] else [];
            var now := sessions[e.enclave := list + [e]];
            Total(now) == Total(sessions) + 1 && Others(sessions, now, e.enclave)
  {
    var list := if e.enclave in sessions then sessions[e.enclave] else [];
    TotalSet(sessions, e.enclave, list + [e]);
    if e.enclave in sessions {
      TotalSplit(sessions, e.enclave);
    }
  }

  /** Nobody else in the list carries this entry's id. */
  ghost predicate OnlyHolder<H>(list: seq<Entry<H>>, e: Entry<H>)
  {
    forall x :: x in list && x.id == e.id ==> x == e
  }

  /** The two maps agree on every enclave but this one. */
  ghost predicate Others<H(!new)>(before: map<H, seq<Entry<H>>>, now: map<H, seq<Entry<H>>>, enclave: H)
  {
    before - {enclave} == now - {enclave}
  }

  lemma LiveHoldsOnce<H(!new)>(history: seq<Entry<H>>, gone: set<nat>, e: Entry<H>)
    requires Numbered(history) && e in history
    ensures Ascending(LiveOf(history, gone, e.enclave))
    ensures OnlyHolder(LiveOf(history, gone, e.enclave), e)
  {
    LiveAreAscending(history, gone, e.enclave);
  }

  lemma UnregisterGroups<H(!new)>(sessions: map<H, seq<Entry<H>>>, history: seq<Entry<H>>, gone: set<nat>,
                                  e: Entry<H>, rest: seq<Entry<H>>)
    requires Groups(sessions, history, gone) && Numbered(history) && e in history
    requires rest == DropId(LiveOf(history, gone, e.enclave), e.id)
    ensures Groups(if rest == [] then sessions - {e.enclave} else sessions[e.enclave := rest],
                   history, gone + {e.id})
  {
    var now := if rest == [] then sessions - {e.enclave} else sessions[e.enclave := rest];
    assert rest == LiveOf(history, gone + {e.id}, e.enclave) by {
      GoneDropsId(history, gone, e.enclave, e.id);
    }
    forall x
      ensures GroupedAt(now, history, gone + {e.id}, x)
    {
      assert GroupedAt(sessions, history, gone, x);
      if x != e.enclave {
        OthersKeep(history, gone, e, x);
      }
    }
  }

  /** The total drops by one when the entry was live, and stays otherwise. */
  lemma UnregisterTotal<H(!new)>(sessions: map<H, seq<Entry<H>>>, history: seq<Entry<H>>, gone: set<nat>,
                                 e: Entry<H>, rest: seq<Entry<H>>)
    requires Groups(sessions, history, gone) && Numbered(history) && e in history
    requires rest == DropId(LiveOf(history, gone, e.enclave), e.id)
    ensures Total(if rest == [] then sessions - {e.enclave} else sessions[e.enclave := rest])
         == Total(sessions) - if e.id in gone then 0 else 1
    ensures Others(sessions, if rest == [] then sessions - {e.enclave} else sessions[e.enclave := rest], e.enclave)
  {
    var list := LiveOf(history, gone, e.enclave);
    assert GroupedAt(sessions, history, gone, e.enclave);
    DropLength(history, gone, e);
    TotalSet(sessions, e.enclave, rest);
    if e.enclave in sessions {
      TotalSplit(sessions, e.enclave);
    } else {
      assert sessions - {e.enclave} == sessions;
    }
  }

  lemma DropLength<H(!new)>(history: seq<Entry<H>>, gone: set<nat>, e: Entry<H>)
    requires Numbered(history) && e in history
    ensures var list := LiveOf(history, gone, e.enclave);
            |DropId(list, e.id)| == |list| - if e.id in gone then 0 else 1
  {
    var list := LiveOf(history, gone, e.enclave);
    LiveAreAscending(history, gone, e.enclave);
    if e.id in gone {
      forall i | 0 <= i < |list|
        ensures list[i].id != e.id
      {
        assert list[i] in list;
      }
      DropAbsent(list, e.id);
    } else {
      var i :| 0 <= i < |list| && list[i] == e;
      DropAt(list, i);
    }
  }

  class Registry<H(==, !new)> {
    var sessions: map<H, seq<Entry<H>>>
    var active: int
    var issued: nat   // entries allocated so far: stands for pointer identity
    ghost var history: seq<Entry<H>>
    ghost var gone: set<nat>
    ghost var repeats: nat   // calls to an unregister function after its first

    /** The map groups the live entries by enclave, keeps no empty list, and the
        gauge counts them all, less one for each repeated unregister. */
    ghost predicate Valid()
      reads this
    {
      && Numbered(history) && issued == |history|
      && (forall x :: x in gone ==> x < |history|)
      && Groups(sessions, history, gone)
      && active == Total(sessions) - repeats
    }

    constructor ()
      ensures Valid() && history == [] && gone == {} && repeats == 0
    {
      sessions, active, issued := map[], 0, 0;
      history, gone, repeats := [], {}, 0;
    }

    method Register(enclave: H, sess: nat, at: int) returns (e: Entry<H>)
      requires Valid()
      modifies this
      ensures Valid()
      ensures e == Entry(|old(history)|, enclave, sess, at)
      ensures history == old(history) + [e] && gone == old(gone) && repeats == old(repeats)
      ensures active == old(active) + 1 && Others(old(sessions), sessions, enclave)
    {
      e := Entry(issued, enclave, sess, at);
      issued := issued + 1;
      RegisterGroups(sessions, history, gone, e);
      RegisterTotal(sessions, e);
      var list := if enclave in sessions then sessions[enclave] else [];
      sessions := sessions[enclave := list + [e]];
      active := active + 1;
      history := history + [e];
    }

    /** The function Register returned for `e`: takes out exactly that entry,
        and its enclave with it when it was the last. A repeated call changes no
        list, but still takes one off the gauge. */
    method Unregister(e: Entry<H>)
      requires Valid() && e in history
      modifies this
      ensures Valid()
      ensures history == old(history) && gone == old(gone) + {e.id} && active == old(active) - 1
      ensures repeats == old(repeats) + if e.id in old(gone) then 1 else 0
      ensures Others(old(sessions), sessions, e.enclave)
    {
      sessions := Removed(sessions, e, history, gone);
      active := active - 1;
      repeats := repeats + if e.id in gone then 1 else 0;
      gone := gone + {e.id};
    }

    /** The map with that entry taken out of its enclave's list. */
    static method Removed(sessions: map<H, seq<Entry<H>>>, e: Entry<H>,
                          ghost history: seq<Entry<H>>, ghost gone: set<nat>)
      returns (now: map<H, seq<Entry<H>>>)
      requires Groups(sessions, history, gone) && Numbered(history) && e in history
      ensures Groups(now, history, gone + {e.id})
      ensures Total(now) == Total(sessions) - if e.id in gone then 0 else 1
      ensures Others(sessions, now, e.enclave)
    {
      var list := if e.enclave in sessions then sessions[e.enclave] else [];
      assert GroupedAt(sessions, history, gone, e.enclave);
      LiveHoldsOnce(history, gone, e);
      var rest := Without(list, e);
      UnregisterGroups(sessions, history, gone, e, rest);
      UnregisterTotal(sessions, history, gone, e, rest);
      now := if rest == [] then sessions - {e.enclave} else sessions[e.enclave := rest];
    }

    /** The list without that entry, wherever it stands in it. */
    static method Without(list: seq<Entry<H>>, e: Entry<H>) returns (rest: seq<Entry<H>>)
      requires Ascending(list) && OnlyHolder(list, e)
      ensures rest == DropId(list, e.id)
    {
      rest := list;
      for i := 0 to |list|
        invariant rest == list
        invariant forall j :: 0 <= j < i ==> list[j].id != e.id
      {
        if list[i] == e {
          DropAt(list, i);
          return list[..i] + list[i + 1..];
        }
        assert list[i] in list;
      }
      DropAbsent(list, e.id);
    }

    /** The number of enclaves with a live entry. */
    method Connected() returns (n: nat)
      requires Valid()
      ensures exists es: set<H> :: n == |es| && forall e :: e in es <==> LiveOf(history, gone, e) != []
    {
      n := |sessions|;
      assert n == |sessions.Keys|;
      assert forall e :: GroupedAt(sessions, history, gone, e) ==> (e in sessions.Keys <==> LiveOf(history, gone, e) != []);
    }

    /** The newest session of the enclave that is not closed, the earliest
        registered among equally new ones; nothing when all are closed. */
    method Pick(enclave: H, closed: set<nat>) returns (r: Option<nat>)
      requires Valid()
      ensures r.None? <==> forall x :: x in LiveOf(history, gone, enclave) ==> x.sess in closed
      ensures r.Some? ==> exists i :: NewestOpen(LiveOf(history, gone, enclave), closed, i)
                                      && LiveOf(history, gone, enclave)[i].sess == r.value
    {
      var list := if enclave in sessions then sessions[enclave] else [];
      assert GroupedAt(sessions, history, gone, enclave);
      r := Newest(list, closed);
    }

    static method Newest(list: seq<Entry<H>>, closed: set<nat>) returns (r: Option<nat>)
      ensures r.None? <==> forall x :: x in list ==> x.sess in closed
      ensures r.Some? ==> exists i :: NewestOpen(list, closed, i) && list[i].sess == r.value
    {
      var best := -1;
      for k := 0 to |list|
        invariant -1 <= best < k
        invariant best == -1 ==> forall j :: 0 <= j < k ==> list[j].sess in closed
        invariant best >= 0 ==> NewestOpen(list[..k], closed, best)
      {
        if list[k].sess !in closed && (best == -1 || list[k].at > list[best].at) {
          best := k;
        }
      }
      assert list[..|list|] == list;
      if best == -1 {
        return None;
      }
      assert list[best] in list;
      return Some(list[best].sess);
    }
  }

  /** Entry `i` is open, no open entry is newer, and earlier ones are older. */
  ghost predicate NewestOpen<H>(list: seq<Entry<H>>, closed: set<nat>, i: int)
  {
    && 0 <= i < |list| && list[i].sess !in closed
    && (forall j :: 0 <= j < |list| && list[j].sess !in closed ==> list[j].at <= list[i].at)
    && (forall j :: 0 <= j < i && list[j].sess !in closed ==> list[j].at < list[i].at)
  }

  lemma {:induction false} OthersKeepOne<H(!new)>(history: seq<Entry<H>>, gone: set<nat>, e: Entry<H>, enclave: H)
    requires forall x :: x in history && x.id == e.id ==> x.enclave != enclave
    ensures LiveOf(history, gone + {e.id}, enclave) == LiveOf(history, gone, enclave)
  {
    if history != [] {
      var n := |history| - 1;
      assert history[n] in history;
      OthersKeepOne(history[..n], gone, e, enclave);
    }
  }

  /** Unregistering an entry leaves every other enclave's list alone. */
  lemma OthersKeep<H(!new)>(history: seq<Entry<H>>, gone: set<nat>, e: Entry<H>, enclave: H)
    requires Numbered(history) && e in history && enclave != e.enclave
    ensures LiveOf(history, gone + {e.id}, enclave) == LiveOf(history, gone, enclave)
  {
    assert forall x :: x in history && x.id == e.id ==> x == e;
    OthersKeepOne(history, gone, e, enclave);
  }
}
