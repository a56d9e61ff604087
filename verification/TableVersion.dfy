/** The byte string a table version is the hash of: the routes sorted by SNI,
    one line each, fields separated by NUL. */
module TableVersion {
  import opened Text
  import opened RouteTable

  const NUL := '\0'
  const NEWLINE := '\n'

  /** The part of a route the version covers. */
  datatype Hashed = Hashed(sni: string, upstream: string, policy: string, state: string)

  function HashedPart(r: Route): Hashed { Hashed(r.sni, r.upstream, r.policy, r.state) }

  function HashedParts(routes: seq<Route>): (h: seq<Hashed>)
    ensures |h| == |routes|
  {
    if routes == [] then [] else [HashedPart(routes[0])] + HashedParts(routes[1..])
  }

  function Line(h: Hashed): string
  {
    h.sni + [NUL] + (h.upstream + [NUL] + Tail(h))
  }

  /** An empty state leaves no trace, so feeds without states keep their version. */
  function Tail(h: Hashed): string
  {
    if h.state == "" then h.policy else h.policy + [NUL] + h.state
  }

  function Preimage(routes: seq<Route>): string
  {
    if routes == [] then "" else Line(HashedPart(routes[0])) + [NEWLINE] + Preimage(routes[1..])
  }

  ghost predicate SortedBySni(routes: seq<Route>)
  {
    forall i, j :: 0 <= i < j < |routes| ==> !Less(routes[j].sni, routes[i].sni)
  }

  ghost predicate DistinctSnis(routes: seq<Route>)
  {
    forall i, j :: 0 <= i < j < |routes| ==> routes[i].sni != routes[j].sni
  }

  /** `i` names an entry no other entry precedes. */
  ghost predicate Minimal(routes: seq<Route>, i: int)
  {
    0 <= i < |routes| && forall j :: 0 <= j < |routes| ==> !Less(routes[j].sni, routes[i].sni)
  }

  method PickMinimal(routes: seq<Route>) returns (m: nat)
    requires routes != []
    ensures Minimal(routes, m)
  {
    m := 0;
    LessIsStrict(routes[0].sni, routes[0].sni);
    for i := 1 to |routes|
      invariant m < |routes|
      invariant forall j :: 0 <= j < i ==> !Less(routes[j].sni, routes[m].sni)
    {
      if Less(routes[i].sni, routes[m].sni) {
        forall j | 0 <= j < i + 1
          ensures !Less(routes[j].sni, routes[i].sni)
        {
          LessIsStrict(routes[i].sni, routes[m].sni);
          LessIsStrict(routes[i].sni, routes[i].sni);
          if j < i {
            LessTransitive(routes[i].sni, routes[m].sni, routes[j].sni);
          }
        }
        m := i;
      }
    }
  }

  /** Taking a minimal entry of `left` keeps the partition into what is
      already sorted and what is left. */
  lemma SortStep(sorted: seq<Route>, left: seq<Route>, m: int)
    requires SortedBySni(sorted) && Below(sorted, left) && Minimal(left, m)
    ensures var rest := left[..m] + left[m + 1..];
            SortedBySni(sorted + [left[m]]) && Below(sorted + [left[m]], rest)
  {
    var rest := left[..m] + left[m + 1..];
    assert forall j :: 0 <= j < |rest| ==> rest[j] == if j < m then left[j] else left[j + 1];
  }

  ghost predicate Below(low: seq<Route>, high: seq<Route>)
  {
    forall i, j :: 0 <= i < |low| && 0 <= j < |high| ==> !Less(high[j].sni, low[i].sni)
  }

  lemma TakenOut(left: seq<Route>, m: nat)
    requires m < |left|
    ensures multiset(left) == multiset(left[..m] + left[m + 1..]) + multiset{left[m]}
  {
    assert left == left[..m] + [left[m]] + left[m + 1..];
  }

  /** A copy of the feed sorted by SNI. Equal SNIs may come out in any order,
      as with an unstable sort: callers may rely on the contract only. */
  method SortBySni(feed: seq<Route>) returns (sorted: seq<Route>)
    ensures multiset(sorted) == multiset(feed) && SortedBySni(sorted)
  {
    sorted := [];
    var left := feed;
    while left != []
      invariant multiset(sorted) + multiset(left) == multiset(feed)
      invariant SortedBySni(sorted) && Below(sorted, left)
      decreases |left|
    {
      var m := PickMinimal(left);
      SortStep(sorted, left, m);
      TakenOut(left, m);
      sorted, left := sorted + [left[m]], left[..m] + left[m + 1..];
    }
  }

  /** One route as it is fed to the hash. */
  method WriteLine(r: Route) returns (line: string)
    ensures line == Line(HashedPart(r)) + [NEWLINE]
  {
    line := r.sni + [NUL] + r.upstream + [NUL] + r.policy;
    if r.state != "" {
      line := line + [NUL] + r.state;
    }
    assert line == Line(HashedPart(r));
    line := line + [NEWLINE];
  }

  lemma PreimageStep(pre: string, s: seq<Route>)
    requires s != []
    ensures pre + Preimage(s) == pre + (Line(HashedPart(s[0])) + [NEWLINE]) + Preimage(s[1..])
  {
  }

  /** The bytes hashed for a feed. */
  method ComputePreimage(feed: seq<Route>) returns (sorted: seq<Route>, pre: string)
    ensures multiset(sorted) == multiset(feed) && SortedBySni(sorted)
    ensures pre == Preimage(sorted)
  {
    sorted := SortBySni(feed);
    pre := WriteLines(sorted);
  }

  method WriteLines(sorted: seq<Route>) returns (pre: string)
    ensures pre == Preimage(sorted)
  {
    pre := "";
    for i := 0 to |sorted|
      invariant pre + Preimage(sorted[i..]) == Preimage(sorted)
    {
      PreimageStep(pre, sorted[i..]);
      assert sorted[i..][1..] == sorted[i + 1..];
      var line := WriteLine(sorted[i]);
      pre := pre + line;
    }
  }

  lemma SortedHead(s: seq<Route>, r: Route)
    requires SortedBySni(s) && r in s
    ensures !Less(r.sni, s[0].sni)
  {
    LessIsStrict(r.sni, r.sni);
  }

  /** With distinct SNIs the feed's order never shows: any two sorted copies
      of two orders of the same routes are the same list. */
  lemma {:induction false} VersionIndependentOfFeedOrder(s: seq<Route>, t: seq<Route>)
    requires multiset(s) == multiset(t)
    requires SortedBySni(s) && SortedBySni(t) && DistinctSnis(s)
    ensures s == t && Preimage(s) == Preimage(t)
  {
    assert |s| == |multiset(s)| == |multiset(t)| == |t|;
    if s != [] {
      HeadsAgree(s, t);
      TailsAgree(s, t);
      VersionIndependentOfFeedOrder(s[1..], t[1..]);
      assert s == [s[0]] + s[1..] && t == [t[0]] + t[1..];
    }
  }

  lemma HeadsAgree(s: seq<Route>, t: seq<Route>)
    requires s != [] && t != [] && multiset(s) == multiset(t)
    requires SortedBySni(s) && SortedBySni(t) && DistinctSnis(s)
    ensures s[0] == t[0]
  {
    assert s[0] in multiset(t) && t[0] in multiset(s);
    SortedHead(s, t[0]);
    SortedHead(t, s[0]);
    LessIsStrict(s[0].sni, t[0].sni);
    var j :| 0 <= j < |s| && s[j] == t[0];
  }

  lemma TailsAgree(s: seq<Route>, t: seq<Route>)
    requires s != [] && t != [] && multiset(s) == multiset(t) && s[0] == t[0]
    ensures multiset(s[1..]) == multiset(t[1..])
  {
    assert s == [s[0]] + s[1..] && t == [t[0]] + t[1..];
    assert multiset(s) == multiset{s[0]} + multiset(s[1..]);
    assert multiset(t) == multiset{t[0]} + multiset(t[1..]);
    assert multiset(s[1..]) == multiset(s) - multiset{s[0]};
    assert multiset(t[1..]) == multiset(t) - multiset{t[0]};
  }
}
