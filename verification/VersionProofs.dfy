/** What the hashed bytes of a table version tell apart. Feeds are decoded from
    JSON: an SNI, upstream or state may hold any character, a policy is a JSON
    document kept as it was written, newlines between its tokens included. */
module VersionProofs {
  import opened Text
  import opened RouteTable
  import opened TableVersion

  // ---- Reading a line back ----

  lemma NulMeansMore(s: seq<Route>)
    ensures s != [] ==> Preimage(s) == s[0].sni + [NUL] + AfterSni(s)
    ensures s == [] ==> NUL !in Preimage(s)
  {
  }

  /** What follows the first SNI and its NUL. */
  function AfterSni(s: seq<Route>): string
    requires s != []
  {
    s[0].upstream + [NUL] + (Tail(HashedPart(s[0])) + [NEWLINE] + Preimage(s[1..]))
  }

  /** SNI and upstream end at the first two NULs. */
  lemma FirstFields(s: seq<Route>, t: seq<Route>)
    requires s != [] && t != [] && Preimage(s) == Preimage(t)
    requires NUL !in s[0].sni && NUL !in t[0].sni && NUL !in s[0].upstream && NUL !in t[0].upstream
    ensures s[0].sni == t[0].sni && s[0].upstream == t[0].upstream
    ensures Tail(HashedPart(s[0])) + [NEWLINE] + Preimage(s[1..]) == Tail(HashedPart(t[0])) + [NEWLINE] + Preimage(t[1..])
  {
    NulMeansMore(s);
    NulMeansMore(t);
    SplitUnique(s[0].sni, t[0].sni, AfterSni(s), AfterSni(t), NUL);
    SplitUnique(s[0].upstream, t[0].upstream,
                Tail(HashedPart(s[0])) + [NEWLINE] + Preimage(s[1..]),
                Tail(HashedPart(t[0])) + [NEWLINE] + Preimage(t[1..]), NUL);
  }

  ghost predicate PlainSnis(s: seq<Route>)
  {
    forall i :: 0 <= i < |s| ==> NUL !in s[i].sni && NEWLINE !in s[i].sni
  }

  /** A text without NUL, even with newlines of its own, ends at the last
      newline before the next SNI. */
  lemma TextThenLines(p: string, s: seq<Route>, q: string, t: seq<Route>)
    requires NUL !in p && NUL !in q && PlainSnis(s) && PlainSnis(t)
    requires p + [NEWLINE] + Preimage(s) == q + [NEWLINE] + Preimage(t)
    ensures p == q && Preimage(s) == Preimage(t)
  {
    NulMeansMore(s);
    NulMeansMore(t);
    NulMeansRoute(p, s);
    NulMeansRoute(q, t);
    if s != [] && t != [] {
      TextThenSni(p, s[0].sni, AfterSni(s), q, t[0].sni, AfterSni(t));
    } else {
      SplitLastUnique(p, q, Preimage(s), Preimage(t), NEWLINE);
    }
  }

  lemma TextThenSni(p: string, a: string, x: string, q: string, b: string, y: string)
    requires NUL !in p && NUL !in q && NUL !in a && NUL !in b && NEWLINE !in a && NEWLINE !in b
    requires p + [NEWLINE] + (a + [NUL] + x) == q + [NEWLINE] + (b + [NUL] + y)
    ensures p == q && a == b && x == y
  {
    var g, h := p + [NEWLINE] + a, q + [NEWLINE] + b;
    assert p + [NEWLINE] + (a + [NUL] + x) == g + [NUL] + x;
    assert q + [NEWLINE] + (b + [NUL] + y) == h + [NUL] + y;
    SplitUnique(g, h, x, y, NUL);
    SplitLastUnique(p, q, a, b, NEWLINE);
  }

  lemma NulMeansRoute(p: string, s: seq<Route>)
    requires NUL !in p
    ensures NUL in p + [NEWLINE] + Preimage(s) <==> s != []
  {
    NulMeansMore(s);
    if s != [] {
      assert (p + [NEWLINE] + Preimage(s))[|p| + 1 + |s[0].sni|] == NUL;
    }
  }

  function AfterPolicy(r: Route, rest: string): string
  {
    if r.state == "" then [NEWLINE] + rest else [NUL] + (r.state + [NEWLINE] + rest)
  }

  lemma SplitPolicy(r: Route, rest: string)
    ensures Tail(HashedPart(r)) + [NEWLINE] + rest == r.policy + AfterPolicy(r, rest)
    ensures r.state == "" ==> r.policy + AfterPolicy(r, rest) == r.policy + [NEWLINE] + rest
    ensures r.state != "" ==>
              r.policy + AfterPolicy(r, rest) == r.policy + [NUL] + (r.state + [NEWLINE] + rest)
  {
  }

  // ---- Any policy text ----

  /** No NUL anywhere, no newline in SNI or upstream. */
  ghost predicate Clean(r: Route)
  {
    && NUL !in r.sni && NUL !in r.upstream && NUL !in r.policy && NUL !in r.state
    && NEWLINE !in r.sni && NEWLINE !in r.upstream
  }

  ghost predicate AllClean(s: seq<Route>)
  {
    forall i :: 0 <= i < |s| ==> Clean(s[i])
  }

  /** A policy followed by the next route is not a policy followed by a state:
      an upstream ends in NUL, a state in newline. */
  lemma StateShows(p: string, s: seq<Route>, q: string, state: string, t: seq<Route>)
    requires AllClean(s) && NUL !in p && NUL !in q && NUL !in state
    ensures p + [NEWLINE] + Preimage(s) != q + [NUL] + (state + [NEWLINE] + Preimage(t))
  {
    NulMeansMore(s);
    NulMeansRoute(p, s);
    var b := p + [NEWLINE] + Preimage(s);
    var c := q + [NUL] + (state + [NEWLINE] + Preimage(t));
    assert c[|q|] == NUL;
    if s != [] {
      NulBeforeNewline(s[0].upstream, Tail(HashedPart(s[0])) + [NEWLINE] + Preimage(s[1..]), state, Preimage(t));
      var a := p + [NEWLINE] + s[0].sni;
      assert b == a + [NUL] + AfterSni(s);
      if b == c {
        SplitUnique(a, q, AfterSni(s), state + [NEWLINE] + Preimage(t), NUL);
      }
    }
  }

  lemma NulBeforeNewline(u: string, x: string, state: string, y: string)
    requires NUL !in u && NEWLINE !in u && NUL !in state
    ensures u + [NUL] + x != state + [NEWLINE] + y
  {
    var d, e := u + [NUL] + x, state + [NEWLINE] + y;
    if |u| <= |state| {
      assert d[|u|] == NUL && e[|u|] != NUL;
    } else {
      assert d[|state|] == u[|state|] && e[|state|] == NEWLINE;
    }
  }

  lemma TailsDetermined(s: seq<Route>, t: seq<Route>)
    requires s != [] && t != [] && AllClean(s) && AllClean(t)
    requires Tail(HashedPart(s[0])) + [NEWLINE] + Preimage(s[1..]) == Tail(HashedPart(t[0])) + [NEWLINE] + Preimage(t[1..])
    ensures s[0].policy == t[0].policy && s[0].state == t[0].state && Preimage(s[1..]) == Preimage(t[1..])
  {
    var g, h, ps, pt := s[0], t[0], Preimage(s[1..]), Preimage(t[1..]);
    SplitPolicy(g, ps);
    SplitPolicy(h, pt);
    if g.state == "" && h.state == "" {
      TextThenLines(g.policy, s[1..], h.policy, t[1..]);
    } else if g.state == "" {
      StateShows(g.policy, s[1..], h.policy, h.state, t[1..]);
    } else if h.state == "" {
      StateShows(h.policy, t[1..], g.policy, g.state, s[1..]);
    } else {
      SplitUnique(g.policy, h.policy, g.state + [NEWLINE] + ps, h.state + [NEWLINE] + pt, NUL);
      TextThenLines(g.state, s[1..], h.state, t[1..]);
    }
  }

  /** Whatever the policies' text, newlines included, as long as it has no NUL:
      with no NUL elsewhere and no newline in SNI or upstream the hashed bytes
      determine the sorted list of (SNI, upstream, policy, state). */
  lemma {:induction false} PreimageDeterminesRoutes(s: seq<Route>, t: seq<Route>)
    requires AllClean(s) && AllClean(t)
    requires Preimage(s) == Preimage(t)
    ensures HashedParts(s) == HashedParts(t)
  {
    if s != [] && t != [] {
      FirstFields(s, t);
      TailsDetermined(s, t);
      PreimageDeterminesRoutes(s[1..], t[1..]);
    } else {
      assert s == [] <==> Preimage(s) == "";
      assert t == [] <==> Preimage(t) == "";
    }
  }

  // ---- Policies that are JSON documents ----

  /** What the feed's decoder guarantees of policies: absent, or one JSON value
      without surrounding space. Such a text holds no NUL, and none of them goes
      on after a newline where another is complete. */
  ghost predicate Documents(doc: string -> bool)
  {
    && doc("") && doc("{}")
    && (forall p :: doc(p) ==> NUL !in p)
    && (forall p, q :: doc(p) && doc(q) ==> !(p + [NEWLINE] <= q))
  }

  /** Which of the two separators may occur in which decoded field. */
  datatype Allowed = Allowed(
    nulInSni: bool,
    newlineInSni: bool,
    nulInUpstream: bool,
    newlineInUpstream: bool,
    nulInState: bool,
    newlineInState: bool)

  ghost predicate Within(doc: string -> bool, may: Allowed, r: Route)
  {
    && doc(r.policy)
    && (NUL in r.sni ==> may.nulInSni) && (NEWLINE in r.sni ==> may.newlineInSni)
    && (NUL in r.upstream ==> may.nulInUpstream) && (NEWLINE in r.upstream ==> may.newlineInUpstream)
    && (NUL in r.state ==> may.nulInState) && (NEWLINE in r.state ==> may.newlineInState)
  }

  ghost predicate AllWithin(doc: string -> bool, may: Allowed, s: seq<Route>)
  {
    forall i :: 0 <= i < |s| ==> Within(doc, may, s[i])
  }

  /** Two different tables that hash the same bytes. */
  ghost predicate Collide(s: seq<Route>, t: seq<Route>)
  {
    && SortedBySni(s) && SortedBySni(t) && DistinctSnis(s) && DistinctSnis(t)
    && Preimage(s) == Preimage(t) && HashedParts(s) != HashedParts(t)
  }

  ghost predicate NoCollision(doc: string -> bool, may: Allowed)
  {
    forall s, t :: AllWithin(doc, may, s) && AllWithin(doc, may, t) ==> !Collide(s, t)
  }

  /** A newline in a state is the only harmful one, and only together with one
      in an SNI or a NUL in a state. */
  predicate Harmless(may: Allowed)
  {
    && !may.nulInSni && !may.nulInUpstream
    && (may.newlineInState ==> !may.newlineInSni && !may.nulInState)
  }

  /** A document ends where the separator after it stands. */
  lemma DocumentEnds(doc: string -> bool, p: string, x: string, q: string, y: string)
    requires Documents(doc) && doc(p) && doc(q) && p + x == q + y
    requires x != "" && (x[0] == NUL || x[0] == NEWLINE)
    requires y != "" && (y[0] == NUL || y[0] == NEWLINE)
    ensures p == q && x == y
  {
    if |p| < |q| {
      NotInside(p, x, q, y);
    } else if |q| < |p| {
      NotInside(q, y, p, x);
    }
    assert p == (p + x)[..|p|] && q == (q + y)[..|q|];
    assert x == (p + x)[|p|..] && y == (q + y)[|q|..];
  }

  lemma NotInside(p: string, x: string, q: string, y: string)
    requires p + x == q + y && |p| < |q| && x != ""
    ensures q[|p|] == x[0] && p + [x[0]] <= q
  {
    assert (p + x)[|p|] == x[0] && (q + y)[|p|] == q[|p|];
    assert q == (p + x)[..|q|];
    assert q[..|p| + 1] == p + [x[0]];
  }

  lemma DocumentTails(doc: string -> bool, may: Allowed, s: seq<Route>, t: seq<Route>)
    requires Documents(doc) && Harmless(may) && s != [] && t != []
    requires AllWithin(doc, may, s) && AllWithin(doc, may, t)
    requires Tail(HashedPart(s[0])) + [NEWLINE] + Preimage(s[1..]) == Tail(HashedPart(t[0])) + [NEWLINE] + Preimage(t[1..])
    ensures s[0].policy == t[0].policy && s[0].state == t[0].state && Preimage(s[1..]) == Preimage(t[1..])
  {
    var g, h, ps, pt := s[0], t[0], Preimage(s[1..]), Preimage(t[1..]);
    var x, y := AfterPolicy(g, ps), AfterPolicy(h, pt);
    SplitPolicy(g, ps);
    SplitPolicy(h, pt);
    DocumentEnds(doc, g.policy, x, h.policy, y);
    if g.state == "" {
      assert ps == x[1..] && pt == y[1..];
    } else {
      assert g.state + [NEWLINE] + ps == x[1..] && h.state + [NEWLINE] + pt == y[1..];
      if may.newlineInState {
        TextThenLines(g.state, s[1..], h.state, t[1..]);
      } else {
        SplitUnique(g.state, h.state, ps, pt, NEWLINE);
      }
    }
  }

  lemma {:induction false} HarmlessDeterminesRoutes(doc: string -> bool, may: Allowed, s: seq<Route>, t: seq<Route>)
    requires Documents(doc) && Harmless(may)
    requires AllWithin(doc, may, s) && AllWithin(doc, may, t) && Preimage(s) == Preimage(t)
    ensures HashedParts(s) == HashedParts(t)
  {
    if s != [] && t != [] {
      FirstFields(s, t);
      DocumentTails(doc, may, s, t);
      HarmlessDeterminesRoutes(doc, may, s[1..], t[1..]);
    } else {
      assert s == [] <==> Preimage(s) == "";
      assert t == [] <==> Preimage(t) == "";
    }
  }

  // ---- The collisions ----

  lemma OneLine(r: Route)
    ensures Preimage([r]) == Line(HashedPart(r)) + [NEWLINE]
    ensures HashedParts([r]) == [HashedPart(r)]
    ensures SortedBySni([r]) && DistinctSnis([r])
  {
    assert [r][1..] == [];
  }

  lemma TwoLines(a: Route, b: Route)
    ensures Preimage([a, b]) == Line(HashedPart(a)) + [NEWLINE] + (Line(HashedPart(b)) + [NEWLINE])
    ensures HashedParts([a, b]) == [HashedPart(a), HashedPart(b)]
    ensures Less(a.sni, b.sni) ==> SortedBySni([a, b]) && DistinctSnis([a, b])
  {
    assert [a, b][1..] == [b];
    OneLine(b);
    LessIsStrict(a.sni, b.sni);
  }

  lemma MoveText(a: string, x: string, b: string)
    ensures a + [NEWLINE] + ((x + [NEWLINE] + b) + [NEWLINE]) == (a + [NEWLINE] + x) + [NEWLINE] + (b + [NEWLINE])
  {
  }

  lemma LongerState(a: Route, more: string)
    requires a.state != ""
    ensures Line(HashedPart(a.(state := a.state + [NEWLINE] + more))) == Line(HashedPart(a)) + [NEWLINE] + more
  {
    var g, h := HashedPart(a), HashedPart(a.(state := a.state + [NEWLINE] + more));
    assert Tail(h) == Tail(g) + [NEWLINE] + more;
  }

  lemma LongerSni(b: Route, x: string)
    ensures Line(HashedPart(b.(sni := x + [NEWLINE] + b.sni))) == x + [NEWLINE] + Line(HashedPart(b))
  {
    var g, h := HashedPart(b), HashedPart(b.(sni := x + [NEWLINE] + b.sni));
    assert Tail(g) == Tail(h);
  }

  /** A NUL in an SNI: the rest of the name passes for the upstream, the
      upstream for the policy and the policy for the state. */
  lemma NulInSniCollides(r: Route, x: string, y: string)
    requires r.sni == x + [NUL] + y && r.policy != "" && r.state == ""
    ensures Collide([r], [r.(sni := x, upstream := y, policy := r.upstream, state := r.policy)])
  {
    var f := r.(sni := x, upstream := y, policy := r.upstream, state := r.policy);
    OneLine(r);
    OneLine(f);
    assert Line(HashedPart(r)) == Line(HashedPart(f));
  }

  /** A NUL in an upstream: the rest of it passes for the policy and the policy
      for the state. */
  lemma NulInUpstreamCollides(r: Route, x: string, y: string)
    requires r.upstream == x + [NUL] + y && r.policy != "" && r.state == ""
    ensures Collide([r], [r.(upstream := x, policy := y, state := r.policy)])
  {
    var f := r.(upstream := x, policy := y, state := r.policy);
    OneLine(r);
    OneLine(f);
    assert Line(HashedPart(r)) == Line(HashedPart(f));
  }

  /** A newline and NULs in a state: it passes for a whole further route. */
  lemma LineInStateCollides(a: Route, b: Route)
    requires a.state != "" && Less(a.sni, b.sni)
    ensures Collide([a.(state := a.state + [NEWLINE] + Line(HashedPart(b)))], [a, b])
  {
    var f := a.(state := a.state + [NEWLINE] + Line(HashedPart(b)));
    OneLine(f);
    TwoLines(a, b);
    LongerState(a, Line(HashedPart(b)));
  }

  /** Newlines in a state and in an SNI: text moves from the next route's name
      into the state before it. */
  lemma NewlineInStateAndSniCollides(a: Route, b: Route, x: string)
    requires a.state != "" && Less(a.sni, b.sni) && Less(a.sni, x + [NEWLINE] + b.sni)
    ensures Collide([a, b.(sni := x + [NEWLINE] + b.sni)], [a.(state := a.state + [NEWLINE] + x), b])
  {
    var a', b' := a.(state := a.state + [NEWLINE] + x), b.(sni := x + [NEWLINE] + b.sni);
    TwoLines(a, b');
    TwoLines(a', b);
    LongerState(a, x);
    LongerSni(b, x);
    MoveText(Line(HashedPart(a)), x, Line(HashedPart(b)));
    assert HashedPart(a').state != HashedPart(a).state;
  }

  /** Exactly when the version tells all tables apart, over feeds whose policies
      are JSON documents and whose other fields hold NULs and newlines where
      allowed: no NUL in an SNI or upstream, and a newline in a state only with
      no newline in an SNI and no NUL in a state. */
  lemma VersionExactIffHarmless(doc: string -> bool, may: Allowed)
    requires Documents(doc)
    ensures NoCollision(doc, may) <==> Harmless(may)
  {
    var r := Route("", "{}", "{}", "", "", "", false);
    if Harmless(may) {
      forall s, t | AllWithin(doc, may, s) && AllWithin(doc, may, t)
        ensures !Collide(s, t)
      {
        if Preimage(s) == Preimage(t) {
          HarmlessDeterminesRoutes(doc, may, s, t);
        }
      }
    } else if may.nulInSni {
      NulInSniCollides(r.(sni := "" + [NUL] + ""), "", "");
      Refutes(doc, may, [r.(sni := "" + [NUL] + "")], [r.(upstream := "", state := "{}")]);
    } else if may.nulInUpstream {
      NulInUpstreamCollides(r.(upstream := "" + [NUL] + "{}"), "", "{}");
      Refutes(doc, may, [r.(upstream := "" + [NUL] + "{}")], [r.(upstream := "", state := "{}")]);
    } else if may.newlineInSni {
      var a, b := r.(state := "q"), r.(sni := "b");
      NewlineInStateAndSniCollides(a, b, "x");
      Refutes(doc, may, [a, b.(sni := "x" + [NEWLINE] + "b")], [a.(state := "q" + [NEWLINE] + "x"), b]);
    } else {
      var a, b := r.(state := "q"), r.(sni := "b");
      LineInStateCollides(a, b);
      Refutes(doc, may, [a.(state := "q" + [NEWLINE] + Line(HashedPart(b)))], [a, b]);
    }
  }

  lemma Refutes(doc: string -> bool, may: Allowed, s: seq<Route>, t: seq<Route>)
    requires AllWithin(doc, may, s) && AllWithin(doc, may, t) && Collide(s, t)
    ensures !NoCollision(doc, may)
  {
  }
}
