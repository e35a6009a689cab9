/** The cost of propagation: how often facts are processed, and how many edges are followed. */
module AliasCost {
  import opened Options
  import opened AliasBindings

  ghost function Pick(edges: map<string, seq<Hop>>): (name: string)
    requires edges != map[]
    ensures name in edges
  {
    assert edges.Keys != {};
    var name :| name in edges.Keys;
    name
  }

  /** The number of edges. */
  ghost function TotalHops(edges: map<string, seq<Hop>>): nat
    decreases |edges|
  {
    if edges == map[] then 0
    else
      var name := Pick(edges);
      assert |edges - {name}| < |edges| by { assert (edges - {name}).Keys == edges.Keys - {name}; }
      |edges[name]| + TotalHops(edges - {name})
  }

  lemma {:induction false} TotalHopsOf(edges: map<string, seq<Hop>>, name: string)
    requires name in edges
    ensures TotalHops(edges) == |edges[name]| + TotalHops(edges - {name})
    decreases |edges|
  {
    var first := Pick(edges);
    assert (edges - {first}).Keys == edges.Keys - {first};
    if first != name {
      var without := edges - {first} - {name};
      TotalHopsOf(edges - {first}, name);
      assert edges - {name} - {first} == without;
      assert (edges - {name}).Keys == edges.Keys - {name};
      TotalHopsOf(edges - {name}, first);
    }
  }

  /** Recording a statement adds its edges, no more. */
  lemma {:induction false} AddEdgesTotal(edges: map<string, seq<Hop>>, es: seq<Edge>)
    ensures TotalHops(AddEdges(edges, es)) == TotalHops(edges) + |es|
    decreases |es|
  {
    if es != [] {
      var e := es[0];
      var more := AddEdge(edges, e);
      AddEdgesTotal(more, es[1..]);
      TotalHopsOf(more, e.source);
      assert more - {e.source} == edges - {e.source};
      if e.source in edges {
        TotalHopsOf(edges, e.source);
      } else {
        assert edges - {e.source} == edges;
      }
    }
  }

  /** How many edges are followed while `popped` is processed. */
  ghost function EdgeVisits(edges: map<string, seq<Hop>>, popped: seq<Fact>): nat {
    if popped == [] then 0
    else |Hops(edges, popped[0].name)| + EdgeVisits(edges, popped[1..])
  }

  ghost function CountOf(popped: seq<Fact>, name: string, bs: set<Binding>): nat {
    if popped == [] then 0
    else (if popped[0].name == name && popped[0].binding in bs then 1 else 0) + CountOf(popped[1..], name, bs)
  }

  lemma {:induction false} CountSplits(popped: seq<Fact>, name: string, bs: set<Binding>, b: Binding)
    requires b in bs
    ensures CountOf(popped, name, bs) == CountOf(popped, name, bs - {b}) + multiset(popped)[Fact(name, b)]
    decreases |popped|
  {
    if popped != [] {
      CountSplits(popped[1..], name, bs, b);
      assert popped == [popped[0]] + popped[1..];
      assert multiset(popped)[Fact(name, b)] == multiset([popped[0]])[Fact(name, b)]
             + multiset(popped[1..])[Fact(name, b)];
    }
  }

  lemma {:induction false} CountNone(popped: seq<Fact>, name: string)
    ensures CountOf(popped, name, {}) == 0
    decreases |popped|
  {
    if popped != [] { CountNone(popped[1..], name); }
  }

  lemma {:induction false} CountIsBounded(popped: seq<Fact>, name: string, bs: set<Binding>)
    requires forall f :: multiset(popped)[f] <= 2
    ensures CountOf(popped, name, bs) <= 2 * |bs|
    decreases bs
  {
    if bs == {} {
      CountNone(popped, name);
    } else {
      var b :| b in bs;
      CountSplits(popped, name, bs, b);
      CountIsBounded(popped, name, bs - {b});
    }
  }

  lemma {:induction false} VisitsSplit(edges: map<string, seq<Hop>>, popped: seq<Fact>, name: string, bs: set<Binding>)
    requires name in edges
    requires forall f | f in popped :: f.binding in bs
    ensures EdgeVisits(edges, popped) == EdgeVisits(edges - {name}, popped) + CountOf(popped, name, bs) * |edges[name]|
    decreases |popped|
  {
    if popped != [] {
      assert popped[0] in popped && popped[0].binding in bs;
      VisitsSplit(edges, popped[1..], name, bs);
      OneMore(CountOf(popped[1..], name, bs), |edges[name]|);
    }
  }

  lemma OneMore(c: nat, n: nat)
    ensures (1 + c) * n == n + c * n
  {
  }

  lemma {:induction false} VisitsAreBounded(edges: map<string, seq<Hop>>, popped: seq<Fact>, bs: set<Binding>)
    requires forall f :: multiset(popped)[f] <= 2
    requires forall f | f in popped :: f.binding in bs
    ensures EdgeVisits(edges, popped) <= 2 * |bs| * TotalHops(edges)
    decreases |edges|
  {
    if edges == map[] {
      NoEdgesNoVisits(popped);
    } else {
      var name := Pick(edges);
      assert (edges - {name}).Keys == edges.Keys - {name};
      VisitsAreBounded(edges - {name}, popped, bs);
      VisitsSplit(edges, popped, name, bs);
      CountIsBounded(popped, name, bs);
      Combine(EdgeVisits(edges - {name}, popped), CountOf(popped, name, bs), 2 * |bs|, |edges[name]|,
              TotalHops(edges - {name}));
    }
  }

  lemma Combine(visits: nat, c: nat, k: nat, n: nat, rest: nat)
    requires visits <= k * rest && c <= k
    ensures visits + c * n <= k * (n + rest)
  {
    assert (k - c) * n >= 0;
    assert k * (n + rest) == k * n + k * rest;
  }

  lemma {:induction false} NoEdgesNoVisits(popped: seq<Fact>)
    ensures EdgeVisits(map[], popped) == 0
    decreases |popped|
  {
    if popped != [] { NoEdgesNoVisits(popped[1..]); }
  }

  /** The bindings the guard's tables allow: a constant number. */
  ghost function TrackedBindings(receivers: Receivers): set<Binding> {
    (set m | m in receivers :: Binding(m, None))
    + (set m, a | m in receivers && a in receivers[m] :: Binding(m, Some(a)))
    + (set m | m in BUILTINS_MODULES :: Binding(m, Some("getattr")))
  }

  /** All that is known at the start is in the tables. */
  ghost predicate StartsTracked(p: Problem) {
    forall f | p.Known(f) :: f.binding in TrackedBindings(p.receivers)
  }

  lemma {:induction false} ChainIsTracked(p: Problem, chain: seq<Fact>)
    requires StartsTracked(p) && p.IsChain(chain)
    ensures chain[|chain| - 1].binding in TrackedBindings(p.receivers)
    decreases |chain|
  {
    if |chain| > 1 {
      ChainIsTracked(p, chain[..|chain| - 1]);
      assert p.Linked(chain[|chain| - 2], chain[|chain| - 1]);
    }
  }

  lemma DerivableIsTracked(p: Problem, f: Fact)
    requires StartsTracked(p) && p.Derivable(f)
    ensures f.binding in TrackedBindings(p.receivers)
  {
    var chain :| p.IsChain(chain) && chain[|chain| - 1] == f;
    ChainIsTracked(p, chain);
  }

  lemma ProcessedIsDerivable(p: Problem, values: map<string, set<Binding>>, popped: seq<Fact>, f: Fact)
    requires Solution(p, values, popped) && f in popped
    ensures p.Derivable(f)
  {
    assert multiset(popped)[f] >= 1;
    if p.Known(f) {
      p.KnownIsDerivable(f);
    } else {
      var g :| p.Derivable(g) && p.Linked(g, f);
      p.LinkExtends(g, f);
    }
  }

  lemma ProcessedIsTracked(p: Problem, values: map<string, set<Binding>>, popped: seq<Fact>, f: Fact)
    requires StartsTracked(p) && Solution(p, values, popped) && f in popped
    ensures f.binding in TrackedBindings(p.receivers)
  {
    ProcessedIsDerivable(p, values, popped, f);
    DerivableIsTracked(p, f);
  }

  /**
   Propagation follows at most twice as many edges as there are edges, times the
   number of bindings the tables allow.
   */
  lemma PropagationIsLinear(p: Problem, values: map<string, set<Binding>>, popped: seq<Fact>)
    requires StartsTracked(p) && Solution(p, values, popped)
    ensures EdgeVisits(p.edges, popped) <= 2 * |TrackedBindings(p.receivers)| * TotalHops(p.edges)
  {
    forall f | f in popped
      ensures f.binding in TrackedBindings(p.receivers)
    {
      ProcessedIsTracked(p, values, popped, f);
    }
    VisitsAreBounded(p.edges, popped, TrackedBindings(p.receivers));
  }

  // --------------------------------------------------------------------
  // Once, or twice
  // --------------------------------------------------------------------

  /** Exactly which facts are taken from the worklist twice: those a name with an
      outgoing edge holds implicitly only, and some edge brings in as well. */
  lemma PoppedTwiceExactly(p: Problem, values: map<string, set<Binding>>, popped: seq<Fact>, f: Fact)
    requires Solution(p, values, popped)
    ensures multiset(popped)[f] <= 2
    ensures multiset(popped)[f] == 2 <==>
            && f.name in p.edges && f.binding in At(p.implicit, f.name)
            && f.binding !in At(p.values, f.name) && f.binding in At(values, f.name)
  {
    assert multiset(popped)[f] == p.TimesProcessed(f);
    assert Stored(values, f) <==> Stored(p.values, f) || p.Incoming(f);
  }

  /** No edge leads to a name that denotes something without any assignment. */
  predicate BuiltinsStay(p: Problem) {
    forall x, h | x in p.edges && h in p.edges[x] :: h.target !in p.implicit
  }

  lemma IncomingHasEdge(p: Problem, f: Fact)
    requires p.Incoming(f)
    ensures exists x, h :: x in p.edges && h in p.edges[x] && h.target == f.name
  {
    var g :| p.Derivable(g) && p.Linked(g, f);
    var h :| h in Hops(p.edges, g.name) && p.Carries(h, g, f);
    assert g.name in p.edges && h in p.edges[g.name] && h.target == f.name;
  }

  /** If no assignment rebinds such a name, each fact is processed once, as documented. */
  lemma UnreboundIsPoppedOnce(p: Problem, values: map<string, set<Binding>>, popped: seq<Fact>, f: Fact)
    requires Solution(p, values, popped) && BuiltinsStay(p)
    ensures multiset(popped)[f] <= 1
  {
    assert multiset(popped)[f] == p.TimesProcessed(f);
    if p.Incoming(f) { IncomingHasEdge(p, f); }
  }
}
