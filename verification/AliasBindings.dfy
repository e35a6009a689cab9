/**
 The alias dataflow of the code guard: every dangerous module or member each
 name may be bound to, as a worklist fixpoint over assignment edges.
 */
module AliasBindings {
  import opened Options
  import opened PythonAst

  type Receivers = map<string, set<string>>

  /** A module (`member` is `None`) or a member of one. */
  datatype Binding = Binding(mod: string, member: Option<string>)

  /** `name` may be bound to `binding`. */
  datatype Fact = Fact(name: string, binding: Binding)

  /** Where an assignment carries a name's value: `target = source` or `target = source.attr`. */
  datatype Hop = Hop(target: string, attr: Option<string>)

  datatype Edge = Edge(source: string, hop: Hop)

  const BUILTINS_MODULES: set<string> := {"builtins", "__builtins__"}

  /** Only members the scanner can act on are worth a binding. */
  predicate Tracked(receivers: Receivers, mod: string, member: string) {
    if member == "getattr" then mod in BUILTINS_MODULES
    else mod in receivers && member in receivers[mod]
  }

  /** The binding an assignment hands on, if it stays within what is tracked. */
  function Follow(receivers: Receivers, binding: Binding, attr: Option<string>): Option<Binding> {
    match attr
    case None => Some(binding)
    case Some(a) =>
      if binding.member.Some? || !Tracked(receivers, binding.mod, a) then None
      else Some(Binding(binding.mod, Some(a)))
  }

  function At(values: map<string, set<Binding>>, name: string): set<Binding> {
    if name in values then values[name] else {}
  }

  function Hops(edges: map<string, seq<Hop>>, name: string): seq<Hop> {
    if name in edges then edges[name] else []
  }

  /** What a name denotes before any assignment. */
  function ImplicitBindings(receivers: Receivers, callNames: set<string>): map<string, set<Binding>> {
    map name | name in receivers.Keys + callNames + {"getattr"} ::
      (if name in receivers then {Binding(name, None)} else {})
      + (if name in callNames + {"getattr"} then {Binding("builtins", Some(name))} else {})
  }

  // --------------------------------------------------------------------
  // What the fixpoint should be: facts with a derivation chain
  // --------------------------------------------------------------------

  /** A propagation problem: the known facts and the edges. */
  datatype Problem = Problem(
    receivers: Receivers,
    implicit: map<string, set<Binding>>,
    values: map<string, set<Binding>>,
    edges: map<string, seq<Hop>>)
  {
    predicate Known(f: Fact) {
      f.binding in At(values, f.name) || f.binding in At(implicit, f.name)
    }

    predicate Carries(h: Hop, from: Fact, to: Fact) {
      h.target == to.name && Follow(receivers, from.binding, h.attr) == Some(to.binding)
    }

    ghost predicate Linked(from: Fact, to: Fact) {
      exists h :: h in Hops(edges, from.name) && Carries(h, from, to)
    }

    ghost predicate IsChain(chain: seq<Fact>) {
      && |chain| > 0
      && Known(chain[0])
      && forall i | 0 < i < |chain| :: Linked(chain[i - 1], chain[i])
    }

    /** `f` is reached from a known fact along assignment edges. */
    ghost predicate Derivable(f: Fact) {
      exists chain :: IsChain(chain) && chain[|chain| - 1] == f
    }

    lemma KnownIsDerivable(f: Fact)
      requires Known(f)
      ensures Derivable(f)
    {
      assert IsChain([f]);
    }

    lemma LinkExtends(from: Fact, to: Fact)
      requires Derivable(from) && Linked(from, to)
      ensures Derivable(to)
    {
      var chain :| IsChain(chain) && chain[|chain| - 1] == from;
      var longer := chain + [to];
      assert forall i | 0 < i < |longer| :: Linked(longer[i - 1], longer[i]) by {
        forall i | 0 < i < |longer| ensures Linked(longer[i - 1], longer[i]) {
          if i < |chain| { assert longer[i - 1] == chain[i - 1] && longer[i] == chain[i]; }
        }
      }
      assert IsChain(longer) && longer[|longer| - 1] == to;
    }

    /** A set of facts that holds the known ones and is closed under the edges holds every derivable fact. */
    lemma {:induction false} ClosedHoldsChain(facts: iset<Fact>, chain: seq<Fact>)
      requires forall f | Known(f) :: f in facts
      requires forall f, g | f in facts && Linked(f, g) :: g in facts
      requires IsChain(chain)
      ensures chain[|chain| - 1] in facts
      decreases |chain|
    {
      if |chain| > 1 {
        var shorter := chain[..|chain| - 1];
        assert IsChain(shorter);
        ClosedHoldsChain(facts, shorter);
      }
    }

    /** Some derivable fact hands `f` on. */
    ghost predicate Incoming(f: Fact) {
      exists g :: Derivable(g) && Linked(g, f)
    }

    /** How often propagation takes `f` from the worklist: once for standing in
        it at the start, once for being stored on the way. */
    ghost function TimesProcessed(f: Fact): nat {
      (if f.name in edges && Known(f) then 1 else 0)
      + (if f.binding !in At(values, f.name) && Incoming(f) then 1 else 0)
    }

    /** Every tracked binding the problem can ever mention. */
    ghost function Universe(): set<Binding> {
      (set x, b | x in values && b in values[x] :: b)
      + (set x, b | x in implicit && b in implicit[x] :: b)
      + (set m, a | m in receivers && a in receivers[m] :: Binding(m, Some(a)))
      + (set m | m in BUILTINS_MODULES :: Binding(m, Some("getattr")))
    }

    ghost function Targets(): set<string> {
      set x, i | x in edges && 0 <= i < |edges[x]| :: edges[x][i].target
    }

    lemma LinkStaysInUniverse(from: Fact, to: Fact)
      requires from.binding in Universe() && Linked(from, to)
      ensures to.binding in Universe() && to.name in Targets()
    {
    }
  }

  predicate Stored(values: map<string, set<Binding>>, f: Fact) {
    f.binding in At(values, f.name)
  }

  /** Every hop out of `f` has stored what it carries. */
  ghost predicate Settled(p: Problem, values: map<string, set<Binding>>, f: Fact) {
    forall h, g | h in Hops(p.edges, f.name) && p.Carries(h, f, g) :: Stored(values, g)
  }

  ghost function StoredSet(values: map<string, set<Binding>>): set<Fact> {
    set x, b | x in values && b in values[x] :: Fact(x, b)
  }

  // --------------------------------------------------------------------
  // The worklist invariant
  // --------------------------------------------------------------------

  /** How often the facts popped so far plus those still queued include `f`. */
  ghost function Pushes(p: Problem, values: map<string, set<Binding>>, f: Fact): nat {
    (if f.name in p.edges && p.Known(f) then 1 else 0)
    + (if Stored(values, f) && !Stored(p.values, f) then 1 else 0)
  }

  ghost predicate Sound(p: Problem, values: map<string, set<Binding>>, work: seq<Fact>) {
    && (forall f :: Stored(p.values, f) ==> Stored(values, f))
    && (forall f | Stored(values, f) && !Stored(p.values, f) ::
          f.name in p.Targets() && f.binding in p.Universe() && p.Incoming(f))
    && (forall f :: f in work ==> f.binding in p.Universe() && p.Derivable(f))
  }

  ghost predicate Counted(p: Problem, values: map<string, set<Binding>>, work: seq<Fact>, popped: seq<Fact>) {
    forall f :: multiset(popped)[f] + multiset(work)[f] == Pushes(p, values, f)
  }

  /** Every known fact has been pushed along its edges or is still queued. */
  ghost predicate Covered(p: Problem, values: map<string, set<Binding>>, work: seq<Fact>) {
    forall f :: (Stored(values, f) || p.Known(f)) && f.name in p.edges ==> f in work || Settled(p, values, f)
  }

  ghost predicate Ready(p: Problem, values: map<string, set<Binding>>, work: seq<Fact>, popped: seq<Fact>) {
    Sound(p, values, work) && Counted(p, values, work, popped) && Covered(p, values, work)
  }

  /** What one `Visit` of `f` does to the stored facts. */
  ghost predicate Visited(p: Problem, before: map<string, set<Binding>>, after: map<string, set<Binding>>, f: Fact,
                          gained: seq<Fact>) {
    && (forall g :: Stored(before, g) ==> Stored(after, g))
    && (forall g :: multiset(gained)[g] == if Stored(after, g) && !Stored(before, g) then 1 else 0)
    && (forall g :: g in gained ==> p.Linked(f, g))
    && Settled(p, after, f)
  }

  lemma VisitIsSound(p: Problem, before: map<string, set<Binding>>, after: map<string, set<Binding>>,
                     rest: seq<Fact>, f: Fact, gained: seq<Fact>)
    requires Sound(p, before, rest + [f]) && Visited(p, before, after, f, gained)
    ensures Sound(p, after, rest + gained)
  {
    assert f in rest + [f];
    forall g | g in gained
      ensures g.name in p.Targets() && g.binding in p.Universe() && p.Incoming(g) && p.Derivable(g)
    {
      p.LinkStaysInUniverse(f, g);
      p.LinkExtends(f, g);
    }
    forall g | Stored(after, g) && !Stored(p.values, g)
      ensures g.name in p.Targets() && g.binding in p.Universe() && p.Incoming(g)
    {
      if !Stored(before, g) { assert multiset(gained)[g] == 1; assert g in gained; }
    }
    forall g | g in rest + gained
      ensures g.binding in p.Universe() && p.Derivable(g)
    {
      if g in rest { assert g in rest + [f]; }
    }
  }

  lemma VisitIsCounted(p: Problem, before: map<string, set<Binding>>, after: map<string, set<Binding>>,
                       rest: seq<Fact>, f: Fact, gained: seq<Fact>, popped: seq<Fact>)
    requires forall g :: Stored(p.values, g) ==> Stored(before, g)
    requires Counted(p, before, rest + [f], popped) && Visited(p, before, after, f, gained)
    ensures Counted(p, after, rest + gained, popped + [f])
  {
    forall g
      ensures multiset(popped + [f])[g] + multiset(rest + gained)[g] == Pushes(p, after, g)
    {
      assert multiset(popped)[g] + multiset(rest + [f])[g] == Pushes(p, before, g);
      assert multiset(popped + [f])[g] == multiset(popped)[g] + multiset{f}[g];
      assert multiset(rest + [f])[g] == multiset(rest)[g] + multiset{f}[g];
      assert multiset(rest + gained)[g] == multiset(rest)[g] + multiset(gained)[g];
    }
  }

  lemma VisitIsCovered(p: Problem, before: map<string, set<Binding>>, after: map<string, set<Binding>>,
                       rest: seq<Fact>, f: Fact, gained: seq<Fact>)
    requires Covered(p, before, rest + [f]) && Visited(p, before, after, f, gained)
    ensures Covered(p, after, rest + gained)
  {
    forall g | (Stored(after, g) || p.Known(g)) && g.name in p.edges
      ensures g in rest + gained || Settled(p, after, g)
    {
      if Stored(before, g) || p.Known(g) {
        if g in rest + [f] {
          assert g in rest || g == f;
        } else {
          assert Settled(p, before, g);
        }
      } else {
        assert multiset(gained)[g] == 1;
        assert g in gained;
      }
    }
  }

  /** The facts propagation may still store. */
  ghost function Unstored(p: Problem, values: map<string, set<Binding>>): set<Fact> {
    (set x, b | x in p.Targets() && b in p.Universe() :: Fact(x, b)) - StoredSet(values)
  }

  lemma InitialIsReady(p: Problem, work: seq<Fact>)
    requires forall f :: multiset(work)[f] == if f.name in p.edges && p.Known(f) then 1 else 0
    ensures Ready(p, p.values, work, [])
  {
    forall f | f in work
      ensures f.binding in p.Universe() && p.Derivable(f)
    {
      assert multiset(work)[f] >= 1;
      p.KnownIsDerivable(f);
    }
    forall f | p.Known(f) && f.name in p.edges
      ensures f in work
    {
      assert multiset(work)[f] == 1;
    }
  }

  /** The more is stored, the less is left. */
  lemma StoredOnly(p: Problem, before: map<string, set<Binding>>, after: map<string, set<Binding>>)
    requires forall g :: Stored(before, g) ==> Stored(after, g)
    ensures Unstored(p, after) <= Unstored(p, before)
  {
    forall g | g in StoredSet(before)
      ensures g in StoredSet(after)
    {
      assert Stored(before, g);
    }
  }

  /** What a visit gains was left to store. */
  lemma GainedWasLeft(p: Problem, before: map<string, set<Binding>>, after: map<string, set<Binding>>,
                      rest: seq<Fact>, f: Fact, gained: seq<Fact>, g: Fact)
    requires Sound(p, before, rest + [f]) && Visited(p, before, after, f, gained) && g in gained
    ensures g in Unstored(p, before) && g !in Unstored(p, after)
  {
    VisitIsSound(p, before, after, rest, f, gained);
    assert multiset(gained)[g] == 1;
    assert Stored(after, g) && !Stored(before, g) && !Stored(p.values, g);
  }

  /** A visit that stores anything shrinks the set of facts still to be stored. */
  lemma VisitShrinks(p: Problem, before: map<string, set<Binding>>, after: map<string, set<Binding>>,
                     rest: seq<Fact>, f: Fact, gained: seq<Fact>)
    requires Sound(p, before, rest + [f]) && Visited(p, before, after, f, gained)
    ensures Unstored(p, after) <= Unstored(p, before)
    ensures gained != [] ==> Unstored(p, after) < Unstored(p, before)
  {
    StoredOnly(p, before, after);
    if gained != [] { GainedWasLeft(p, before, after, rest, f, gained, gained[0]); }
  }

  /** A visit keeps the whole invariant. */
  lemma VisitKeepsReady(p: Problem, before: map<string, set<Binding>>, after: map<string, set<Binding>>,
                        rest: seq<Fact>, f: Fact, gained: seq<Fact>, popped: seq<Fact>)
    requires Ready(p, before, rest + [f], popped) && Visited(p, before, after, f, gained)
    ensures Ready(p, after, rest + gained, popped + [f])
    ensures Unstored(p, after) <= Unstored(p, before)
    ensures gained != [] ==> Unstored(p, after) < Unstored(p, before)
  {
    VisitIsSound(p, before, after, rest, f, gained);
    VisitIsCounted(p, before, after, rest, f, gained, popped);
    VisitIsCovered(p, before, after, rest, f, gained);
    VisitShrinks(p, before, after, rest, f, gained);
  }

  /**
   What propagation achieves: a name holds exactly the derivable bindings,
   stored are exactly the initial ones and those some edge brings in, and
   `popped` lists each fact as often as it was processed.
   */
  ghost predicate Solution(p: Problem, values: map<string, set<Binding>>, popped: seq<Fact>) {
    && (forall f :: Stored(values, f) || p.Known(f) <==> p.Derivable(f))
    && (forall f :: Stored(values, f) <==> Stored(p.values, f) || p.Incoming(f))
    && (forall f :: multiset(popped)[f] == p.TimesProcessed(f))
  }

  /** With nothing left to push, exactly the derivable facts are known. */
  lemma FixpointIsExact(p: Problem, values: map<string, set<Binding>>)
    requires Sound(p, values, []) && Covered(p, values, [])
    ensures forall f :: Stored(values, f) || p.Known(f) <==> p.Derivable(f)
    ensures forall f :: Stored(values, f) <==> Stored(p.values, f) || p.Incoming(f)
  {
    ghost var known := iset g | Stored(values, g) || p.Known(g) :: g;
    forall f, g | f in known && p.Linked(f, g)
      ensures g in known
    {
      assert f.name in p.edges && f !in [];
      assert Settled(p, values, f);
    }
    forall f
      ensures f in known <==> p.Derivable(f)
    {
      if p.Known(f) {
        p.KnownIsDerivable(f);
      } else if f in known {
        var g :| p.Derivable(g) && p.Linked(g, f);
        p.LinkExtends(g, f);
      }
      if p.Derivable(f) {
        var chain :| p.IsChain(chain) && chain[|chain| - 1] == f;
        p.ClosedHoldsChain(known, chain);
      }
    }
    forall f | p.Incoming(f)
      ensures Stored(values, f)
    {
      var g :| p.Derivable(g) && p.Linked(g, f);
      assert g in known && g.name in p.edges && g !in [];
      assert Settled(p, values, g);
    }
  }

  lemma ReadyIsSolved(p: Problem, values: map<string, set<Binding>>, popped: seq<Fact>)
    requires Ready(p, values, [], popped)
    ensures Solution(p, values, popped)
  {
    FixpointIsExact(p, values);
    forall f
      ensures multiset(popped)[f] == p.TimesProcessed(f)
    {
      assert multiset(popped)[f] + multiset([])[f] == Pushes(p, values, f);
    }
  }

  // --------------------------------------------------------------------
  // What one statement contributes
  // --------------------------------------------------------------------

  /** The edges of binding `value` to `target`. */
  function BindEdges(target: Expr, value: Expr): seq<Edge>
    decreases target, 1
  {
    match target
    case Display(ts) =>
      if value.Display? && |value.elts| == |ts| then BindAll(ts, value.elts) else []
    case Name(t) =>
      (match value
       case Name(s) => [Edge(s, Hop(t, None))]
       case Attribute(Name(s), a) => [Edge(s, Hop(t, Some(a)))]
       case _ => [])
    case _ => []
  }

  function BindAll(targets: seq<Expr>, values: seq<Expr>): seq<Edge>
    requires |targets| == |values|
    decreases targets, 0
  {
    if targets == [] then []
    else BindEdges(targets[0], values[0]) + BindAll(targets[1..], values[1..])
  }

  function AssignEdges(targets: seq<Expr>, value: Expr): seq<Edge> {
    if targets == [] then [] else BindEdges(targets[0], value) + AssignEdges(targets[1..], value)
  }

  function NodeEdges(node: Node): seq<Edge> {
    match node
    case Assign(targets, value) => AssignEdges(targets, value)
    case AnnAssign(target, Some(value)) => BindEdges(target, value)
    case NamedExpr(target, value) => BindEdges(target, value)
    case _ => []
  }

  lemma OneTarget(target: Expr, value: Expr)
    ensures NodeEdges(Assign([target], value)) == BindEdges(target, value)
  {
    assert [target][1..] == [] && AssignEdges([], value) == [];
  }

  /** The facts an import statement states. */
  function NodeSeeds(receivers: Receivers, node: Node): set<Fact> {
    match node
    case Import(names) =>
      set a | a in names && a.asname.Some? && a.name in receivers :: Fact(a.asname.value, Binding(a.name, None))
    case ImportFrom(Some(m), _, names) =>
      if m !in receivers then {}
      else set a | a in names && a.name != "*" && Tracked(receivers, m, a.name) ::
             Fact(if a.asname.Some? then a.asname.value else a.name, Binding(m, Some(a.name)))
    case _ => {}
  }

  function AddEdge(edges: map<string, seq<Hop>>, e: Edge): map<string, seq<Hop>> {
    edges[e.source := Hops(edges, e.source) + [e.hop]]
  }

  function AddEdges(edges: map<string, seq<Hop>>, es: seq<Edge>): map<string, seq<Hop>>
    decreases |es|
  {
    if es == [] then edges else AddEdges(AddEdge(edges, es[0]), es[1..])
  }

  lemma {:induction false} AddEdgesConcat(edges: map<string, seq<Hop>>, es: seq<Edge>, fs: seq<Edge>)
    ensures AddEdges(edges, es + fs) == AddEdges(AddEdges(edges, es), fs)
    decreases |es|
  {
    if es == [] {
      assert es + fs == fs;
    } else {
      assert (es + fs)[1..] == es[1..] + fs;
      AddEdgesConcat(AddEdge(edges, es[0]), es[1..], fs);
    }
  }

  /** Which hops are present after adding edges. */
  lemma {:induction false} AddEdgesHops(edges: map<string, seq<Hop>>, es: seq<Edge>, name: string, h: Hop)
    ensures h in Hops(AddEdges(edges, es), name) <==> h in Hops(edges, name) || Edge(name, h) in es
    decreases |es|
  {
    if es != [] {
      AddEdgesHops(AddEdge(edges, es[0]), es[1..], name, h);
      assert es == [es[0]] + es[1..];
    }
  }

  // --------------------------------------------------------------------
  // The imperative analysis
  // --------------------------------------------------------------------

  class Bindings {
    const receivers: Receivers
    const implicit: map<string, set<Binding>>
    var values: map<string, set<Binding>>
    var edges: map<string, seq<Hop>>

    constructor (receivers: Receivers, implicit: map<string, set<Binding>>)
      ensures this.receivers == receivers && this.implicit == implicit
      ensures values == map[] && edges == map[]
    {
      this.receivers := receivers;
      this.implicit := implicit;
      values := map[];
      edges := map[];
    }

    ghost function AsProblem(): Problem
      reads this
    {
      Problem(receivers, implicit, values, edges)
    }

    function ValuesOf(name: string): (bs: set<Binding>)
      reads this
      ensures forall b :: b in bs <==> AsProblem().Known(Fact(name, b))
    {
      At(values, name) + At(implicit, name)
    }

    method Store(name: string, binding: Binding)
      modifies this`values
      ensures forall f :: Stored(values, f) <==> Stored(old(values), f) || f == Fact(name, binding)
    {
      values := values[name := At(values, name) + {binding}];
    }

    method AddImport(names: seq<ImportAlias>)
      modifies this`values
      ensures forall f :: Stored(values, f) <==>
                Stored(old(values), f) || f in NodeSeeds(receivers, Import(names))
    {
      for i := 0 to |names|
        invariant forall f :: Stored(values, f) <==>
                    Stored(old(values), f) || f in NodeSeeds(receivers, Import(names[..i]))
      {
        var a := names[i];
        assert names[..i + 1] == names[..i] + [a];
        if a.asname.Some? && a.name in receivers {
          Store(a.asname.value, Binding(a.name, None));
        }
      }
      assert names[..|names|] == names;
    }

    method AddImportFrom(mod: Option<string>, level: nat, names: seq<ImportAlias>)
      modifies this`values
      ensures forall f :: Stored(values, f) <==>
                Stored(old(values), f) || f in NodeSeeds(receivers, ImportFrom(mod, level, names))
    {
      if mod.None? || mod.value !in receivers {
        return;
      }
      for i := 0 to |names|
        invariant forall f :: Stored(values, f) <==>
                    Stored(old(values), f) || f in NodeSeeds(receivers, ImportFrom(mod, level, names[..i]))
      {
        var a := names[i];
        assert names[..i + 1] == names[..i] + [a];
        if a.name != "*" && Tracked(receivers, mod.value, a.name) {
          var name := if a.asname.Some? then a.asname.value else a.name;
          Store(name, Binding(mod.value, Some(a.name)));
        }
      }
      assert names[..|names|] == names;
    }

    method AddAssignment(node: Node)
      modifies this`edges
      ensures edges == AddEdges(old(edges), NodeEdges(node))
    {
      match node
      case Assign(targets, value) =>
        for i := 0 to |targets|
          invariant AddEdges(old(edges), AssignEdges(targets, value))
                    == AddEdges(edges, AssignEdges(targets[i..], value))
        {
          AddEdgesConcat(edges, BindEdges(targets[i], value), AssignEdges(targets[i..][1..], value));
          assert targets[i..][1..] == targets[i + 1..];
          Bind(targets[i], value);
        }
      case AnnAssign(target, Some(value)) => Bind(target, value);
      case NamedExpr(target, value) => Bind(target, value);
      case _ =>
    }

    method Bind(target: Expr, value: Expr)
      modifies this`edges
      ensures edges == AddEdges(old(edges), BindEdges(target, value))
      decreases target
    {
      if target.Display? {
        if value.Display? && |value.elts| == |target.elts| {
          var ts, vs := target.elts, value.elts;
          for i := 0 to |ts|
            invariant AddEdges(old(edges), BindAll(ts, vs)) == AddEdges(edges, BindAll(ts[i..], vs[i..]))
          {
            AddEdgesConcat(edges, BindEdges(ts[i], vs[i]), BindAll(ts[i..][1..], vs[i..][1..]));
            assert ts[i..][1..] == ts[i + 1..] && vs[i..][1..] == vs[i + 1..];
            Bind(ts[i], vs[i]);
          }
        }
        return;
      }
      if !target.Name? {
        return;
      }
      if value.Name? {
        edges := edges[value.id := Hops(edges, value.id) + [Hop(target.id, None)]];
      } else if value.Attribute? && value.value.Name? {
        edges := edges[value.value.id := Hops(edges, value.value.id) + [Hop(target.id, Some(value.attr))]];
      }
    }

    /** The initial worklist: every known fact about a name with an outgoing edge, once. */
    method InitialWork() returns (work: seq<Fact>)
      ensures forall f :: multiset(work)[f] == if f.name in edges && AsProblem().Known(f) then 1 else 0
    {
      work := [];
      var names := edges.Keys;
      while names != {}
        invariant names <= edges.Keys
        invariant forall f :: multiset(work)[f] ==
                    if f.name in edges && f.name !in names && AsProblem().Known(f) then 1 else 0
        decreases names
      {
        var name :| name in names;
        names := names - {name};
        var pending := ValuesOf(name);
        while pending != {}
          invariant pending <= ValuesOf(name)
          invariant forall f :: multiset(work)[f] ==
                      if f.name in edges && f.name !in names && AsProblem().Known(f)
                         && (f.name == name ==> f.binding !in pending) then 1 else 0
          decreases pending
        {
          var b :| b in pending;
          pending := pending - {b};
          work := work + [Fact(name, b)];
        }
      }
    }

    /** Push one fact along every edge of its name; returns the facts this stored for the first time. */
    method Visit(ghost p: Problem, f: Fact) returns (gained: seq<Fact>)
      requires p.receivers == receivers && p.edges == edges
      modifies this`values
      ensures Visited(p, old(values), values, f, gained)
    {
      gained := [];
      var hops := Hops(edges, f.name);
      for i := 0 to |hops|
        invariant forall g :: Stored(old(values), g) ==> Stored(values, g)
        invariant forall g :: multiset(gained)[g] == if Stored(values, g) && !Stored(old(values), g) then 1 else 0
        invariant forall g :: g in gained ==> p.Linked(f, g)
        invariant forall j, g | 0 <= j < i && p.Carries(hops[j], f, g) :: Stored(values, g)
      {
        var hop := hops[i];
        var next := Follow(receivers, f.binding, hop.attr);
        if next.Some? && next.value !in At(values, hop.target) {
          var g := Fact(hop.target, next.value);
          assert p.Carries(hop, f, g);
          Store(hop.target, next.value);
          gained := gained + [g];
        }
      }
    }

    /** One turn of the worklist loop: pop the last fact and push it on. */
    method PopOne(ghost p: Problem, work: seq<Fact>, ghost popped: seq<Fact>) returns (rest: seq<Fact>)
      requires work != [] && p.receivers == receivers && p.edges == edges
      requires Ready(p, values, work, popped)
      modifies this`values
      ensures Ready(p, values, rest, popped + [work[|work| - 1]])
      ensures Unstored(p, values) <= Unstored(p, old(values))
      ensures Unstored(p, values) < Unstored(p, old(values)) || |rest| < |work|
    {
      var f := work[|work| - 1];
      rest := work[..|work| - 1];
      assert work == rest + [f];
      var gained := Visit(p, f);
      VisitKeepsReady(p, old(values), values, rest, f, gained, popped);
      rest := rest + gained;
    }

    /**
     Push every known binding along the edges until no name gains a new one.
     `popped` records the facts in the order they are taken from the worklist.
     */
    method Propagate() returns (ghost popped: seq<Fact>)
      modifies this`values
      ensures Solution(old(AsProblem()), values, popped)
    {
      ghost var p := AsProblem();
      var work := InitialWork();
      popped := [];
      InitialIsReady(p, work);
      while work != []
        invariant Ready(p, values, work, popped)
        decreases Unstored(p, values), |work|
      {
        ghost var last := work[|work| - 1];
        work := PopOne(p, work, popped);
        popped := popped + [last];
      }
      ReadyIsSolved(p, values, popped);
    }
  }
}
