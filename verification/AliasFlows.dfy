/**
 Where the values of a program flow, and exactly when the recorded assignment
 edges account for it.
 */
module AliasFlows {
  import opened Options
  import opened PythonAst
  import opened AliasBindings
  import opened CodeGuard
  import opened Executions

  /** The binding that stands for a value the tables track. */
  function Tag(receivers: Receivers, v: Value): Option<Binding> {
    match v
    case ModuleValue(m) => if m in receivers then Some(Binding(m, None)) else None
    case MemberValue(m, a) => if Tracked(receivers, m, a) then Some(Binding(m, Some(a))) else None
    case Untracked => None
  }

  /** What the analysis needs of a table. */
  ghost predicate IsTable(receivers: Receivers) {
    BUILTINS_MODULES <= receivers.Keys && forall m | m in receivers :: "getattr" !in receivers[m]
  }

  // --------------------------------------------------------------------
  // Flows
  // --------------------------------------------------------------------

  /** The value of `e` may be what `source` holds, or its attribute. */
  predicate Flow(e: Expr, source: string, attr: Option<string>)
    decreases e
  {
    match e
    case Name(x) => source == x && attr == None
    case Attribute(base, a) => attr == Some(a) && Flow(base, source, None)
    case OneOf(options) => exists i | 0 <= i < |options| :: Flow(options[i], source, attr)
    case _ => false
  }

  /** Binding `value` to `target` may move a value along the edge. */
  predicate BindFlow(target: Expr, value: Expr, e: Edge)
    decreases target, value
  {
    match target
    case Name(t) => e.hop.target == t && Flow(value, e.source, e.hop.attr)
    case Display(ts) =>
      (match value
       case Display(vs) => |vs| == |ts| && exists i | 0 <= i < |ts| :: BindFlow(ts[i], vs[i], e)
       case OneOf(options) => exists i | 0 <= i < |options| :: BindFlow(target, options[i], e)
       case _ => false)
    case _ => false
  }

  predicate IsAssignment(n: Node) {
    n.Assign? || n.AnnAssign? || n.NamedExpr?
  }

  predicate NodeFlow(n: Node, e: Edge) {
    match n
    case Assign(targets, value) => exists t | t in targets :: BindFlow(t, value, e)
    case AnnAssign(target, initial) => initial.Some? && BindFlow(target, initial.value, e)
    case NamedExpr(target, value) => BindFlow(target, value, e)
    case _ => false
  }

  lemma {:induction false} FlowIsValue(view: map<string, Value>, e: Expr, source: string, attr: Option<string>)
    requires Flow(e, source, attr)
    ensures MayBe(view, e, Take(Lookup(view, source), attr))
    decreases e
  {
    match e
    case Name(_) =>
    case Attribute(base, a) => FlowIsValue(view, base, source, None);
    case OneOf(options) =>
      var i :| 0 <= i < |options| && Flow(options[i], source, attr);
      FlowIsValue(view, options[i], source, attr);
    case _ =>
  }

  lemma {:induction false} ValueIsFlow(view: map<string, Value>, e: Expr, v: Value)
      returns (source: string, attr: Option<string>)
    requires MayBe(view, e, v) && v != Untracked
    ensures Flow(e, source, attr) && v == Take(Lookup(view, source), attr)
    decreases e
  {
    match e
    case Name(x) => source, attr := x, None;
    case Attribute(base, a) =>
      var b :| MayBe(view, base, b) && v == Take(b, Some(a));
      source, attr := ValueIsFlow(view, base, b);
      attr := Some(a);
    case OneOf(options) =>
      var i :| 0 <= i < |options| && MayBe(view, options[i], v);
      source, attr := ValueIsFlow(view, options[i], v);
    case _ =>
  }

  lemma {:induction false} BindFlowWrites(view: map<string, Value>, target: Expr, value: Expr, e: Edge)
    requires BindFlow(target, value, e)
    ensures BindWrites(view, target, value, e.hop.target, Take(Lookup(view, e.source), e.hop.attr))
    decreases target, value
  {
    match target
    case Name(_) => FlowIsValue(view, value, e.source, e.hop.attr);
    case Display(ts) =>
      if value.Display? {
        var i :| 0 <= i < |ts| && BindFlow(ts[i], value.elts[i], e);
        BindFlowWrites(view, ts[i], value.elts[i], e);
      } else {
        var i :| 0 <= i < |value.options| && BindFlow(target, value.options[i], e);
        BindFlowWrites(view, target, value.options[i], e);
      }
    case _ =>
  }

  lemma {:induction false} BindWriteFlows(view: map<string, Value>, target: Expr, value: Expr, x: string, v: Value)
      returns (e: Edge)
    requires BindWrites(view, target, value, x, v) && v != Untracked
    ensures BindFlow(target, value, e) && e.hop.target == x && v == Take(Lookup(view, e.source), e.hop.attr)
    decreases target, value
  {
    match target
    case Name(t) =>
      var source, attr := ValueIsFlow(view, value, v);
      e := Edge(source, Hop(t, attr));
    case Display(ts) =>
      if value.Display? {
        var i :| 0 <= i < |ts| && BindWrites(view, ts[i], value.elts[i], x, v);
        e := BindWriteFlows(view, ts[i], value.elts[i], x, v);
      } else {
        var i :| 0 <= i < |value.options| && BindWrites(view, target, value.options[i], x, v);
        e := BindWriteFlows(view, target, value.options[i], x, v);
      }
    case _ =>
  }

  /** An assignment moves values exactly along its flows. */
  lemma NodeWriteFlows(view: map<string, Value>, n: Node, x: string, v: Value) returns (e: Edge)
    requires IsAssignment(n) && Writes(view, n, x, v) && v != Untracked
    ensures NodeFlow(n, e) && e.hop.target == x && v == Take(Lookup(view, e.source), e.hop.attr)
  {
    match n
    case Assign(targets, value) =>
      var t :| t in targets && BindWrites(view, t, value, x, v);
      e := BindWriteFlows(view, t, value, x, v);
    case AnnAssign(target, initial) => e := BindWriteFlows(view, target, initial.value, x, v);
    case NamedExpr(target, value) => e := BindWriteFlows(view, target, value, x, v);
  }

  lemma NodeFlowWrites(view: map<string, Value>, n: Node, e: Edge)
    requires NodeFlow(n, e)
    ensures Writes(view, n, e.hop.target, Take(Lookup(view, e.source), e.hop.attr))
  {
    match n
    case Assign(targets, value) =>
      var t :| t in targets && BindFlow(t, value, e);
      BindFlowWrites(view, t, value, e);
    case AnnAssign(target, initial) => BindFlowWrites(view, target, initial.value, e);
    case NamedExpr(target, value) => BindFlowWrites(view, target, value, e);
    case _ =>
  }

  // --------------------------------------------------------------------
  // Recorded edges
  // --------------------------------------------------------------------

  /** The analysis records the edge. */
  ghost predicate Recorded(nodes: seq<Node>, e: Edge) {
    exists n :: n in nodes && e in NodeEdges(n)
  }

  /** Names, each assigned the one before. */
  ghost predicate IsPath(nodes: seq<Node>, path: seq<string>) {
    && |path| > 0
    && forall i | 0 < i < |path| :: Recorded(nodes, Edge(path[i - 1], Hop(path[i], None)))
  }

  ghost predicate Leads(nodes: seq<Node>, x: string, y: string) {
    exists path :: IsPath(nodes, path) && path[0] == x && path[|path| - 1] == y
  }

  /** Recorded edges, one after the other, do what the flow does. */
  ghost predicate Accounted(nodes: seq<Node>, e: Edge) {
    match e.hop.attr
    case None => Leads(nodes, e.source, e.hop.target)
    case Some(a) =>
      exists y, z ::
        Leads(nodes, e.source, y) && Recorded(nodes, Edge(y, Hop(z, Some(a)))) && Leads(nodes, z, e.hop.target)
  }

  predicate SomeTracked(receivers: Receivers, attr: string) {
    attr == "getattr" || exists m | m in receivers :: attr in receivers[m]
  }

  /** A tracked value can come by way of the attribute at all. */
  predicate CanCarry(receivers: Receivers, attr: Option<string>) {
    attr.Some? ==> SomeTracked(receivers, attr.value)
  }

  /** The condition: no assignment moves a tracked value where no recorded edges lead. */
  ghost predicate FollowsAssignments(receivers: Receivers, nodes: seq<Node>) {
    forall n, e | n in nodes && NodeFlow(n, e) && CanCarry(receivers, e.hop.attr) :: Accounted(nodes, e)
  }

  lemma LeadsNowhere(nodes: seq<Node>, x: string)
    ensures Leads(nodes, x, x)
  {
    assert IsPath(nodes, [x]);
  }

  lemma LeadsOn(nodes: seq<Node>, x: string, y: string, z: string)
    requires Leads(nodes, x, y) && Recorded(nodes, Edge(y, Hop(z, None)))
    ensures Leads(nodes, x, z)
  {
    var path :| IsPath(nodes, path) && path[0] == x && path[|path| - 1] == y;
    var longer := path + [z];
    forall i | 0 < i < |longer|
      ensures Recorded(nodes, Edge(longer[i - 1], Hop(longer[i], None)))
    {
      if i < |path| { assert longer[i] == path[i] && longer[i - 1] == path[i - 1]; }
    }
    assert IsPath(nodes, longer);
  }

  // --------------------------------------------------------------------
  // What the analysis knows
  // --------------------------------------------------------------------

  /** Whatever tracked value a name holds is known of it. */
  ghost predicate Covers(receivers: Receivers, known: iset<Fact>, view: map<string, Value>) {
    forall x :: Tag(receivers, Lookup(view, x)).Some? ==> Fact(x, Tag(receivers, Lookup(view, x)).value) in known
  }

  /** Nothing is left to propagate. */
  ghost predicate Closed(receivers: Receivers, known: iset<Fact>, nodes: seq<Node>) {
    forall e, b | Recorded(nodes, e) && Fact(e.source, b) in known && Follow(receivers, b, e.hop.attr).Some? ::
      Fact(e.hop.target, Follow(receivers, b, e.hop.attr).value) in known
  }

  lemma ClosedEdge(receivers: Receivers, known: iset<Fact>, nodes: seq<Node>, e: Edge, b: Binding)
    requires Closed(receivers, known, nodes) && Recorded(nodes, e) && Fact(e.source, b) in known
    requires Follow(receivers, b, e.hop.attr).Some?
    ensures Fact(e.hop.target, Follow(receivers, b, e.hop.attr).value) in known
  {
  }

  lemma {:induction false} KnownAlongPath(receivers: Receivers, known: iset<Fact>, nodes: seq<Node>, path: seq<string>,
                                          b: Binding)
    requires Closed(receivers, known, nodes) && IsPath(nodes, path) && Fact(path[0], b) in known
    ensures Fact(path[|path| - 1], b) in known
    decreases |path|
  {
    if |path| > 1 {
      var shorter := path[..|path| - 1];
      forall i | 0 < i < |shorter|
        ensures Recorded(nodes, Edge(shorter[i - 1], Hop(shorter[i], None)))
      {
        assert shorter[i] == path[i] && shorter[i - 1] == path[i - 1];
      }
      KnownAlongPath(receivers, known, nodes, shorter, b);
      ClosedEdge(receivers, known, nodes, Edge(path[|path| - 2], Hop(path[|path| - 1], None)), b);
    }
  }

  lemma KnownWhereLed(receivers: Receivers, known: iset<Fact>, nodes: seq<Node>, x: string, y: string, b: Binding)
    requires Closed(receivers, known, nodes) && Leads(nodes, x, y) && Fact(x, b) in known
    ensures Fact(y, b) in known
  {
    var path :| IsPath(nodes, path) && path[0] == x && path[|path| - 1] == y;
    KnownAlongPath(receivers, known, nodes, path, b);
  }

  /** A table that is part of another one. */
  ghost predicate PartOf(some: Receivers, receivers: Receivers) {
    some.Keys <= receivers.Keys && forall m | m in some :: some[m] == receivers[m]
  }

  /** A binding that moves along an accounted flow stays known. */
  lemma AccountedFactIsKnown(receivers: Receivers, known: iset<Fact>, nodes: seq<Node>, e: Edge, b: Binding)
    requires Closed(receivers, known, nodes) && Accounted(nodes, e) && Fact(e.source, b) in known
    requires Follow(receivers, b, e.hop.attr).Some?
    ensures Fact(e.hop.target, Follow(receivers, b, e.hop.attr).value) in known
  {
    match e.hop.attr
    case None => KnownWhereLed(receivers, known, nodes, e.source, e.hop.target, b);
    case Some(a) =>
      var y, z :|
        Leads(nodes, e.source, y) && Recorded(nodes, Edge(y, Hop(z, Some(a)))) && Leads(nodes, z, e.hop.target);
      KnownWhereLed(receivers, known, nodes, e.source, y, b);
      ClosedEdge(receivers, known, nodes, Edge(y, Hop(z, Some(a))), b);
      KnownWhereLed(receivers, known, nodes, z, e.hop.target, Binding(b.mod, Some(a)));
  }

  lemma AccountedIsKnown(some: Receivers, receivers: Receivers, known: iset<Fact>, nodes: seq<Node>,
                         view: map<string, Value>, e: Edge)
    requires IsTable(some) && PartOf(some, receivers)
    requires Covers(some, known, view) && Closed(receivers, known, nodes) && Accounted(nodes, e)
    requires Tag(some, Take(Lookup(view, e.source), e.hop.attr)).Some?
    ensures Fact(e.hop.target, Tag(some, Take(Lookup(view, e.source), e.hop.attr)).value) in known
  {
    assert Tag(some, Lookup(view, e.source)).Some?;
    AccountedFactIsKnown(receivers, known, nodes, e, Tag(some, Lookup(view, e.source)).value);
  }

  lemma CarriedByFlow(receivers: Receivers, v: Value, attr: Option<string>)
    requires Tag(receivers, Take(v, attr)).Some?
    ensures CanCarry(receivers, attr)
  {
  }

  /** Under the condition, whatever tracked value an assignment writes is known. */
  lemma WritesAreKnown(some: Receivers, receivers: Receivers, known: iset<Fact>, nodes: seq<Node>,
                       view: map<string, Value>, n: Node, x: string, v: Value)
    requires IsTable(some) && PartOf(some, receivers) && FollowsAssignments(some, nodes)
    requires Covers(some, known, view) && Closed(receivers, known, nodes)
    requires n in nodes && IsAssignment(n) && Writes(view, n, x, v) && Tag(some, v).Some?
    ensures Fact(x, Tag(some, v).value) in known
  {
    var e := NodeWriteFlows(view, n, x, v);
    CarriedByFlow(some, Lookup(view, e.source), e.hop.attr);
    AccountedIsKnown(some, receivers, known, nodes, view, e);
  }

  // --------------------------------------------------------------------
  // The condition is exact
  // --------------------------------------------------------------------

  /** The analysis keeps up with every assignment, whatever the names hold. */
  ghost predicate KeepsUp(receivers: Receivers, nodes: seq<Node>) {
    forall known, view, n, x, v |
      && Covers(receivers, known, view) && Closed(receivers, known, nodes)
      && n in nodes && IsAssignment(n) && Writes(view, n, x, v) && Tag(receivers, v).Some? ::
      Fact(x, Tag(receivers, v).value) in known
  }

  /** What follows from the names' values and the recorded edges, and nothing else. */
  ghost predicate Follows(receivers: Receivers, nodes: seq<Node>, view: map<string, Value>, f: Fact) {
    exists source, attr ::
      && Accounted(nodes, Edge(source, Hop(f.name, attr)))
      && Tag(receivers, Take(Lookup(view, source), attr)) == Some(f.binding)
      && Tag(receivers, Lookup(view, source)).Some?
  }

  lemma FollowsCovers(receivers: Receivers, nodes: seq<Node>, view: map<string, Value>, x: string)
    requires Tag(receivers, Lookup(view, x)).Some?
    ensures Follows(receivers, nodes, view, Fact(x, Tag(receivers, Lookup(view, x)).value))
  {
    LeadsNowhere(nodes, x);
    assert Accounted(nodes, Edge(x, Hop(x, None)));
  }

  lemma AccountedOn(nodes: seq<Node>, source: string, attr: Option<string>, y: string, z: string)
    requires Accounted(nodes, Edge(source, Hop(y, attr))) && Recorded(nodes, Edge(y, Hop(z, None)))
    ensures Accounted(nodes, Edge(source, Hop(z, attr)))
  {
    match attr
    case None => LeadsOn(nodes, source, y, z);
    case Some(a) =>
      var p, q :| Leads(nodes, source, p) && Recorded(nodes, Edge(p, Hop(q, Some(a)))) && Leads(nodes, q, y);
      LeadsOn(nodes, q, y, z);
  }

  lemma FollowsClosed(receivers: Receivers, nodes: seq<Node>, view: map<string, Value>, e: Edge, b: Binding)
    requires IsTable(receivers) && Recorded(nodes, e)
    requires Follows(receivers, nodes, view, Fact(e.source, b)) && Follow(receivers, b, e.hop.attr).Some?
    ensures Follows(receivers, nodes, view, Fact(e.hop.target, Follow(receivers, b, e.hop.attr).value))
  {
    var source, attr :|
      && Accounted(nodes, Edge(source, Hop(e.source, attr)))
      && Tag(receivers, Take(Lookup(view, source), attr)) == Some(b)
      && Tag(receivers, Lookup(view, source)).Some?;
    match e.hop.attr
    case None => AccountedOn(nodes, source, attr, e.source, e.hop.target);
    case Some(a) =>
      LeadsNowhere(nodes, e.hop.target);
      assert Accounted(nodes, Edge(source, Hop(e.hop.target, Some(a))));
  }

  /** A module that has the attribute, and for which the attribute is tracked. */
  lemma Carrier(receivers: Receivers, attr: Option<string>) returns (m: string)
    requires IsTable(receivers) && CanCarry(receivers, attr)
    ensures m in receivers && Tag(receivers, Take(ModuleValue(m), attr)).Some?
  {
    m := "builtins";
    if attr.Some? && attr.value != "getattr" { m :| m in receivers && attr.value in receivers[m]; }
  }

  /** Only `source` holds a tracked module, and nothing else holds its tracked attribute. */
  function Lone(source: string, m: string, attr: Option<string>): map<string, Value> {
    map["__builtins__" := Untracked, (if attr.Some? then attr.value else source) := Untracked][source := ModuleValue(m)]
  }

  lemma LoneCarrier(receivers: Receivers, nodes: seq<Node>, e: Edge, m: string)
    requires IsTable(receivers) && Tag(receivers, Take(ModuleValue(m), e.hop.attr)).Some?
    requires m in receivers && !Accounted(nodes, e)
    ensures var view := Lone(e.source, m, e.hop.attr);
            !Follows(receivers, nodes, view, Fact(e.hop.target, Tag(receivers, Take(ModuleValue(m), e.hop.attr)).value))
  {
    var view := Lone(e.source, m, e.hop.attr);
    var b := Tag(receivers, Take(ModuleValue(m), e.hop.attr)).value;
    assert e == Edge(e.source, Hop(e.hop.target, e.hop.attr));
    forall source, attr | Accounted(nodes, Edge(source, Hop(e.hop.target, attr)))
      ensures !(Tag(receivers, Take(Lookup(view, source), attr)) == Some(b)
                && Tag(receivers, Lookup(view, source)).Some?)
    {
    }
  }

  /**
   Exactly which assignments `_bind` accounts for, unpacking included: the
   analysis keeps up with every assignment of a program, whatever the names
   hold, if and only if each flow that can carry a tracked value is accounted for by
   recorded edges.
   */
  lemma FollowingIsExact(receivers: Receivers, nodes: seq<Node>)
    requires IsTable(receivers)
    ensures FollowsAssignments(receivers, nodes) <==> KeepsUp(receivers, nodes)
  {
    if FollowsAssignments(receivers, nodes) {
      forall known, view, n, x, v |
        && Covers(receivers, known, view) && Closed(receivers, known, nodes)
        && n in nodes && IsAssignment(n) && Writes(view, n, x, v) && Tag(receivers, v).Some?
        ensures Fact(x, Tag(receivers, v).value) in known
      {
        WritesAreKnown(receivers, receivers, known, nodes, view, n, x, v);
      }
    } else {
      var n, e :| n in nodes && NodeFlow(n, e) && CanCarry(receivers, e.hop.attr) && !Accounted(nodes, e);
      UnaccountedFallsBehind(receivers, nodes, n, e);
    }
  }

  /** All that follows. */
  ghost function Known(receivers: Receivers, nodes: seq<Node>, view: map<string, Value>): iset<Fact> {
    iset f | Follows(receivers, nodes, view, f) :: f
  }

  lemma KnownIsClosed(receivers: Receivers, nodes: seq<Node>, view: map<string, Value>)
    requires IsTable(receivers)
    ensures Covers(receivers, Known(receivers, nodes, view), view)
    ensures Closed(receivers, Known(receivers, nodes, view), nodes)
  {
    forall x | Tag(receivers, Lookup(view, x)).Some?
      ensures Follows(receivers, nodes, view, Fact(x, Tag(receivers, Lookup(view, x)).value))
    {
      FollowsCovers(receivers, nodes, view, x);
    }
    forall e, b | && Recorded(nodes, e) && Follows(receivers, nodes, view, Fact(e.source, b))
                  && Follow(receivers, b, e.hop.attr).Some?
      ensures Follows(receivers, nodes, view, Fact(e.hop.target, Follow(receivers, b, e.hop.attr).value))
    {
      FollowsClosed(receivers, nodes, view, e, b);
    }
  }

  lemma LoneValue(source: string, m: string, attr: Option<string>)
    ensures Lookup(Lone(source, m, attr), source) == ModuleValue(m)
  {
  }

  lemma UnaccountedFallsBehind(receivers: Receivers, nodes: seq<Node>, n: Node, e: Edge)
    requires IsTable(receivers)
    requires n in nodes && NodeFlow(n, e) && CanCarry(receivers, e.hop.attr) && !Accounted(nodes, e)
    ensures !KeepsUp(receivers, nodes)
  {
    var m := Carrier(receivers, e.hop.attr);
    var view := Lone(e.source, m, e.hop.attr);
    var known := Known(receivers, nodes, view);
    LoneCarrier(receivers, nodes, e, m);
    KnownIsClosed(receivers, nodes, view);
    NodeFlowWrites(view, n, e);
    LoneValue(e.source, m, e.hop.attr);
    LeftBehind(receivers, nodes, known, view, n, e.hop.target, Take(ModuleValue(m), e.hop.attr));
  }

  lemma LeftBehind(receivers: Receivers, nodes: seq<Node>, known: iset<Fact>, view: map<string, Value>, n: Node,
                   x: string, v: Value)
    requires Covers(receivers, known, view) && Closed(receivers, known, nodes)
    requires n in nodes && IsAssignment(n) && Writes(view, n, x, v) && Tag(receivers, v).Some?
    requires Fact(x, Tag(receivers, v).value) !in known
    ensures !KeepsUp(receivers, nodes)
  {
  }

  // --------------------------------------------------------------------
  // Callees and arguments
  // --------------------------------------------------------------------

  /** What `resolve` finds for an expression, given the facts known about names. */
  ghost predicate ResolvedIn(known: iset<Fact>, e: Expr, b: Binding) {
    match e
    case Name(x) => Fact(x, b) in known
    case Attribute(Name(x), a) => b.member == Some(a) && Fact(x, Binding(b.mod, None)) in known
    case _ => false
  }

  predicate IsNameOrMember(e: Expr) {
    e.Name? || (e.Attribute? && e.value.Name?)
  }

  /** The condition: `resolve` looks into the expression, or there is nothing in it to find. */
  ghost predicate Followable(receivers: Receivers, e: Expr) {
    IsNameOrMember(e) || forall source, attr | Flow(e, source, attr) :: !CanCarry(receivers, attr)
  }

  lemma FollowedIsResolved(receivers: Receivers, known: iset<Fact>, view: map<string, Value>, e: Expr, v: Value)
    requires IsTable(receivers) && Followable(receivers, e) && Covers(receivers, known, view)
    requires MayBe(view, e, v) && Tag(receivers, v).Some?
    ensures ResolvedIn(known, e, Tag(receivers, v).value)
  {
    var source, attr := ValueIsFlow(view, e, v);
    CarriedByFlow(receivers, Lookup(view, source), attr);
    assert e == if attr.None? then Name(source) else Attribute(Name(source), attr.value);
    assert Tag(receivers, Lookup(view, source)).Some?;
  }

  /**
   Exactly which expressions `resolve` handles: whatever the names hold, each
   tracked value the expression may have is among the resolved bindings, if and
   only if the expression is followable.
   */
  lemma FollowableIsExact(receivers: Receivers, e: Expr)
    requires IsTable(receivers)
    ensures Followable(receivers, e) <==>
            forall known, view, v | Covers(receivers, known, view) && MayBe(view, e, v) && Tag(receivers, v).Some? ::
              ResolvedIn(known, e, Tag(receivers, v).value)
  {
    if Followable(receivers, e) {
      forall known, view, v | Covers(receivers, known, view) && MayBe(view, e, v) && Tag(receivers, v).Some?
        ensures ResolvedIn(known, e, Tag(receivers, v).value)
      {
        FollowedIsResolved(receivers, known, view, e, v);
      }
    } else {
      var source, attr :| Flow(e, source, attr) && CanCarry(receivers, attr);
      var m := Carrier(receivers, attr);
      var view := map[source := ModuleValue(m)];
      var everything := iset f: Fact | f.name == f.name :: f;
      FlowIsValue(view, e, source, attr);
      assert Covers(receivers, everything, view);
      assert !ResolvedIn(everything, e, Tag(receivers, Take(ModuleValue(m), attr)).value);
    }
  }
}
