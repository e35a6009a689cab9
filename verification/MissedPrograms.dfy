/**
 What the scan misses: for every assignment the analysis does not follow, a
 program that runs a dangerous member and is not reported.
 */
module MissedPrograms {
  import opened Options
  import opened PythonAst
  import opened AliasBindings
  import opened CodeGuard
  import opened Executions
  import opened AliasFlows
  import opened Arrivals
  import AliasSoundness

  /** The guard's tables less the modules whose import is reported anyway. */
  function GuardUnannounced(): Receivers {
    AliasSoundness.Unannounced(Guarded([]))
  }

  /** Names the guard's tables know without any assignment. */
  predicate IsBuiltin(x: string) {
    x in RECEIVER_METHODS || x in CALL_NAMES || x == "getattr"
  }

  // --------------------------------------------------------------------
  // Names nothing leads to
  // --------------------------------------------------------------------

  /** No import and no recorded edge leads to the name. */
  ghost predicate Unreached(prog: Program, x: string) {
    && x !in ImplicitBindings(prog.receivers, prog.callNames)
    && (forall n, f | n in prog.nodes && f in NodeSeeds(prog.receivers, n) :: f.name != x)
    && (forall n, e | n in prog.nodes && e in NodeEdges(n) :: e.hop.target != x)
  }

  lemma UnreachedDenotesNothing(prog: Program, x: string, b: Binding)
    requires Unreached(prog, x)
    ensures !MayDenote(prog, Fact(x, b))
  {
    forall p | Describes(prog, p)
      ensures !p.Derivable(Fact(x, b))
    {
      if p.Derivable(Fact(x, b)) {
        var chain :| p.IsChain(chain) && chain[|chain| - 1] == Fact(x, b);
        UnreachedEndsNoChain(prog, p, x, b, chain);
      }
    }
  }

  lemma UnreachedEndsNoChain(prog: Program, p: Problem, x: string, b: Binding, chain: seq<Fact>)
    requires Unreached(prog, x) && Describes(prog, p) && p.IsChain(chain)
    ensures chain[|chain| - 1] != Fact(x, b)
  {
    var last := chain[|chain| - 1];
    if |chain| > 1 {
      assert p.Linked(chain[|chain| - 2], last);
      var h :| h in Hops(p.edges, chain[|chain| - 2].name) && p.Carries(h, chain[|chain| - 2], last);
      var n :| n in prog.nodes && Edge(chain[|chain| - 2].name, h) in NodeEdges(n);
    } else if Stored(p.values, last) {
      var n :| n in prog.nodes && last in NodeSeeds(prog.receivers, n);
    }
  }

  /** A call whose callee is such a name, or a member of it, is not reported. */
  lemma UnreachedCalleeIsSilent(prog: Program, func: Expr, args: seq<Expr>, x: string, t: Threat)
    requires Unreached(prog, x) && x !in prog.callNames
    requires func == Name(x) || (func.Attribute? && func.value == Name(x))
    ensures !CallReports(prog, func, args, t)
  {
    forall b ensures !MayDenote(prog, Fact(x, b)) { UnreachedDenotesNothing(prog, x, b); }
    forall b ensures !ResolvesTo(prog, func, b) {}
  }

  // --------------------------------------------------------------------
  // The missed program
  // --------------------------------------------------------------------

  /** Import a module under a name, assign, call. */
  function Missed(m: string, source: string, target: Expr, value: Expr, func: Expr, args: seq<Expr>): Program {
    Guarded([Import([ImportAlias(m, Some(source))]), Assign([target], value), Call(func, args)])
  }

  lemma MissedNodes(m: string, source: string, target: Expr, value: Expr, func: Expr, args: seq<Expr>)
    ensures var prog := Missed(m, source, target, value, func, args);
            && (forall n :: n in prog.nodes <==>
                  || n == Import([ImportAlias(m, Some(source))]) || n == Assign([target], value)
                     || n == Call(func, args))
            && NodeEdges(Assign([target], value)) == BindEdges(target, value)
  {
    OneTarget(target, value);
  }

  lemma MissedIsUnreached(m: string, source: string, target: Expr, value: Expr, func: Expr, args: seq<Expr>, x: string)
    requires !IsBuiltin(x) && x != source
    requires forall e | e in BindEdges(target, value) :: e.hop.target != x
    ensures Unreached(Missed(m, source, target, value, func, args), x)
  {
    var prog := Missed(m, source, target, value, func, args);
    MissedNodes(m, source, target, value, func, args);
    forall n, f | n in prog.nodes && f in NodeSeeds(prog.receivers, n)
      ensures f.name != x
    {
    }
    forall n, e | n in prog.nodes && e in NodeEdges(n)
      ensures e.hop.target != x
    {
    }
  }

  lemma MissedIsSilent(m: string, source: string, target: Expr, value: Expr, func: Expr, args: seq<Expr>, x: string,
                       t: Threat)
    requires !IsBuiltin(x) && x != source && (m == "builtins" || m == "os")
    requires forall e | e in BindEdges(target, value) :: e.hop.target != x
    requires func == Name(x) || (func.Attribute? && func.value == Name(x))
    ensures !Reported(Missed(m, source, target, value, func, args), t)
  {
    var prog := Missed(m, source, target, value, func, args);
    MissedNodes(m, source, target, value, func, args);
    MissedIsUnreached(m, source, target, value, func, args, x);
    UnreachedCalleeIsSilent(prog, func, args, x, t);
    ImportIsSilent(prog, m, source, t);
  }

  lemma ImportIsSilent(prog: Program, m: string, source: string, t: Threat)
    requires m == "builtins" || m == "os"
    requires prog.dangerousImports == DANGEROUS_IMPORTS
    ensures t !in ImportThreats(prog, Import([ImportAlias(m, Some(source))]))
  {
    NoDotNoRoot(m);
  }

  /** The stores of the run: nothing, the module, the module and the value. */
  function MissedRun(m: string, source: string, x: string, v: Value): seq<Store> {
    [map[], map[(0, source) := ModuleValue(m)], map[(0, source) := ModuleValue(m), (0, x) := v]]
  }

  lemma MissedRuns(m: string, source: string, target: Expr, value: Expr, func: Expr, args: seq<Expr>, x: string,
                   v: Value)
    requires BindWrites(map[source := ModuleValue(m)], target, value, x, v) && x != source
    ensures IsRun(Missed(m, source, target, value, func, args), MissedRun(m, source, x, v))
    ensures Visible(MissedRun(m, source, x, v)[2], map[source := ModuleValue(m), x := v])
  {
    var prog := Missed(m, source, target, value, func, args);
    MissedNodes(m, source, target, value, func, args);
    FirstStep(prog, m, source);
    SecondStep(prog, m, source, target, value, x, v);
    ThreeStores(prog, m, source, x, v);
  }

  lemma ThreeStores(prog: Program, m: string, source: string, x: string, v: Value)
    requires x != source
    requires Step(prog, map[], map[(0, source) := ModuleValue(m)])
    requires Step(prog, map[(0, source) := ModuleValue(m)], map[(0, source) := ModuleValue(m), (0, x) := v])
    ensures IsRun(prog, MissedRun(m, source, x, v))
    ensures Visible(MissedRun(m, source, x, v)[2], map[source := ModuleValue(m), x := v])
  {
    var last := MissedRun(m, source, x, v)[2];
    assert last[(0, source)] == ModuleValue(m) && last[(0, x)] == v;
  }

  lemma FirstStep(prog: Program, m: string, source: string)
    requires Import([ImportAlias(m, Some(source))]) in prog.nodes
    ensures Step(prog, map[], map[(0, source) := ModuleValue(m)])
  {
    var n, view: map<string, Value> := Import([ImportAlias(m, Some(source))]), map[];
    assert ImportAlias(m, Some(source)) in n.names;
    assert Writes(view, n, source, ModuleValue(m));
    assert Visible(map[], view);
  }

  lemma SecondStep(prog: Program, m: string, source: string, target: Expr, value: Expr, x: string, v: Value)
    requires Assign([target], value) in prog.nodes && x != source
    requires BindWrites(map[source := ModuleValue(m)], target, value, x, v)
    ensures Step(prog, map[(0, source) := ModuleValue(m)], map[(0, source) := ModuleValue(m), (0, x) := v])
  {
    var n, view := Assign([target], value), map[source := ModuleValue(m)];
    var before: Store := map[(0, source) := ModuleValue(m)];
    assert target in n.targets;
    assert Writes(view, n, x, v);
    assert before[(0, source)] == view[source];
    assert Visible(before, view);
  }

  // --------------------------------------------------------------------
  // The converse of soundness
  // --------------------------------------------------------------------

  /** Some module of the tables can carry a value by way of the attribute, and importing it is not reported. */
  lemma GuardCarrier(attr: Option<string>) returns (m: string)
    requires CanCarry(GuardUnannounced(), attr)
    ensures m == "builtins" || m == "os"
    ensures attr.Some? && attr.value != "getattr" ==> Dangerous(RECEIVER_METHODS, m, attr.value)
    ensures attr.None? || attr.value == "getattr" ==> m == "builtins"
  {
    m := "builtins";
    GuardMethodsOf();
    if attr.Some? && attr.value != "getattr" {
      var carrier :| carrier in GuardUnannounced() && attr.value in GuardUnannounced()[carrier];
      if attr.value in OS_EXEC_FUNCS { m := "os"; }
    }
  }

  lemma GuardMethodsOf()
    ensures RECEIVER_METHODS["builtins"] == CALL_NAMES && RECEIVER_METHODS["os"] == OS_EXEC_FUNCS
    ensures forall m | m in GuardUnannounced() ::
              GuardUnannounced()[m] == CALL_NAMES || GuardUnannounced()[m] == OS_EXEC_FUNCS
  {
    assert "subprocess" in DANGEROUS_IMPORTS;
  }

  /** How to run something dangerous with what has flowed into `x`. */
  function Callee(x: string, attr: Option<string>): Expr {
    if attr.None? then Attribute(Name(x), "eval") else Name(x)
  }

  function Arguments(source: string, attr: Option<string>): seq<Expr> {
    if attr == Some("getattr") then [Name(source), StrConst("eval")] else []
  }

  function Member(attr: Option<string>): string {
    if attr.None? || attr == Some("getattr") then "eval" else attr.value
  }

  lemma FlowReaches(prog: Program, m: string, source: string, x: string, attr: Option<string>)
    requires prog.receivers == RECEIVER_METHODS && x != source && (m == "builtins" || m == "os")
    requires attr.Some? && attr.value != "getattr" ==> Dangerous(RECEIVER_METHODS, m, attr.value)
    requires attr.None? || attr.value == "getattr" ==> m == "builtins"
    ensures Reaches(prog, map[source := ModuleValue(m), x := Take(ModuleValue(m), attr)],
                    Callee(x, attr), Arguments(source, attr), m, Member(attr))
  {
    var view := map[source := ModuleValue(m), x := Take(ModuleValue(m), attr)];
    assert MayBe(view, Name(x), Take(ModuleValue(m), attr));
    EvalIsDangerous();
    if attr == Some("getattr") {
      assert MayBe(view, Name(source), ModuleValue(m));
      assert MayBe(view, Callee(x, attr), MemberValue("builtins", "getattr"));
    }
  }

  lemma EvalIsDangerous()
    ensures Dangerous(RECEIVER_METHODS, "builtins", "eval")
  {
  }

  /**
   The converse of scan soundness. Let an assignment move what `source` holds,
   or a dangerous attribute of it, into a name that no recorded edge of the
   assignment leads to. Then there is a program with this assignment, and an
   execution of it, that reaches a dangerous member, and the scan of the program
   reports nothing.
   */
  lemma UnfollowedIsMissed(target: Expr, value: Expr, e: Edge)
      returns (prog: Program, run: seq<Store>, view: map<string, Value>, func: Expr, args: seq<Expr>, m: string,
               a: string)
    requires BindFlow(target, value, e) && CanCarry(GuardUnannounced(), e.hop.attr)
    requires forall d | d in BindEdges(target, value) :: d.hop.target != e.hop.target
    requires !IsBuiltin(e.hop.target) && e.hop.target != e.source
    ensures prog == Guarded(prog.nodes) && Assign([target], value) in prog.nodes && Call(func, args) in prog.nodes
    ensures IsRun(prog, run) && Visible(run[|run| - 1], view)
    ensures Reaches(prog, view, func, args, m, a)
    ensures forall t :: !Reported(prog, t)
  {
    var source, x, attr := e.source, e.hop.target, e.hop.attr;
    m := GuardCarrier(attr);
    var v := Take(ModuleValue(m), attr);
    func, args, a := Callee(x, attr), Arguments(source, attr), Member(attr);
    prog, run, view := Missed(m, source, target, value, func, args), MissedRun(m, source, x, v),
      map[source := ModuleValue(m), x := v];
    MissedNodes(m, source, target, value, func, args);
    BindFlowWrites(map[source := ModuleValue(m)], target, value, e);
    MissedRuns(m, source, target, value, func, args, x, v);
    FlowReaches(prog, m, source, x, attr);
    forall t ensures !Reported(prog, t) { MissedIsSilent(m, source, target, value, func, args, x, t); }
  }

  /** A name other than the given one and not known to the tables. */
  function Fresh(source: string): string {
    if source == "t" then "u" else "t"
  }

  /**
   For every expression the analysis does not follow there is such a program: it
   assigns the expression to a fresh name and calls what it finds there.
   */
  lemma UnfollowableIsMissed(e: Expr)
      returns (x: string, prog: Program, run: seq<Store>, view: map<string, Value>, func: Expr, args: seq<Expr>,
               m: string, a: string)
    requires !Followable(GuardUnannounced(), e)
    ensures prog == Guarded(prog.nodes) && Assign([Name(x)], e) in prog.nodes && Call(func, args) in prog.nodes
    ensures IsRun(prog, run) && Visible(run[|run| - 1], view)
    ensures Reaches(prog, view, func, args, m, a)
    ensures forall t :: !Reported(prog, t)
  {
    var source, attr :| Flow(e, source, attr) && CanCarry(GuardUnannounced(), attr);
    x := Fresh(source);
    FreshIsNoBuiltin(source);
    assert BindEdges(Name(x), e) == [];
    prog, run, view, func, args, m, a := UnfollowedIsMissed(Name(x), e, Edge(source, Hop(x, attr)));
  }

  lemma FreshIsNoBuiltin(source: string)
    ensures !IsBuiltin(Fresh(source)) && Fresh(source) != source
  {
    GuardModules();
    assert "t" !in CALL_NAMES && "u" !in CALL_NAMES;
  }

  lemma FollowableIsAccounted(e: Expr, x: string, prog: Program)
    requires Followable(GuardUnannounced(), e) && Assign([Name(x)], e) in prog.nodes
    requires forall n | n in prog.nodes && IsAssignment(n) :: n == Assign([Name(x)], e)
    ensures FollowsAssignments(GuardUnannounced(), prog.nodes)
  {
    forall n, d | n in prog.nodes && NodeFlow(n, d) && CanCarry(GuardUnannounced(), d.hop.attr)
      ensures Accounted(prog.nodes, d)
    {
      OneTarget(Name(x), e);
      assert d == Edge(d.source, Hop(d.hop.target, d.hop.attr)) && Flow(e, d.source, d.hop.attr);
      assert d in NodeEdges(n);
      RecordedIsAccounted(prog.nodes, d);
    }
  }

  lemma RecordedIsAccounted(nodes: seq<Node>, e: Edge)
    requires Recorded(nodes, e)
    ensures Accounted(nodes, e)
  {
    LeadsNowhere(nodes, e.source);
    LeadsNowhere(nodes, e.hop.target);
    assert e == Edge(e.source, Hop(e.hop.target, e.hop.attr));
    if e.hop.attr.None? { LeadsOn(nodes, e.source, e.source, e.hop.target); }
  }

  lemma GuardedUnannounced(nodes: seq<Node>)
    ensures AliasSoundness.Unannounced(Guarded(nodes)) == GuardUnannounced()
  {
  }

  /** And for an expression it does follow there is none: whatever else the
      program imports and calls, and however the result is called. */
  lemma FollowableIsNotMissed(e: Expr, x: string, prog: Program, func: Expr, args: seq<Expr>, m: string, a: string)
      returns (t: Threat)
    requires Followable(GuardUnannounced(), e)
    requires prog == Guarded(prog.nodes) && Assign([Name(x)], e) in prog.nodes && Call(func, args) in prog.nodes
    requires forall n | n in prog.nodes && IsAssignment(n) :: n == Assign([Name(x)], e)
    requires Followable(GuardUnannounced(), func)
    requires |args| >= 2 && AliasSoundness.GetattrArrives(prog, func) ==> Followable(GuardUnannounced(), args[0])
    requires IsReached(prog, func, args, m, a)
    ensures Reported(prog, t)
  {
    GuardTablesFit(prog.nodes);
    GuardedUnannounced(prog.nodes);
    if !AliasSoundness.SpeaksUp(prog) { FollowableIsHeardCall(e, x, prog, func, args); }
    t := AliasSoundness.ScanIsSound(prog, func, args, m, a);
  }

  lemma FollowableIsHeardCall(e: Expr, x: string, prog: Program, func: Expr, args: seq<Expr>)
    requires TablesFit(prog) && ImportsFit(prog) && AliasSoundness.Unannounced(prog) == GuardUnannounced()
    requires !AliasSoundness.SpeaksUp(prog)
    requires Followable(GuardUnannounced(), e) && Assign([Name(x)], e) in prog.nodes
    requires forall n | n in prog.nodes && IsAssignment(n) :: n == Assign([Name(x)], e)
    requires Followable(GuardUnannounced(), func)
    requires |args| >= 2 && AliasSoundness.GetattrArrives(prog, func) ==> Followable(GuardUnannounced(), args[0])
    ensures AliasSoundness.IsHeardCall(prog, func, args)
  {
    var some := GuardUnannounced();
    AliasSoundness.UnannouncedFits(prog);
    AliasSoundness.QuietArrivals(prog);
    FollowableIsAccounted(e, x, prog);
    AliasSoundness.AccountedFlowsSuffice(some, prog);
    AliasSoundness.FollowableIsHeard(some, prog, func);
    if |args| >= 2 && AliasSoundness.GetattrArrives(prog, func) {
      AliasSoundness.FollowableIsHeard(some, prog, args[0]);
    }
  }

  // --------------------------------------------------------------------
  // Two such programs
  // --------------------------------------------------------------------

  /** `import os; y = (x := os); y.system()`; the inner assignment is a node of its own. */
  function Nested(): Program {
    Guarded([Import([ImportAlias("os", None)]), Assign([Name("y")], OneOf([Name("os")])),
             NamedExpr(Name("x"), Name("os")), Call(Attribute(Name("y"), "system"), [])])
  }

  lemma NestedAssignmentIsMissed() returns (run: seq<Store>, view: map<string, Value>)
    ensures IsRun(Nested(), run) && Visible(run[|run| - 1], view)
    ensures Reaches(Nested(), view, Attribute(Name("y"), "system"), [], "os", "system")
    ensures forall t :: !Reported(Nested(), t)
  {
    run, view := MissedRun("os", "os", "y", ModuleValue("os")),
      map["os" := ModuleValue("os"), "y" := ModuleValue("os")];
    NestedRuns();
    SystemIsReached(Nested(), view, "y");
    forall t ensures !Reported(Nested(), t) { NestedIsSilent(t); }
  }

  lemma NestedRuns()
    ensures IsRun(Nested(), MissedRun("os", "os", "y", ModuleValue("os")))
    ensures Visible(MissedRun("os", "os", "y", ModuleValue("os"))[2],
                    map["os" := ModuleValue("os"), "y" := ModuleValue("os")])
  {
    NestedSteps(Nested());
    ThreeStores(Nested(), "os", "os", "y", ModuleValue("os"));
  }

  lemma NestedSteps(prog: Program)
    requires prog.nodes == Nested().nodes
    ensures Step(prog, map[], map[(0, "os") := ModuleValue("os")])
    ensures Step(prog, map[(0, "os") := ModuleValue("os")],
                 map[(0, "os") := ModuleValue("os"), (0, "y") := ModuleValue("os")])
  {
    assert prog.nodes[0] in prog.nodes && prog.nodes[1] in prog.nodes;
    PlainImportStep(prog, "os");
    PassedOn(map["os" := ModuleValue("os")]);
    SecondStep(prog, "os", "os", Name("y"), OneOf([Name("os")]), "y", ModuleValue("os"));
  }

  lemma PassedOn(view: map<string, Value>)
    requires "os" in view && view["os"] == ModuleValue("os")
    ensures BindWrites(view, Name("y"), OneOf([Name("os")]), "y", ModuleValue("os"))
  {
    assert MayBe(view, OneOf([Name("os")]).options[0], ModuleValue("os"));
  }

  lemma PlainImportStep(prog: Program, m: string)
    requires Import([ImportAlias(m, None)]) in prog.nodes && '.' !in m
    ensures Step(prog, map[], map[(0, m) := ModuleValue(m)])
  {
    var n, view: map<string, Value> := Import([ImportAlias(m, None)]), map[];
    NoDotNoRoot(m);
    assert ImportAlias(m, None) in n.names;
    assert Writes(view, n, m, ModuleValue(m));
    assert Visible(map[], view);
  }

  lemma NestedIsUnreached()
    ensures Unreached(Nested(), "y")
  {
    YIsNoBuiltin();
    forall n | n in Nested().nodes
      ensures NodeSeeds(RECEIVER_METHODS, n) == {} && forall e | e in NodeEdges(n) :: e.hop.target != "y"
    {
      NestedNode(RECEIVER_METHODS, n);
    }
  }

  lemma NestedNode(receivers: Receivers, n: Node)
    requires || n == Import([ImportAlias("os", None)]) || n == Assign([Name("y")], OneOf([Name("os")]))
             || n == NamedExpr(Name("x"), Name("os")) || n == Call(Attribute(Name("y"), "system"), [])
    ensures NodeSeeds(receivers, n) == {} && forall e | e in NodeEdges(n) :: e.hop.target != "y"
  {
    OneTarget(Name("y"), OneOf([Name("os")]));
    assert BindEdges(Name("y"), OneOf([Name("os")])) == [];
  }

  lemma NestedIsSilent(t: Threat)
    ensures !Reported(Nested(), t)
  {
    var prog := Nested();
    var call := prog.nodes[3];
    NestedIsUnreached();
    YIsNoBuiltin();
    UnreachedCalleeIsSilent(prog, call.func, call.args, "y", t);
    NoDotNoRoot("os");
  }

  lemma YIsNoBuiltin()
    ensures "y" !in ImplicitBindings(RECEIVER_METHODS, CALL_NAMES) && "y" !in CALL_NAMES
  {
    GuardModules();
  }

  lemma SystemIsReached(prog: Program, view: map<string, Value>, x: string)
    requires prog.receivers == RECEIVER_METHODS && x in view && view[x] == ModuleValue("os")
    ensures Reaches(prog, view, Attribute(Name(x), "system"), [], "os", "system")
  {
    assert MayBe(view, Name(x), ModuleValue("os"));
    assert "system" in OS_EXEC_FUNCS;
  }

  /** `import os as o; a, b = (o, 1) if c else (1, 2); a.system()`: unpacking does not look into a conditional. */
  lemma ConditionalUnpackingIsMissed()
      returns (prog: Program, run: seq<Store>, view: map<string, Value>, func: Expr, args: seq<Expr>, m: string,
               a: string)
    ensures Assign([Display([Name("a"), Name("b")])], OneOf([Display([Name("o"), Opaque]), Display([Opaque, Opaque])]))
            in prog.nodes
    ensures prog == Guarded(prog.nodes) && Call(func, args) in prog.nodes
    ensures IsRun(prog, run) && Visible(run[|run| - 1], view)
    ensures Reaches(prog, view, func, args, m, a)
    ensures forall t :: !Reported(prog, t)
  {
    var target, value := Display([Name("a"), Name("b")]),
      OneOf([Display([Name("o"), Opaque]), Display([Opaque, Opaque])]);
    var e := Edge("o", Hop("a", None));
    assert BindFlow(target.elts[0], value.options[0].elts[0], e);
    assert BindFlow(target, value.options[0], e);
    assert BindEdges(target, value) == [];
    AIsNoBuiltin();
    prog, run, view, func, args, m, a := UnfollowedIsMissed(target, value, e);
  }

  lemma AIsNoBuiltin()
    ensures !IsBuiltin("a")
  {
    GuardModules();
  }

  // --------------------------------------------------------------------
  // A program with a choice that does no harm
  // --------------------------------------------------------------------

  /** `x = a or b; import os as o; o.system(a or b)` */
  function Harmless(): Program {
    Guarded([Assign([Name("x")], OneOf([Name("a"), Name("b")])), Import([ImportAlias("os", Some("o"))]),
             Call(Attribute(Name("o"), "system"), [OneOf([Name("a"), Name("b")])])])
  }

  lemma HarmlessNode(receivers: Receivers, n: Node)
    requires || n == Assign([Name("x")], OneOf([Name("a"), Name("b")])) || n == Import([ImportAlias("os", Some("o"))])
             || n == Call(Attribute(Name("o"), "system"), [OneOf([Name("a"), Name("b")])])
    ensures NodeEdges(n) == [] && forall f | f in NodeSeeds(receivers, n) :: f.name == "o"
    ensures forall e | NodeFlow(n, e) :: e.source == "a" || e.source == "b"
  {
    OneTarget(Name("x"), OneOf([Name("a"), Name("b")]));
    assert BindEdges(Name("x"), OneOf([Name("a"), Name("b")])) == [];
  }

  lemma HarmlessIsUnreached(x: string)
    requires x == "a" || x == "b"
    ensures Unreached(Harmless(), x)
  {
    LetterIsNoBuiltin(x);
    forall n | n in Harmless().nodes
      ensures NodeEdges(n) == [] && forall f | f in NodeSeeds(RECEIVER_METHODS, n) :: f.name == "o"
    {
      HarmlessNode(RECEIVER_METHODS, n);
    }
    NothingLeadsTo(Harmless(), x);
  }

  lemma LetterIsNoBuiltin(x: string)
    requires x == "a" || x == "b"
    ensures x !in ImplicitBindings(RECEIVER_METHODS, CALL_NAMES)
  {
    GuardModules();
  }

  lemma NothingLeadsTo(prog: Program, x: string)
    requires x !in ImplicitBindings(prog.receivers, prog.callNames) && x != "o"
    requires forall n | n in prog.nodes ::
               NodeEdges(n) == [] && forall f | f in NodeSeeds(prog.receivers, n) :: f.name == "o"
    ensures Unreached(prog, x)
  {
  }

  lemma HarmlessFlow(n: Node, e: Edge, b: Binding)
    requires n in Harmless().nodes && NodeFlow(n, e)
    ensures !MayDenote(Harmless(), Fact(e.source, b))
  {
    HarmlessNode(RECEIVER_METHODS, n);
    HarmlessIsUnreached(e.source);
    UnreachedDenotesNothing(Harmless(), e.source, b);
  }

  lemma KeepsFlowsKnown(prog: Program)
    requires forall n, e, b | n in prog.nodes && NodeFlow(n, e) :: !MayDenote(prog, Fact(e.source, b))
    ensures AliasSoundness.FlowsStayKnown(prog)
  {
  }

  lemma HarmlessImportsNoStar()
    ensures AliasSoundness.NoStars(Harmless())
  {
  }

  lemma SystemIsHeard(prog: Program, args: seq<Expr>)
    requires AliasSoundness.ArrivalsAreKnown(prog) && |args| < 2
    ensures AliasSoundness.IsHeardCall(prog, Attribute(Name("o"), "system"), args)
  {
    AliasSoundness.DirectIsHeard(prog, Attribute(Name("o"), "system"));
  }

  /** An expression the analysis does not look into does no harm where nothing arrives at it. */
  lemma HarmlessChoiceIsFollowed()
    ensures AliasSoundness.ArrivalsAreKnown(Harmless())
    ensures AliasSoundness.IsHeardCall(Harmless(), Attribute(Name("o"), "system"), [OneOf([Name("a"), Name("b")])])
  {
    GuardTablesFit(Harmless().nodes);
    forall n, e, b | n in Harmless().nodes && NodeFlow(n, e)
      ensures !MayDenote(Harmless(), Fact(e.source, b))
    {
      HarmlessFlow(n, e, b);
    }
    KeepsFlowsKnown(Harmless());
    HarmlessImportsNoStar();
    AliasSoundness.KnownFlowsSuffice(Harmless());
    SystemIsHeard(Harmless(), [OneOf([Name("a"), Name("b")])]);
  }
}
