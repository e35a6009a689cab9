/**
 The structural layer of the code guard: its tables, what a program's nodes
 contribute, and the scan built on the alias analysis.
 */
module CodeGuard {
  import opened Options
  import opened PythonAst
  import opened AliasBindings
  import opened AliasCost

  datatype Threat =
    | ImportedRoot(root: string)
    | ImportedMember(mod: string, member: string)
    | DirectCall(name: string)
    | MemberCall(mod: string, member: string)
    // `attr` is `None` when the attribute is chosen at run time.
    | GetattrCall(mod: string, attr: Option<string>)

  /** The scanned nodes together with the guard's tables. */
  datatype Program = Program(
    receivers: Receivers,
    callNames: set<string>,
    dangerousImports: set<string>,
    nodes: seq<Node>)

  // --------------------------------------------------------------------
  // The guard's tables
  // --------------------------------------------------------------------

  const CALL_NAMES: set<string> := {"eval", "exec", "compile", "__import__"}

  const OS_EXEC_FUNCS: set<string> := {
    "system", "popen", "startfile", "posix_spawn", "posix_spawnp",
    "execl", "execle", "execlp", "execlpe", "execv", "execve", "execvp", "execvpe",
    "spawnl", "spawnle", "spawnlp", "spawnlpe", "spawnv", "spawnve", "spawnvp", "spawnvpe"}

  const RECEIVER_METHODS: Receivers := map[
    "subprocess" := {"run", "Popen", "call", "check_output", "check_call", "popen"},
    "os" := OS_EXEC_FUNCS,
    "posix" := OS_EXEC_FUNCS,
    "nt" := OS_EXEC_FUNCS,
    "builtins" := CALL_NAMES,
    "__builtins__" := CALL_NAMES]

  const DANGEROUS_IMPORTS: set<string> := {"subprocess", "importlib", "ctypes", "pty"}

  /** What the soundness argument needs of the tables. */
  ghost predicate TablesFit(prog: Program) {
    && BUILTINS_MODULES <= prog.receivers.Keys
    && prog.receivers["builtins"] <= prog.callNames
    && forall m | m in prog.receivers :: "getattr" !in prog.receivers[m]
  }

  /** What it needs besides of modules whose import is reported in itself. */
  ghost predicate ImportsFit(prog: Program) {
    BUILTINS_MODULES !! prog.dangerousImports && forall m | m in prog.receivers :: Root(m) == m
  }

  /** A scanned program, with the guard's tables. */
  function Guarded(nodes: seq<Node>): Program {
    Program(RECEIVER_METHODS, CALL_NAMES, DANGEROUS_IMPORTS, nodes)
  }

  lemma GuardTablesFit(nodes: seq<Node>)
    ensures TablesFit(Guarded(nodes)) && ImportsFit(Guarded(nodes))
  {
    TablesFitIf(Guarded(nodes));
  }

  /** Of the tables, one by one. */
  lemma TablesFitIf(prog: Program)
    requires prog.receivers == RECEIVER_METHODS && prog.callNames == CALL_NAMES
             && prog.dangerousImports == DANGEROUS_IMPORTS
    ensures TablesFit(prog) && ImportsFit(prog)
  {
    GuardMethods();
    GuardModules();
    BuiltinsAreNoDanger();
    forall m | m in prog.receivers ensures Root(m) == m { ModuleIsRoot(m); }
  }

  lemma BuiltinsAreNoDanger()
    ensures BUILTINS_MODULES !! DANGEROUS_IMPORTS
  {
  }

  lemma GuardMethods()
    ensures forall m | m in RECEIVER_METHODS :: "getattr" !in RECEIVER_METHODS[m]
    ensures RECEIVER_METHODS["builtins"] == CALL_NAMES
  {
  }

  lemma GuardModules()
    ensures RECEIVER_METHODS.Keys == GuardModuleNames()
  {
  }

  function GuardModuleNames(): set<string> {
    {"subprocess", "os", "posix", "nt", "builtins", "__builtins__"}
  }

  lemma ModuleIsRoot(m: string)
    requires m in GuardModuleNames()
    ensures Root(m) == m
  {
    NoDots(m);
    NoDotNoRoot(m);
  }

  lemma NoDots(m: string)
    requires m in GuardModuleNames()
    ensures '.' !in m
  {
  }

  lemma {:induction false} NoDotNoRoot(name: string)
    requires '.' !in name
    ensures Root(name) == name
  {
    if name != "" { NoDotNoRoot(name[1..]); }
  }

  // --------------------------------------------------------------------
  // What the scan reports
  // --------------------------------------------------------------------

  /** `p` is a propagation problem made of what the program's nodes contribute, in any order. */
  ghost predicate Describes(prog: Program, p: Problem) {
    && p.receivers == prog.receivers
    && p.implicit == ImplicitBindings(prog.receivers, prog.callNames)
    && (forall f :: Stored(p.values, f) <==> exists n :: n in prog.nodes && f in NodeSeeds(prog.receivers, n))
    && (forall x, h :: h in Hops(p.edges, x) <==> exists n :: n in prog.nodes && Edge(x, h) in NodeEdges(n))
  }

  /** The name may denote the binding: some chain of imports, implicit bindings and assignments leads to it. */
  ghost predicate MayDenote(prog: Program, f: Fact) {
    exists p :: Describes(prog, p) && p.Derivable(f)
  }

  /** Every binding the expression `name` or `name.attr` may denote. */
  ghost predicate ResolvesTo(prog: Program, e: Expr, b: Binding) {
    match e
    case Name(x) => MayDenote(prog, Fact(x, b))
    case Attribute(Name(x), a) => b.member == Some(a) && MayDenote(prog, Fact(x, Binding(b.mod, None)))
    case _ => false
  }

  predicate Dangerous(receivers: Receivers, mod: string, member: string) {
    mod in receivers && member in receivers[mod]
  }

  function Root(dotted: string): string {
    if dotted == "" || dotted[0] == '.' then "" else [dotted[0]] + Root(dotted[1..])
  }

  function ImportThreats(prog: Program, node: Node): set<Threat> {
    match node
    case Import(names) =>
      set a | a in names && Root(a.name) in prog.dangerousImports :: ImportedRoot(Root(a.name))
    case ImportFrom(Some(m), _, names) =>
      (if Root(m) in prog.dangerousImports then {ImportedRoot(Root(m))} else {})
      + (if m !in prog.receivers then {}
         else set a | a in names && (a.name == "*" || a.name in prog.receivers[m]) :: ImportedMember(m, a.name))
    case _ => {}
  }

  ghost predicate GetattrReports(prog: Program, args: seq<Expr>, t: Threat) {
    && |args| >= 2
    && t.GetattrCall?
    && ResolvesTo(prog, args[0], Binding(t.mod, None))
    && match args[1]
       case StrConst(s) => t.attr == Some(s) && Dangerous(prog.receivers, t.mod, s)
       case _ => t.attr == None
  }

  ghost predicate CallReports(prog: Program, func: Expr, args: seq<Expr>, t: Threat) {
    if func.Name? && func.id in prog.callNames then t == DirectCall(func.id)
    else
      || (t.MemberCall? && ResolvesTo(prog, func, Binding(t.mod, Some(t.member)))
          && Dangerous(prog.receivers, t.mod, t.member))
      || ((exists m | m in BUILTINS_MODULES :: ResolvesTo(prog, func, Binding(m, Some("getattr"))))
          && GetattrReports(prog, args, t))
  }

  ghost predicate Reported(prog: Program, t: Threat) {
    exists n :: n in prog.nodes && (t in ImportThreats(prog, n) || (n.Call? && CallReports(prog, n.func, n.args, t)))
  }

  lemma DescribesLinks(prog: Program, other: Program, p: Problem, q: Problem, f: Fact, g: Fact)
    requires Describes(prog, p) && Describes(other, q) && p.Linked(f, g)
    requires other.receivers == prog.receivers
    requires forall n :: n in prog.nodes ==> n in other.nodes
    ensures q.Linked(f, g)
  {
    var h :| h in Hops(p.edges, f.name) && p.Carries(h, f, g);
    assert h in Hops(q.edges, f.name);
    assert q.Carries(h, f, g);
  }

  /** Two problems with the same contributions derive the same facts: neither the order nor the repetition of
      statements matters. */
  lemma {:induction false} SameStatementsSameFacts(prog: Program, other: Program, p: Problem, q: Problem, f: Fact)
    requires Describes(prog, p) && Describes(other, q)
    requires other == prog.(nodes := other.nodes)
    requires forall n :: n in prog.nodes <==> n in other.nodes
    ensures p.Derivable(f) <==> q.Derivable(f)
  {
    if p.Derivable(f) { MoreStatementsMoreFacts(prog, other, p, q, f); }
    if q.Derivable(f) { MoreStatementsMoreFacts(other, prog, q, p, f); }
  }

  lemma MoreStatementsMoreFacts(prog: Program, other: Program, p: Problem, q: Problem, f: Fact)
    requires Describes(prog, p) && Describes(other, q) && p.Derivable(f)
    requires other == prog.(nodes := other.nodes)
    requires forall n :: n in prog.nodes ==> n in other.nodes
    ensures q.Derivable(f)
  {
    var chain :| p.IsChain(chain) && chain[|chain| - 1] == f;
    forall i | 0 < i < |chain|
      ensures q.Linked(chain[i - 1], chain[i])
    {
      DescribesLinks(prog, other, p, q, chain[i - 1], chain[i]);
    }
    assert Stored(p.values, chain[0]) ==> Stored(q.values, chain[0]);
    assert q.IsChain(chain);
  }

  lemma DescribesDecides(prog: Program, p: Problem, f: Fact)
    requires Describes(prog, p)
    ensures MayDenote(prog, f) <==> p.Derivable(f)
  {
    if MayDenote(prog, f) {
      var q :| Describes(prog, q) && q.Derivable(f);
      SameStatementsSameFacts(prog, prog, p, q, f);
    }
  }

  // --------------------------------------------------------------------
  // The scan
  // --------------------------------------------------------------------

  /** `bindings` knows exactly what `MayDenote` says. */
  ghost predicate Solved(prog: Program, bindings: Bindings)
    reads bindings
  {
    && bindings.receivers == prog.receivers
    && forall f :: bindings.AsProblem().Known(f) <==> MayDenote(prog, f)
  }

  /** Every binding `name` or `name.attr` may denote. */
  method Resolve(ghost prog: Program, bindings: Bindings, e: Expr) returns (bs: set<Binding>)
    requires Solved(prog, bindings)
    ensures forall b :: b in bs <==> ResolvesTo(prog, e, b)
  {
    match e
    case Name(x) => bs := bindings.ValuesOf(x);
    case Attribute(Name(x), a) =>
      var vs := bindings.ValuesOf(x);
      bs := set b | b in vs && b.member.None? :: Binding(b.mod, Some(a));
      forall b | ResolvesTo(prog, e, b)
        ensures b in bs
      {
        assert Binding(b.mod, None) in vs;
        assert b == Binding(b.mod, Some(a));
      }
    case _ => bs := {};
  }

  method ScanGetattrCall(prog: Program, bindings: Bindings, args: seq<Expr>) returns (threats: set<Threat>)
    requires Solved(prog, bindings)
    ensures forall t :: t in threats <==> GetattrReports(prog, args, t)
  {
    if |args| < 2 {
      return {};
    }
    var attr := if args[1].StrConst? then Some(args[1].text) else None;
    var targets := Resolve(prog, bindings, args[0]);
    threats := set b | b in targets && b.member.None?
                    && (attr.None? || Dangerous(prog.receivers, b.mod, attr.value)) :: GetattrCall(b.mod, attr);
    forall t | GetattrReports(prog, args, t)
      ensures t in threats
    {
      assert Binding(t.mod, None) in targets;
      assert t == GetattrCall(t.mod, attr);
    }
  }

  method ScanAstCall(prog: Program, bindings: Bindings, func: Expr, args: seq<Expr>) returns (threats: set<Threat>)
    requires Solved(prog, bindings)
    ensures forall t :: t in threats <==> CallReports(prog, func, args, t)
  {
    if func.Name? && func.id in prog.callNames {
      return {DirectCall(func.id)};
    }
    var targets := Resolve(prog, bindings, func);
    threats := set b | b in targets && b.member.Some? && Dangerous(prog.receivers, b.mod, b.member.value) ::
                 MemberCall(b.mod, b.member.value);
    forall t: Threat | t.MemberCall? && ResolvesTo(prog, func, Binding(t.mod, Some(t.member)))
      && Dangerous(prog.receivers, t.mod, t.member)
      ensures t in threats
    {
      assert Binding(t.mod, Some(t.member)) in targets;
    }
    if exists m | m in BUILTINS_MODULES :: Binding(m, Some("getattr")) in targets {
      var more := ScanGetattrCall(prog, bindings, args);
      threats := threats + more;
    }
  }

  /** The imperative pass over one node. */
  method Collect(prog: Program, ghost done: seq<Node>, node: Node, bindings: Bindings)
    requires bindings.receivers == prog.receivers
    requires Describes(prog.(nodes := done), bindings.AsProblem())
    modifies bindings
    ensures Describes(prog.(nodes := done + [node]), bindings.AsProblem())
    ensures bindings.edges == AddEdges(old(bindings.edges), NodeEdges(node))
  {
    ghost var before := bindings.AsProblem();
    match node {
      case Call(_, _) =>
      case Import(names) => bindings.AddImport(names);
      case ImportFrom(mod, level, names) => bindings.AddImportFrom(mod, level, names);
      case _ => bindings.AddAssignment(node);
    }
    DescribesOneMore(prog, done, node, before, bindings.AsProblem());
  }

  /** The edges of all assignments, in the order of the nodes. */
  function AllEdges(nodes: seq<Node>): seq<Edge> {
    if nodes == [] then [] else AllEdges(nodes[..|nodes| - 1]) + NodeEdges(nodes[|nodes| - 1])
  }

  lemma AllEdgesSnoc(nodes: seq<Node>, node: Node)
    ensures AllEdges(nodes + [node]) == AllEdges(nodes) + NodeEdges(node)
  {
    assert (nodes + [node])[..|nodes|] == nodes;
  }

  /** The direct calls are members of the builtins module. */
  ghost predicate TablesClosed(prog: Program) {
    BUILTINS_MODULES <= prog.receivers.Keys && prog.callNames <= prog.receivers["builtins"]
  }

  lemma ProgramStartsTracked(prog: Program, p: Problem)
    requires TablesClosed(prog) && Describes(prog, p)
    ensures StartsTracked(p)
  {
    forall f | p.Known(f)
      ensures f.binding in TrackedBindings(p.receivers)
    {
      if Stored(p.values, f) {
        var n :| n in prog.nodes && f in NodeSeeds(prog.receivers, n);
      }
    }
  }

  /** What the scan's propagation costs: it follows at most twice as many edges as
      the program's assignments contribute, times the bindings of the tables. */
  lemma ScanIsLinear(prog: Program, p: Problem, values: map<string, set<Binding>>, popped: seq<Fact>)
    requires TablesClosed(prog) && Describes(prog, p) && p.edges == AddEdges(map[], AllEdges(prog.nodes))
    requires Solution(p, values, popped)
    ensures EdgeVisits(p.edges, popped) <= 2 * |TrackedBindings(prog.receivers)| * |AllEdges(prog.nodes)|
  {
    ProgramStartsTracked(prog, p);
    PropagationIsLinear(p, values, popped);
    AddEdgesTotal(map[], AllEdges(prog.nodes));
    assert TotalHops(p.edges) == |AllEdges(prog.nodes)|;
  }

  /** One pass over the nodes: imports and edges are recorded, calls kept for later. */
  method Gather(prog: Program) returns (bindings: Bindings, calls: seq<Node>, imports: set<Threat>)
    ensures fresh(bindings) && bindings.receivers == prog.receivers
    ensures Describes(prog, bindings.AsProblem())
    ensures bindings.edges == AddEdges(map[], AllEdges(prog.nodes))
    ensures forall n :: n in calls <==> n in prog.nodes && n.Call?
    ensures forall t :: t in imports <==> exists n :: n in prog.nodes && t in ImportThreats(prog, n)
  {
    var nodes := prog.nodes;
    calls := [];
    imports := {};
    bindings := new Bindings(prog.receivers, ImplicitBindings(prog.receivers, prog.callNames));
    for i := 0 to |nodes|
      invariant fresh(bindings) && bindings.receivers == prog.receivers
      invariant Describes(prog.(nodes := nodes[..i]), bindings.AsProblem())
      invariant bindings.edges == AddEdges(map[], AllEdges(nodes[..i]))
      invariant forall n :: n in calls <==> n in nodes[..i] && n.Call?
      invariant forall t :: t in imports <==> exists n :: n in nodes[..i] && t in ImportThreats(prog, n)
    {
      assert nodes[..i + 1] == nodes[..i] + [nodes[i]];
      if nodes[i].Call? {
        calls := calls + [nodes[i]];
      }
      imports := imports + ImportThreats(prog, nodes[i]);
      AllEdgesSnoc(nodes[..i], nodes[i]);
      AddEdgesConcat(map[], AllEdges(nodes[..i]), NodeEdges(nodes[i]));
      Collect(prog, nodes[..i], nodes[i], bindings);
    }
    assert nodes[..|nodes|] == nodes && prog.(nodes := nodes) == prog;
  }

  lemma SolutionDecides(prog: Program, p: Problem, values: map<string, set<Binding>>, popped: seq<Fact>, f: Fact)
    requires Describes(prog, p) && Solution(p, values, popped)
    ensures p.(values := values).Known(f) <==> MayDenote(prog, f)
  {
    DescribesDecides(prog, p, f);
    assert Stored(p.values, f) ==> Stored(values, f);
    assert Stored(values, f) || p.Known(f) <==> p.Derivable(f);
  }

  /** Every name's bindings, solved, and at what cost: `popped` are the facts the
      propagation of the gathered problem processed, in order, and each follows
      all edges of its name. */
  method Solve(prog: Program)
      returns (bindings: Bindings, calls: seq<Node>, imports: set<Threat>, ghost gathered: Problem,
               ghost popped: seq<Fact>)
    ensures fresh(bindings) && Solved(prog, bindings)
    ensures forall n :: n in calls <==> n in prog.nodes && n.Call?
    ensures forall t :: t in imports <==> exists n :: n in prog.nodes && t in ImportThreats(prog, n)
    ensures Describes(prog, gathered) && gathered.edges == AddEdges(map[], AllEdges(prog.nodes))
    ensures bindings.AsProblem() == gathered.(values := bindings.values)
    ensures Solution(gathered, bindings.values, popped)
    ensures TablesClosed(prog) ==>
              EdgeVisits(gathered.edges, popped) <= 2 * |TrackedBindings(prog.receivers)| * |AllEdges(prog.nodes)|
  {
    bindings, calls, imports := Gather(prog);
    gathered := bindings.AsProblem();
    popped := bindings.Propagate();
    forall f ensures bindings.AsProblem().Known(f) <==> MayDenote(prog, f) {
      SolutionDecides(prog, gathered, bindings.values, popped, f);
    }
    if TablesClosed(prog) { ScanIsLinear(prog, gathered, bindings.values, popped); }
  }

  /** One pass over the nodes collects imports, edges and calls; after propagation every call is judged. */
  method ScanAstThreats(prog: Program) returns (threats: set<Threat>)
    ensures forall t :: t in threats <==> Reported(prog, t)
  {
    var bindings, calls, imports, _, _ := Solve(prog);
    threats := imports;
    for i := 0 to |calls|
      invariant Solved(prog, bindings)
      invariant forall t :: t in threats <==>
                  t in imports || exists n :: n in calls[..i] && CallReports(prog, n.func, n.args, t)
    {
      assert calls[i] in calls && calls[..i + 1] == calls[..i] + [calls[i]];
      var found := ScanAstCall(prog, bindings, calls[i].func, calls[i].args);
      threats := threats + found;
    }
    assert calls[..|calls|] == calls;
  }

  lemma DescribesOneMore(prog: Program, done: seq<Node>, node: Node, before: Problem, after: Problem)
    requires Describes(prog.(nodes := done), before)
    requires after == before.(values := after.values, edges := AddEdges(before.edges, NodeEdges(node)))
    requires forall f :: Stored(after.values, f) <==> Stored(before.values, f) || f in NodeSeeds(prog.receivers, node)
    ensures Describes(prog.(nodes := done + [node]), after)
  {
    var more := prog.(nodes := done + [node]);
    forall f
      ensures Stored(after.values, f) <==> exists n :: n in more.nodes && f in NodeSeeds(prog.receivers, n)
    {
      if f in NodeSeeds(prog.receivers, node) { assert node in more.nodes; }
      if n :| n in done && f in NodeSeeds(prog.receivers, n) { assert n in more.nodes; }
    }
    forall x, h
      ensures h in Hops(after.edges, x) <==> exists n :: n in more.nodes && Edge(x, h) in NodeEdges(n)
    {
      AddEdgesHops(before.edges, NodeEdges(node), x, h);
      if Edge(x, h) in NodeEdges(node) { assert node in more.nodes; }
      if n :| n in done && Edge(x, h) in NodeEdges(n) { assert n in more.nodes; }
    }
  }
}
