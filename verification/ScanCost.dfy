/** What a scan with the guard's own tables costs, and when facts are processed twice. */
module ScanCost {
  import opened Options
  import opened PythonAst
  import opened AliasBindings
  import opened AliasCost
  import opened CodeGuard

  // --------------------------------------------------------------------
  // The size of the guard's tables
  // --------------------------------------------------------------------

  function MemberBindings(m: string, members: set<string>): set<Binding> {
    set a | a in members :: Binding(m, Some(a))
  }

  lemma {:induction false} MemberCount(m: string, members: set<string>)
    ensures |MemberBindings(m, members)| == |members|
    decreases members
  {
    if members != {} {
      var a :| a in members;
      MemberCount(m, members - {a});
      assert MemberBindings(m, members) == MemberBindings(m, members - {a}) + {Binding(m, Some(a))};
    }
  }

  /** What one module of the table contributes: itself and its members. */
  function ModuleBindings(receivers: Receivers, m: string): set<Binding>
    requires m in receivers
  {
    {Binding(m, None)} + MemberBindings(m, receivers[m])
  }

  function TableBindings(receivers: Receivers): set<Binding> {
    set m, b | m in receivers && b in ModuleBindings(receivers, m) :: b
  }

  /** The tables of six modules, side by side. */
  lemma TableParts(r: Receivers)
    requires r.Keys == GuardModuleNames()
    ensures TableBindings(r)
            == ModuleBindings(r, "subprocess") + ModuleBindings(r, "os") + ModuleBindings(r, "posix")
               + ModuleBindings(r, "nt") + ModuleBindings(r, "builtins") + ModuleBindings(r, "__builtins__")
  {
  }

  lemma TrackedParts(receivers: Receivers)
    ensures TrackedBindings(receivers) == TableBindings(receivers) + GetattrBindings()
  {
    forall b
      ensures b in TrackedBindings(receivers) <==> b in TableBindings(receivers) + GetattrBindings()
    {
      if b in TrackedBindings(receivers) && b.mod in receivers {
        assert b.member.Some? && b.member.value in receivers[b.mod] ==> b in ModuleBindings(receivers, b.mod);
        assert b.member.None? ==> b in ModuleBindings(receivers, b.mod);
      }
    }
  }

  function GetattrBindings(): set<Binding> {
    set m | m in BUILTINS_MODULES :: Binding(m, Some("getattr"))
  }

  lemma GetattrCount()
    ensures |GetattrBindings()| <= 2
  {
    assert GetattrBindings() == {Binding("builtins", Some("getattr")), Binding("__builtins__", Some("getattr"))};
  }

  lemma ModuleCount(receivers: Receivers, m: string, n: nat)
    requires m in receivers && |receivers[m]| <= n
    ensures |ModuleBindings(receivers, m)| <= n + 1
  {
    MemberCount(m, receivers[m]);
  }

  predicate SizesFit(r: Receivers) {
    && r.Keys == GuardModuleNames()
    && |r["subprocess"]| <= 6
    && |r["os"]| <= 21 && |r["posix"]| <= 21 && |r["nt"]| <= 21
    && |r["builtins"]| <= 4 && |r["__builtins__"]| <= 4
  }

  lemma GuardSizesFit()
    ensures SizesFit(RECEIVER_METHODS)
  {
    GuardModules();
    GuardTable();
    ExecCount();
    CallCount();
    SubprocessCount();
  }

  lemma GuardTable()
    ensures RECEIVER_METHODS.Keys == GuardModuleNames()
    ensures RECEIVER_METHODS["os"] == RECEIVER_METHODS["posix"] == RECEIVER_METHODS["nt"] == OS_EXEC_FUNCS
    ensures RECEIVER_METHODS["builtins"] == RECEIVER_METHODS["__builtins__"] == CALL_NAMES
    ensures RECEIVER_METHODS["subprocess"] == SubprocessFuncs()
  {
  }

  function SubprocessFuncs(): set<string> {
    {"run", "Popen", "call", "check_output", "check_call", "popen"}
  }

  lemma SubprocessCount()
    ensures |SubprocessFuncs()| <= 6
  {
  }

  function PlainFuncs(): set<string> { {"system", "popen", "startfile", "posix_spawn", "posix_spawnp"} }

  function ExecFuncs(): set<string> {
    {"execl", "execle", "execlp", "execlpe", "execv", "execve", "execvp", "execvpe"}
  }

  function SpawnFuncs(): set<string> {
    {"spawnl", "spawnle", "spawnlp", "spawnlpe", "spawnv", "spawnve", "spawnvp", "spawnvpe"}
  }

  lemma PartCounts()
    ensures |PlainFuncs()| <= 5 && |ExecFuncs()| <= 8 && |SpawnFuncs()| <= 8
  {
  }

  lemma ExecParts()
    ensures OS_EXEC_FUNCS == PlainFuncs() + ExecFuncs() + SpawnFuncs()
  {
  }

  lemma UnionOfThree<T>(a: set<T>, b: set<T>, c: set<T>)
    ensures |a + b + c| <= |a| + |b| + |c|
  {
  }

  lemma ExecCount()
    ensures |OS_EXEC_FUNCS| <= 21
  {
    ExecParts();
    PartCounts();
    UnionOfThree(PlainFuncs(), ExecFuncs(), SpawnFuncs());
  }

  lemma CallCount()
    ensures |CALL_NAMES| <= 4
  {
  }

  lemma UnionOfSix<T>(a: set<T>, b: set<T>, c: set<T>, d: set<T>, e: set<T>, f: set<T>)
    ensures |a + b + c + d + e + f| <= |a| + |b| + |c| + |d| + |e| + |f|
  {
  }

  lemma TableCount(r: Receivers)
    requires SizesFit(r)
    ensures |TableBindings(r)| <= 83
  {
    TableParts(r);
    ModuleCount(r, "subprocess", 6);
    ModuleCount(r, "os", 21);
    ModuleCount(r, "posix", 21);
    ModuleCount(r, "nt", 21);
    ModuleCount(r, "builtins", 4);
    ModuleCount(r, "__builtins__", 4);
    UnionOfSix(ModuleBindings(r, "subprocess"), ModuleBindings(r, "os"), ModuleBindings(r, "posix"),
               ModuleBindings(r, "nt"), ModuleBindings(r, "builtins"), ModuleBindings(r, "__builtins__"));
  }

  lemma TrackedCount(r: Receivers)
    requires SizesFit(r)
    ensures |TrackedBindings(r)| <= 85
  {
    TrackedParts(r);
    TableCount(r);
    GetattrCount();
    UnionOfThree(TableBindings(r), GetattrBindings(), {});
    assert TableBindings(r) + GetattrBindings() + {} == TrackedBindings(r);
  }

  /** The guard's tables allow at most 85 bindings. */
  lemma FewBindings()
    ensures |TrackedBindings(RECEIVER_METHODS)| <= 85
  {
    GuardSizesFit();
    TrackedCount(RECEIVER_METHODS);
  }

  // --------------------------------------------------------------------
  // The cost of a scan
  // --------------------------------------------------------------------

  lemma GuardTablesClosed(nodes: seq<Node>)
    ensures TablesClosed(Guarded(nodes))
  {
    GuardModules();
    GuardMethods();
  }

  /**
   With the guard's tables, the propagation of a scan follows at most 170 edges
   for each edge the program's assignments contribute, however many other names
   and attributes the program mentions.
   */
  lemma GuardScanIsLinear(nodes: seq<Node>, p: Problem, values: map<string, set<Binding>>, popped: seq<Fact>)
    requires Describes(Guarded(nodes), p) && p.edges == AddEdges(map[], AllEdges(nodes))
    requires Solution(p, values, popped)
    ensures EdgeVisits(p.edges, popped) <= 170 * |AllEdges(nodes)|
  {
    GuardTablesClosed(nodes);
    ScanIsLinear(Guarded(nodes), p, values, popped);
    FewBindings();
    Fewer(|TrackedBindings(RECEIVER_METHODS)|, 85, |AllEdges(nodes)|);
  }

  lemma Fewer(a: nat, b: nat, n: nat)
    requires a <= b
    ensures 2 * a * n <= 2 * b * n
  {
    assert (b - a) * n >= 0;
  }

  // --------------------------------------------------------------------
  // Once, or twice
  // --------------------------------------------------------------------

  /** No statement assigns to a name that denotes something without any assignment. */
  ghost predicate RebindsNothing(prog: Program) {
    forall n, e | n in prog.nodes && e in NodeEdges(n) ::
      e.hop.target !in ImplicitBindings(prog.receivers, prog.callNames)
  }

  /** In a program that rebinds no such name, propagation processes each pair once, as documented. */
  lemma UnreboundIsProcessedOnce(prog: Program, p: Problem, values: map<string, set<Binding>>, popped: seq<Fact>,
                                 f: Fact)
    requires Describes(prog, p) && RebindsNothing(prog) && Solution(p, values, popped)
    ensures multiset(popped)[f] <= 1
  {
    forall x, h | x in p.edges && h in p.edges[x]
      ensures h.target !in p.implicit
    {
      assert h in Hops(p.edges, x);
      var n :| n in prog.nodes && Edge(x, h) in NodeEdges(n);
    }
    UnreboundIsPoppedOnce(p, values, popped, f);
  }

  /** `x = eval; eval = x`: the builtin meaning of `eval` is processed twice. */
  lemma ReboundIsProcessedTwice(prog: Program, p: Problem, values: map<string, set<Binding>>, popped: seq<Fact>)
    requires Describes(prog, p) && "eval" in prog.callNames && Solution(p, values, popped)
    requires prog.nodes == [Assign([Name("x")], Name("eval")), Assign([Name("eval")], Name("x"))]
    ensures multiset(popped)[Fact("eval", Binding("builtins", Some("eval")))] == 2
  {
    var f, g := Fact("eval", Binding("builtins", Some("eval"))), Fact("x", Binding("builtins", Some("eval")));
    var out, home := Hop("x", None), Hop("eval", None);
    SimpleEdge(prog, p, "x", "eval");
    SimpleEdge(prog, p, "eval", "x");
    EvalIsImplicit(prog, p);
    TwiceAround(p, f, g, out, home);
    assert multiset(popped)[f] == p.TimesProcessed(f);
  }

  lemma EvalIsImplicit(prog: Program, p: Problem)
    requires Describes(prog, p) && "eval" in prog.callNames
    requires forall n | n in prog.nodes :: n.Assign?
    ensures var f := Fact("eval", Binding("builtins", Some("eval")));
            p.Known(f) && f.binding in At(p.implicit, "eval") && !Stored(p.values, f)
  {
    assert forall n | n in prog.nodes :: NodeSeeds(prog.receivers, n) == {};
  }

  lemma SimpleEdge(prog: Program, p: Problem, target: string, source: string)
    requires Describes(prog, p) && Assign([Name(target)], Name(source)) in prog.nodes
    ensures Hop(target, None) in Hops(p.edges, source)
  {
    var n, h := Assign([Name(target)], Name(source)), Hop(target, None);
    OneTarget(Name(target), Name(source));
    assert Edge(source, h) in NodeEdges(n);
  }

  lemma TwiceAround(p: Problem, f: Fact, g: Fact, out: Hop, home: Hop)
    requires p.Known(f) && out in Hops(p.edges, f.name) && home in Hops(p.edges, g.name)
    requires g == Fact(out.target, f.binding) && f == Fact(home.target, g.binding) && out.attr == home.attr == None
    ensures p.Incoming(f)
  {
    p.KnownIsDerivable(f);
    assert p.Carries(out, f, g) && p.Carries(home, g, f);
    p.LinkExtends(f, g);
    assert p.Linked(g, f);
  }
}
