/**
 Soundness of the code guard: for which programs the analysis knows whatever an
 execution holds, and the scan reports whatever an execution runs.
 */
module AliasSoundness {
  import opened Options
  import opened PythonAst
  import opened AliasBindings
  import opened CodeGuard
  import opened Executions
  import opened AliasFlows
  import opened Arrivals

  // --------------------------------------------------------------------
  // What the analysis knows
  // --------------------------------------------------------------------

  ghost predicate ImportsStar(prog: Program, n: Node) {
    n.ImportFrom? && n.mod.Some? && n.mod.value in prog.receivers && exists a :: a in n.names && a.name == "*"
  }

  ghost predicate NoStars(prog: Program) {
    forall n | n in prog.nodes :: !ImportsStar(prog, n)
  }

  ghost function KnownFacts(p: Problem): iset<Fact> {
    iset f | p.Derivable(f) :: f
  }

  lemma DerivableIsClosed(prog: Program, p: Problem)
    requires Describes(prog, p)
    ensures Closed(prog.receivers, KnownFacts(p), prog.nodes)
  {
    forall e, b | && Recorded(prog.nodes, e) && p.Derivable(Fact(e.source, b))
                  && Follow(prog.receivers, b, e.hop.attr).Some?
      ensures p.Derivable(Fact(e.hop.target, Follow(prog.receivers, b, e.hop.attr).value))
    {
      var from, to := Fact(e.source, b), Fact(e.hop.target, Follow(prog.receivers, b, e.hop.attr).value);
      assert e == Edge(e.source, e.hop);
      assert e.hop in Hops(p.edges, e.source);
      assert p.Carries(e.hop, from, to);
      p.LinkExtends(from, to);
    }
  }

  function AddFacts(values: map<string, set<Binding>>, facts: set<Fact>): map<string, set<Binding>> {
    map x | x in values.Keys + (set f | f in facts :: f.name) ::
      At(values, x) + (set f | f in facts && f.name == x :: f.binding)
  }

  lemma {:induction false} ProgramHasProblem(prog: Program) returns (p: Problem)
    ensures Describes(prog, p)
    decreases |prog.nodes|
  {
    if prog.nodes == [] {
      p := Problem(prog.receivers, ImplicitBindings(prog.receivers, prog.callNames), map[], map[]);
    } else {
      var done, node := prog.nodes[..|prog.nodes| - 1], prog.nodes[|prog.nodes| - 1];
      assert done + [node] == prog.nodes;
      var before := ProgramHasProblem(prog.(nodes := done));
      var seeds := NodeSeeds(prog.receivers, node);
      p := before.(values := AddFacts(before.values, seeds), edges := AddEdges(before.edges, NodeEdges(node)));
      forall f
        ensures Stored(p.values, f) <==> Stored(before.values, f) || f in seeds
      {
        if f in seeds { assert f.name in p.values; }
      }
      DescribesOneMore(prog, done, node, before, p);
    }
  }

  ghost function Denoted(prog: Program): iset<Fact> {
    iset f | MayDenote(prog, f) :: f
  }

  /** Nothing is left to propagate along recorded edges. */
  lemma DenotedIsClosed(prog: Program)
    ensures Closed(prog.receivers, Denoted(prog), prog.nodes)
  {
    var p := ProgramHasProblem(prog);
    DerivableIsClosed(prog, p);
    forall f ensures MayDenote(prog, f) <==> p.Derivable(f) { DescribesDecides(prog, p, f); }
    assert Denoted(prog) == KnownFacts(p);
  }

  lemma SeedIsKnown(prog: Program, p: Problem, n: Node, f: Fact)
    requires Describes(prog, p) && n in prog.nodes && f in NodeSeeds(prog.receivers, n)
    ensures p.Known(f)
  {
    assert Stored(p.values, f);
  }

  lemma ModuleIsKnown(prog: Program, p: Problem, x: string)
    requires Describes(prog, p) && x in prog.receivers
    ensures p.Known(Fact(x, Binding(x, None)))
  {
  }

  /** What an import binds is known. */
  lemma ImportIsKnown(prog: Program, p: Problem, view: map<string, Value>, n: Node, x: string, v: Value)
    requires Describes(prog, p) && n in prog.nodes && n.Import?
    requires Writes(view, n, x, v) && Tag(prog.receivers, v).Some?
    ensures p.Known(Fact(x, Tag(prog.receivers, v).value))
  {
    var a :| a in n.names && if a.asname.Some? then x == a.asname.value && v == ModuleValue(a.name)
                             else x == Root(a.name) && v == ModuleValue(Root(a.name));
    if a.asname.Some? {
      SeedIsKnown(prog, p, n, Fact(x, Binding(a.name, None)));
    } else {
      ModuleIsKnown(prog, p, x);
    }
  }

  lemma ImportFromIsKnown(prog: Program, p: Problem, view: map<string, Value>, n: Node, x: string, v: Value)
    requires TablesFit(prog) && Describes(prog, p) && n in prog.nodes && n.ImportFrom? && !ImportsStar(prog, n)
    requires Writes(view, n, x, v) && Tag(prog.receivers, v).Some?
    ensures p.Known(Fact(x, Tag(prog.receivers, v).value))
  {
    var a :|
      && a in n.names
      && (a.name == "*" || x == if a.asname.Some? then a.asname.value else a.name)
      && v == if n.level == 0 && n.mod.Some? then MemberValue(n.mod.value, if a.name == "*" then x else a.name)
              else Untracked;
    assert v.mod in prog.receivers && a.name != "*";
    AliasIsSeed(prog.receivers, n, a);
    SeedIsKnown(prog, p, n, Fact(x, Binding(v.mod, Some(v.member))));
  }

  lemma AliasIsSeed(receivers: Receivers, n: Node, a: ImportAlias)
    requires n.ImportFrom? && n.mod.Some? && n.mod.value in receivers && a in n.names && a.name != "*"
    requires Tracked(receivers, n.mod.value, a.name)
    ensures Fact(if a.asname.Some? then a.asname.value else a.name, Binding(n.mod.value, Some(a.name)))
            in NodeSeeds(receivers, n)
  {
  }

  lemma BuiltinIsKnown(prog: Program, p: Problem, f: Fact)
    requires TablesFit(prog) && Describes(prog, p) && Builtin(prog.receivers, f)
    ensures p.Known(f)
  {
  }

  /** What a route starts with is known, unless it comes of a star-import. */
  lemma StartIsDenoted(prog: Program, f: Fact)
    requires TablesFit(prog) && (Builtin(prog.receivers, f) || (Imported(prog, f) && NoStars(prog)))
    ensures MayDenote(prog, f)
  {
    var p := ProgramHasProblem(prog);
    if Builtin(prog.receivers, f) {
      BuiltinIsKnown(prog, p, f);
    } else {
      var n :| n in prog.nodes && !IsAssignment(n) && Writes(map[], n, f.name, Untag(f.binding));
      if n.Import? {
        ImportIsKnown(prog, p, map[], n, f.name, Untag(f.binding));
      } else {
        ImportFromIsKnown(prog, p, map[], n, f.name, Untag(f.binding));
      }
    }
    p.KnownIsDerivable(f);
  }

  // --------------------------------------------------------------------
  // Soundness of the analysis, exactly
  // --------------------------------------------------------------------

  /** Whatever tracked value a name holds, in any scope, at the end of any
      execution, is among the bindings the analysis gives that name. */
  ghost predicate RunsAreKnown(prog: Program) {
    forall run, scope: nat, x |
      IsRun(prog, run) && (scope, x) in run[|run| - 1] && Tag(prog.receivers, run[|run| - 1][(scope, x)]).Some? ::
      MayDenote(prog, Fact(x, Tag(prog.receivers, run[|run| - 1][(scope, x)]).value))
  }

  /** The condition, on the program's text: whatever arrives at a name by imports
      and assignments is among the bindings the analysis gives it. */
  ghost predicate ArrivalsAreKnown(prog: Program) {
    forall f | Arrives(prog, f) :: MayDenote(prog, f)
  }

  /**
   Alias soundness, exactly. The analysis knows whatever any execution holds, for
   statements in any order, any number of times and in any scope, if and only if
   it knows whatever arrives.
   */
  lemma SoundnessIsExact(prog: Program)
    requires TablesFit(prog)
    ensures RunsAreKnown(prog) <==> ArrivalsAreKnown(prog)
  {
    if ArrivalsAreKnown(prog) {
      forall run, scope: nat, x |
        IsRun(prog, run) && (scope, x) in run[|run| - 1] && Tag(prog.receivers, run[|run| - 1][(scope, x)]).Some?
        ensures MayDenote(prog, Fact(x, Tag(prog.receivers, run[|run| - 1][(scope, x)]).value))
      {
        AliasSoundness(prog, run, scope, x);
      }
    }
    if RunsAreKnown(prog) {
      forall f | Arrives(prog, f)
        ensures MayDenote(prog, f)
      {
        ArrivalIsDenoted(prog, f);
      }
    }
  }

  lemma AliasSoundness(prog: Program, run: seq<Store>, scope: nat, x: string)
    requires TablesFit(prog) && ArrivalsAreKnown(prog)
    requires IsRun(prog, run) && (scope, x) in run[|run| - 1]
    requires Tag(prog.receivers, run[|run| - 1][(scope, x)]).Some?
    ensures MayDenote(prog, Fact(x, Tag(prog.receivers, run[|run| - 1][(scope, x)]).value))
  {
    EveryRunArrives(prog, run);
  }

  lemma {:induction false} ArrivalIsTracked(prog: Program, f: Fact)
    requires TablesFit(prog) && Arrives(prog, f)
    ensures Tag(prog.receivers, Untag(f.binding)) == Some(f.binding)
  {
    var route :| IsRoute(prog, route) && route[|route| - 1] == f;
    RouteIsTracked(prog, route);
  }

  lemma {:induction false} RouteIsTracked(prog: Program, route: seq<Fact>)
    requires TablesFit(prog) && IsRoute(prog, route)
    ensures Tag(prog.receivers, Untag(route[|route| - 1].binding)) == Some(route[|route| - 1].binding)
    decreases |route|
  {
    if |route| > 1 {
      ShorterRoute(prog, route);
      RouteIsTracked(prog, route[..|route| - 1]);
    } else if Builtin(prog.receivers, route[0]) {
      TagIsUntag(prog.receivers, Lookup(map[], route[0].name));
    }
  }

  lemma ArrivalIsDenoted(prog: Program, f: Fact)
    requires TablesFit(prog) && RunsAreKnown(prog) && Arrives(prog, f)
    ensures MayDenote(prog, f)
  {
    ArrivalIsTracked(prog, f);
    ArrivalsAreExact(prog, f);
    if Builtin(prog.receivers, f) {
      StartIsDenoted(prog, f);
    } else {
      var run, scope: nat :|
        IsRun(prog, run) && (scope, f.name) in run[|run| - 1] && run[|run| - 1][(scope, f.name)] == Untag(f.binding);
      assert Fact(f.name, f.binding) == f;
    }
  }

  // --------------------------------------------------------------------
  // Programs that meet the condition
  // --------------------------------------------------------------------

  /** No assignment of the program moves what is known where it is not known. */
  ghost predicate FlowsStayKnown(prog: Program) {
    forall n, e, b |
      && n in prog.nodes && NodeFlow(n, e)
      && MayDenote(prog, Fact(e.source, b)) && Follow(prog.receivers, b, e.hop.attr).Some? ::
      MayDenote(prog, Fact(e.hop.target, Follow(prog.receivers, b, e.hop.attr).value))
  }

  lemma {:induction false} RouteIsDenoted(prog: Program, route: seq<Fact>)
    requires TablesFit(prog) && NoStars(prog) && FlowsStayKnown(prog) && IsRoute(prog, route)
    ensures MayDenote(prog, route[|route| - 1])
    decreases |route|
  {
    if |route| > 1 {
      ShorterRoute(prog, route);
      RouteIsDenoted(prog, route[..|route| - 1]);
      FlowIsDenoted(prog, route[|route| - 2], route[|route| - 1]);
    } else {
      StartIsDenoted(prog, route[0]);
    }
  }

  lemma FlowIsDenoted(prog: Program, f: Fact, g: Fact)
    requires FlowsStayKnown(prog) && MayDenote(prog, f) && HandedOn(prog, f, g)
    ensures MayDenote(prog, g)
  {
    var n, e :|
      && n in prog.nodes && NodeFlow(n, e)
      && e.source == f.name && e.hop.target == g.name
      && Follow(prog.receivers, f.binding, e.hop.attr) == Some(g.binding);
    assert f == Fact(e.source, f.binding) && g == Fact(e.hop.target, g.binding);
  }

  /** A program whose assignments move nothing known where it is not known, and
      that star-imports no dangerous module, meets the condition. */
  lemma KnownFlowsSuffice(prog: Program)
    requires TablesFit(prog) && NoStars(prog) && FlowsStayKnown(prog)
    ensures ArrivalsAreKnown(prog)
  {
    forall f | Arrives(prog, f)
      ensures MayDenote(prog, f)
    {
      var route :| IsRoute(prog, route) && route[|route| - 1] == f;
      RouteIsDenoted(prog, route);
    }
  }

  /** Some part of the tables, outside which nothing arrives. */
  ghost predicate ArrivesWithin(some: Receivers, prog: Program) {
    forall f | Arrives(prog, f) :: f.binding.mod in some
  }

  lemma AccountedIsDenoted(some: Receivers, prog: Program, e: Edge, b: Binding)
    requires FollowsAssignments(some, prog.nodes) && IsTable(some) && PartOf(some, prog.receivers) && b.mod in some
    requires exists n :: n in prog.nodes && NodeFlow(n, e)
    requires MayDenote(prog, Fact(e.source, b)) && Follow(prog.receivers, b, e.hop.attr).Some?
    ensures MayDenote(prog, Fact(e.hop.target, Follow(prog.receivers, b, e.hop.attr).value))
  {
    assert CanCarry(some, e.hop.attr);
    DenotedIsClosed(prog);
    AccountedFactIsKnown(prog.receivers, Denoted(prog), prog.nodes, e, b);
  }

  lemma {:induction false} AccountedRouteIsDenoted(some: Receivers, prog: Program, route: seq<Fact>)
    requires TablesFit(prog) && NoStars(prog) && FollowsAssignments(some, prog.nodes)
    requires IsTable(some) && PartOf(some, prog.receivers) && ArrivesWithin(some, prog) && IsRoute(prog, route)
    ensures MayDenote(prog, route[|route| - 1])
    decreases |route|
  {
    if |route| > 1 {
      ShorterRoute(prog, route);
      AccountedRouteIsDenoted(some, prog, route[..|route| - 1]);
      var f, g := route[|route| - 2], route[|route| - 1];
      assert Arrives(prog, route[..|route| - 1][|route| - 2]);
      var n, e :|
        && n in prog.nodes && NodeFlow(n, e)
        && e.source == f.name && e.hop.target == g.name
        && Follow(prog.receivers, f.binding, e.hop.attr) == Some(g.binding);
      AccountedIsDenoted(some, prog, e, f.binding);
    } else {
      StartIsDenoted(prog, route[0]);
    }
  }

  /** So does one whose recorded edges account for every flow that can carry what arrives. */
  lemma AccountedFlowsSuffice(some: Receivers, prog: Program)
    requires TablesFit(prog) && NoStars(prog) && FollowsAssignments(some, prog.nodes)
    requires IsTable(some) && PartOf(some, prog.receivers) && ArrivesWithin(some, prog)
    ensures ArrivalsAreKnown(prog)
  {
    forall f | Arrives(prog, f)
      ensures MayDenote(prog, f)
    {
      var route :| IsRoute(prog, route) && route[|route| - 1] == f;
      AccountedRouteIsDenoted(some, prog, route);
    }
  }

  // --------------------------------------------------------------------
  // Soundness of the scan, exactly
  // --------------------------------------------------------------------

  /** What the scan says about a call that reaches `m.a`. */
  ghost predicate Names(func: Expr, t: Threat, m: string, a: string) {
    match t
    case DirectCall(f) => func == Name(f)
    case MemberCall(tm, ta) => tm == m && ta == a
    case GetattrCall(tm, ta) => tm == m && (ta.Some? ==> ta.value == a)
    case _ => false
  }

  /** The scan reports the call for the member. */
  ghost predicate IsNamed(prog: Program, func: Expr, args: seq<Expr>, m: string, a: string) {
    exists t :: CallReports(prog, func, args, t) && Names(func, t, m, a)
  }

  /**
   Scan soundness, exactly. Every dangerous member some execution of the program
   reaches is reported at the call that runs it, if and only if every one that
   arrives at a call is.
   */
  lemma ScanSoundnessIsExact(prog: Program)
    requires TablesFit(prog)
    ensures (forall n, m, a | n in prog.nodes && n.Call? && IsReached(prog, n.func, n.args, m, a) ::
               IsNamed(prog, n.func, n.args, m, a))
            <==> (forall n, m, a | n in prog.nodes && n.Call? && DangerArrives(prog, n.func, n.args, m, a) ::
                    IsNamed(prog, n.func, n.args, m, a))
  {
    forall n: Node, m, a | n in prog.nodes && n.Call?
      ensures IsReached(prog, n.func, n.args, m, a) <==> DangerArrives(prog, n.func, n.args, m, a)
    {
      DangerIsExact(prog, n.func, n.args, m, a);
    }
  }

  /** `resolve` finds whatever arrives at the expression. */
  ghost predicate IsHeard(prog: Program, e: Expr) {
    forall b | ArrivesAt(prog, e, b) :: ResolvesTo(prog, e, b)
  }

  ghost predicate GetattrArrives(prog: Program, e: Expr) {
    exists builtins | builtins in BUILTINS_MODULES :: ArrivesAt(prog, e, Binding(builtins, Some("getattr")))
  }

  /** The callee is heard; where it may be `getattr`, so is the first argument. */
  ghost predicate IsHeardCall(prog: Program, func: Expr, args: seq<Expr>) {
    IsHeard(prog, func) && (|args| >= 2 && GetattrArrives(prog, func) ==> IsHeard(prog, args[0]))
  }

  lemma GetattrIsReported(prog: Program, func: Expr, args: seq<Expr>, builtins: string, m: string, a: string)
      returns (t: Threat)
    requires builtins in BUILTINS_MODULES && ResolvesTo(prog, func, Binding(builtins, Some("getattr")))
    requires !(func.Name? && func.id in prog.callNames) && Dangerous(prog.receivers, m, a)
    requires |args| >= 2 && ResolvesTo(prog, args[0], Binding(m, None)) && (args[1].StrConst? ==> args[1].text == a)
    ensures CallReports(prog, func, args, t) && Names(func, t, m, a)
  {
    t := GetattrCall(m, if args[1].StrConst? then Some(a) else None);
    assert GetattrReports(prog, args, t);
  }

  lemma DangerIsNamed(prog: Program, func: Expr, args: seq<Expr>, m: string, a: string)
    requires IsHeardCall(prog, func, args) && DangerArrives(prog, func, args, m, a)
    ensures IsNamed(prog, func, args, m, a)
  {
    if func.Name? && func.id in prog.callNames {
      assert CallReports(prog, func, args, DirectCall(func.id)) && Names(func, DirectCall(func.id), m, a);
    } else if ArrivesAt(prog, func, Binding(m, Some(a))) {
      assert CallReports(prog, func, args, MemberCall(m, a)) && Names(func, MemberCall(m, a), m, a);
    } else {
      var builtins, f, attr, g :|
        && builtins in BUILTINS_MODULES
        && ArrivesAlong(prog, func, f, attr, Binding(builtins, Some("getattr")))
        && ArrivesAlong(prog, args[0], g, None, Binding(m, None))
        && (f.name == g.name ==> f == g);
      assert ArrivesAt(prog, func, Binding(builtins, Some("getattr")));
      assert ArrivesAt(prog, args[0], Binding(m, None));
      var t := GetattrIsReported(prog, func, args, builtins, m, a);
    }
  }

  lemma CallThreatIsReported(prog: Program, call: Node, t: Threat)
    requires call in prog.nodes && call.Call? && CallReports(prog, call.func, call.args, t)
    ensures Reported(prog, t)
  {
  }

  /** Every execution that reaches a dangerous member at a call that is heard has that very call reported for it. */
  lemma ReachedCallIsReported(prog: Program, func: Expr, args: seq<Expr>, m: string, a: string) returns (t: Threat)
    requires TablesFit(prog) && Call(func, args) in prog.nodes && IsHeardCall(prog, func, args)
    requires IsReached(prog, func, args, m, a)
    ensures Reported(prog, t) && CallReports(prog, func, args, t) && Names(func, t, m, a)
  {
    DangerIsExact(prog, func, args, m, a);
    DangerIsNamed(prog, func, args, m, a);
    t :| CallReports(prog, func, args, t) && Names(func, t, m, a);
    CallThreatIsReported(prog, Call(func, args), t);
  }

  lemma AlongIsResolved(prog: Program, e: Expr, f: Fact, attr: Option<string>, b: Binding)
    requires MayDenote(prog, f) && IsNameOrMember(e)
    requires Flow(e, f.name, attr) && Follow(prog.receivers, f.binding, attr) == Some(b)
    ensures ResolvesTo(prog, e, b)
  {
    assert f == Fact(f.name, f.binding);
    if e.Attribute? { assert f.binding == Binding(b.mod, None); }
  }

  /** Names, and members of names, are heard where the analysis knows what arrives. */
  lemma DirectIsHeard(prog: Program, e: Expr)
    requires ArrivalsAreKnown(prog) && IsNameOrMember(e)
    ensures IsHeard(prog, e)
  {
    forall b | ArrivesAt(prog, e, b)
      ensures ResolvesTo(prog, e, b)
    {
      var f, attr :| ArrivesAlong(prog, e, f, attr, b);
      AlongIsResolved(prog, e, f, attr, b);
    }
  }

  /** So is an expression in which nothing tracked flows. */
  lemma FollowableIsHeard(some: Receivers, prog: Program, e: Expr)
    requires ArrivalsAreKnown(prog) && IsTable(some) && PartOf(some, prog.receivers)
    requires ArrivesWithin(some, prog) && Followable(some, e)
    ensures IsHeard(prog, e)
  {
    if IsNameOrMember(e) {
      DirectIsHeard(prog, e);
    } else {
      forall f, attr, b
        ensures !ArrivesAlong(prog, e, f, attr, b)
      {
        if ArrivesAlong(prog, e, f, attr, b) { assert CanCarry(some, attr); }
      }
    }
  }

  // --------------------------------------------------------------------
  // Modules whose import is reported in itself
  // --------------------------------------------------------------------

  /** The tables less the modules whose import is reported anyway. */
  function Unannounced(prog: Program): Receivers {
    map m | m in prog.receivers && m !in prog.dangerousImports :: prog.receivers[m]
  }

  /** The node imports a module whose import is reported. */
  predicate Announces(prog: Program, n: Node) {
    match n
    case Import(names) => exists a | a in names :: Root(a.name) in prog.dangerousImports
    case ImportFrom(Some(m), _, _) => Root(m) in prog.dangerousImports
    case _ => false
  }

  lemma AnnouncedIsReported(prog: Program, n: Node) returns (t: Threat)
    requires n in prog.nodes && (Announces(prog, n) || ImportsStar(prog, n))
    ensures Reported(prog, t)
  {
    if n.Import? {
      var a :| a in n.names && Root(a.name) in prog.dangerousImports;
      t := ImportedRoot(Root(a.name));
    } else if Announces(prog, n) {
      t := ImportedRoot(Root(n.mod.value));
    } else {
      var a :| a in n.names && a.name == "*";
      t := ImportedMember(n.mod.value, "*");
    }
    assert t in ImportThreats(prog, n);
  }

  /** What the program imports in plain sight is reported in itself. */
  ghost predicate SpeaksUp(prog: Program) {
    exists n :: n in prog.nodes && (Announces(prog, n) || ImportsStar(prog, n))
  }

  lemma HandedOnKeepsModule(prog: Program, f: Fact, g: Fact)
    requires HandedOn(prog, f, g)
    ensures g.binding.mod == f.binding.mod
  {
  }

  /** Nothing arrives from a module whose import is reported, if there is no such import. */
  lemma {:induction false} RouteIsQuiet(prog: Program, route: seq<Fact>)
    requires TablesFit(prog) && ImportsFit(prog) && !SpeaksUp(prog) && IsRoute(prog, route)
    ensures route[|route| - 1].binding.mod in Unannounced(prog)
    decreases |route|
  {
    if |route| > 1 {
      ShorterRoute(prog, route);
      RouteIsQuiet(prog, route[..|route| - 1]);
      HandedOnKeepsModule(prog, route[|route| - 2], route[|route| - 1]);
    } else {
      StartIsQuiet(prog, route[0]);
    }
  }

  lemma StartIsQuiet(prog: Program, f: Fact)
    requires TablesFit(prog) && ImportsFit(prog) && !SpeaksUp(prog)
    requires Builtin(prog.receivers, f) || Imported(prog, f)
    ensures f.binding.mod in Unannounced(prog)
  {
    if Builtin(prog.receivers, f) {
      assert f.binding.mod in BUILTINS_MODULES;
    } else {
      var n :| n in prog.nodes && !IsAssignment(n) && Writes(map[], n, f.name, Untag(f.binding));
      assert !Announces(prog, n);
      ImportIsQuiet(prog, n, f);
    }
  }

  lemma ImportIsQuiet(prog: Program, n: Node, f: Fact)
    requires ImportsFit(prog) && BUILTINS_MODULES <= prog.receivers.Keys && !IsAssignment(n) && !Announces(prog, n)
    requires Writes(map[], n, f.name, Untag(f.binding)) && Tag(prog.receivers, Untag(f.binding)) == Some(f.binding)
    ensures f.binding.mod in Unannounced(prog)
  {
  }

  lemma QuietArrivals(prog: Program)
    requires TablesFit(prog) && ImportsFit(prog) && !SpeaksUp(prog)
    ensures ArrivesWithin(Unannounced(prog), prog)
  {
    forall f | Arrives(prog, f)
      ensures f.binding.mod in Unannounced(prog)
    {
      var route :| IsRoute(prog, route) && route[|route| - 1] == f;
      RouteIsQuiet(prog, route);
    }
  }

  lemma UnannouncedFits(prog: Program)
    requires TablesFit(prog) && ImportsFit(prog)
    ensures IsTable(Unannounced(prog)) && PartOf(Unannounced(prog), prog.receivers)
  {
    forall m | m in BUILTINS_MODULES ensures m in Unannounced(prog) {}
    forall m | m in Unannounced(prog) ensures "getattr" !in Unannounced(prog)[m] {}
  }

  /**
   If some execution of the program reaches a call that runs a dangerous member,
   the scan reports the program: because it star-imports a dangerous module or
   imports one whose import is reported in itself, or because the call is heard.
   */
  lemma ScanIsSound(prog: Program, func: Expr, args: seq<Expr>, m: string, a: string) returns (t: Threat)
    requires TablesFit(prog) && (SpeaksUp(prog) || IsHeardCall(prog, func, args))
    requires Call(func, args) in prog.nodes && IsReached(prog, func, args, m, a)
    ensures Reported(prog, t)
  {
    if n :| n in prog.nodes && (Announces(prog, n) || ImportsStar(prog, n)) {
      t := AnnouncedIsReported(prog, n);
    } else {
      t := ReachedCallIsReported(prog, func, args, m, a);
    }
  }

  // --------------------------------------------------------------------
  // Plain programs
  // --------------------------------------------------------------------

  /** The expression passes on no value of another one. */
  predicate IsPlain(e: Expr)
    decreases e
  {
    match e
    case Attribute(base, _) => IsPlain(base)
    case Display(elts) => forall i | 0 <= i < |elts| :: IsPlain(elts[i])
    case OneOf(_) => false
    case _ => true
  }

  predicate IsPlainNode(n: Node) {
    match n
    case Assign(_, value) => IsPlain(value)
    case AnnAssign(_, initial) => initial.Some? ==> IsPlain(initial.value)
    case NamedExpr(_, value) => IsPlain(value)
    case Call(func, args) => IsPlain(func) && (args != [] ==> IsPlain(args[0]))
    case _ => true
  }

  predicate IsPlainProgram(prog: Program) {
    forall n | n in prog.nodes :: IsPlainNode(n)
  }

  lemma {:induction false} PlainFlowIsDirect(e: Expr, source: string, attr: Option<string>)
    requires IsPlain(e) && Flow(e, source, attr)
    ensures e == if attr.None? then Name(source) else Attribute(Name(source), attr.value)
    decreases e
  {
    if e.Attribute? { PlainFlowIsDirect(e.value, source, None); }
  }

  lemma {:induction false} BindAllHolds(targets: seq<Expr>, values: seq<Expr>, i: nat, e: Edge)
    requires |targets| == |values| && i < |targets| && e in BindEdges(targets[i], values[i])
    ensures e in BindAll(targets, values)
  {
    if i > 0 { BindAllHolds(targets[1..], values[1..], i - 1, e); }
  }

  lemma {:induction false} AssignHolds(targets: seq<Expr>, value: Expr, t: Expr, e: Edge)
    requires t in targets && e in BindEdges(t, value)
    ensures e in AssignEdges(targets, value)
  {
    if t != targets[0] { AssignHolds(targets[1..], value, t, e); }
  }

  lemma {:induction false} PlainBindIsRecorded(target: Expr, value: Expr, e: Edge)
    requires IsPlain(value) && BindFlow(target, value, e)
    ensures e in BindEdges(target, value)
    decreases target
  {
    if target.Name? {
      PlainFlowIsDirect(value, e.source, e.hop.attr);
      assert e == Edge(e.source, Hop(target.id, e.hop.attr));
    } else {
      var i :| 0 <= i < |target.elts| && BindFlow(target.elts[i], value.elts[i], e);
      PlainBindIsRecorded(target.elts[i], value.elts[i], e);
      BindAllHolds(target.elts, value.elts, i, e);
    }
  }

  lemma PlainFlowIsRecorded(n: Node, e: Edge)
    requires IsPlainNode(n) && NodeFlow(n, e)
    ensures e in NodeEdges(n)
  {
    match n
    case Assign(targets, value) =>
      var t :| t in targets && BindFlow(t, value, e);
      PlainBindIsRecorded(t, value, e);
      AssignHolds(targets, value, t, e);
    case AnnAssign(target, initial) => PlainBindIsRecorded(target, initial.value, e);
    case NamedExpr(target, value) => PlainBindIsRecorded(target, value, e);
    case _ =>
  }

  lemma PlainArrivalsAreKnown(prog: Program)
    requires TablesFit(prog) && NoStars(prog) && IsPlainProgram(prog)
    ensures ArrivalsAreKnown(prog)
  {
    DenotedIsClosed(prog);
    forall n, e, b |
      && n in prog.nodes && NodeFlow(n, e)
      && MayDenote(prog, Fact(e.source, b)) && Follow(prog.receivers, b, e.hop.attr).Some?
      ensures MayDenote(prog, Fact(e.hop.target, Follow(prog.receivers, b, e.hop.attr).value))
    {
      PlainFlowIsRecorded(n, e);
      ClosedEdge(prog.receivers, Denoted(prog), prog.nodes, e, b);
    }
    KnownFlowsSuffice(prog);
  }

  lemma PlainIsHeard(prog: Program, e: Expr)
    requires ArrivalsAreKnown(prog) && IsPlain(e)
    ensures IsHeard(prog, e)
  {
    forall b | ArrivesAt(prog, e, b)
      ensures ResolvesTo(prog, e, b)
    {
      var f, attr :| ArrivesAlong(prog, e, f, attr, b);
      PlainFlowIsDirect(e, f.name, attr);
      DirectIsHeard(prog, e);
    }
  }

  /**
   Plain programs: imports, nested unpacking, annotated and named assignments,
   members and calls, but no expression that passes on the value of another one.
   Of these the scan reports every one of which some execution runs a dangerous
   member, and unless it star-imports a dangerous module, at the call that does.
   */
  lemma PlainProgramsAreSound(prog: Program, func: Expr, args: seq<Expr>, m: string, a: string)
    requires TablesFit(prog) && IsPlainProgram(prog)
    requires Call(func, args) in prog.nodes && IsReached(prog, func, args, m, a)
    ensures exists t :: Reported(prog, t)
    ensures NoStars(prog) ==> IsNamed(prog, func, args, m, a)
  {
    if NoStars(prog) {
      PlainArrivalsAreKnown(prog);
      assert IsPlainNode(Call(func, args));
      PlainIsHeard(prog, func);
      if args != [] { PlainIsHeard(prog, args[0]); }
      var t := ReachedCallIsReported(prog, func, args, m, a);
    } else {
      var n :| n in prog.nodes && ImportsStar(prog, n);
      var t := AnnouncedIsReported(prog, n);
    }
  }
}
