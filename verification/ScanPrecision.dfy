/** What the scan does not report. */
module ScanPrecision {
  import opened Options
  import opened PythonAst
  import opened AliasBindings
  import opened CodeGuard
  import opened MissedPrograms

  /** The report is about a module or member the tables list. */
  predicate IsListed(prog: Program, t: Threat) {
    match t
    case ImportedRoot(root) => root in prog.dangerousImports
    case ImportedMember(m, a) => m in prog.receivers && (a == "*" || a in prog.receivers[m])
    case DirectCall(f) => f in prog.callNames
    case MemberCall(m, a) => m in prog.receivers && a in prog.receivers[m]
    case GetattrCall(m, Some(a)) => m in prog.receivers && a in prog.receivers[m]
    case GetattrCall(_, None) => true
  }

  /** Nothing is reported but what the tables list. */
  lemma OnlyListedIsReported(prog: Program, t: Threat)
    requires Reported(prog, t)
    ensures IsListed(prog, t)
  {
  }

  /** A call of getattr with a constant name: exactly the dangerous members so named are reported. */
  lemma ConstantGetattrExactly(prog: Program, target: Expr, name: string, t: Threat)
    ensures GetattrReports(prog, [target, StrConst(name)], t) <==>
            && t.GetattrCall? && t.attr == Some(name)
            && t.mod in prog.receivers && name in prog.receivers[t.mod]
            && ResolvesTo(prog, target, Binding(t.mod, None))
  {
  }

  /** With any other second argument, every module it may reach into is. */
  lemma DynamicGetattrExactly(prog: Program, target: Expr, name: Expr, t: Threat)
    requires !name.StrConst?
    ensures GetattrReports(prog, [target, name], t) <==>
            t.GetattrCall? && t.attr == None && ResolvesTo(prog, target, Binding(t.mod, None))
  {
  }

  // --------------------------------------------------------------------
  // Programs without assignments
  // --------------------------------------------------------------------

  lemma NoEdgesNoLink(p: Problem, f: Fact, g: Fact)
    requires forall x, h :: h !in Hops(p.edges, x)
    ensures !p.Linked(f, g)
  {
  }

  lemma NoEdgesOnlyKnown(p: Problem, f: Fact)
    requires p.Derivable(f) && forall x, h :: h !in Hops(p.edges, x)
    ensures p.Known(f)
  {
    var chain :| p.IsChain(chain) && chain[|chain| - 1] == f;
    if |chain| > 1 { NoEdgesNoLink(p, chain[|chain| - 2], chain[|chain| - 1]); }
  }

  /** Without assignments a name denotes what imports give it, and what it denotes unbound. */
  lemma OnlyImportsDenote(prog: Program, f: Fact)
    requires forall n | n in prog.nodes :: NodeEdges(n) == []
    requires MayDenote(prog, f)
    ensures || (exists n :: n in prog.nodes && f in NodeSeeds(prog.receivers, n))
            || f.binding in At(ImplicitBindings(prog.receivers, prog.callNames), f.name)
  {
    var p :| Describes(prog, p) && p.Derivable(f);
    forall x, h
      ensures h !in Hops(p.edges, x)
    {
      assert h in Hops(p.edges, x) <==> exists n :: n in prog.nodes && Edge(x, h) in NodeEdges(n);
    }
    NoEdgesOnlyKnown(p, f);
    assert Stored(p.values, f) <==> exists n :: n in prog.nodes && f in NodeSeeds(prog.receivers, n);
  }

  /** `import os as o; getattr(o, name)` */
  function Fetching(name: string): Program {
    Guarded([Import([ImportAlias("os", Some("o"))]), Call(Name("getattr"), [Name("o"), StrConst(name)])])
  }

  lemma FetchingNodes(receivers: Receivers, n: Node, name: string)
    requires n == Import([ImportAlias("os", Some("o"))]) || n == Call(Name("getattr"), [Name("o"), StrConst(name)])
    ensures NodeEdges(n) == [] && NodeSeeds(receivers, n) <= {Fact("o", Binding("os", None))}
  {
  }

  lemma OIsOs(name: string, b: Binding)
    requires MayDenote(Fetching(name), Fact("o", b))
    ensures b == Binding("os", None)
  {
    var prog := Fetching(name);
    forall n | n in prog.nodes
      ensures NodeEdges(n) == [] && NodeSeeds(prog.receivers, n) <= {Fact("o", Binding("os", None))}
    {
      FetchingNodes(prog.receivers, n, name);
    }
    OnlyImportsDenote(prog, Fact("o", b));
    OIsNoBuiltin();
  }

  lemma OIsNoBuiltin()
    ensures "o" !in ImplicitBindings(RECEIVER_METHODS, CALL_NAMES)
  {
    GuardModules();
  }

  lemma GetattrIsNoCallName()
    ensures "getattr" !in CALL_NAMES
  {
  }

  lemma OsFunctions()
    ensures "os" in RECEIVER_METHODS && RECEIVER_METHODS["os"] == OS_EXEC_FUNCS
  {
  }

  lemma HarmlessFetch(name: string, t: Threat)
    requires name !in OS_EXEC_FUNCS
    ensures !CallReports(Fetching(name), Name("getattr"), [Name("o"), StrConst(name)], t)
  {
    GetattrIsNoCallName();
    OsFunctions();
    if CallReports(Fetching(name), Name("getattr"), [Name("o"), StrConst(name)], t) {
      if t.MemberCall? {
        GetattrDenotes(name, Binding(t.mod, Some(t.member)));
      } else {
        OIsOs(name, Binding(t.mod, None));
      }
    }
  }

  /** Fetching a member of `os` that runs no process, `getattr(os, "getcwd")` say, is not reported. */
  lemma HarmlessFetchIsSilent(name: string, t: Threat)
    requires name !in OS_EXEC_FUNCS
    ensures !Reported(Fetching(name), t)
  {
    ImportIsSilent(Fetching(name), "os", "o", t);
    HarmlessFetch(name, t);
  }

  lemma GetattrDenotes(name: string, b: Binding)
    requires ResolvesTo(Fetching(name), Name("getattr"), b)
    ensures b.member.Some? ==> !Dangerous(RECEIVER_METHODS, b.mod, b.member.value)
  {
    var prog := Fetching(name);
    forall n | n in prog.nodes
      ensures NodeEdges(n) == [] && NodeSeeds(prog.receivers, n) <= {Fact("o", Binding("os", None))}
    {
      FetchingNodes(prog.receivers, n, name);
    }
    OnlyImportsDenote(prog, Fact("getattr", b));
    GuardModules();
    GuardMethods();
  }
}
