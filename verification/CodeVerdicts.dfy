/** What the code guard's conclusions mean for the programs it judges, and for the verdicts given on them. */
module CodeVerdicts {
  import opened Options
  import opened Engines
  import opened Verdicts
  import opened PythonAst
  import opened AliasBindings
  import opened CodeGuard
  import opened AliasFlows
  import opened Arrivals
  import opened EngineRouting
  import opened Interceptor
  import opened FailClosed
  import AliasSoundness

  /** Some execution of the program runs a dangerous member at a call the scan understands. */
  ghost predicate RunsDanger(nodes: seq<Node>) {
    exists func, args, m, a ::
      && Node.Call(func, args) in nodes
      && IsReached(Guarded(nodes), func, args, m, a)
      && (|| AliasSoundness.IsPlainProgram(Guarded(nodes))
          || AliasSoundness.SpeaksUp(Guarded(nodes))
          || AliasSoundness.IsHeardCall(Guarded(nodes), func, args))
  }

  lemma DangerHasThreat(nodes: seq<Node>) returns (t: Threat)
    requires RunsDanger(nodes)
    ensures Reported(Guarded(nodes), t)
  {
    var func, args, m, a :|
      && Node.Call(func, args) in nodes
      && IsReached(Guarded(nodes), func, args, m, a)
      && (|| AliasSoundness.IsPlainProgram(Guarded(nodes))
          || AliasSoundness.SpeaksUp(Guarded(nodes))
          || AliasSoundness.IsHeardCall(Guarded(nodes), func, args));
    GuardTablesFit(nodes);
    if AliasSoundness.IsPlainProgram(Guarded(nodes)) {
      AliasSoundness.PlainProgramsAreSound(Guarded(nodes), func, args, m, a);
      t :| Reported(Guarded(nodes), t);
    } else {
      t := AliasSoundness.ScanIsSound(Guarded(nodes), func, args, m, a);
    }
  }

  /** A program some execution of which runs a dangerous member is refuted, whatever its size and its text. */
  lemma DangerIsRefuted(bytes: nat, nodes: seq<Node>, suspicious: bool)
    requires RunsDanger(nodes)
    ensures JudgeCode(Text(bytes, Tree(nodes), suspicious)) == Some(NotVerified)
  {
    var t := DangerHasThreat(nodes);
  }

  /** A direct call of a dangerous builtin is refuted, whatever the name is bound to besides. */
  lemma DirectCallIsRefuted(bytes: nat, nodes: seq<Node>, suspicious: bool, f: string, args: seq<Expr>)
    requires f == "eval" || f == "exec" || f == "compile" || f == "__import__"
    requires Node.Call(Name(f), args) in nodes
    ensures JudgeCode(Text(bytes, Tree(nodes), suspicious)) == Some(NotVerified)
  {
    assert f in CALL_NAMES;
    var call := Node.Call(Name(f), args);
    assert CallReports(Guarded(nodes), call.func, call.args, DirectCall(f));
    assert Reported(Guarded(nodes), DirectCall(f));
  }

  /** So is any import of `subprocess`, `importlib`, `ctypes` or `pty`. */
  lemma DangerousImportIsRefuted(bytes: nat, nodes: seq<Node>, suspicious: bool, alias: ImportAlias,
                                 names: seq<ImportAlias>)
    requires alias in names && Import(names) in nodes
    requires alias.name == "subprocess" || alias.name == "importlib" || alias.name == "ctypes" || alias.name == "pty"
    ensures JudgeCode(Text(bytes, Tree(nodes), suspicious)) == Some(NotVerified)
  {
    NoDotNoRoot(alias.name);
    assert alias.name in DANGEROUS_IMPORTS;
    var n := Import(names);
    assert ImportedRoot(Root(alias.name)) in ImportThreats(Guarded(nodes), n);
    assert Reported(Guarded(nodes), ImportedRoot(Root(alias.name)));
  }

  /** And any import out of one of them, or of a submodule. */
  lemma DangerousImportFromIsRefuted(bytes: nat, nodes: seq<Node>, suspicious: bool, root: string, rest: string,
                                     level: nat, names: seq<ImportAlias>)
    requires root == "subprocess" || root == "importlib" || root == "ctypes" || root == "pty"
    requires rest == "" || rest[0] == '.'
    requires ImportFrom(Some(root + rest), level, names) in nodes
    ensures JudgeCode(Text(bytes, Tree(nodes), suspicious)) == Some(NotVerified)
  {
    RootOf(root, rest);
    assert root in DANGEROUS_IMPORTS;
    var n := ImportFrom(Some(root + rest), level, names);
    assert ImportedRoot(root) in ImportThreats(Guarded(nodes), n);
    assert Reported(Guarded(nodes), ImportedRoot(root));
  }

  lemma {:induction false} RootOf(root: string, rest: string)
    requires '.' !in root && (rest == "" || rest[0] == '.')
    ensures Root(root + rest) == root
  {
    if root == "" {
      assert root + rest == rest;
    } else {
      RootOf(root[1..], rest);
      assert (root + rest)[1..] == root[1..] + rest;
    }
  }

  /** The members of `os` that run a process. */
  predicate RunsProcess(a: string) {
    || a == "system" || a == "popen" || a == "startfile" || a == "posix_spawn" || a == "posix_spawnp"
    || a == "execl" || a == "execle" || a == "execlp" || a == "execlpe"
    || a == "execv" || a == "execve" || a == "execvp" || a == "execvpe"
    || a == "spawnl" || a == "spawnle" || a == "spawnlp" || a == "spawnlpe"
    || a == "spawnv" || a == "spawnve" || a == "spawnvp" || a == "spawnvpe"
  }

  /** The members each module lists. */
  predicate IsDangerous(m: string, a: string) {
    || ((m == "os" || m == "posix" || m == "nt") && RunsProcess(a))
    || (m == "subprocess" && (a == "run" || a == "Popen" || a == "call" || a == "check_output" || a == "check_call"
                              || a == "popen"))
    || ((m == "builtins" || m == "__builtins__") && (a == "eval" || a == "exec" || a == "compile" || a == "__import__"))
  }

  lemma ProcessesExactly(a: string)
    ensures a in OS_EXEC_FUNCS <==> RunsProcess(a)
  {
  }

  lemma DangerousExactly(m: string, a: string)
    ensures Dangerous(RECEIVER_METHODS, m, a) <==> IsDangerous(m, a)
  {
    ProcessesExactly(a);
  }

  /** Importing any of these members by name, or all of them at once, is refuted, under whatever name. */
  lemma MemberImportIsRefuted(bytes: nat, nodes: seq<Node>, suspicious: bool, m: string, level: nat, alias: ImportAlias,
                              names: seq<ImportAlias>)
    requires alias in names && ImportFrom(Some(m), level, names) in nodes
    requires IsDangerous(m, alias.name) || (alias.name == "*" && exists a :: IsDangerous(m, a))
    ensures JudgeCode(Text(bytes, Tree(nodes), suspicious)) == Some(NotVerified)
  {
    if alias.name == "*" {
      var a :| IsDangerous(m, a);
      DangerousExactly(m, a);
    } else {
      DangerousExactly(m, alias.name);
    }
    var n := ImportFrom(Some(m), level, names);
    assert ImportedMember(m, alias.name) in ImportThreats(Guarded(nodes), n);
    assert Reported(Guarded(nodes), ImportedMember(m, alias.name));
  }

  lemma AliasReachesMember(prog: Program, x: string, m: string, a: string, args: seq<Expr>)
    requires TablesFit(prog) && Dangerous(prog.receivers, m, a)
    requires Import([ImportAlias(m, Some(x))]) in prog.nodes
    ensures IsReached(prog, Attribute(Name(x), a), args, m, a)
  {
    var f, func := Fact(x, Binding(m, None)), Attribute(Name(x), a);
    StartArrives(prog, f);
    assert Flow(Name(x), x, None) && Flow(func, x, Some(a));
    assert ArrivesAlong(prog, func, f, Some(a), Binding(m, Some(a)));
    DangerIsExact(prog, func, args, m, a);
  }

  /** A plain program that imports a module under any name and calls a dangerous member through that name is
      refuted: `import os as o; o.system("id")`, for one. */
  lemma AliasedCallIsRefuted(bytes: nat, nodes: seq<Node>, suspicious: bool, x: string, m: string, a: string,
                             args: seq<Expr>)
    requires AliasSoundness.IsPlainProgram(Guarded(nodes)) && IsDangerous(m, a)
    requires Import([ImportAlias(m, Some(x))]) in nodes && Node.Call(Attribute(Name(x), a), args) in nodes
    ensures RunsDanger(nodes)
    ensures JudgeCode(Text(bytes, Tree(nodes), suspicious)) == Some(NotVerified)
  {
    DangerousExactly(m, a);
    GuardTablesFit(nodes);
    AliasReachesMember(Guarded(nodes), x, m, a, args);
    DangerIsRefuted(bytes, nodes, suspicious);
  }

  /** What no engine refutes: no code at all, or text within the limit that parses, of which neither
      the scan nor the patterns find anything. */
  lemma HeuristicPassExactly(c: Code)
    ensures JudgeCode(c) == Some(HeuristicPass) <==>
            || c == NoCode
            || (&& c.Text? && c.bytes <= 262144 && c.parsed.Tree? && !c.suspicious
                && forall t :: !Reported(Guarded(c.parsed.nodes), t))
  {
    if c.Text? && c.parsed.Tree? && exists t :: Reported(Guarded(c.parsed.nodes), t) {
      assert HasThreat(c.parsed.nodes);
    }
  }

  /** The code guard verifies nothing, judges nothing but text, and raises only where the parser does. */
  lemma CodeConclusions(c: Code)
    ensures JudgeCode(c) != Some(EngineResult.Verified)
    ensures JudgeCode(c) == Some(Unverifiable) <==> c == NotText
    ensures JudgeCode(c) == None <==> c.Text? && c.bytes <= 262144 && c.parsed.ParserFails?
    ensures c.Text? && (c.bytes > 262144 || c.parsed.NotPython?) ==> JudgeCode(c) == Some(NotVerified)
  {
  }

  // --------------------------------------------------------------------
  // Verdicts
  // --------------------------------------------------------------------

  predicate IsCodeMessage(s: Setup, msg: Message) {
    msg.payloadType == CODE_EXECUTION && s.config.enableCode
  }

  /**
   In every interleaving: a message with a program some execution of which runs
   a dangerous member is never given HEURISTIC_PASS or VERIFIED; and if its engine
   run answers, it is BLOCKED.
   */
  lemma DangerIsNeverPassed(s: Setup, g: Gateway, i: nat, nodes: seq<Node>)
    requires Reachable(s, g) && i < |g.calls| && g.calls[i].reply.Verdict?
    requires IsCodeMessage(s, g.calls[i].msg)
    requires g.calls[i].msg.code.Text? && g.calls[i].msg.code.parsed == Tree(nodes) && RunsDanger(nodes)
    ensures var status := g.calls[i].reply.status; status == BLOCKED || status == ERROR || status == UNVERIFIABLE
    ensures g.calls[i].reply.status == UNVERIFIABLE ==> g.calls[i].msg.size.None?
    ensures forall result | EngineAnswered(s, g, g.calls[i], result) :: g.calls[i].reply.status == BLOCKED
  {
    var code := g.calls[i].msg.code;
    VerdictExactly(s, g, i);
    DangerIsRefuted(code.bytes, nodes, code.suspicious);
    assert code == Text(code.bytes, Tree(nodes), code.suspicious);
    assert Route(s.config, g.calls[i].msg) == Some(NotVerified);
  }

  /** HEURISTIC_PASS on code means that the scan reports nothing, and so that no call it understands can run a
      dangerous member. */
  lemma PassedCodeRunsNoDanger(s: Setup, g: Gateway, i: nat)
    requires Reachable(s, g) && i < |g.calls| && g.calls[i].reply.Verdict?
    requires IsCodeMessage(s, g.calls[i].msg) && g.calls[i].reply.status == HEURISTIC_PASS
    ensures var code := g.calls[i].msg.code;
            || code == NoCode
            || (&& code.Text? && code.bytes <= 262144 && code.parsed.Tree? && !code.suspicious
                && (forall t :: !Reported(Guarded(code.parsed.nodes), t))
                && !RunsDanger(code.parsed.nodes))
  {
    var code := g.calls[i].msg.code;
    VerdictExactly(s, g, i);
    assert JudgeCode(code) == Some(HeuristicPass);
    HeuristicPassExactly(code);
    if code.Text? && RunsDanger(code.parsed.nodes) { DangerIsRefuted(code.bytes, code.parsed.nodes, code.suspicious); }
  }
}
