/**
 Which tracked values the executions of a program bring to which names, and
 which calls they make dangerous: both exactly.
 */
module Arrivals {
  import opened Options
  import opened PythonAst
  import opened AliasBindings
  import opened CodeGuard
  import opened Executions
  import opened AliasFlows

  /** The value a binding stands for. */
  function Untag(b: Binding): Value {
    if b.member.None? then ModuleValue(b.mod) else MemberValue(b.mod, b.member.value)
  }

  lemma TagIsUntag(receivers: Receivers, v: Value)
    requires Tag(receivers, v).Some?
    ensures Untag(Tag(receivers, v).value) == v
  {
  }

  /** Taking an attribute of a value is following it with the binding. */
  lemma TakeIsFollow(receivers: Receivers, v: Value, attr: Option<string>)
    requires BUILTINS_MODULES <= receivers.Keys
    ensures Tag(receivers, Take(v, attr)).Some? ==> Tag(receivers, v).Some?
    ensures Tag(receivers, v).Some? ==>
              Tag(receivers, Take(v, attr)) == Follow(receivers, Tag(receivers, v).value, attr)
  {
  }

  // --------------------------------------------------------------------
  // Routes
  // --------------------------------------------------------------------

  /** The name has the binding if it is bound nowhere. */
  predicate Builtin(receivers: Receivers, f: Fact) {
    Tag(receivers, Lookup(map[], f.name)) == Some(f.binding)
  }

  /** An import gives the name the binding. */
  ghost predicate Imported(prog: Program, f: Fact) {
    && Tag(prog.receivers, Untag(f.binding)) == Some(f.binding)
    && exists n :: n in prog.nodes && !IsAssignment(n) && Writes(map[], n, f.name, Untag(f.binding))
  }

  /** Some assignment may hand the one on as the other. */
  ghost predicate HandedOn(prog: Program, f: Fact, g: Fact) {
    exists n, e ::
      && n in prog.nodes && NodeFlow(n, e)
      && e.source == f.name && e.hop.target == g.name
      && Follow(prog.receivers, f.binding, e.hop.attr) == Some(g.binding)
  }

  ghost predicate IsRoute(prog: Program, route: seq<Fact>) {
    && |route| > 0
    && (Builtin(prog.receivers, route[0]) || Imported(prog, route[0]))
    && forall i | 0 < i < |route| :: HandedOn(prog, route[i - 1], route[i])
  }

  /** By some route of imports, builtins and assignments, followed by the analysis or not. */
  ghost predicate Arrives(prog: Program, f: Fact) {
    exists route :: IsRoute(prog, route) && route[|route| - 1] == f
  }

  lemma StartArrives(prog: Program, f: Fact)
    requires Builtin(prog.receivers, f) || Imported(prog, f)
    ensures Arrives(prog, f)
  {
    assert IsRoute(prog, [f]);
  }

  lemma HandedOnArrives(prog: Program, f: Fact, g: Fact)
    requires Arrives(prog, f) && HandedOn(prog, f, g)
    ensures Arrives(prog, g)
  {
    var route :| IsRoute(prog, route) && route[|route| - 1] == f;
    var longer := route + [g];
    forall i | 0 < i < |longer|
      ensures HandedOn(prog, longer[i - 1], longer[i])
    {
      if i < |route| { assert longer[i] == route[i] && longer[i - 1] == route[i - 1]; }
    }
    assert IsRoute(prog, longer);
  }

  lemma ShorterRoute(prog: Program, route: seq<Fact>)
    requires IsRoute(prog, route) && |route| > 1
    ensures IsRoute(prog, route[..|route| - 1])
    ensures HandedOn(prog, route[|route| - 2], route[|route| - 1])
  {
    var shorter := route[..|route| - 1];
    forall i | 0 < i < |shorter|
      ensures HandedOn(prog, shorter[i - 1], shorter[i])
    {
      assert HandedOn(prog, route[i - 1], route[i]);
    }
  }

  // --------------------------------------------------------------------
  // Whatever an execution holds has arrived
  // --------------------------------------------------------------------

  ghost predicate AllArrived(prog: Program, s: Store) {
    forall k | k in s && Tag(prog.receivers, s[k]).Some? :: Arrives(prog, Fact(k.1, Tag(prog.receivers, s[k]).value))
  }

  /** Whatever a name resolves to has arrived. */
  lemma VisibleArrives(prog: Program, s: Store, view: map<string, Value>, x: string)
    requires AllArrived(prog, s) && Visible(s, view) && Tag(prog.receivers, Lookup(view, x)).Some?
    ensures Arrives(prog, Fact(x, Tag(prog.receivers, Lookup(view, x)).value))
  {
    if x in view {
      var scope: nat :| (scope, x) in s && s[(scope, x)] == view[x];
    } else {
      StartArrives(prog, Fact(x, Tag(prog.receivers, Lookup(view, x)).value));
    }
  }

  lemma ImportIgnoresView(view: map<string, Value>, n: Node, x: string, v: Value)
    requires !IsAssignment(n) && Writes(view, n, x, v)
    ensures Writes(map[], n, x, v)
  {
  }

  lemma WriteArrives(prog: Program, s: Store, view: map<string, Value>, n: Node, x: string, v: Value)
    requires TablesFit(prog) && AllArrived(prog, s) && Visible(s, view)
    requires n in prog.nodes && Writes(view, n, x, v) && Tag(prog.receivers, v).Some?
    ensures Arrives(prog, Fact(x, Tag(prog.receivers, v).value))
  {
    var f := Fact(x, Tag(prog.receivers, v).value);
    TagIsUntag(prog.receivers, v);
    if IsAssignment(n) {
      var e := NodeWriteFlows(view, n, x, v);
      TakeIsFollow(prog.receivers, Lookup(view, e.source), e.hop.attr);
      VisibleArrives(prog, s, view, e.source);
      var g := Fact(e.source, Tag(prog.receivers, Lookup(view, e.source)).value);
      assert HandedOn(prog, g, f);
      HandedOnArrives(prog, g, f);
    } else {
      ImportIgnoresView(view, n, x, v);
      StartArrives(prog, f);
    }
  }

  /** One executed statement, in any scope, brings a tracked value to a name only by a route. */
  lemma StepArrives(prog: Program, before: Store, after: Store)
    requires TablesFit(prog) && AllArrived(prog, before) && Step(prog, before, after)
    ensures AllArrived(prog, after)
  {
    var n, view :| n in prog.nodes && Visible(before, view)
                   && forall k | k in after :: (k in before && after[k] == before[k]) || Writes(view, n, k.1, after[k]);
    forall k | k in after && Tag(prog.receivers, after[k]).Some?
      ensures Arrives(prog, Fact(k.1, Tag(prog.receivers, after[k]).value))
    {
      if !(k in before && after[k] == before[k]) { WriteArrives(prog, before, view, n, k.1, after[k]); }
    }
  }

  lemma ShorterRun(prog: Program, run: seq<Store>)
    requires IsRun(prog, run) && |run| > 1
    ensures IsRun(prog, run[..|run| - 1])
    ensures Step(prog, run[|run| - 2], run[|run| - 1])
  {
    var shorter := run[..|run| - 1];
    forall i | 0 < i < |shorter|
      ensures Step(prog, shorter[i - 1], shorter[i])
    {
      assert Step(prog, run[i - 1], run[i]);
    }
  }

  /** So does every execution: any order, repetition and scope of statements. */
  lemma {:induction false} EveryRunArrives(prog: Program, run: seq<Store>)
    requires TablesFit(prog) && IsRun(prog, run)
    ensures AllArrived(prog, run[|run| - 1])
    decreases |run|
  {
    if |run| > 1 {
      ShorterRun(prog, run);
      EveryRunArrives(prog, run[..|run| - 1]);
      StepArrives(prog, run[|run| - 2], run[|run| - 1]);
    }
  }

  // --------------------------------------------------------------------
  // Whatever arrives is held by an execution
  // --------------------------------------------------------------------

  lemma LongerRun(prog: Program, run: seq<Store>, after: Store)
    requires IsRun(prog, run) && Step(prog, run[|run| - 1], after)
    ensures IsRun(prog, run + [after])
  {
    var longer := run + [after];
    forall i | 0 < i < |longer|
      ensures Step(prog, longer[i - 1], longer[i])
    {
      if i < |run| { assert longer[i] == run[i] && longer[i - 1] == run[i - 1]; }
    }
  }

  ghost predicate FreeScope(s: Store, scope: nat) {
    forall k | k in s :: k.0 != scope
  }

  /** Everything in a scope is forgotten but one name. */
  lemma WriteStep(prog: Program, keep: Store, before: Store, scope: nat, view: map<string, Value>, n: Node, x: string,
                  v: Value)
    requires forall k | k in keep :: k in before && before[k] == keep[k]
    requires n in prog.nodes && Visible(before, view) && Writes(view, n, x, v)
    ensures Step(prog, before, keep[(scope, x) := v])
  {
  }

  /** What a name holds at the end of a route: a builtin's meaning, or a stored value. */
  ghost predicate Brought(keep: Store, s: Store, scope: nat, f: Fact, piece: map<string, Value>) {
    || (piece == map[] && s == keep && Lookup(map[], f.name) == Untag(f.binding))
    || (piece == map[f.name := Untag(f.binding)] && s == keep[(scope, f.name) := Untag(f.binding)])
  }

  lemma BroughtIsVisible(keep: Store, s: Store, scope: nat, f: Fact, piece: map<string, Value>)
    requires Brought(keep, s, scope, f, piece)
    ensures Visible(s, piece) && Lookup(piece, f.name) == Untag(f.binding)
  {
    if piece != map[] { assert s[(scope, f.name)] == piece[f.name]; }
  }

  /** A route can be executed in a scope of its own, and leaves the other scopes alone. */
  lemma {:induction false} RouteRuns(prog: Program, route: seq<Fact>, run: seq<Store>, scope: nat)
      returns (longer: seq<Store>, piece: map<string, Value>)
    requires TablesFit(prog) && IsRoute(prog, route) && IsRun(prog, run) && FreeScope(run[|run| - 1], scope)
    ensures IsRun(prog, longer)
    ensures Brought(run[|run| - 1], longer[|longer| - 1], scope, route[|route| - 1], piece)
    decreases |route|
  {
    var keep, f := run[|run| - 1], route[|route| - 1];
    if |route| > 1 {
      ShorterRoute(prog, route);
      var before, earlier := RouteRuns(prog, route[..|route| - 1], run, scope);
      longer, piece := HandOn(prog, keep, before, scope, route[|route| - 2], earlier, f);
    } else if Builtin(prog.receivers, f) {
      longer, piece := run, map[];
      TagIsUntag(prog.receivers, Lookup(map[], f.name));
    } else {
      var n :| n in prog.nodes && !IsAssignment(n) && Writes(map[], n, f.name, Untag(f.binding));
      WriteStep(prog, keep, keep, scope, map[], n, f.name, Untag(f.binding));
      longer, piece := run + [keep[(scope, f.name) := Untag(f.binding)]], map[f.name := Untag(f.binding)];
      LongerRun(prog, run, keep[(scope, f.name) := Untag(f.binding)]);
    }
  }

  lemma HandOn(prog: Program, keep: Store, run: seq<Store>, scope: nat, g: Fact, earlier: map<string, Value>, f: Fact)
      returns (longer: seq<Store>, piece: map<string, Value>)
    requires IsRun(prog, run) && FreeScope(keep, scope) && HandedOn(prog, g, f)
    requires Brought(keep, run[|run| - 1], scope, g, earlier)
    ensures IsRun(prog, longer) && Brought(keep, longer[|longer| - 1], scope, f, piece)
  {
    var n, e :|
      && n in prog.nodes && NodeFlow(n, e)
      && e.source == g.name && e.hop.target == f.name
      && Follow(prog.receivers, g.binding, e.hop.attr) == Some(f.binding);
    BroughtIsVisible(keep, run[|run| - 1], scope, g, earlier);
    NodeFlowWrites(earlier, n, e);
    assert Take(Untag(g.binding), e.hop.attr) == Untag(f.binding);
    WriteStep(prog, keep, run[|run| - 1], scope, earlier, n, f.name, Untag(f.binding));
    longer, piece := run + [keep[(scope, f.name) := Untag(f.binding)]], map[f.name := Untag(f.binding)];
    LongerRun(prog, run, keep[(scope, f.name) := Untag(f.binding)]);
  }

  lemma ArrivalRuns(prog: Program, f: Fact, run: seq<Store>, scope: nat)
      returns (longer: seq<Store>, piece: map<string, Value>)
    requires TablesFit(prog) && Arrives(prog, f) && IsRun(prog, run) && FreeScope(run[|run| - 1], scope)
    ensures IsRun(prog, longer) && Brought(run[|run| - 1], longer[|longer| - 1], scope, f, piece)
  {
    var route :| IsRoute(prog, route) && route[|route| - 1] == f;
    longer, piece := RouteRuns(prog, route, run, scope);
  }

  /** Some execution ends with a scope in which the name holds the binding. */
  ghost predicate IsHeld(prog: Program, f: Fact) {
    exists run, scope: nat ::
      IsRun(prog, run) && (scope, f.name) in run[|run| - 1] && run[|run| - 1][(scope, f.name)] == Untag(f.binding)
  }

  /**
   Exactly what executions bring to names. A tracked value arrives at a name if
   and only if it is the name's meaning as a builtin, or some execution ends with
   the name holding it.
   */
  lemma ArrivalsAreExact(prog: Program, f: Fact)
    requires TablesFit(prog) && Tag(prog.receivers, Untag(f.binding)).Some?
    ensures Arrives(prog, f) <==> Builtin(prog.receivers, f) || IsHeld(prog, f)
  {
    assert Tag(prog.receivers, Untag(f.binding)) == Some(f.binding);
    if Arrives(prog, f) {
      assert IsRun(prog, [map[]]);
      var run, piece := ArrivalRuns(prog, f, [map[]], 0);
      if piece == map[] { assert Builtin(prog.receivers, f); }
      else { assert (0, f.name) in run[|run| - 1]; }
    }
    if Builtin(prog.receivers, f) { StartArrives(prog, f); }
    if IsHeld(prog, f) {
      var run, scope: nat :|
        IsRun(prog, run) && (scope, f.name) in run[|run| - 1] && run[|run| - 1][(scope, f.name)] == Untag(f.binding);
      EveryRunArrives(prog, run);
    }
  }

  // --------------------------------------------------------------------
  // Which calls executions make dangerous
  // --------------------------------------------------------------------

  /** What arrives at a name moves on as the expression's value. */
  ghost predicate ArrivesAlong(prog: Program, e: Expr, f: Fact, attr: Option<string>, b: Binding) {
    Flow(e, f.name, attr) && Arrives(prog, f) && Follow(prog.receivers, f.binding, attr) == Some(b)
  }

  ghost predicate ArrivesAt(prog: Program, e: Expr, b: Binding) {
    exists f, attr :: ArrivesAlong(prog, e, f, attr, b)
  }

  /** The callee may be `getattr` while the first argument is the module; one
      name supplies both only if it holds the module itself. */
  ghost predicate FetchArrives(prog: Program, func: Expr, arg: Expr, m: string) {
    exists builtins, f, attr, g |
      && builtins in BUILTINS_MODULES
      && ArrivesAlong(prog, func, f, attr, Binding(builtins, Some("getattr")))
      && ArrivesAlong(prog, arg, g, None, Binding(m, None)) ::
      f.name == g.name ==> f == g
  }

  /** By the routes of the program, the call may run the dangerous member. */
  ghost predicate DangerArrives(prog: Program, func: Expr, args: seq<Expr>, m: string, a: string) {
    && Dangerous(prog.receivers, m, a)
    && (|| ArrivesAt(prog, func, Binding(m, Some(a)))
        || (|args| >= 2 && FetchArrives(prog, func, args[0], m) && (args[1].StrConst? ==> args[1].text == a)))
  }

  /** Some execution reaches the call with the dangerous member. */
  ghost predicate IsReached(prog: Program, func: Expr, args: seq<Expr>, m: string, a: string) {
    exists run, view ::
      IsRun(prog, run) && Visible(run[|run| - 1], view) && Reaches(prog, view, func, args, m, a)
  }

  lemma MemberIsTracked(prog: Program, m: string, a: string)
    requires TablesFit(prog) && Dangerous(prog.receivers, m, a)
    ensures Tag(prog.receivers, MemberValue(m, a)) == Some(Binding(m, Some(a)))
    ensures Tag(prog.receivers, ModuleValue(m)) == Some(Binding(m, None))
  {
  }

  /** What an expression evaluates to has arrived at it. */
  lemma ValueArrives(prog: Program, s: Store, view: map<string, Value>, e: Expr, v: Value)
      returns (f: Fact, attr: Option<string>)
    requires TablesFit(prog) && AllArrived(prog, s) && Visible(s, view)
    requires MayBe(view, e, v) && Tag(prog.receivers, v).Some?
    ensures ArrivesAlong(prog, e, f, attr, Tag(prog.receivers, v).value)
    ensures Lookup(view, f.name) == Untag(f.binding)
  {
    var source;
    source, attr := ValueIsFlow(view, e, v);
    TakeIsFollow(prog.receivers, Lookup(view, source), attr);
    VisibleArrives(prog, s, view, source);
    f := Fact(source, Tag(prog.receivers, Lookup(view, source)).value);
    TagIsUntag(prog.receivers, Lookup(view, source));
  }

  lemma ReachedArrives(prog: Program, s: Store, view: map<string, Value>, func: Expr, args: seq<Expr>, m: string,
                       a: string)
    requires TablesFit(prog) && AllArrived(prog, s) && Visible(s, view) && Reaches(prog, view, func, args, m, a)
    ensures DangerArrives(prog, func, args, m, a)
  {
    MemberIsTracked(prog, m, a);
    if MayBe(view, func, MemberValue(m, a)) {
      var f, attr := ValueArrives(prog, s, view, func, MemberValue(m, a));
    } else {
      var builtins :|
        builtins in BUILTINS_MODULES && MayBe(view, func, MemberValue(builtins, "getattr"));
      var f, attr := ValueArrives(prog, s, view, func, MemberValue(builtins, "getattr"));
      var g, attr' := ValueArrives(prog, s, view, args[0], ModuleValue(m));
      assert attr' == None;
      assert f.name == g.name ==> Untag(f.binding) == Untag(g.binding);
    }
  }

  lemma AlongIsValue(prog: Program, view: map<string, Value>, e: Expr, f: Fact, attr: Option<string>, b: Binding)
    requires ArrivesAlong(prog, e, f, attr, b) && Lookup(view, f.name) == Untag(f.binding)
    ensures MayBe(view, e, Untag(b))
  {
    FlowIsValue(view, e, f.name, attr);
    assert Take(Untag(f.binding), attr) == Untag(b);
  }

  lemma MemberIsReached(prog: Program, func: Expr, args: seq<Expr>, m: string, a: string)
    requires TablesFit(prog) && Dangerous(prog.receivers, m, a) && ArrivesAt(prog, func, Binding(m, Some(a)))
    ensures IsReached(prog, func, args, m, a)
  {
    var f, attr :| ArrivesAlong(prog, func, f, attr, Binding(m, Some(a)));
    assert IsRun(prog, [map[]]);
    var run, piece := ArrivalRuns(prog, f, [map[]], 0);
    BroughtIsVisible(map[], run[|run| - 1], 0, f, piece);
    AlongIsValue(prog, piece, func, f, attr, Binding(m, Some(a)));
    assert Reaches(prog, piece, func, args, m, a);
  }

  /** Two arrivals at different names, or one, at one moment of an execution. */
  lemma BothArrive(prog: Program, f: Fact, g: Fact) returns (run: seq<Store>, view: map<string, Value>)
    requires TablesFit(prog) && Arrives(prog, f) && Arrives(prog, g) && (f.name == g.name ==> f == g)
    ensures IsRun(prog, run) && Visible(run[|run| - 1], view)
    ensures Lookup(view, f.name) == Untag(f.binding) && Lookup(view, g.name) == Untag(g.binding)
  {
    assert IsRun(prog, [map[]]);
    var first, piece := ArrivalRuns(prog, f, [map[]], 0);
    BroughtIsVisible(map[], first[|first| - 1], 0, f, piece);
    if f == g {
      run, view := first, piece;
    } else {
      var piece';
      run, piece' := ArrivalRuns(prog, g, first, 1);
      BroughtIsVisible(first[|first| - 1], run[|run| - 1], 1, g, piece');
      view := piece + piece';
      BothVisible(first[|first| - 1], run[|run| - 1], f, piece, g, piece');
    }
  }

  lemma BothVisible(keep: Store, s: Store, f: Fact, piece: map<string, Value>, g: Fact, piece': map<string, Value>)
    requires Brought(map[], keep, 0, f, piece) && Brought(keep, s, 1, g, piece') && f.name != g.name
    ensures Visible(s, piece + piece')
  {
    forall x | x in piece + piece'
      ensures exists scope: nat :: (scope, x) in s && s[(scope, x)] == (piece + piece')[x]
    {
      if x == g.name && x in piece' {
        assert s[(1, x)] == piece'[x];
      } else {
        assert s[(0, x)] == piece[x];
      }
    }
  }

  lemma FetchIsReached(prog: Program, func: Expr, args: seq<Expr>, m: string, a: string)
    requires TablesFit(prog) && Dangerous(prog.receivers, m, a)
    requires |args| >= 2 && FetchArrives(prog, func, args[0], m) && (args[1].StrConst? ==> args[1].text == a)
    ensures IsReached(prog, func, args, m, a)
  {
    var builtins, f, attr, g :|
      && builtins in BUILTINS_MODULES
      && ArrivesAlong(prog, func, f, attr, Binding(builtins, Some("getattr")))
      && ArrivesAlong(prog, args[0], g, None, Binding(m, None))
      && (f.name == g.name ==> f == g);
    var run, view := BothArrive(prog, f, g);
    AlongIsValue(prog, view, func, f, attr, Binding(builtins, Some("getattr")));
    AlongIsValue(prog, view, args[0], g, None, Binding(m, None));
    assert Reaches(prog, view, func, args, m, a);
  }

  /**
   Exactly which calls executions make dangerous. Some execution reaches the call
   with a dangerous member if and only if, by the routes of the program, the
   member arrives at the callee, or `getattr` does and the module at the first
   argument.
   */
  lemma DangerIsExact(prog: Program, func: Expr, args: seq<Expr>, m: string, a: string)
    requires TablesFit(prog)
    ensures IsReached(prog, func, args, m, a) <==> DangerArrives(prog, func, args, m, a)
  {
    if IsReached(prog, func, args, m, a) {
      var run, view :| IsRun(prog, run) && Visible(run[|run| - 1], view) && Reaches(prog, view, func, args, m, a);
      EveryRunArrives(prog, run);
      ReachedArrives(prog, run[|run| - 1], view, func, args, m, a);
    }
    if DangerArrives(prog, func, args, m, a) {
      if ArrivesAt(prog, func, Binding(m, Some(a))) {
        MemberIsReached(prog, func, args, m, a);
      } else {
        FetchIsReached(prog, func, args, m, a);
      }
    }
  }
}
