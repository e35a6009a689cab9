/** What running the statements of a program does to names, as far as modules and their members go. */
module Executions {
  import opened Options
  import opened PythonAst
  import opened CodeGuard
  import AliasBindings

  datatype Value = ModuleValue(mod: string) | MemberValue(mod: string, member: string) | Untracked

  /** Which value each name holds in each scope. */
  type Store = map<(nat, string), Value>

  /** What names resolve to at some point of the program: any scope that binds a
      name may supply it, and a name bound nowhere is a builtin. */
  ghost predicate Visible(store: Store, view: map<string, Value>) {
    forall x | x in view :: exists scope: nat :: (scope, x) in store && store[(scope, x)] == view[x]
  }

  function Lookup(view: map<string, Value>, name: string): Value {
    if name in view then view[name]
    else if name == "__builtins__" then ModuleValue(name)
    else MemberValue("builtins", name)
  }

  /** A value itself, or its attribute. */
  function Take(v: Value, attr: Option<string>): Value {
    if attr.None? then v
    else if v.ModuleValue? then MemberValue(v.mod, attr.value)
    else Untracked
  }

  /** The expression may evaluate to the value. The elements of a display that is
      not unpacked on the spot are reached only through an object, which is
      outside what is tracked. */
  ghost predicate MayBe(view: map<string, Value>, e: Expr, v: Value)
    decreases e
  {
    match e
    case Name(x) => v == Lookup(view, x)
    case Attribute(base, a) => exists b :: MayBe(view, base, b) && v == Take(b, Some(a))
    case OneOf(options) => exists i | 0 <= i < |options| :: MayBe(view, options[i], v)
    case _ => v == Untracked
  }

  /** Binding `value` to `target` may give the name `x` the value `v`. */
  ghost predicate BindWrites(view: map<string, Value>, target: Expr, value: Expr, x: string, v: Value)
    decreases target, value
  {
    match target
    case Name(t) => x == t && MayBe(view, value, v)
    case Display(ts) =>
      (match value
       case Display(vs) =>
         if |vs| == |ts| then exists i | 0 <= i < |ts| :: BindWrites(view, ts[i], vs[i], x, v)
         else v == Untracked
       case OneOf(options) => exists i | 0 <= i < |options| :: BindWrites(view, target, options[i], x, v)
       case _ => v == Untracked)
    case _ => false
  }

  /** Executing `node` may give the name `x` the value `v`. */
  ghost predicate Writes(view: map<string, Value>, node: Node, x: string, v: Value) {
    match node
    case Import(names) =>
      exists a | a in names ::
        if a.asname.Some? then x == a.asname.value && v == ModuleValue(a.name)
        else x == Root(a.name) && v == ModuleValue(Root(a.name))
    case ImportFrom(mod, level, names) =>
      exists a | a in names ::
        && (a.name == "*" || x == if a.asname.Some? then a.asname.value else a.name)
        && v == if level == 0 && mod.Some? then MemberValue(mod.value, if a.name == "*" then x else a.name)
                else Untracked
    case Assign(targets, value) => exists t | t in targets :: BindWrites(view, t, value, x, v)
    case AnnAssign(target, initial) => initial.Some? && BindWrites(view, target, initial.value, x, v)
    case NamedExpr(target, value) => BindWrites(view, target, value, x, v)
    case Call(_, _) => false
    case OtherNode => v == Untracked
  }

  /** One executed statement: any scope may gain what the statement writes, and
      any binding may disappear (`del`, a returning function). */
  ghost predicate Step(prog: Program, before: Store, after: Store) {
    exists n, view ::
      && n in prog.nodes
      && Visible(before, view)
      && forall k | k in after :: (k in before && after[k] == before[k]) || Writes(view, n, k.1, after[k])
  }

  /** An execution: statements in any order, any number of times, in any scope. */
  ghost predicate IsRun(prog: Program, run: seq<Store>) {
    && |run| > 0
    && run[0] == map[]
    && forall i | 0 < i < |run| :: Step(prog, run[i - 1], run[i])
  }

  /** Executing the call runs a dangerous member: directly, or by fetching it with getattr. */
  ghost predicate Reaches(prog: Program, view: map<string, Value>, func: Expr, args: seq<Expr>, m: string, a: string) {
    && Dangerous(prog.receivers, m, a)
    && (|| MayBe(view, func, MemberValue(m, a))
        || (exists builtins | builtins in AliasBindings.BUILTINS_MODULES ::
              && MayBe(view, func, MemberValue(builtins, "getattr"))
              && |args| >= 2
              && MayBe(view, args[0], ModuleValue(m))
              // An attribute computed at run time may be any string.
              && (args[1].StrConst? ==> args[1].text == a)))
  }
}
