/** The part of Python's syntax tree the code guard looks at. */
module PythonAst {
  import opened Options

  datatype Expr =
    | Name(id: string)
    | Attribute(value: Expr, attr: string)
    // A tuple or list display without starred elements.
    | Display(elts: seq<Expr>)
    | StrConst(text: string)
    // The value of one of these, whichever it is: the value of an assignment
    // expression, the branches of a conditional one, the operands of `and` and `or`.
    | OneOf(options: seq<Expr>)
    // Anything else: literals, other operators, calls, subscripts.
    | Opaque

  datatype ImportAlias = ImportAlias(name: string, asname: Option<string>)

  /** The nodes `ast.walk` yields, in any order; an assignment expression is
      its own node even when it sits inside another expression. */
  datatype Node =
    | Import(names: seq<ImportAlias>)
    | ImportFrom(mod: Option<string>, level: nat, names: seq<ImportAlias>)
    | Assign(targets: seq<Expr>, value: Expr)
    | AnnAssign(target: Expr, initial: Option<Expr>)
    | NamedExpr(target: Expr, value: Expr)
    | Call(func: Expr, args: seq<Expr>)
    | OtherNode
}
