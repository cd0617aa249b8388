/** The part of the decorated Go syntax tree (the `dst` package) that the
    instrumentation touches: a file is a sequence of top-level declarations;
    a function declaration has a name, a parameter list and an optional body
    (a function implemented elsewhere has none); statements and expressions
    are kept only as far as the injected diagnostic needs them. */
module Ast {
  import opened Wrappers

  /** Kinds of basic literals (`token.STRING` and its siblings). */
  datatype LitKind = INT | FLOAT | IMAG | CHAR | STRING

  datatype Expr =
    | Ident(name: string)
    | BasicLit(kind: LitKind, value: string)
    | CallExpr(fun: Expr, args: seq<Expr>, ellipsis: bool)
    | OtherExpr(text: string)

  datatype Stmt =
    | BlockStmt(list: seq<Stmt>)
    | ExprStmt(x: Expr)
    | OtherStmt(text: string)

  /** One entry of a parameter list: the names it declares (none for an
      unnamed parameter such as `func(int)`). */
  datatype Field = Field(names: seq<string>)

  /** A top-level declaration. A `GenDecl` (import, const, type, var) is
      kept opaque: nothing below it can be a function declaration. */
  datatype Decl =
    | FuncDecl(name: string, params: seq<Field>, body: Option<seq<Stmt>>)
    | GenDecl(text: string)

  /** The statement is a call of the built-in `print` with exactly one
      string literal and no `...`. */
  predicate IsPrintOfString(s: Stmt)
  {
    && s.ExprStmt?
    && s.x.CallExpr?
    && s.x.fun == Ident("print")
    && !s.x.ellipsis
    && |s.x.args| == 1
    && s.x.args[0].BasicLit?
    && s.x.args[0].kind == STRING
  }
}
