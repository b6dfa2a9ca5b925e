/** The expression nodes of the SGL intermediate representation that a program can submit. */
module Ir {
  import opened Options

  datatype Stop = NoStop | OneStop(stop: string) | ManyStops(stops: seq<string>)

  datatype Params = Params(maxNewTokens: nat, stop: Stop)

  /** What joining needs to know of a child executor. */
  datatype Kid = Kid(text: string, forkPos: Option<nat>)

  datatype Expr =
    | ConstantText(value: string)
    | Gen(name: string, params: Params)
    | Select(decided: Option<string>, choices: seq<string>)
    | ExprList(items: seq<Expr>)
    | RoleBegin(role: string)
    | RoleEnd(role: string)
    | Image(path: string)
    | VarScopeBegin(name: string)
    | VarScopeEnd(name: string)
    | CommitLazy
    | ConcateAndAppend(kids: seq<Kid>)
    | Argument(name: string)
    | Variable(name: string)

  /** `a + b` on expressions. */
  function ConcatenateIr(a: Expr, b: Expr): Expr {
    if a.ExprList? then
      if b.ExprList? then ExprList(a.items + b.items) else ExprList(a.items + [b])
    else if b.ExprList? then ExprList([a] + b.items)
    else ExprList([a, b])
  }

  function Items(e: Expr): seq<Expr> {
    if e.ExprList? then e.items else [e]
  }

  lemma ConcatenateIrItems(a: Expr, b: Expr)
    ensures ConcatenateIr(a, b) == ExprList(Items(a) + Items(b))
  {}
}
