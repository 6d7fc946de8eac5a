/** The Python fragment the auditors read: expressions reduced to the calls they make, and the
    statement forms whose control flow the detectors reason about. */
module Python {
  import opened Options

  /** What a call does to the session parameter of the enclosing function. */
  datatype SessionOp = NoOp | Close | Rearm

  /** A call site. `slow` is the rule category the call trips, if any; `reports` says that its name
      is one of the asserting or bail-out calls. */
  datatype Call = Call(line: nat, op: SessionOp, slow: Option<string>, reports: bool)

  datatype Expr =
    | Op(kids: seq<Expr>)                                  // evaluates every operand, left to right
    | Invoke(call: Call, kids: seq<Expr>)                  // evaluates the operands, then calls
    | IfExp(test: Expr, body: Expr, orelse: Expr)          // body if test else orelse

  datatype WithItem = WithItem(context: Expr, opens: bool) // opens: the item opens a DB session

  datatype Stmt =
    | Simple(e: Expr)
    | Assert(id: nat, test: Expr)
    | Return(line: nat, value: Option<Expr>)
    | Raise(e: Expr)
    | Break
    | Continue
    | If(test: Expr, body: seq<Stmt>, orelse: seq<Stmt>)
    | For(iter: Expr, fixed: bool, body: seq<Stmt>, orelse: seq<Stmt>)  // fixed: never empty
    | While(test: Expr, body: seq<Stmt>, orelse: seq<Stmt>)
    | With(items: seq<WithItem>, body: seq<Stmt>)
    | Try(body: seq<Stmt>, handlers: seq<Handler>, orelse: seq<Stmt>, finalbody: seq<Stmt>)

  datatype Handler = Handler(body: seq<Stmt>)

  const NOTHING := Op([])

  /** The compound statements, which `_release_line` steps over. */
  predicate Compound(s: Stmt) {
    s.If? || s.For? || s.While? || s.With? || s.Try?
  }

  /** The expressions a simple statement evaluates. */
  function Operands(s: Stmt): seq<Expr>
    requires !Compound(s)
  {
    match s
    case Simple(e) => [e]
    case Assert(_, test) => [test]
    case Return(_, value) => if value.Some? then [value.value] else []
    case Raise(e) => [e]
    case Break => []
    case Continue => []
  }
}
