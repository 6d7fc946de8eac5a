/** The Python expressions the test auditor propagates constants through, and what they evaluate to. */
module Terms {
  import opened Options

  datatype Literal = Str(s: string) | Int(n: nat) | Bool(b: bool) | OtherLit(truthy: bool)

  datatype Entry = Entry(key: Option<Term>, value: Term)   // no key: `**value`

  datatype Term =
    | Const(lit: Literal)
    | Name(id: string)
    | Display(elts: seq<Term>)                             // a list, tuple or set display
    | Starred(e: Term)
    | Dict(entries: seq<Entry>)
    | Joined(parts: seq<Term>)                             // an f-string
    | Formatted(value: Term, spec: seq<Term>)              // a replacement field and its format spec
    | BinOp(left: Term, right: Term)
    | Call(func: string, args: seq<Term>)                  // a call of a bare name
    | Method(recv: Term, attr: string, args: seq<Term>)    // a call of an attribute
    | Other(kids: seq<Term>)

  type Consts = map<string, Term>

  // ----- values -----

  /** Values as far as their elements go. `Built` is the result of an operator on its operands;
      repeated members of sets and dictionaries are kept. */
  datatype Value =
    | Num(n: int)
    | Text(s: string)
    | Items(elts: seq<Value>)
    | Table(keys: seq<Value>, vals: seq<Value>)
    | Atom(truthy: bool)
    | Built(op: string, parts: seq<Value>)

  type Env = map<string, Value>

  /** What the parts of the program outside the fragment evaluate to. */
  type World = Term -> Option<Value>

  function OfLiteral(l: Literal): Value {
    match l
    case Str(s) => Text(s)
    case Int(n) => Num(n)
    case Bool(b) => Num(if b then 1 else 0)
    case OtherLit(truthy) => Atom(truthy)
  }

  /** The elements an iteration over the value yields; none for a value that cannot be iterated. */
  function Elements(v: Value): Option<seq<Value>> {
    match v
    case Text(s) => Some(seq(|s|, i requires 0 <= i < |s| => Text([s[i]])))
    case Items(elts) => Some(elts)
    case Table(keys, _) => Some(keys)
    case _ => None
  }

  /** An iteration over the value, if there can be one, yields something. */
  predicate NonEmpty(v: Value) {
    match v
    case Text(s) => s != ""
    case Items(elts) => elts != []
    case Table(keys, _) => keys != []
    case Built(_, _) => false
    case _ => true
  }

  function Range(lo: int, hi: int, step: int): seq<Value>
    requires step > 0
    decreases hi - lo
  {
    if lo >= hi then [] else [Num(lo)] + Range(lo + step, hi, step)
  }

  function Down(lo: int, hi: int, step: int): seq<Value>
    requires step < 0
    decreases lo - hi
  {
    if lo <= hi then [] else [Num(lo)] + Down(lo + step, hi, step)
  }

  function CallRange(args: seq<Value>): Option<Value> {
    if |args| == 0 || |args| > 3 || exists i :: 0 <= i < |args| && !args[i].Num? then None
    else
      var lo := if |args| == 1 then 0 else args[0].n;
      var hi := if |args| == 1 then args[0].n else args[1].n;
      var step := if |args| == 3 then args[2].n else 1;
      if step == 0 then None else Some(Items(if step > 0 then Range(lo, hi, step) else Down(lo, hi, step)))
  }

  function CallZip(args: seq<Value>): Option<Value> {
    if args == [] then Some(Items([]))
    else
      match Elements(args[0])
      case None => None
      case Some(first) =>
        if |args| == 1 then Some(Items(first))
        else
          match CallZip(args[1..])
          case Some(Items(rest)) =>
            var n := if |first| <= |rest| then |first| else |rest|;
            Some(Items(seq(n, i requires 0 <= i < n => Items([first[i], rest[i]]))))
          case _ => None
  }

  const SAME_LENGTH := {"enumerate", "reversed", "sorted", "list", "tuple", "set", "dict"}
  const VIEWS := {"items", "keys", "values"}

  /** `dict` wants pairs; the others take any iterable. */
  function CallSame(func: string, v: Value): Option<Value> {
    match Elements(v)
    case None => None
    case Some(elts) =>
      if func != "dict" then Some(Items(elts))
      else if v.Table? then Some(v)
      else if forall i | 0 <= i < |elts| :: elts[i].Items? && |elts[i].elts| == 2 then
        Some(Table(seq(|elts|, i requires 0 <= i < |elts| && elts[i].Items? && |elts[i].elts| == 2 => elts[i].elts[0]),
                   seq(|elts|, i requires 0 <= i < |elts| && elts[i].Items? && |elts[i].elts| == 2 => elts[i].elts[1])))
      else None
  }

  /** The value of an expression, if its evaluation raises nothing. */
  function Eval(e: Term, env: Env, w: World): Option<Value>
    decreases e, 0
  {
    match e
    case Const(lit) => Some(OfLiteral(lit))
    case Name(id) => if id in env then Some(env[id]) else None
    case Display(elts) => (match EvalElts(elts, env, w) case Some(vs) => Some(Items(vs)) case None => None)
    case Dict(entries) => EvalDict(entries, env, w)
    case Joined(parts) => (match EvalAll(parts, env, w) case Some(vs) => Some(Built("join", vs)) case None => None)
    case Formatted(value, spec) =>
      (match (Eval(value, env, w), EvalAll(spec, env, w))
       case (Some(v), Some(vs)) => Some(Built("format", [v] + vs))
       case _ => None)
    case BinOp(left, right) =>
      (match (Eval(left, env, w), Eval(right, env, w))
       case (Some(l), Some(r)) => Some(Built("op", [l, r]))
       case _ => None)
    case Call(func, args) =>
      if func == "range" then (match EvalAll(args, env, w) case Some(vs) => CallRange(vs) case None => None)
      else if func == "zip" then (match EvalAll(args, env, w) case Some(vs) => CallZip(vs) case None => None)
      else if func in SAME_LENGTH && args != [] then
        (match Eval(args[0], env, w) case Some(v) => CallSame(func, v) case None => None)
      else w(e)
    case Method(recv, attr, _) =>
      if attr in VIEWS then
        (match Eval(recv, env, w)
         case Some(Table(keys, vals)) => Some(Items(keys))
         case _ => None)
      else w(e)
    case Starred(_) => None
    case Other(_) => w(e)
  }

  function EvalAll(es: seq<Term>, env: Env, w: World): Option<seq<Value>>
    decreases es, 0
  {
    if es == [] then Some([])
    else
      match (Eval(es[0], env, w), EvalAll(es[1..], env, w))
      case (Some(v), Some(vs)) => Some([v] + vs)
      case _ => None
  }

  /** The elements of a display; a starred one is spliced in. */
  function EvalElts(es: seq<Term>, env: Env, w: World): Option<seq<Value>>
    decreases es, 0
  {
    if es == [] then Some([])
    else
      match (EvalElt(es[0], env, w), EvalElts(es[1..], env, w))
      case (Some(v), Some(vs)) => Some(v + vs)
      case _ => None
  }

  function EvalElt(e: Term, env: Env, w: World): Option<seq<Value>>
    decreases e, 1
  {
    if e.Starred? then
      match Eval(e.e, env, w)
      case Some(v) => Elements(v)
      case None => None
    else
      match Eval(e, env, w)
      case Some(v) => Some([v])
      case None => None
  }

  function EvalDict(entries: seq<Entry>, env: Env, w: World): Option<Value>
    decreases entries, 0
  {
    if entries == [] then Some(Table([], []))
    else
      match (EvalEntry(entries[0], env, w), EvalDict(entries[1..], env, w))
      case (Some(Table(ks, vs)), Some(Table(ks', vs'))) => Some(Table(ks + ks', vs + vs'))
      case _ => None
  }

  function EvalEntry(entry: Entry, env: Env, w: World): Option<Value>
    decreases entry, 0
  {
    match entry
    case Entry(None, value) =>
      (match Eval(value, env, w)
       case Some(Table(ks, vs)) => Some(Table(ks, vs))
       case _ => None)
    case Entry(Some(key), value) =>
      (match (Eval(key, env, w), Eval(value, env, w))
       case (Some(k), Some(v)) => Some(Table([k], [v]))
       case _ => None)
  }

  /** Every resolved name holds the value of the expression it is bound to. */
  ghost predicate Consistent(env: Env, consts: Consts, w: World) {
    forall n | n in consts :: n in env && Eval(consts[n], env, w) == Some(env[n])
  }

  predicate Contains(e: Term, t: Term)
    decreases e
  {
    e == t ||
    match e
    case Const(_) => false
    case Name(_) => false
    case Display(elts) => exists i | 0 <= i < |elts| :: Contains(elts[i], t)
    case Starred(inner) => Contains(inner, t)
    case Dict(entries) =>
      exists i | 0 <= i < |entries| ::
        (entries[i].key.Some? && Contains(entries[i].key.value, t)) || Contains(entries[i].value, t)
    case Joined(parts) => exists i | 0 <= i < |parts| :: Contains(parts[i], t)
    case Formatted(value, spec) => Contains(value, t) || exists i | 0 <= i < |spec| :: Contains(spec[i], t)
    case BinOp(left, right) => Contains(left, t) || Contains(right, t)
    case Call(_, args) => exists i | 0 <= i < |args| :: Contains(args[i], t)
    case Method(recv, _, args) => Contains(recv, t) || exists i | 0 <= i < |args| :: Contains(args[i], t)
    case Other(kids) => exists i | 0 <= i < |kids| :: Contains(kids[i], t)
  }
}
