/** `_literal_strings`: the string literals an expression reaches through single assignments. */
module StringLiterals {
  import opened Options
  import opened Terms

  /** The expressions `iter_child_nodes` yields, in order: for a dictionary all keys, then all values. */
  function Children(e: Term): seq<Term> {
    match e
    case Const(_) => []
    case Name(_) => []
    case Display(elts) => elts
    case Starred(inner) => [inner]
    case Dict(entries) => Keys(entries) + seq(|entries|, i requires 0 <= i < |entries| => entries[i].value)
    case Joined(parts) => parts
    case Formatted(value, spec) => [value] + spec
    case BinOp(left, right) => [left] + [right]
    case Call(func, args) => [Name(func)] + args
    case Method(recv, _, args) => [recv] + args
    case Other(kids) => kids
  }

  function Keys(entries: seq<Entry>): seq<Term> {
    if entries == [] then []
    else (if entries[0].key.Some? then [entries[0].key.value] else []) + Keys(entries[1..])
  }

  function Size(e: Term): nat
    decreases e, 0
  {
    match e
    case Const(_) => 1
    case Name(_) => 1
    case Display(elts) => 1 + SizeAll(elts)
    case Starred(inner) => 1 + Size(inner)
    case Dict(entries) => 1 + SizeEntries(entries)
    case Joined(parts) => 1 + SizeAll(parts)
    case Formatted(value, spec) => 1 + Size(value) + SizeAll(spec)
    case BinOp(left, right) => 1 + Size(left) + Size(right)
    case Call(_, args) => 2 + SizeAll(args)
    case Method(recv, _, args) => 1 + Size(recv) + SizeAll(args)
    case Other(kids) => 1 + SizeAll(kids)
  }

  function SizeAll(es: seq<Term>): (n: nat)
    ensures es != [] ==> n > SizeAll(es[1..])
    decreases es, 0
  {
    if es == [] then 0 else Size(es[0]) + SizeAll(es[1..])
  }

  function SizeEntries(es: seq<Entry>): nat
    decreases es, 0
  {
    if es == [] then 0 else SizeEntry(es[0]) + SizeEntries(es[1..])
  }

  function SizeEntry(entry: Entry): nat
    decreases entry, 0
  {
    match entry
    case Entry(None, v) => Size(v)
    case Entry(Some(k), v) => Size(k) + Size(v)
  }

  lemma {:induction false} SizeAppend(a: seq<Term>, b: seq<Term>)
    ensures SizeAll(a + b) == SizeAll(a) + SizeAll(b)
  {
    if a == [] {
      assert a + b == b;
    } else {
      assert (a + b)[0] == a[0] && (a + b)[1..] == a[1..] + b;
      SizeAppend(a[1..], b);
    }
  }

  lemma {:induction false} EntriesSize(es: seq<Entry>)
    ensures SizeAll(Keys(es)) + SizeAll(seq(|es|, i requires 0 <= i < |es| => es[i].value)) == SizeEntries(es)
  {
    var values := seq(|es|, i requires 0 <= i < |es| => es[i].value);
    if es != [] {
      EntriesSize(es[1..]);
      assert values[1..] == seq(|es[1..]|, i requires 0 <= i < |es[1..]| => es[1..][i].value);
      SizeAppend(if es[0].key.Some? then [es[0].key.value] else [], Keys(es[1..]));
    }
  }

  lemma EntryPartsAreSmaller(entries: seq<Entry>)
    ensures SizeAll(Children(Dict(entries))) < Size(Dict(entries))
  {
    EntriesSize(entries);
    SizeAppend(Keys(entries), seq(|entries|, i requires 0 <= i < |entries| => entries[i].value));
  }

  lemma ChildrenAreSmaller(e: Term)
    ensures SizeAll(Children(e)) < Size(e)
  {
    match e
    case Dict(entries) => EntryPartsAreSmaller(entries);
    case Formatted(value, spec) => SizeAppend([value], spec);
    case BinOp(left, right) => SizeAppend([left], [right]);
    case Call(func, args) => SizeAppend([Name(func)], args);
    case Method(recv, _, args) => SizeAppend([recv], args);
    case _ =>
  }

  predicate Resolvable(id: string, consts: Consts, seen: set<string>) {
    id !in seen && id in consts
  }

  /** The string constants reached from the expression, rightmost first. */
  function Literals(e: Term, consts: Consts, seen: set<string>): seq<string>
    decreases consts.Keys - seen, Size(e), 0
  {
    match e
    case Const(lit) => if lit.Str? then [lit.s] else []
    case Name(id) => if Resolvable(id, consts, seen) then Literals(consts[id], consts, seen + {id}) else []
    case _ => ChildrenAreSmaller(e); AllLiterals(Children(e), consts, seen)
  }

  function AllLiterals(es: seq<Term>, consts: Consts, seen: set<string>): seq<string>
    decreases consts.Keys - seen, SizeAll(es), 1
  {
    if es == [] then [] else AllLiterals(es[1..], consts, seen) + Literals(es[0], consts, seen)
  }

  /** How many entries the expression will put through the stack, itself included. */
  function Weight(e: Term, consts: Consts, seen: set<string>): nat
    decreases consts.Keys - seen, Size(e), 0
  {
    match e
    case Const(_) => 1
    case Name(id) => 1 + if Resolvable(id, consts, seen) then Weight(consts[id], consts, seen + {id}) else 0
    case _ => ChildrenAreSmaller(e); 1 + AllWeights(Children(e), consts, seen)
  }

  function AllWeights(es: seq<Term>, consts: Consts, seen: set<string>): nat
    decreases consts.Keys - seen, SizeAll(es), 1
  {
    if es == [] then 0 else Weight(es[0], consts, seen) + AllWeights(es[1..], consts, seen)
  }

  /** A stack entry: an expression and the names resolved on the way to it. */
  datatype Item = Item(e: Term, seen: set<string>)

  function StackLiterals(stack: seq<Item>, consts: Consts): seq<string> {
    if stack == [] then []
    else
      var n := |stack| - 1;
      Literals(stack[n].e, consts, stack[n].seen) + StackLiterals(stack[..n], consts)
  }

  function StackWeight(stack: seq<Item>, consts: Consts): nat {
    if stack == [] then 0
    else
      var n := |stack| - 1;
      Weight(stack[n].e, consts, stack[n].seen) + StackWeight(stack[..n], consts)
  }

  function Pushed(es: seq<Term>, seen: set<string>): seq<Item> {
    seq(|es|, i requires 0 <= i < |es| => Item(es[i], seen))
  }

  lemma {:induction false} PushAll(stack: seq<Item>, es: seq<Term>, consts: Consts, seen: set<string>)
    ensures StackLiterals(stack + Pushed(es, seen), consts) == AllLiterals(es, consts, seen) + StackLiterals(stack, consts)
    ensures StackWeight(stack + Pushed(es, seen), consts) == AllWeights(es, consts, seen) + StackWeight(stack, consts)
    decreases |es|
  {
    if es == [] {
      assert stack + Pushed(es, seen) == stack;
    } else {
      var one := stack + [Item(es[0], seen)];
      assert stack + Pushed(es, seen) == one + Pushed(es[1..], seen);
      assert one[..|stack|] == stack;
      PushAll(one, es[1..], consts, seen);
    }
  }

  /** The explicit stack terminates, on cyclic bindings too, and yields exactly the literals of the
      recursive unfolding, in its order. */
  method LiteralStrings(e: Term, consts: Consts) returns (out: seq<string>)
    ensures out == Literals(e, consts, {})
    ensures forall text :: Finds(out, e, consts, text)
  {
    out := [];
    var stack := [Item(e, {})];
    while stack != []
      invariant out + StackLiterals(stack, consts) == Literals(e, consts, {})
      decreases StackWeight(stack, consts)
    {
      var n := |stack| - 1;
      var current, seen := stack[n].e, stack[n].seen;
      stack := stack[..n];
      if current.Const? {
        if current.lit.Str? {
          out := out + [current.lit.s];
        }
      } else if current.Name? {
        if current.id !in seen && current.id in consts {
          var next := Item(consts[current.id], seen + {current.id});
          assert (stack + [next])[..n] == stack;
          stack := stack + [next];
        }
      } else {
        PushAll(stack, Children(current), consts, seen);
        stack := stack + Pushed(Children(current), seen);
      }
    }
    forall text ensures Finds(out, e, consts, text) { LiteralsExactly(e, consts, text); }
  }

  // ----- what is reached -----

  /** The expression holds the constant or name as a part, the names of called functions included. */
  ghost predicate Mentions(e: Term, t: Term) {
    Contains(e, t) || (t.Name? && exists args :: Contains(e, Call(t.id, args)))
  }

  /** From the expression, through the bindings of these names one after the other, to the string. */
  ghost predicate Leads(e: Term, names: seq<string>, consts: Consts, text: string)
    decreases |names|
  {
    if names == [] then Mentions(e, Const(Str(text)))
    else Mentions(e, Name(names[0])) && names[0] in consts && Leads(consts[names[0]], names[1..], consts, text)
  }

  lemma {:induction false} KeysHold(entries: seq<Entry>, x: Term)
    ensures x in Keys(entries) <==> exists i :: 0 <= i < |entries| && entries[i].key == Some(x)
  {
    if entries != [] {
      KeysHold(entries[1..], x);
      if i :| 0 <= i < |entries| && entries[i].key == Some(x) {
        if i > 0 { assert entries[1..][i-1].key == Some(x); }
      }
    }
  }

  lemma PartInChild(e: Term, t: Term) returns (child: Term)
    requires Contains(e, t) && e != t
    ensures child in Children(e) && Contains(child, t)
  {
    match e
    case Display(elts) => var i :| 0 <= i < |elts| && Contains(elts[i], t); child := elts[i];
    case Starred(inner) => child := inner;
    case Dict(entries) => child := PartInEntry(entries, t);
    case Joined(parts) => var i :| 0 <= i < |parts| && Contains(parts[i], t); child := parts[i];
    case Formatted(value, spec) =>
      if Contains(value, t) { child := value; } else { var i :| 0 <= i < |spec| && Contains(spec[i], t); child := spec[i]; }
    case BinOp(left, right) => child := if Contains(left, t) then left else right;
    case Call(func, args) =>
      var i :| 0 <= i < |args| && Contains(args[i], t);
      child := args[i];
      assert child in [Name(func)] + args;
    case Method(recv, _, args) =>
      if Contains(recv, t) { child := recv; } else { var i :| 0 <= i < |args| && Contains(args[i], t); child := args[i]; }
    case Other(kids) => var i :| 0 <= i < |kids| && Contains(kids[i], t); child := kids[i];
  }

  lemma PartInEntry(entries: seq<Entry>, t: Term) returns (child: Term)
    requires Contains(Dict(entries), t) && Dict(entries) != t
    ensures child in Children(Dict(entries)) && Contains(child, t)
  {
    var i :| 0 <= i < |entries| &&
      ((entries[i].key.Some? && Contains(entries[i].key.value, t)) || Contains(entries[i].value, t));
    var values := seq(|entries|, j requires 0 <= j < |entries| => entries[j].value);
    if Contains(entries[i].value, t) {
      child := entries[i].value;
      assert values[i] == child;
    } else {
      child := entries[i].key.value;
      KeysHold(entries, child);
    }
    assert child in Keys(entries) + values;
  }

  lemma ChildIsPart(e: Term, child: Term, t: Term)
    requires child in Children(e) && Mentions(child, t)
    ensures Mentions(e, t)
  {
    if e.Call? && child == Name(e.func) {
      if Contains(child, t) { assert Contains(e, Call(e.func, e.args)); }
    } else {
      if Contains(child, t) { ChildContains(e, child, t); }
      else {
        var args :| Contains(child, Call(t.id, args));
        ChildContains(e, child, Call(t.id, args));
      }
    }
  }

  lemma ChildContains(e: Term, child: Term, t: Term)
    requires child in Children(e) && Contains(child, t) && !(e.Call? && child == Name(e.func))
    ensures Contains(e, t)
  {
    match e
    case Dict(entries) =>
      KeysHold(entries, child);
      var values := seq(|entries|, j requires 0 <= j < |entries| => entries[j].value);
      if child in values { var i :| 0 <= i < |values| && values[i] == child; assert entries[i].value == child; }
    case Call(func, args) => assert child in args;
    case Method(recv, _, args) => assert child == recv || child in args;
    case Formatted(value, spec) => assert child == value || child in spec;
    case BinOp(left, right) => assert child == left || child == right;
    case _ =>
  }

  lemma {:induction false} LiteralInAll(es: seq<Term>, consts: Consts, seen: set<string>, text: string)
    ensures text in AllLiterals(es, consts, seen) <==> exists e :: e in es && text in Literals(e, consts, seen)
  {
    if es != [] {
      LiteralInAll(es[1..], consts, seen, text);
      if e :| e in es && text in Literals(e, consts, seen) {
        assert e == es[0] || e in es[1..];
      }
    }
  }

  /** Every string found is led to. */
  lemma {:induction false} FoundIsLedTo(e: Term, consts: Consts, seen: set<string>, text: string) returns (names: seq<string>)
    requires text in Literals(e, consts, seen)
    ensures Leads(e, names, consts, text)
    decreases consts.Keys - seen, Size(e)
  {
    match e
    case Const(_) => names := [];
    case Name(id) =>
      names := FoundIsLedTo(consts[id], consts, seen + {id}, text);
      names := [id] + names;
      assert names[1..] == names[1..] && names[0] == id;
    case _ =>
      ChildrenAreSmaller(e);
      LiteralInAll(Children(e), consts, seen, text);
      var child :| child in Children(e) && text in Literals(child, consts, seen);
      MemberSize(Children(e), child);
      names := FoundIsLedTo(child, consts, seen, text);
      ChildIsPart(e, child, if names == [] then Const(Str(text)) else Name(names[0]));
  }

  lemma {:induction false} MemberSize(es: seq<Term>, e: Term)
    requires e in es
    ensures Size(e) <= SizeAll(es)
  {
    if e != es[0] { MemberSize(es[1..], e); }
  }

  /** What a mentioned part yields, the expression yields. */
  lemma {:induction false} PartYields(e: Term, t: Term, consts: Consts, seen: set<string>, text: string)
    requires Contains(e, t) && text in Literals(t, consts, seen)
    ensures text in Literals(e, consts, seen)
    decreases Size(e)
  {
    if e != t {
      var child := PartInChild(e, t);
      ChildrenAreSmaller(e);
      MemberSize(Children(e), child);
      PartYields(child, t, consts, seen, text);
      LiteralInAll(Children(e), consts, seen, text);
    }
  }

  lemma MentionYields(e: Term, t: Term, consts: Consts, seen: set<string>, text: string)
    requires Mentions(e, t) && text in Literals(t, consts, seen)
    ensures text in Literals(e, consts, seen)
  {
    if Contains(e, t) {
      PartYields(e, t, consts, seen, text);
    } else {
      var args :| Contains(e, Call(t.id, args));
      assert t in Children(Call(t.id, args));
      LiteralInAll(Children(Call(t.id, args)), consts, seen, text);
      PartYields(e, Call(t.id, args), consts, seen, text);
    }
  }

  predicate Distinct(names: seq<string>) { forall i, j | 0 <= i < j < |names| :: names[i] != names[j] }

  lemma {:induction false} LedToIsFound(e: Term, names: seq<string>, consts: Consts, seen: set<string>, text: string)
    requires Leads(e, names, consts, text) && Distinct(names) && forall n | n in names :: n !in seen
    ensures text in Literals(e, consts, seen)
    decreases |names|
  {
    if names == [] {
      MentionYields(e, Const(Str(text)), consts, seen, text);
    } else {
      LedToIsFound(consts[names[0]], names[1..], consts, seen + {names[0]}, text);
      MentionYields(e, Name(names[0]), consts, seen, text);
    }
  }

  /** A way that meets a name twice can be cut short. */
  lemma {:induction false} CutShort(e: Term, names: seq<string>, consts: Consts, text: string, i: nat, j: nat)
    requires Leads(e, names, consts, text) && i < j < |names| && names[i] == names[j]
    ensures Leads(e, names[..i] + names[j..], consts, text)
    decreases i
  {
    var cut := names[..i] + names[j..];
    if i == 0 {
      LeadsOn(e, names, consts, text, j);
      assert cut[1..] == names[j+1..];
    } else {
      CutShort(consts[names[0]], names[1..], consts, text, i - 1, j - 1);
      assert cut[1..] == names[1..][..i-1] + names[1..][j-1..];
    }
  }

  lemma {:induction false} LeadsOn(e: Term, names: seq<string>, consts: Consts, text: string, j: nat)
    requires Leads(e, names, consts, text) && j < |names|
    ensures names[j] in consts && Leads(consts[names[j]], names[j+1..], consts, text)
    decreases j
  {
    if j > 0 {
      LeadsOn(consts[names[0]], names[1..], consts, text, j - 1);
      assert names[1..][j..] == names[j+1..];
    }
  }

  lemma {:induction false} StraightWay(e: Term, names: seq<string>, consts: Consts, text: string) returns (way: seq<string>)
    requires Leads(e, names, consts, text)
    ensures Leads(e, way, consts, text) && Distinct(way)
    decreases |names|
  {
    if !Distinct(names) {
      var i, j :| 0 <= i < j < |names| && names[i] == names[j];
      CutShort(e, names, consts, text, i, j);
      way := StraightWay(e, names[..i] + names[j..], consts, text);
    } else {
      way := names;
    }
  }

  /** The string is among those found exactly if some way leads to it. */
  ghost predicate Finds(out: seq<string>, e: Term, consts: Consts, text: string) {
    text in out <==> Led(e, consts, text)
  }

  ghost predicate Led(e: Term, consts: Consts, text: string) {
    exists names :: Leads(e, names, consts, text)
  }

  /** A string is among the results exactly when it is a constant of the expression, or of what its names are
      bound to, or of what the names there are bound to, and so on, cycles or not. */
  lemma LiteralsExactly(e: Term, consts: Consts, text: string)
    ensures text in Literals(e, consts, {}) <==> Led(e, consts, text)
  {
    if text in Literals(e, consts, {}) {
      var names := FoundIsLedTo(e, consts, {}, text);
    }
    if Led(e, consts, text) {
      var names :| Leads(e, names, consts, text);
      var way := StraightWay(e, names, consts, text);
      LedToIsFound(e, way, consts, {}, text);
    }
  }
}
