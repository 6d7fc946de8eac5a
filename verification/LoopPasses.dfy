/** The `fixed` mark of a loop, put there by `_static_nonempty`, against the values its iterable takes:
    the runs of a marked loop include every run over the elements the iterable really has. */
module LoopPasses {
  import opened Options
  import opened Python
  import opened Runs
  import N = Nonempty
  import T = Terms

  /** A number of passes, one after the other. */
  function Times(p: Prog, n: nat): Prog {
    if n == 0 then Leave(Fell) else Seq(p, Times(p, n - 1))
  }

  function PassOf(s: Stmt): Prog
    requires s.For?
  {
    Pass(if s.fixed then OfBlock(s.body) else Seq(Emit(Entered(DynamicLoop)), OfBlock(s.body)))
  }

  /** The loop over an iterable with `n` elements. */
  function OverElements(s: Stmt, n: nat): Prog
    requires s.For?
  {
    Seq(OfExpr(s.iter), Loop(Times(PassOf(s), n), OfBlock(s.orelse)))
  }

  lemma {:induction false} TimesRepeats(p: Prog, n: nat, o: Oracle) returns (os: seq<Oracle>)
    ensures ExecRepeat(p, os) == Exec(Times(p, n), o)
  {
    os := [];
    if n > 0 {
      var first := Kid(o, 0);
      if Exec(p, first).exit != Fell {
        os := [first];
      } else {
        var rest := TimesRepeats(p, n - 1, Kid(o, 1));
        os := [first] + rest;
        assert os[1..] == rest;
      }
    }
  }

  lemma OncePlusRepeats(p: Prog, n: nat, o: Oracle) returns (o': Oracle)
    requires n > 0
    ensures Exec(Seq(p, Repeat(p)), o') == Exec(Times(p, n), o)
  {
    var os := TimesRepeats(p, n - 1, Kid(o, 1));
    o' := Oracle(false, [Kid(o, 0), Oracle(false, os)]);
    assert Kid(o', 0) == Kid(o, 0) && Kid(o', 1).kids == os;
  }

  /** A loop marked never empty runs over one or more elements; any other over any number. */
  lemma LoopRuns(s: Stmt, n: nat, o: Oracle) returns (o': Oracle)
    requires s.For? && (s.fixed ==> n > 0)
    ensures Exec(OfStmt(s), o') == Exec(OverElements(s, n), o)
  {
    var pass, o1 := PassOf(s), Kid(o, 1);
    var passes := if s.fixed then Seq(pass, Repeat(pass)) else Repeat(pass);
    var through: Oracle;
    if s.fixed {
      through := OncePlusRepeats(pass, n, Kid(o1, 0));
    } else {
      var os := TimesRepeats(pass, n, Kid(o1, 0));
      through := Oracle(false, os);
    }
    var loop := Oracle(false, [through, Kid(o1, 1)]);
    assert Kid(loop, 0) == through && Kid(loop, 1) == Kid(o1, 1);
    assert Exec(Loop(passes, OfBlock(s.orelse)), loop) == Exec(Loop(Times(pass, n), OfBlock(s.orelse)), o1);
    o' := Oracle(false, [Kid(o, 0), loop]);
    assert Kid(o', 0) == Kid(o, 0) && Kid(o', 1) == loop;
  }

  /** With the mark set by the auditor's verdict on the iterable, and names holding what the verdict
      relies on, no run over the iterable's elements is lost. */
  lemma MarkedLoopRuns(s: Stmt, iterable: T.Term, consts: T.Consts, env: T.Env, w: T.World, o: Oracle) returns (o': Oracle)
    requires s.For? && s.fixed == N.StaticNonempty(iterable, consts, {})
    requires N.InFragment(iterable) && N.Kept(env, consts)
    requires T.Eval(iterable, env, w).Some? && T.Elements(T.Eval(iterable, env, w).value).Some?
    ensures
      var n := |T.Elements(T.Eval(iterable, env, w).value).value|;
      Exec(OfStmt(s), o') == Exec(OverElements(s, n), o)
  {
    if s.fixed { N.NonemptyWhereKept(iterable, consts, env, w); }
    o' := LoopRuns(s, |T.Elements(T.Eval(iterable, env, w).value).value|, o);
  }
}
