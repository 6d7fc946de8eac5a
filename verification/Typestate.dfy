/** One bit of state driven by the events of a run, and an analysis that computes, without running
    anything, exactly which bits a program can end with and which events it can perform under which
    bit. The detectors' claims about "every run" are settled against this analysis. */
module Typestate {
  import opened Python
  import opened Runs

  type Machine = (bool, Event) -> bool

  function Bits(m: Machine, b: bool, t: seq<Event>): bool
    decreases t
  {
    if t == [] then b else Bits(m, m(b, t[0]), t[1..])
  }

  /** From bit `b`, some run of `p` ends by exit `x` with bit `b2`. */
  predicate CanEnd(m: Machine, p: Prog, b: bool, x: Exit, b2: bool)
    decreases p, 0
  {
    match p
    case Emit(ev) => x == Fell && b2 == m(b, ev)
    case Leave(how) => x == how && b2 == b
    case Seq(a, c) =>
      || (x != Fell && CanEnd(m, a, b, x, b2))
      || exists b1 :: CanEnd(m, a, b, Fell, b1) && CanEnd(m, c, b1, x, b2)
    case Choose(a, c) => CanEnd(m, a, b, x, b2) || CanEnd(m, c, b, x, b2)
    case Repeat(a) =>
      exists b1 :: Again(m, a, b, b1) &&
                   (if x == Fell then b2 == b1 else CanEnd(m, a, b1, x, b2))
    case Branch(a, fell, how, handler) =>
      || (x != Fell && x != how && CanEnd(m, a, b, x, b2))
      || (exists b1 :: CanEnd(m, a, b, Fell, b1) && CanEnd(m, fell, b1, x, b2))
      || (how != Fell && exists b1 :: CanEnd(m, a, b, how, b1) && CanEnd(m, handler, b1, x, b2))
    case Finally(a, last) =>
      exists y, b1 :: CanEnd(m, a, b, y, b1) &&
                      if x == y then CanEnd(m, last, b1, Fell, b2) || (x != Fell && CanEnd(m, last, b1, x, b2))
                      else x != Fell && CanEnd(m, last, b1, x, b2)
    case Session(a) => exists b1 :: CanEnd(m, a, m(b, Opened), x, b1) && b2 == m(b1, Closed)
  }

  /** Some number of passes through `a` leads from bit `b` to `b1`. With one bit, one pass is as good
      as any number of them. */
  predicate Again(m: Machine, a: Prog, b: bool, b1: bool)
    decreases a, 1
  {
    b1 == b || CanEnd(m, a, b, Fell, b1)
  }

  /** From bit `b`, some run of `p` performs `ev` while the bit is `b2`. */
  predicate CanHit(m: Machine, p: Prog, b: bool, ev: Event, b2: bool)
    decreases p
  {
    match p
    case Emit(e) => ev == e && b2 == b
    case Leave(_) => false
    case Seq(a, c) =>
      CanHit(m, a, b, ev, b2) || exists b1 :: CanEnd(m, a, b, Fell, b1) && CanHit(m, c, b1, ev, b2)
    case Choose(a, c) => CanHit(m, a, b, ev, b2) || CanHit(m, c, b, ev, b2)
    case Repeat(a) =>
      exists b1 :: Again(m, a, b, b1) && CanHit(m, a, b1, ev, b2)
    case Branch(a, fell, how, handler) =>
      || CanHit(m, a, b, ev, b2)
      || (exists b1 :: CanEnd(m, a, b, Fell, b1) && CanHit(m, fell, b1, ev, b2))
      || (how != Fell && exists b1 :: CanEnd(m, a, b, how, b1) && CanHit(m, handler, b1, ev, b2))
    case Finally(a, last) =>
      CanHit(m, a, b, ev, b2) || exists y, b1 :: CanEnd(m, a, b, y, b1) && CanHit(m, last, b1, ev, b2)
    case Session(a) =>
      || (ev == Opened && b2 == b)
      || CanHit(m, a, m(b, Opened), ev, b2)
      || (ev == Closed && exists x :: CanEnd(m, a, m(b, Opened), x, b2))
  }

  lemma {:induction false} BitsAppend(m: Machine, b: bool, s: seq<Event>, t: seq<Event>)
    ensures Bits(m, b, s + t) == Bits(m, Bits(m, b, s), t)
    decreases s
  {
    if s == [] {
      assert s + t == t;
    } else {
      assert (s + t)[0] == s[0] && (s + t)[1..] == s[1..] + t;
      BitsAppend(m, m(b, s[0]), s[1..], t);
    }
  }

  /** Every run ends in a way the analysis predicts. */
  lemma {:induction false} EndSound(m: Machine, p: Prog, b: bool, o: Oracle)
    ensures CanEnd(m, p, b, Exec(p, o).exit, Bits(m, b, Exec(p, o).trace))
    decreases p, 0, 0
  {
    match p
    case Emit(_) =>
    case Leave(_) =>
    case Choose(a, c) =>
      if o.pick { EndSound(m, a, b, Kid(o, 0)); } else { EndSound(m, c, b, Kid(o, 0)); }
    case Repeat(a) => RepeatSound(m, a, b, b, o.kids);
    case Seq(a, c) =>
      var r, l := Exec(a, Kid(o, 0)), Exec(c, Kid(o, 1));
      EndSound(m, a, b, Kid(o, 0));
      EndSound(m, c, Bits(m, b, r.trace), Kid(o, 1));
      BitsAppend(m, b, r.trace, l.trace);
    case Branch(a, fell, how, handler) =>
      var r := Exec(a, Kid(o, 0));
      var next := if r.exit == Fell then fell else handler;
      EndSound(m, a, b, Kid(o, 0));
      EndSound(m, next, Bits(m, b, r.trace), Kid(o, 1));
      BitsAppend(m, b, r.trace, Exec(next, Kid(o, 1)).trace);
    case Finally(a, last) =>
      var r, l := Exec(a, Kid(o, 0)), Exec(last, Kid(o, 1));
      EndSound(m, a, b, Kid(o, 0));
      EndSound(m, last, Bits(m, b, r.trace), Kid(o, 1));
      BitsAppend(m, b, r.trace, l.trace);
    case Session(a) =>
      var r := Exec(a, Kid(o, 0));
      EndSound(m, a, m(b, Opened), Kid(o, 0));
      SessionBits(m, b, r.trace);
  }

  lemma SessionBits(m: Machine, b: bool, t: seq<Event>)
    ensures Bits(m, b, [Opened] + t + [Closed]) == m(Bits(m, m(b, Opened), t), Closed)
  {
    BitsAppend(m, b, [Opened] + t, [Closed]);
    BitsAppend(m, b, [Opened], t);
    assert Bits(m, b, [Opened]) == m(b, Opened);
  }

  /** `start` is the bit before the first pass, `b` the bit before the passes still to come. */
  lemma {:induction false} RepeatSound(m: Machine, a: Prog, start: bool, b: bool, os: seq<Oracle>)
    requires Again(m, a, start, b)
    ensures var r := ExecRepeat(a, os);
            CanEnd(m, Repeat(a), start, r.exit, Bits(m, b, r.trace))
    decreases a, 1, |os|
  {
    if os != [] {
      var r := Exec(a, os[0]);
      EndSound(m, a, b, os[0]);
      if r.exit == Fell {
        var b' := Bits(m, b, r.trace);
        RepeatSound(m, a, start, b', os[1..]);
        BitsAppend(m, b, r.trace, ExecRepeat(a, os[1..]).trace);
      }
    }
  }

  /** Every event of a run is performed under a bit the analysis predicts. */
  lemma {:induction false} HitSound(m: Machine, p: Prog, b: bool, o: Oracle, i: nat)
    requires i < |Exec(p, o).trace|
    ensures CanHit(m, p, b, Exec(p, o).trace[i], Bits(m, b, Exec(p, o).trace[..i]))
    decreases p, 0, 0
  {
    var t := Exec(p, o).trace;
    match p
    case Emit(_) =>
    case Leave(_) =>
    case Choose(a, c) =>
      if o.pick { HitSound(m, a, b, Kid(o, 0), i); } else { HitSound(m, c, b, Kid(o, 0), i); }
    case Repeat(a) => RepeatHitSound(m, a, b, b, o.kids, i);
    case Seq(a, c) => ChainHitSound(m, p, t, a, c, b, o, i);
    case Branch(a, fell, how, handler) =>
      ChainHitSound(m, p, t, a, if Exec(a, Kid(o, 0)).exit == Fell then fell else handler, b, o, i);
    case Finally(a, last) => ChainHitSound(m, p, t, a, last, b, o, i);
    case Session(a) =>
      var r := Exec(a, Kid(o, 0));
      if i > 0 {
        SessionPrefix(m, b, r.trace, i - 1);
        if i <= |r.trace| {
          HitSound(m, a, m(b, Opened), Kid(o, 0), i - 1);
        } else {
          EndSound(m, a, m(b, Opened), Kid(o, 0));
          assert r.trace[..|r.trace|] == r.trace;
        }
      }
  }

  /** In a trace `t` of a run of `a`, possibly followed by a run of `c`, position `i` lies in the one
      or in the other. */
  lemma {:induction false} ChainHitSound(m: Machine, p: Prog, t: seq<Event>, a: Prog, c: Prog, b: bool, o: Oracle, i: nat)
    requires a < p && c < p && i < |t|
    requires t == Exec(a, Kid(o, 0)).trace || t == Exec(a, Kid(o, 0)).trace + Exec(c, Kid(o, 1)).trace
    ensures var r := Exec(a, Kid(o, 0));
            var b1, b2 := Bits(m, b, r.trace), Bits(m, b, t[..i]);
            if i < |r.trace| then CanHit(m, a, b, t[i], b2)
            else CanEnd(m, a, b, r.exit, b1) && CanHit(m, c, b1, t[i], b2)
    decreases p, 0, -1
  {
    var r := Exec(a, Kid(o, 0));
    if i < |r.trace| {
      HitSound(m, a, b, Kid(o, 0), i);
      assert t[..i] == r.trace[..i];
    } else {
      var l, j := Exec(c, Kid(o, 1)), i - |r.trace|;
      EndSound(m, a, b, Kid(o, 0));
      HitSound(m, c, Bits(m, b, r.trace), Kid(o, 1), j);
      assert t[..i] == r.trace + l.trace[..j];
      BitsAppend(m, b, r.trace, l.trace[..j]);
    }
  }

  lemma {:induction false} RepeatHitSound(m: Machine, a: Prog, start: bool, b: bool, os: seq<Oracle>, i: nat)
    requires Again(m, a, start, b) && i < |ExecRepeat(a, os).trace|
    ensures var t := ExecRepeat(a, os).trace;
            CanHit(m, Repeat(a), start, t[i], Bits(m, b, t[..i]))
    decreases a, 1, |os|
  {
    var t, r := ExecRepeat(a, os).trace, Exec(a, os[0]);
    if i < |r.trace| {
      HitSound(m, a, b, os[0], i);
      assert t[..i] == r.trace[..i];
    } else {
      var b', l, j := Bits(m, b, r.trace), ExecRepeat(a, os[1..]), i - |r.trace|;
      EndSound(m, a, b, os[0]);
      RepeatHitSound(m, a, start, b', os[1..], j);
      assert t[..i] == r.trace + l.trace[..j];
      BitsAppend(m, b, r.trace, l.trace[..j]);
    }
  }

  /** Every way of ending the analysis predicts is the end of some run. */
  lemma {:induction false} EndWitness(m: Machine, p: Prog, b: bool, x: Exit, b2: bool) returns (o: Oracle)
    requires CanEnd(m, p, b, x, b2)
    ensures Exec(p, o).exit == x && Bits(m, b, Exec(p, o).trace) == b2
    decreases p, 2
  {
    match p
    case Emit(_) => o := LEAF;
    case Leave(_) => o := LEAF;
    case Choose(a, c) =>
      var left := CanEnd(m, a, b, x, b2);
      var k := EndWitness(m, if left then a else c, b, x, b2);
      o := Oracle(left, [k]);
    case Seq(a, c) =>
      if x != Fell && CanEnd(m, a, b, x, b2) {
        var k := EndWitness(m, a, b, x, b2);
        o := Oracle(false, [k]);
      } else {
        var b1 :| CanEnd(m, a, b, Fell, b1) && CanEnd(m, c, b1, x, b2);
        o := JoinWitness(m, p, a, c, b, Fell, b1, x, b2);
      }
    case Branch(_, _, _, _) => o := BranchWitness(m, p, b, x, b2);
    case Repeat(_) => o := RepeatWitness(m, p, b, x, b2);
    case Finally(_, _) => o := FinallyWitness(m, p, b, x, b2);
    case Session(a) =>
      var b1 :| CanEnd(m, a, m(b, Opened), x, b1) && b2 == m(b1, Closed);
      var k := EndWitness(m, a, m(b, Opened), x, b1);
      o := Oracle(false, [k]);
      SessionBits(m, b, Exec(a, k).trace);
  }

  lemma {:induction false} BranchWitness(m: Machine, p: Prog, b: bool, x: Exit, b2: bool) returns (o: Oracle)
    requires p.Branch? && CanEnd(m, p, b, x, b2)
    ensures Exec(p, o).exit == x && Bits(m, b, Exec(p, o).trace) == b2
    decreases p, 1
  {
    var Branch(a, fell, how, handler) := p;
    if x != Fell && x != how && CanEnd(m, a, b, x, b2) {
      var k := EndWitness(m, a, b, x, b2);
      o := Oracle(false, [k]);
    } else if b1 :| CanEnd(m, a, b, Fell, b1) && CanEnd(m, fell, b1, x, b2) {
      o := JoinWitness(m, p, a, fell, b, Fell, b1, x, b2);
    } else {
      var b1 :| CanEnd(m, a, b, how, b1) && CanEnd(m, handler, b1, x, b2);
      o := JoinWitness(m, p, a, handler, b, how, b1, x, b2);
    }
  }

  lemma {:induction false} RepeatWitness(m: Machine, p: Prog, b: bool, x: Exit, b2: bool) returns (o: Oracle)
    requires p.Repeat? && CanEnd(m, p, b, x, b2)
    ensures Exec(p, o).exit == x && Bits(m, b, Exec(p, o).trace) == b2
    decreases p, 1
  {
    var a := p.body;
    var b1 :| Again(m, a, b, b1) && (if x == Fell then b2 == b1 else CanEnd(m, a, b1, x, b2));
    var before, last := [], [];
    if b1 != b {
      var k := EndWitness(m, a, b, Fell, b1);
      before := [k];
    }
    if x != Fell {
      var k := EndWitness(m, a, b1, x, b2);
      last := [k];
    }
    o := Oracle(false, before + last);
    TwoPasses(m, a, b, before, last);
  }

  lemma {:induction false} FinallyWitness(m: Machine, p: Prog, b: bool, x: Exit, b2: bool) returns (o: Oracle)
    requires p.Finally? && CanEnd(m, p, b, x, b2)
    ensures Exec(p, o).exit == x && Bits(m, b, Exec(p, o).trace) == b2
    decreases p, 1
  {
    var Finally(a, last) := p;
    var y, b1 :| CanEnd(m, a, b, y, b1) &&
                 if x == y then CanEnd(m, last, b1, Fell, b2) || (x != Fell && CanEnd(m, last, b1, x, b2))
                 else x != Fell && CanEnd(m, last, b1, x, b2);
    var z := if x == y && CanEnd(m, last, b1, Fell, b2) then Fell else x;
    o := JoinWitness(m, p, a, last, b, y, b1, z, b2);
  }

  lemma {:induction false} JoinWitness(m: Machine, p: Prog, a: Prog, c: Prog,
      b: bool, y: Exit, b1: bool, x: Exit, b2: bool) returns (o: Oracle)
    requires a < p && c < p
    requires CanEnd(m, a, b, y, b1) && CanEnd(m, c, b1, x, b2)
    ensures var r, l := Exec(a, Kid(o, 0)), Exec(c, Kid(o, 1));
            r.exit == y && l.exit == x && Bits(m, b, r.trace) == b1 && Bits(m, b, r.trace + l.trace) == b2
    decreases p, 0
  {
    var k0 := EndWitness(m, a, b, y, b1);
    var k1 := EndWitness(m, c, b1, x, b2);
    o := Oracle(false, [k0, k1]);
    BitsAppend(m, b, Exec(a, k0).trace, Exec(c, k1).trace);
  }

  /** The run of a loop whose passes are a completed one, if any, and then a last one, if any. */
  lemma TwoPasses(m: Machine, a: Prog, b: bool, before: seq<Oracle>, last: seq<Oracle>)
    requires |before| <= 1 && |last| <= 1 && (before != [] ==> Exec(a, before[0]).exit == Fell)
    ensures var t := if before == [] then [] else Exec(a, before[0]).trace;
            var r := if last == [] then Run([], Fell) else Exec(a, last[0]);
            ExecRepeat(a, before + last) == Run(t + r.trace, r.exit) &&
            Bits(m, b, t + r.trace) == Bits(m, Bits(m, b, t), r.trace)
  {
    var t := if before == [] then [] else Exec(a, before[0]).trace;
    var r := if last == [] then Run([], Fell) else Exec(a, last[0]);
    assert last != [] ==> last[1..] == [] && r.trace + [] == r.trace;
    assert ExecRepeat(a, last) == r;
    assert before == [] ==> before + last == last;
    assert before != [] ==> (before + last)[1..] == last;
    BitsAppend(m, b, t, r.trace);
  }

  /** Every event the analysis predicts is performed by some run. */
  lemma {:induction false} HitWitness(m: Machine, p: Prog, b: bool, ev: Event, b2: bool) returns (o: Oracle, i: nat)
    requires CanHit(m, p, b, ev, b2)
    ensures var t := Exec(p, o).trace; i < |t| && t[i] == ev && Bits(m, b, t[..i]) == b2
    decreases p, 1
  {
    match p
    case Emit(_) => o, i := LEAF, 0;
    case Choose(a, c) =>
      var left := CanHit(m, a, b, ev, b2);
      var k;
      k, i := HitWitness(m, if left then a else c, b, ev, b2);
      o := Oracle(left, [k]);
    case Repeat(_) => o, i := RepeatHit(m, p, b, ev, b2);
    case Seq(a, c) =>
      if CanHit(m, a, b, ev, b2) {
        o, i := FirstHit(m, p, a, b, ev, b2);
      } else {
        var b1 :| CanEnd(m, a, b, Fell, b1) && CanHit(m, c, b1, ev, b2);
        o, i := SecondHit(m, p, a, c, b, Fell, b1, ev, b2);
      }
    case Branch(_, _, _, _) => o, i := BranchHit(m, p, b, ev, b2);
    case Finally(a, last) =>
      if CanHit(m, a, b, ev, b2) {
        o, i := FirstHit(m, p, a, b, ev, b2);
      } else {
        var y, b1 :| CanEnd(m, a, b, y, b1) && CanHit(m, last, b1, ev, b2);
        o, i := SecondHit(m, p, a, last, b, y, b1, ev, b2);
      }
    case Session(a) => o, i := SessionHit(m, p, b, ev, b2);
  }

  lemma {:induction false} RepeatHit(m: Machine, p: Prog, b: bool, ev: Event, b2: bool) returns (o: Oracle, i: nat)
    requires p.Repeat? && CanHit(m, p, b, ev, b2)
    ensures var t := Exec(p, o).trace; i < |t| && t[i] == ev && Bits(m, b, t[..i]) == b2
    decreases p, 0, 1
  {
    var a := p.body;
    var b1 :| Again(m, a, b, b1) && CanHit(m, a, b1, ev, b2);
    if b1 == b {
      o, i := FirstHit(m, p, a, b, ev, b2);
      assert Exec(a, o.kids[0]).trace <= ExecRepeat(a, o.kids).trace;
    } else {
      o, i := SecondHit(m, p, a, a, b, Fell, b1, ev, b2);
      var r, l := Exec(a, o.kids[0]), Exec(a, o.kids[1]);
      assert o.kids[1..][0] == o.kids[1];
      assert l.trace <= ExecRepeat(a, o.kids[1..]).trace;
      assert r.trace + l.trace <= ExecRepeat(a, o.kids).trace;
      assert ExecRepeat(a, o.kids).trace[..i] == (r.trace + l.trace)[..i];
    }
  }

  lemma {:induction false} BranchHit(m: Machine, p: Prog, b: bool, ev: Event, b2: bool) returns (o: Oracle, i: nat)
    requires p.Branch? && CanHit(m, p, b, ev, b2)
    ensures var t := Exec(p, o).trace; i < |t| && t[i] == ev && Bits(m, b, t[..i]) == b2
    decreases p, 0, 1
  {
    var Branch(a, fell, how, handler) := p;
    if CanHit(m, a, b, ev, b2) {
      o, i := FirstHit(m, p, a, b, ev, b2);
    } else if b1 :| CanEnd(m, a, b, Fell, b1) && CanHit(m, fell, b1, ev, b2) {
      o, i := SecondHit(m, p, a, fell, b, Fell, b1, ev, b2);
    } else {
      var b1 :| CanEnd(m, a, b, how, b1) && CanHit(m, handler, b1, ev, b2);
      o, i := SecondHit(m, p, a, handler, b, how, b1, ev, b2);
    }
  }

  lemma {:induction false} SessionHit(m: Machine, p: Prog, b: bool, ev: Event, b2: bool) returns (o: Oracle, i: nat)
    requires p.Session? && CanHit(m, p, b, ev, b2)
    ensures var t := Exec(p, o).trace; i < |t| && t[i] == ev && Bits(m, b, t[..i]) == b2
    decreases p, 0
  {
    if ev == Opened && b2 == b {
      o, i := LEAF, 0;
    } else if CanHit(m, p.body, m(b, Opened), ev, b2) {
      var k, j := HitWitness(m, p.body, m(b, Opened), ev, b2);
      o, i := Oracle(false, [k]), j + 1;
      SessionPrefix(m, b, Exec(p.body, k).trace, j);
    } else {
      var x :| CanEnd(m, p.body, m(b, Opened), x, b2);
      var k := EndWitness(m, p.body, m(b, Opened), x, b2);
      var r := Exec(p.body, k).trace;
      o, i := Oracle(false, [k]), |r| + 1;
      SessionPrefix(m, b, r, |r|);
      assert r[..|r|] == r;
    }
  }

  lemma SessionPrefix(m: Machine, b: bool, t: seq<Event>, j: nat)
    requires j <= |t|
    ensures Bits(m, b, ([Opened] + t + [Closed])[..j+1]) == Bits(m, m(b, Opened), t[..j])
    ensures ([Opened] + t + [Closed])[j+1] == if j < |t| then t[j] else Closed
  {
    assert ([Opened] + t + [Closed])[..j+1] == [Opened] + t[..j];
    BitsAppend(m, b, [Opened], t[..j]);
    assert [Opened][1..] == [];
  }

  /** A hit in `a`, the first part of `p`. */
  lemma {:induction false} FirstHit(m: Machine, p: Prog, a: Prog, b: bool, ev: Event, b2: bool)
    returns (o: Oracle, i: nat)
    requires a < p && CanHit(m, a, b, ev, b2)
    ensures |o.kids| == 1
    ensures var t := Exec(a, Kid(o, 0)).trace;
            && i < |t| && t[i] == ev && Bits(m, b, t[..i]) == b2
            && forall u | t <= u :: u[i] == ev && u[..i] == t[..i]
    decreases p, 0, 0
  {
    var k;
    k, i := HitWitness(m, a, b, ev, b2);
    o := Oracle(false, [k]);
  }

  /** A hit in `c`, which `p` runs after `a`. */
  lemma {:induction false} SecondHit(m: Machine, p: Prog, a: Prog, c: Prog,
      b: bool, y: Exit, b1: bool, ev: Event, b2: bool) returns (o: Oracle, i: nat)
    requires a < p && c < p
    requires CanEnd(m, a, b, y, b1) && CanHit(m, c, b1, ev, b2)
    ensures |o.kids| == 2 && Exec(a, Kid(o, 0)).exit == y
    ensures var t := Exec(a, Kid(o, 0)).trace + Exec(c, Kid(o, 1)).trace;
            i < |t| && t[i] == ev && Bits(m, b, t[..i]) == b2
    decreases p, 0, 0
  {
    var k0 := EndWitness(m, a, b, y, b1);
    var k1, j := HitWitness(m, c, b1, ev, b2);
    var r, l := Exec(a, k0).trace, Exec(c, k1).trace;
    o, i := Oracle(false, [k0, k1]), |r| + j;
    assert (r + l)[..i] == r + l[..j];
    BitsAppend(m, b, r, l[..j]);
  }

  /** The run of `p` from bit `b` that `o` fixes performs `ev` as event number `i`, under bit `b2`. */
  ghost predicate PerformedAt(m: Machine, p: Prog, b: bool, o: Oracle, i: nat, ev: Event, b2: bool) {
    var t := Exec(p, o).trace;
    i < |t| && t[i] == ev && Bits(m, b, t[..i]) == b2
  }

  /** Some run performs `ev` under bit `b2`. */
  ghost predicate Performable(m: Machine, p: Prog, b: bool, ev: Event, b2: bool) {
    exists o, i :: PerformedAt(m, p, b, o, i, ev, b2)
  }

  lemma PerformableIsPredicted(m: Machine, p: Prog, b: bool, ev: Event, b2: bool)
    requires Performable(m, p, b, ev, b2)
    ensures CanHit(m, p, b, ev, b2)
  {
    var o, i :| PerformedAt(m, p, b, o, i, ev, b2);
    HitSound(m, p, b, o, i);
  }

  lemma PredictedIsPerformable(m: Machine, p: Prog, b: bool, ev: Event, b2: bool)
    requires CanHit(m, p, b, ev, b2)
    ensures Performable(m, p, b, ev, b2)
  {
    var o, i := HitWitness(m, p, b, ev, b2);
    assert PerformedAt(m, p, b, o, i, ev, b2);
  }

  /** The analysis is exact: it predicts an event under a bit iff some run performs it so. */
  lemma HitsExactly(m: Machine, p: Prog, b: bool, ev: Event, b2: bool)
    ensures CanHit(m, p, b, ev, b2) <==> Performable(m, p, b, ev, b2)
  {
    if CanHit(m, p, b, ev, b2) {
      PredictedIsPerformable(m, p, b, ev, b2);
    } else if Performable(m, p, b, ev, b2) {
      PerformableIsPredicted(m, p, b, ev, b2);
    }
  }

  /** The analysis is exact: it predicts an ending iff some run ends so. */
  lemma EndsExactly(m: Machine, p: Prog, b: bool, x: Exit, b2: bool)
    ensures CanEnd(m, p, b, x, b2) <==>
            exists o :: Exec(p, o).exit == x && Bits(m, b, Exec(p, o).trace) == b2
  {
    if CanEnd(m, p, b, x, b2) {
      var o := EndWitness(m, p, b, x, b2);
    }
    forall o | Exec(p, o).exit == x && Bits(m, b, Exec(p, o).trace) == b2 ensures CanEnd(m, p, b, x, b2) {
      EndSound(m, p, b, o);
    }
  }

  // ----- the analysis on the building blocks of statements -----

  lemma MayRaiseEnds(m: Machine, b: bool)
    ensures forall b1 :: CanEnd(m, MAY_RAISE, b, Fell, b1) <==> b1 == b
    ensures forall b1 :: CanEnd(m, MAY_RAISE, b, Raised, b1) <==> b1 == m(b, Raising)
  {
    assert forall x, b1 :: CanEnd(m, RAISE_NOW, b, x, b1) ==> x == Raised;
    forall b1 ensures CanEnd(m, RAISE_NOW, b, Raised, b1) <==> b1 == m(b, Raising) {
      EmitThenEnds(m, Raising, Leave(Raised), b, Raised, b1);
    }
  }

  lemma EmitThenEnds(m: Machine, ev: Event, p: Prog, b: bool, x: Exit, b1: bool)
    ensures CanEnd(m, Seq(Emit(ev), p), b, x, b1) <==> CanEnd(m, p, m(b, ev), x, b1)
  {
    assert CanEnd(m, Emit(ev), b, Fell, m(b, ev));
  }

  lemma SeqEnds(m: Machine, p: Prog, q: Prog, b: bool, b1: bool, x: Exit, b2: bool)
    requires CanEnd(m, p, b, Fell, b1) && CanEnd(m, q, b1, x, b2)
    ensures CanEnd(m, Seq(p, q), b, x, b2)
  {
  }

  lemma SeqHits(m: Machine, p: Prog, q: Prog, b: bool, b1: bool, ev: Event, b2: bool)
    requires CanEnd(m, p, b, Fell, b1) && CanHit(m, q, b1, ev, b2)
    ensures CanHit(m, Seq(p, q), b, ev, b2)
  {
  }

  /** Evaluating an expression may always complete. */
  lemma {:induction false} ExprFalls(m: Machine, e: Expr, b: bool) returns (b1: bool)
    ensures CanEnd(m, OfExpr(e), b, Fell, b1)
    decreases e, 0
  {
    match e
    case Op(kids) => b1 := ExprsFall(m, kids, b);
    case Invoke(call, kids) =>
      var b0 := ExprsFall(m, kids, b);
      b1 := m(b0, Called(call));
      MayRaiseEnds(m, b1);
      EmitThenEnds(m, Called(call), MAY_RAISE, b0, Fell, b1);
      SeqEnds(m, OfExprs(kids), Seq(Emit(Called(call)), MAY_RAISE), b, b0, Fell, b1);
    case IfExp(test, body, orelse) =>
      var b0 := ExprFalls(m, test, b);
      b1 := ExprFalls(m, body, b0);
      SeqEnds(m, OfExpr(test), Choose(OfExpr(body), OfExpr(orelse)), b, b0, Fell, b1);
  }

  lemma {:induction false} ExprsFall(m: Machine, es: seq<Expr>, b: bool) returns (b1: bool)
    ensures CanEnd(m, OfExprs(es), b, Fell, b1)
    decreases es, 0
  {
    if es == [] {
      b1 := b;
    } else {
      var b0 := ExprFalls(m, es[0], b);
      b1 := ExprsFall(m, es[1..], b0);
      SeqEnds(m, OfExpr(es[0]), OfExprs(es[1..]), b, b0, Fell, b1);
    }
  }
}
