/** The same for statements: they are written soundly, and between statements the code never
    ends by pushing nulls. */
module EmitterCalmStmt {
  import opened Bytecode
  import opened Source
  import opened Compile
  import opened Peephole
  import opened Emitter
  import opened EmitterPlain
  import opened EmitterStmt
  import opened EmitterJoined
  import opened EmitterCalm

  predicate CalmS(s: Stmt) {
    match s
    case SExpr(e, _) => Calm(e)
    case SVar(_, e) => Calm(e)
    case SSeq(a, b) => CalmS(a) && CalmS(b)
    case SIf(c, t) => Calm(c) && CalmS(t)
    case SIfElse(c, t, e) => Calm(c) && CalmS(t) && CalmS(e)
    case SWhile(c, b) => Calm(c) && CalmS(b)
    case SFor(a, c, i, b) => CalmS(a) && CalmOpt(c) && CalmOpt(i) && CalmS(b)
    case SForEach(_, e, b) => Calm(e) && CalmS(b)
    case SReturn(e) => Calm(e)
    case _ => true
  }

  predicate CalmOpt(e: OptExpr) { e.Some? ==> Calm(e.e) }

  ghost predicate Safe(strict: nat, t: Trace, t': Trace, calm: bool) {
    Sound(t') && (calm && Flat(strict, t) ==> Flat(strict, t'))
  }

  lemma IsSafe(strict: nat, t: Trace, t': Trace, calm: bool)
    requires Sound(t') && (calm && Flat(strict, t) ==> Flat(strict, t'))
    ensures Safe(strict, t, t', calm)
  {
  }

  lemma StaysSound(strict: nat, t: Trace, t': Trace, calm: bool)
    requires Safe(strict, t, t', calm)
    ensures Sound(t')
  {
  }

  lemma SafeThen(strict: nat, t0: Trace, t1: Trace, t2: Trace, a: bool, b: bool)
    requires Safe(strict, t0, t1, a) && Safe(strict, t1, t2, b)
    ensures Safe(strict, t0, t2, a && b)
  {
  }

  lemma WeakSafe(strict: nat, t: Trace, t': Trace, calm: bool)
    requires Safe(strict, t, t', true)
    ensures Safe(strict, t, t', calm)
  {
  }

  lemma FlatUncrossed(strict: nat, t: Trace)
    requires Flat(strict, t)
    ensures !t.crossed
  {
  }

  // ----- jumps -----

  lemma LandingKept(t0: Trace, t: Trace, code: Code, up: int, w: nat)
    requires Wrote(t0, t, code, up) && Landing(t0.plain, t0.marks, w)
    ensures Landing(t.plain, t.marks, w)
  {
  }

  lemma JumpKept(t0: Trace, t: Trace, code: Code, up: int, g: nat)
    requires Wrote(t0, t, code, up) && g < |t0.plain|
    ensures |t0.plain| <= |t.plain| && t.plain[g] == t0.plain[g]
  {
  }

  lemma FlatReady(strict: nat, t: Trace)
    requires Flat(strict, t)
    ensures Ready(t)
  {
  }

  lemma HereSafe(strict: nat, t: Trace)
    requires Sound(t)
    ensures Safe(strict, t, Here(t), true) && Landing(Here(t).plain, Here(t).marks, |t.plain|) && Here(t).jump
    ensures Here(t).plain == t.plain && Here(t).crossed == t.crossed
  {
    hide Sound;
    HereSound(t);
    SoundPlaced(t);
  }

  /** A jump is led to a place already written. */
  lemma RedirectStep(strict: nat, t: Trace, g: nat, w: nat)
    requires Sound(t) && g < |t.plain| && t.plain[g].JMP? && Landing(t.plain, t.marks, w)
    ensures var t' := Redirect(t, g, w);
            Safe(strict, t, t', true) && t'.jump == t.jump && t'.crossed == t.crossed && Landing(t'.plain, t'.marks, w)
            && t'.plain == t.plain[g := JMP(t.plain[g].jkind, w - g)]
  {
    hide Sound;
    RedirectSound(t, g, w);
    SoundPlaced(t);
    RedirectPlaced(t, g, w);
  }

  lemma RedirectHereLands(strict: nat, t: Trace, g: nat, w: nat)
    requires Sound(t) && g < |t.plain| && t.plain[g].JMP? && Landing(t.plain, t.marks, w)
    ensures var t' := RedirectHere(t, g);
            Safe(strict, t, t', true) && t'.jump && t'.crossed == t.crossed && Landing(t'.plain, t'.marks, w)
            && t'.plain == t.plain[g := JMP(t.plain[g].jkind, |t.plain| - g)]
  {
    hide Sound, Flat, Safe;
    RedirectHereStep(strict, t, g);
    SoundPlaced(t);
    RedirectHerePlaced(t, g);
    IsSafe(strict, t, RedirectHere(t, g), true);
  }

  lemma {:induction false} ResolveSafe(strict: nat, t: Trace, cs: seq<Control>, w: nat)
    requires Sound(t) && Landing(t.plain, t.marks, w)
    requires forall c :: c in cs ==> c.at < |t.plain| && t.plain[c.at].JMP?
    ensures var t' := Resolve(t, cs, w);
            Safe(strict, t, t', true) && (t.jump ==> t'.jump) && t'.crossed == t.crossed
    decreases |cs|
  {
    hide Sound, Flat, Redirect, RedirectHere, Landing;
    if |cs| > 0 {
      assert cs[0] in cs && forall c :: c in cs[1..] ==> c in cs;
      var t1 := if cs[0].isBreak then RedirectHere(t, cs[0].at) else Redirect(t, cs[0].at, w);
      if cs[0].isBreak { RedirectHereLands(strict, t, cs[0].at, w); } else { RedirectStep(strict, t, cs[0].at, w); }
      ResolveSafe(strict, t1, cs[1..], w);
    }
  }

  lemma PutBackSafe(strict: nat, t: Trace, w: nat)
    requires Sound(t) && Landing(t.plain, t.marks, w)
    ensures w < |t.pos| && Sound(PutBack(t, w)) && PutBack(t, w).crossed == t.crossed
    ensures !t.crossed ==> Flat(strict, PutBack(t, w))
    ensures PutBack(t, w).plain == t.plain + [JMP(Always, w - |t.plain|)]
    ensures Landing(PutBack(t, w).plain, PutBack(t, w).marks, w)
  {
    hide Sound;
    SoundPlaced(t);
    PutBackSound(t, w);
  }

  /** The end of a loop. */
  lemma EndLoopSafe(strict: nat, w: Written, back: nat, exits: seq<nat>)
    requires Sound(w.t) && Landing(w.t.plain, w.t.marks, back)
    requires forall c :: c in w.controls ==> c.at < |w.t.plain| && w.t.plain[c.at].JMP?
    requires |exits| > 0 ==> exits[0] < |w.t.plain| && w.t.plain[exits[0]].JMP?
    ensures Safe(strict, w.t, EndLoop(w, back, exits), true)
    ensures |exits| > 0 ==> EndLoop(w, back, exits).jump
  {
    hide Sound, Flat, RedirectHere, Landing, Resolve, PutBack;
    PutBackSafe(strict, w.t, back);
    var t1 := PutBack(w.t, back);
    if Flat(strict, w.t) { FlatUncrossed(strict, w.t); }
    if |exits| > 0 {
      assert t1.plain[exits[0]] == w.t.plain[exits[0]];
      RedirectHereLands(strict, t1, exits[0], back);
    }
    ResolveSafe(strict, if |exits| > 0 then RedirectHere(t1, exits[0]) else t1, w.controls, back);
  }

  /** The controls of a loop's body stand for jumps. */
  lemma ControlsAreJumps(strict: nat, ref: bool, t: Trace, s: Stmt)
    requires Placed(t)
    ensures var w := GenS(strict, ref, t, s);
            forall c :: c in w.controls ==> c.at < |w.t.plain| && w.t.plain[c.at].JMP?
  {
    hide GenS, CodeS, ControlsOf, Placed;
    GenSWrites(strict, ref, t, s);
    ControlsInside(strict, ref, s, |t.plain|);
    var w, code := GenS(strict, ref, t, s), CodeS(strict, s, ref, Pending);
    forall c | c in w.controls ensures c.at < |w.t.plain| && w.t.plain[c.at].JMP? {
      assert w.t.plain[c.at] == code[c.at - |t.plain|];
    }
  }

  // ----- simple statements -----

  /** A value and a chunk that takes it. */
  lemma ValueThenSafe(strict: nat, t: Trace, e: Expr, valueOnly: bool, x: Chunk)
    requires Sound(t) && (x.IVARN? || x.RETURN? || x == JMP(Cond, 0))
    ensures Safe(strict, t, Put(strict, NoRefIf(GenE(strict, t, e), valueOnly), x), Calm(e))
  {
    hide Sound, Put, GenE, NoRef, Flat, Ready, Settled;
    GenValueGood(strict, t, e, valueOnly);
    var t1 := NoRefIf(GenE(strict, t, e), valueOnly);
    PutOther(strict, t1, x);
    if Flat(strict, t) { FlatReady(strict, t); }
    if Settled(t1) { SettledReady(t1); }
  }

  lemma ExprSafe(strict: nat, t: Trace, e: Expr, valueOnly: bool)
    requires Sound(t)
    ensures Safe(strict, t, Put(strict, NoRefIf(GenE(strict, t, e), valueOnly), STACK(-1)), Calm(e))
  {
    hide Sound, Put, GenE, NoRef, Settled, Flat, Ready, Ends;
    GenEGood(strict, t, e);
    GenValueGood(strict, t, e, valueOnly);
    var t1 := GenE(strict, t, e);
    var t2 := NoRefIf(t1, valueOnly);
    PutPops(strict, t2, STACK(-1));
    if Calm(e) && Flat(strict, t) {
      FlatReady(strict, t);
      ExprEnd(strict, t, e, valueOnly);
    }
  }

  lemma ExprEnd(strict: nat, t: Trace, e: Expr, valueOnly: bool)
    requires Sound(t) && Flat(strict, t) && Ends(strict, t, GenE(strict, t, e)) && Sound(GenE(strict, t, e))
    requires var t2 := NoRefIf(GenE(strict, t, e), valueOnly); Sound(t2) && Settled(t2)
    ensures Flat(strict, Put(strict, NoRefIf(GenE(strict, t, e), valueOnly), STACK(-1)))
  {
    hide Sound, Put, GenE, NoRef, Settled, Flat;
    var t1 := GenE(strict, t, e);
    SoundPlaced(t);
    EndNotJump(strict, t, e);
    if valueOnly { NoRefStep(t1); }
    PutPops(strict, NoRefIf(t1, valueOnly), STACK(-1));
    if !t1.jump && (|t1.code| == 0 || Last(t1.code).STACK?) {
      var x: Chunk :| !x.STACK? && Converted(strict, x) == STACK(1) && t1 == Put(strict, t, x);
      NullHasNoRef(strict, t, x);
      PutZeroPop(strict, t, x);
    }
  }

  lemma NullHasNoRef(strict: nat, t: Trace, x: Chunk)
    requires Converted(strict, x) == STACK(1) && Flat(strict, t)
    ensures NoRef(Put(strict, t, x)) == Put(strict, t, x)
  {
    var t1 := Put(strict, t, x);
    assert Last(t1.plain) == STACK(1) && Last(t1.code).STACK?;
    assert LastToValue(t1.plain) == t1.plain && LastToValue(t1.code) == t1.code;
  }

  lemma LeafSafe(strict: nat, ref: bool, t: Trace, s: Stmt)
    requires Sound(t) && !Branches(s) && !s.SWhile? && !s.SFor? && !s.SForEach?
    ensures Safe(strict, t, GenS(strict, ref, t, s).t, CalmS(s))
  {
    hide Sound, Put, GenE, NoRef, Flat, Calm;
    match s
    case SEmpty =>
    case SExpr(e, valueOnly) => ExprSafe(strict, t, e, valueOnly);
    case SVar(v, e) => ValueThenSafe(strict, t, e, true, IVARN(v));
    case SBreak => JumpSafe(strict, t);
    case SContinue => JumpSafe(strict, t);
    case SReturn(e) => ValueThenSafe(strict, t, e, !ref, RETURN);
    case SReturnNil =>
      PutOther(strict, t, NIL);
      PutOther(strict, Put(strict, t, NIL), RETURN);
      if Flat(strict, t) { FlatUncrossed(strict, t); }
  }

  lemma JumpSafe(strict: nat, t: Trace)
    requires Sound(t)
    ensures Safe(strict, t, Put(strict, t, JMP(Always, 0)), true)
  {
    hide Sound, Put;
    PutOther(strict, t, JMP(Always, 0));
  }

  // ----- branches and loops -----

  lemma CondSafe(strict: nat, t: Trace, c: Expr)
    requires Sound(t)
    ensures var t0 := NoRef(GenE(strict, t, c));
            var t1 := Put(strict, t0, JMP(Cond, 0));
            Safe(strict, t, t1, Calm(c)) && Placed(t1) && |t0.plain| < |t1.plain| && t1.plain[|t0.plain|].JMP?
            && Wrote(t, t1, CodeE(strict, c, true) + [JMP(Cond, 0)], 0)
  {
    hide Sound, Put, GenE, NoRef, Flat, CodeE, Placed;
    ValueThenSafe(strict, t, c, true, JMP(Cond, 0));
    SoundPlaced(t);
    GenCondWrites(strict, t, c);
  }

  lemma {:induction false} GenSSafe(strict: nat, ref: bool, t: Trace, s: Stmt)
    requires Sound(t)
    ensures Safe(strict, t, GenS(strict, ref, t, s).t, CalmS(s))
    decreases s, 2
  {
    hide Sound, Put, GenE, NoRef, Flat, Safe, RedirectHere, Here, EndLoop, GenTest, GenInc;
    match s
    case SSeq(a, b) => SeqSafe(strict, ref, t, s, a, b);
    case SIf(c, thn) => IfSafe(strict, ref, t, s, c, thn);
    case SIfElse(c, thn, els) => ElseSafe(strict, ref, t, s, c, thn, els);
    case SWhile(c, body) => WhileSafe(strict, ref, t, s, c, body);
    case SFor(start, c, inc, body) => ForSafe(strict, ref, t, s, start, c, inc, body);
    case SForEach(v, e, body) => EachSafe(strict, ref, t, s, v, e, body);
    case _ => LeafSafe(strict, ref, t, s);
  }

  lemma SeqSafe(strict: nat, ref: bool, t: Trace, s: Stmt, a: Stmt, b: Stmt)
    requires Sound(t) && a < s && b < s
    ensures Safe(strict, t, GenS(strict, ref, GenS(strict, ref, t, a).t, b).t, CalmS(a) && CalmS(b))
    decreases s, 0
  {
    hide Sound, Flat, GenS;
    GenSSafe(strict, ref, t, a);
    GenSSafe(strict, ref, GenS(strict, ref, t, a).t, b);
  }

  /** A statement behind a waiting jump, which is then led behind it. */
  lemma OverSafe(strict: nat, ref: bool, t1: Trace, g: nat, s: Stmt, e: Stmt)
    requires Sound(t1) && g < |t1.plain| && t1.plain[g].JMP? && e < s
    ensures Safe(strict, t1, RedirectHere(GenS(strict, ref, t1, e).t, g), CalmS(e))
    decreases s, 0
  {
    hide Sound, Flat, GenS, RedirectHere, CodeS, ControlsOf;
    GenSSafe(strict, ref, t1, e);
    SoundPlaced(t1);
    GenSWrites(strict, ref, t1, e);
    var t2 := GenS(strict, ref, t1, e).t;
    JumpKept(t1, t2, CodeS(strict, e, ref, Pending), 0, g);
    RedirectHereStep(strict, t2, g);
  }

  lemma IfSafe(strict: nat, ref: bool, t: Trace, s: Stmt, c: Expr, thn: Stmt)
    requires Sound(t) && thn < s
    ensures var t1 := NoRef(GenE(strict, t, c));
            Safe(strict, t, RedirectHere(GenS(strict, ref, Put(strict, t1, JMP(Cond, 0)), thn).t, |t1.plain|), Calm(c)
                && CalmS(thn))
    decreases s, 1
  {
    hide Sound, Put, GenE, NoRef, Flat, CodeE, Placed, GenS, RedirectHere;
    CondSafe(strict, t, c);
    var t1 := NoRef(GenE(strict, t, c));
    OverSafe(strict, ref, Put(strict, t1, JMP(Cond, 0)), |t1.plain|, s, thn);
  }

  lemma ElseSafe(strict: nat, ref: bool, t: Trace, s: Stmt, c: Expr, thn: Stmt, els: Stmt)
    requires Sound(t) && thn < s && els < s
    ensures var t1 := NoRef(GenE(strict, t, c));
            var w1 := GenS(strict, ref, Put(strict, t1, JMP(Cond, 0)), thn);
            var t2 := RedirectHere(Put(strict, w1.t, JMP(Always, 0)), |t1.plain|);
            Safe(strict, t, RedirectHere(GenS(strict, ref, t2, els).t, |w1.t.plain|), Calm(c) && CalmS(thn)
                && CalmS(els))
    decreases s, 1
  {
    hide Sound, Put, GenE, NoRef, Flat, CodeE, CodeS, ControlsOf, GenS, RedirectHere, Safe;
    CondSafe(strict, t, c);
    var t1 := NoRef(GenE(strict, t, c));
    var t2 := Put(strict, t1, JMP(Cond, 0));
    StaysSound(strict, t, t2, Calm(c));
    GenSSafe(strict, ref, t2, thn);
    GenSWrites(strict, ref, t2, thn);
    var t3 := GenS(strict, ref, t2, thn).t;
    StaysSound(strict, t2, t3, CalmS(thn));
    JumpKept(t2, t3, CodeS(strict, thn, ref, Pending), 0, |t1.plain|);
    ElseJump(strict, t3, |t1.plain|);
    var t5 := RedirectHere(Put(strict, t3, JMP(Always, 0)), |t1.plain|);
    StaysSound(strict, t3, t5, true);
    OverSafe(strict, ref, t5, |t3.plain|, s, els);
    SafeThen(strict, t, t2, t3, Calm(c), CalmS(thn));
    SafeThen(strict, t, t3, t5, Calm(c) && CalmS(thn), true);
    SafeThen(strict, t, t5, RedirectHere(GenS(strict, ref, t5, els).t, |t3.plain|), Calm(c) && CalmS(thn), CalmS(els));
  }

  /** The jump over the `else` branch, to which the jump into it leads. */
  lemma ElseJump(strict: nat, t: Trace, g: nat)
    requires Sound(t) && g < |t.plain| && t.plain[g].JMP?
    ensures var t' := RedirectHere(Put(strict, t, JMP(Always, 0)), g);
            Safe(strict, t, t', true) && |t.plain| < |t'.plain| && t'.plain[|t.plain|].JMP?
  {
    hide Sound, Put, Flat, RedirectHere;
    JumpSafe(strict, t);
    SoundPlaced(t);
    PutPlaced(strict, t, JMP(Always, 0));
    var t1 := Put(strict, t, JMP(Always, 0));
    RedirectHereStep(strict, t1, g);
    RedirectHerePlaced(t1, g);
  }

  /** A body whose rounds end at `back`. */
  lemma BodySafe(strict: nat, ref: bool, t1: Trace, back: nat, exits: seq<nat>, s: Stmt, body: Stmt)
    requires Sound(t1) && Landing(t1.plain, t1.marks, back) && body < s
    requires |exits| > 0 ==> exits[0] < |t1.plain| && t1.plain[exits[0]].JMP?
    ensures var t' := EndLoop(GenS(strict, ref, t1, body), back, exits);
            Safe(strict, t1, t', CalmS(body)) && (|exits| > 0 ==> t'.jump)
    decreases s, 0
  {
    hide Sound, Flat, GenS, EndLoop, CodeS, ControlsOf, Landing;
    GenSSafe(strict, ref, t1, body);
    SoundPlaced(t1);
    GenSWrites(strict, ref, t1, body);
    var w := GenS(strict, ref, t1, body);
    LandingKept(t1, w.t, CodeS(strict, body, ref, Pending), 0, back);
    if |exits| > 0 { JumpKept(t1, w.t, CodeS(strict, body, ref, Pending), 0, exits[0]); }
    ControlsAreJumps(strict, ref, t1, body);
    EndLoopSafe(strict, w, back, exits);
  }

  lemma WhileSafe(strict: nat, ref: bool, t: Trace, s: Stmt, c: Expr, body: Stmt)
    requires Sound(t) && body < s
    ensures var t1 := NoRef(GenE(strict, Here(t), c));
            Safe(strict, t, EndLoop(GenS(strict, ref, Put(strict, t1, JMP(Cond, 0)), body), |t.plain|, [|t1.plain|]),
                 Calm(c) && CalmS(body))
    decreases s, 1
  {
    hide Sound, Put, GenE, NoRef, Flat, CodeE, Placed, GenS, EndLoop, Here, Landing;
    HereSafe(strict, t);
    CondSafe(strict, Here(t), c);
    var t1 := NoRef(GenE(strict, Here(t), c));
    var t2 := Put(strict, t1, JMP(Cond, 0));
    LandingKept(Here(t), t2, CodeE(strict, c, true) + [JMP(Cond, 0)], 0, |t.plain|);
    BodySafe(strict, ref, t2, |t.plain|, [|t1.plain|], s, body);
  }

  lemma EachSafe(strict: nat, ref: bool, t: Trace, s: Stmt, v: nat, e: Expr, body: Stmt)
    requires Sound(t) && body < s
    ensures var t1 := Put(strict, GenE(strict, t, e), INT(0));
            var t2 := Put(strict, Put(strict, t1, FOREACH(v)), JMP(Always, 0));
            Safe(strict, t, Put(strict, EndLoop(GenS(strict, ref, t2, body), |t1.plain|, [|t1.plain| + 1]), STACK(-2)),
                 Calm(e) && CalmS(body))
    decreases s, 1
  {
    hide Sound, Put, GenE, Flat, GenS, EndLoop, Ready, Settled;
    var t1 := Put(strict, GenE(strict, t, e), INT(0));
    EachHeadSafe(strict, t, e, v);
    var t2 := Put(strict, Put(strict, t1, FOREACH(v)), JMP(Always, 0));
    BodySafe(strict, ref, t2, |t1.plain|, [|t1.plain| + 1], s, body);
    var t3 := EndLoop(GenS(strict, ref, t2, body), |t1.plain|, [|t1.plain| + 1]);
    PopBehindJump(strict, t3);
  }

  lemma PopBehindJump(strict: nat, t: Trace)
    requires Sound(t) && t.jump
    ensures Safe(strict, t, Put(strict, t, STACK(-2)), true)
  {
    hide Sound;
    PutPops(strict, t, STACK(-2));
  }

  lemma EachHeadSafe(strict: nat, t: Trace, e: Expr, v: nat)
    requires Sound(t)
    ensures var t1 := Put(strict, GenE(strict, t, e), INT(0));
            var t2 := Put(strict, Put(strict, t1, FOREACH(v)), JMP(Always, 0));
            Safe(strict, t, t2, Calm(e)) && |t2.plain| == |t1.plain| + 2 && Landing(t2.plain, t2.marks, |t1.plain|)
            && t2.plain[|t1.plain| + 1].JMP?
  {
    hide Sound, Put, GenE, Flat, Ready, Settled;
    var t0 := GenE(strict, t, e);
    var t1 := Put(strict, t0, INT(0));
    GenEGood(strict, t, e);
    if Flat(strict, t) { FlatReady(strict, t); }
    if Settled(t0) { SettledReady(t0); }
    PutAtom(strict, t0, INT(0));
    if Settled(t1) { SettledReady(t1); }
    PutOther(strict, t1, FOREACH(v));
    var t2 := Put(strict, t1, FOREACH(v));
    PutOther(strict, t2, JMP(Always, 0));
    SoundPlaced(t1);
    SoundPlaced(t2);
    PutPlaced(strict, t1, FOREACH(v));
    PutPlaced(strict, t2, JMP(Always, 0));
    if Calm(e) && Flat(strict, t) { assert !t2.crossed; }
  }

  lemma ForSafe(strict: nat, ref: bool, t: Trace, s: Stmt, start: Stmt, c: OptExpr, inc: OptExpr, body: Stmt)
    requires Sound(t) && start < s && body < s
    ensures var t0 := GenS(strict, ref, t, start).t;
            var t1 := GenTest(strict, t0, c);
            var t2 := GenInc(strict, t1, inc, c.Some?, |t0.plain|);
            var t3 := if inc.Some? then RedirectHere(Here(t2), |t1.plain|) else Here(t2);
            var back := if inc.Some? then |t1.plain| + 1 else if c.Some? then |t0.plain| else |t2.plain|;
            Safe(strict, t, EndLoop(GenS(strict, ref, t3, body), back, if c.Some? then [|t1.plain| - 1] else []),
                 CalmS(start) && CalmOpt(c) && CalmOpt(inc) && CalmS(body))
    decreases s, 1
  {
    hide Sound, Flat, GenS, EndLoop, Here, Landing, GenTest, GenInc, RedirectHere, Calm, Safe;
    GenSSafe(strict, ref, t, start);
    var t0 := GenS(strict, ref, t, start).t;
    StaysSound(strict, t, t0, CalmS(start));
    var back, exits: seq<nat> := ForHeadSafe(strict, t0, c, inc);
    var t1 := GenTest(strict, t0, c);
    var t2 := GenInc(strict, t1, inc, c.Some?, |t0.plain|);
    var t3 := if inc.Some? then RedirectHere(Here(t2), |t1.plain|) else Here(t2);
    StaysSound(strict, t0, t3, CalmOpt(c) && CalmOpt(inc));
    BodySafe(strict, ref, t3, back, exits, s, body);
    var t4 := EndLoop(GenS(strict, ref, t3, body), back, exits);
    SafeThen(strict, t, t0, t3, CalmS(start), CalmOpt(c) && CalmOpt(inc));
    SafeThen(strict, t, t3, t4, CalmS(start) && CalmOpt(c) && CalmOpt(inc), CalmS(body));
  }

  /** Everything of a `for` loop before its body. */
  lemma ForHeadSafe(strict: nat, t0: Trace, c: OptExpr, inc: OptExpr) returns (back: nat, exits: seq<nat>)
    requires Sound(t0)
    ensures var t1 := GenTest(strict, t0, c);
            var t2 := GenInc(strict, t1, inc, c.Some?, |t0.plain|);
            var t3 := if inc.Some? then RedirectHere(Here(t2), |t1.plain|) else Here(t2);
            back == (if inc.Some? then |t1.plain| + 1 else if c.Some? then |t0.plain| else |t2.plain|)
            && (c.Some? ==> |t1.plain| > 0) && exits == (if c.Some? then [|t1.plain| - 1] else [])
            && Safe(strict, t0, t3, CalmOpt(c) && CalmOpt(inc)) && Landing(t3.plain, t3.marks, back)
            && (|exits| > 0 ==> exits[0] < |t3.plain| && t3.plain[exits[0]] == JMP(Cond, 0))
  {
    hide Sound, Flat, Here, GenTest, GenInc, RedirectHere, Calm, Safe;
    TestSafe(strict, t0, c);
    var t1 := GenTest(strict, t0, c);
    StaysSound(strict, t0, t1, CalmOpt(c));
    exits := if c.Some? then [|t1.plain| - 1] else [];
    back := IncSafe(strict, t1, inc, c.Some?, |t0.plain|);
    var t2 := GenInc(strict, t1, inc, c.Some?, |t0.plain|);
    var t3 := if inc.Some? then RedirectHere(Here(t2), |t1.plain|) else Here(t2);
    SafeThen(strict, t0, t1, t3, CalmOpt(c), CalmOpt(inc));
  }

  lemma TestSafe(strict: nat, t0: Trace, c: OptExpr)
    requires Sound(t0)
    ensures var t1 := GenTest(strict, t0, c);
            Safe(strict, t0, t1, CalmOpt(c))
            && (c.Some? ==>
                  |t0.plain| < |t1.plain| && Last(t1.plain) == JMP(Cond, 0) && Landing(t1.plain, t1.marks, |t0.plain|))
  {
    hide Sound, Put, GenE, NoRef, Flat, CodeE, Here, Landing;
    if c.Some? {
      HereSafe(strict, t0);
      CondSafe(strict, Here(t0), c.e);
      LandingKept(Here(t0), GenTest(strict, t0, c), CodeE(strict, c.e, true) + [JMP(Cond, 0)], 0, |t0.plain|);
    }
  }

  lemma IncSafe(strict: nat, t1: Trace, inc: OptExpr, cond: bool, start: nat) returns (back: nat)
    requires Sound(t1) && (cond ==> start < |t1.plain| && Last(t1.plain).JMP? && Landing(t1.plain, t1.marks, start))
    ensures var t2 := GenInc(strict, t1, inc, cond, start);
            var t3 := if inc.Some? then RedirectHere(Here(t2), |t1.plain|) else Here(t2);
            back == (if inc.Some? then |t1.plain| + 1 else if cond then start else |t2.plain|)
            && Safe(strict, t1, t3, CalmOpt(inc)) && Landing(t3.plain, t3.marks, back)
            && |t1.plain| <= |t3.plain| && (cond ==> t3.plain[|t1.plain| - 1] == Last(t1.plain))
  {
    hide Sound, Flat, Here, RedirectHere, Calm, Put, GenE, NoRef, CodeE, Landing, Safe;
    match inc
    case NoExpr =>
      HereSafe(strict, t1);
      HereLands(t1, start);
      back := if cond then start else |t1.plain|;
      WeakSafe(strict, t1, Here(t1), CalmOpt(inc));
    case Some(e) =>
      back := |t1.plain| + 1;
      var t2 := StepSafe(strict, t1, e);
      StaysSound(strict, t1, t2, Calm(e));
      if cond {
        LandingKept(t1, t2, [JMP(Always, 0)] + (CodeE(strict, e, true) + [STACK(-1)]), 0, start);
        PutBackSafe(strict, t2, start);
        BackKeeps(t2, start, back);
      }
      var t3 := GenInc(strict, t1, inc, cond, start);
      if Flat(strict, t2) { FlatUncrossed(strict, t2); }
      IsSafe(strict, t2, t3, true);
      SafeThen(strict, t1, t2, t3, Calm(e), true);
      StaysSound(strict, t2, t3, true);
      HereSafe(strict, t3);
      HereLands(t3, back);
      StaysSound(strict, t3, Here(t3), true);
      assert t3.plain[|t1.plain|] == t2.plain[|t1.plain|];
      RedirectHereLands(strict, Here(t3), |t1.plain|, back);
      SafeThen(strict, t3, Here(t3), RedirectHere(Here(t3), |t1.plain|), true, true);
      SafeThen(strict, t1, t3, RedirectHere(Here(t3), |t1.plain|), Calm(e), true);
  }

  lemma HereLands(t: Trace, w: nat)
    ensures Landing(t.plain, t.marks, w) ==> Landing(Here(t).plain, Here(t).marks, w)
    ensures Here(t).plain == t.plain
  {
  }

  lemma BackKeeps(t: Trace, start: nat, w: nat)
    requires start < |t.pos| && Landing(t.plain, t.marks, w)
    ensures Landing(PutBack(t, start).plain, PutBack(t, start).marks, w)
  {
  }

  /** The increment of a `for` loop, with the jump over it still waiting. */
  lemma StepSafe(strict: nat, t1: Trace, e: Expr) returns (t2: Trace)
    requires Sound(t1)
    ensures t2 == Put(strict, NoRef(GenE(strict, Here(Put(strict, t1, JMP(Always, 0))), e)), STACK(-1))
    ensures Safe(strict, t1, t2, Calm(e)) && Landing(t2.plain, t2.marks, |t1.plain| + 1)
    ensures |t1.plain| < |t2.plain| && t2.plain[|t1.plain|].JMP? && t2.plain[..|t1.plain|] == t1.plain
    ensures Wrote(t1, t2, [JMP(Always, 0)] + (CodeE(strict, e, true) + [STACK(-1)]), 0)
  {
    hide Sound, Flat, Here, Calm, Put, GenE, NoRef, CodeE, Landing, Placed;
    var t0 := Put(strict, t1, JMP(Always, 0));
    JumpSafe(strict, t1);
    SoundPlaced(t1);
    PutPlaced(strict, t1, JMP(Always, 0));
    HereSafe(strict, t0);
    t2 := Put(strict, NoRef(GenE(strict, Here(t0), e)), STACK(-1));
    ExprSafe(strict, Here(t0), e, true);
    SelfWrote(t1);
    GenStepWrites(strict, t1, t1, [], e);
    assert [] + [JMP(Always, 0)] == [JMP(Always, 0)];
    SoundPlaced(Here(t0));
    GenValueWrites(strict, Here(t0), e, true);
    PutWrote(strict, Here(t0), NoRef(GenE(strict, Here(t0), e)), CodeE(strict, e, true), 1, STACK(-1));
    LandingKept(Here(t0), t2, CodeE(strict, e, true) + [STACK(-1)], 0, |t1.plain| + 1);
  }
}
