/** Every program is written soundly, and unless it calls functions that do not exist no join
    ever reaches across a jump target. */
module EmitterCalm {
  import opened Bytecode
  import opened Source
  import opened Compile
  import opened Peephole
  import opened Emitter
  import opened EmitterPlain
  import opened EmitterJoined

  /** No parameters of missing functions, which are written and dropped again. */
  predicate Calm(e: Expr)
    decreases e
  {
    match e
    case EUnary(_, arg) => Calm(arg)
    case EBinary(_, l, r) => Calm(l) && Calm(r)
    case ELogic(_, l, r) => Calm(l) && Calm(r)
    case ENilAssign(l, r) => Calm(l) && Calm(r)
    case ECall(callee, args) => !callee.NoInherited? && !callee.NoGlobal? && CalmArgs(args)
    case EMethod(how, t, args) => how.Named? && Calm(t) && CalmArgs(args)
    case _ => true
  }

  predicate CalmArgs(a: Args)
    decreases a
  {
    match a
    case NoArgs => true
    case Arg(e, _, rest) => Calm(e) && CalmArgs(rest)
  }

  /** Pushing nulls next would join nothing across a jump target. */
  ghost predicate Ready(t: Trace) {
    !t.crossed && (!t.jump && Joins(t.code, STACK(1)) ==> OpenRun(t))
  }

  /** Nor would popping. */
  ghost predicate Settled(t: Trace) {
    !t.crossed && (!t.jump && |t.code| > 0 && Last(t.code).STACK? ==> OpenRun(t))
  }

  /** Between statements: the code does not end by pushing nulls, and from strict 3 on it ends
      with the chunk asked for last. */
  ghost predicate Flat(strict: nat, t: Trace) {
    && !t.crossed
    && (|t.code| > 0 && Last(t.code).STACK? ==> Last(t.code).n < 0)
    && (strict >= 3 ==> |t.plain| == 0 || Aligned(t))
  }

  // ----- single steps -----

  lemma PutOther(strict: nat, t: Trace, x: Chunk)
    requires Sound(t) && !Converted(strict, x).STACK? && (Converted(strict, x).JMP? ==> Converted(strict, x).off == 0)
    ensures var t' := Put(strict, t, x);
            Sound(t') && t'.crossed == t.crossed && !t'.jump && |t'.code| > 0 && Last(t'.code) == Converted(strict, x)
    ensures !t.crossed ==> Settled(Put(strict, t, x)) && Flat(strict, Put(strict, t, x))
  {
    PutSound(strict, t, x);
    PutPlaced(strict, t, x);
  }

  lemma PutNulls(strict: nat, t: Trace, x: Chunk)
    requires Sound(t) && Converted(strict, x).STACK? && Converted(strict, x).n > 0
    ensures Sound(Put(strict, t, x))
    ensures Ready(t) ==> Settled(Put(strict, t, x))
  {
    hide Sound, Put, Ready, Settled;
    PutSound(strict, t, x);
    if Ready(t) { NullsSettle(strict, t, x); }
  }

  lemma NullsSettle(strict: nat, t: Trace, x: Chunk)
    requires Sound(t) && Converted(strict, x).STACK? && Converted(strict, x).n > 0 && Ready(t)
    ensures Settled(Put(strict, t, x))
  {
    hide Joined, Start, Eff, AllStack;
    var t', k, c := Put(strict, t, x), |t.plain|, Converted(strict, x);
    assert c == STACK(c.n);
    if k > 0 && Last(t.plain).STACK? && k !in t.marks {
      RunOfEnd(t.plain, t.marks, t.code, t.pos, c.n);
      var a := Start(t.plain, t.marks, k - 1);
      assert a < |t.pos| && t'.pos[a] == t.pos[a];
      assert t'.pos[Start(t'.plain, t'.marks, |t'.plain| - 1)] == t.pos[a];
    } else {
      StartOfBorder(t'.plain, t'.marks, k);
      assert !t.jump && Joins(t.code, c) ==> false;
      assert t'.pos[k] == t.pos[k] == |t.code|;
    }
  }

  lemma StartOfBorder(plain: Code, marks: set<nat>, i: nat)
    requires i < |plain| && (i > 0 && plain[i].STACK? && plain[i - 1].STACK? ==> i in marks)
    ensures Start(plain, marks, i) == i
  {
  }

  lemma PutPops(strict: nat, t: Trace, x: Chunk)
    requires Sound(t) && x.STACK?
    ensures Sound(Put(strict, t, x))
    ensures Settled(t) ==> !Put(strict, t, x).crossed
    ensures Settled(t) && x.n < 0 && (t.jump || |t.code| == 0 || !Last(t.code).STACK?)
            ==> Flat(strict, Put(strict, t, x))
  {
    PutSound(strict, t, x);
  }

  /** A literal 0 as a statement leaves nothing. */
  lemma PutZeroPop(strict: nat, t: Trace, x: Chunk)
    requires Sound(t) && Flat(strict, t) && !x.STACK? && Converted(strict, x) == STACK(1)
    ensures var t' := Put(strict, Put(strict, t, x), STACK(-1));
            Sound(t') && Flat(strict, t') && t'.code == t.code
  {
    hide Sound, OpenRun;
    PutNulls(strict, t, x);
    PutSound(strict, Put(strict, t, x), STACK(-1));
    ZeroPopCode(strict, t, x);
  }

  lemma ZeroPopCode(strict: nat, t: Trace, x: Chunk)
    requires Flat(strict, t) && Settled(Put(strict, t, x)) && !x.STACK? && Converted(strict, x) == STACK(1)
    ensures var t' := Put(strict, Put(strict, t, x), STACK(-1));
            Flat(strict, t') && t'.code == t.code
  {
    hide OpenRun;
    var t1 := Put(strict, t, x);
    assert t1.code == t.code + [STACK(1)];
    assert JoinInto(t1.code, -1) == t.code;
  }

  lemma RedirectHereStep(strict: nat, t: Trace, g: nat)
    requires Sound(t) && g < |t.plain| && t.plain[g].JMP?
    ensures var t' := RedirectHere(t, g);
            Sound(t') && t'.jump && t'.crossed == t.crossed && |t'.code| == |t.code|
    ensures !t.crossed ==> Settled(RedirectHere(t, g))
    ensures Flat(strict, t) ==> Flat(strict, RedirectHere(t, g))
  {
    hide Sound, Placed, Redirect, Aligned;
    RedirectHereSound(t, g);
    SoundPlaced(t);
    RedirectHerePlaced(t, g);
    HerePlaced(t);
    RedirectPlaced(Here(t), g, |t.plain|);
    JumpStands(t, g);
    RedirectEnd(t.code, RedirectHere(t, g).code, t.pos[g], JMP(t.plain[g].jkind, t.pos[|t.plain|] - t.pos[g]));
  }

  lemma JumpStands(t: Trace, g: nat)
    requires Placed(t) && g < |t.plain| && t.plain[g].JMP?
    ensures 0 <= t.pos[g] < |t.code| && t.code[t.pos[g]].JMP? && |t.pos| == |t.plain| + 1
  {
  }

  /** A jump exchanged for another leaves the end as it was. */
  lemma RedirectEnd(code: Code, code': Code, i: int, y: Chunk)
    requires 0 <= i < |code| && code[i].JMP? && y.JMP? && code' == code[i := y]
    ensures |code'| == |code|
    ensures |code| > 0 ==> Last(code').STACK? == Last(code).STACK? && (Last(code).STACK? ==> Last(code') == Last(code))
  {
  }

  lemma NoRefStep(t: Trace)
    requires Sound(t) && Aligned(t) && !Last(t.plain).JMP?
    ensures Sound(NoRef(t)) && NoRef(t).jump == t.jump && NoRef(t).crossed == t.crossed
    ensures Settled(t) ==> Settled(NoRef(t))
    ensures |NoRef(t).code| == |t.code| > 0 && Last(NoRef(t).code).STACK? == Last(t.code).STACK?
  {
    hide Sound, Start, OpenRun;
    NoRefSound(t);
    if OpenRun(t) { NoRefOpen(t); }
  }

  lemma NoRefOpen(t: Trace)
    requires OpenRun(t)
    ensures OpenRun(NoRef(t))
  {
    hide Start;
    SameStart(t.plain, NoRef(t).plain, t.marks, |t.plain| - 1);
  }

  // ----- expressions -----

  /** How writing an expression ends: with a jump target, with a chunk that is no stack chunk,
      or the expression is a lone null. */
  ghost predicate Ends(strict: nat, t: Trace, t': Trace) {
    t'.jump || (|t'.code| > 0 && !Last(t'.code).STACK?)
    || exists x: Chunk :: !x.STACK? && Converted(strict, x) == STACK(1) && t' == Put(strict, t, x)
  }

  ghost predicate Good(strict: nat, t: Trace, t': Trace, calm: bool) {
    Sound(t') && (calm && Ready(t) ==> Settled(t') && Ends(strict, t, t'))
  }

  lemma EndNotJump(strict: nat, t: Trace, e: Expr)
    requires Placed(t)
    ensures var t' := GenE(strict, t, e);
            Placed(t') && Aligned(t') && !Last(t'.plain).JMP?
  {
    hide GenE, CodeE;
    GenEWrites(strict, t, e);
    ValueCode(strict, e);
    assert Last(t.plain + CodeE(strict, e, false)) == Last(CodeE(strict, e, false));
  }

  lemma {:induction false} GenEGood(strict: nat, t: Trace, e: Expr)
    requires Sound(t)
    ensures Good(strict, t, GenE(strict, t, e), Calm(e))
    decreases e, 2
  {
    hide Put, NoRef, RedirectHere, GenArgs, PutAll, Sound, Settled, Ready, Good, CodeCall, CodeMethod;
    match e
    case EConst(c) => PutAtom(strict, t, RawConst(c));
    case ESlot(kind, i) => PutAtom(strict, t, SLOT(kind, i, true));
    case EUnary(op, arg) => GenUnaryGood(strict, t, e, op, arg);
    case EBinary(op, l, r) => GenPairGood(strict, t, e, l, !Modifies(op), r, BinChunk(op, strict));
    case ELogic(op, l, r) =>
      if ShortCircuit(op, strict) {
        GenShortGood(strict, t, e, l, r, LogicJump(op));
      } else {
        GenPairGood(strict, t, e, l, true, r, LogicChunk(op));
      }
    case ENilAssign(l, r) => GenNilAssignGood(strict, t, e, l, r);
    case ECall(callee, args) => GenCallGood(strict, t, e, callee, args);
    case EMethod(how, target, args) => GenMethodGood(strict, t, e, how, target, args);
  }

  lemma PutAtom(strict: nat, t: Trace, x: Chunk)
    requires Sound(t) && !x.STACK? && !x.JMP?
    ensures Good(strict, t, Put(strict, t, x), true)
  {
    hide Put;
    if Converted(strict, x).STACK? { PutNulls(strict, t, x); } else { PutOther(strict, t, x); }
  }

  /** An operator or call on top: it ends the expression whatever came before. */
  lemma PutEnd(strict: nat, t: Trace, t1: Trace, x: Chunk, calm: bool)
    requires Sound(t1) && (calm && Ready(t) ==> !t1.crossed)
    requires x.UN? || x.BIN? || x.FUNC? || x.CALL? || x.ARRAY?
    ensures Good(strict, t, Put(strict, t1, x), calm)
  {
    hide Put, Sound;
    PutOther(strict, t1, x);
  }

  lemma SettledReady(t: Trace)
    requires Settled(t)
    ensures Ready(t) && !t.crossed
  {
  }

  lemma GenValueGood(strict: nat, t: Trace, e: Expr, valueOnly: bool)
    requires Sound(t)
    ensures var t' := NoRefIf(GenE(strict, t, e), valueOnly);
            Sound(t') && (Calm(e) && Ready(t) ==> Settled(t') && Ready(t'))
    decreases e, 3
  {
    hide Put, NoRef, GenE, Sound, Settled, Ready;
    GenEGood(strict, t, e);
    SoundPlaced(t);
    EndNotJump(strict, t, e);
    var t1 := GenE(strict, t, e);
    if valueOnly { NoRefStep(t1); }
    if Settled(NoRefIf(t1, valueOnly)) { SettledReady(NoRefIf(t1, valueOnly)); }
  }

  lemma SoundPlaced(t: Trace)
    requires Sound(t)
    ensures Placed(t)
  {
  }

  lemma GenUnaryGood(strict: nat, t: Trace, e: Expr, op: Unary, arg: Expr)
    requires Sound(t) && arg < e
    ensures var t1 := GenE(strict, t, arg);
            Good(strict, t,
                 if op == PrePlus then t1
                 else if op == PreNeg && EndsInInt(t1.code) then Negate(t1)
                 else Put(strict, NoRefIf(t1, !KeepsRef(op)), UN(UnaryChunk(op, false))),
                 Calm(arg))
    decreases e, 0
  {
    hide Put, NoRef, GenE, Sound;
    var t1 := GenE(strict, t, arg);
    GenEGood(strict, t, arg);
    if op != PrePlus {
      SoundPlaced(t);
      EndNotJump(strict, t, arg);
      if op == PreNeg && EndsInInt(t1.code) {
        NegateStep(strict, t, t1, arg);
      } else {
        GenValueGood(strict, t, arg, !KeepsRef(op));
        PutEnd(strict, t, NoRefIf(t1, !KeepsRef(op)), UN(UnaryChunk(op, false)), Calm(arg));
      }
    }
  }

  lemma NegateStep(strict: nat, t: Trace, t1: Trace, arg: Expr)
    requires Placed(t) && t1 == GenE(strict, t, arg) && Sound(t1) && EndsInInt(t1.code)
    ensures Sound(Negate(t1)) && Negate(t1).crossed == t1.crossed
    ensures !t1.crossed ==> Settled(Negate(t1)) && Ends(strict, t, Negate(t1))
  {
    hide GenE, CodeE;
    GenEWrites(strict, t, arg);
    ValueCode(strict, arg);
    NegateWrote(t, t1, CodeE(strict, arg, false), 1);
    NegateSound(t1);
  }

  lemma GenPairGood(strict: nat, t: Trace, e: Expr, l: Expr, lv: bool, r: Expr, op: BinOp)
    requires Sound(t) && l < e && r < e
    ensures Good(strict, t, Put(strict, NoRef(GenE(strict, NoRefIf(GenE(strict, t, l), lv), r)), BIN(op)),
                 Calm(l) && Calm(r))
    decreases e, 0
  {
    hide Put, NoRef, GenE, Sound, Settled, Ready;
    var t1 := NoRefIf(GenE(strict, t, l), lv);
    GenValueGood(strict, t, l, lv);
    GenValueGood(strict, t1, r, true);
    var t2 := NoRefIf(GenE(strict, t1, r), true);
    if Settled(t2) { SettledReady(t2); }
    PutEnd(strict, t, t2, BIN(op), Calm(l) && Calm(r));
  }

  /** The jump of `&&`, `||`, `??` or `??=`, then the second operand. */
  lemma GenShortGood(strict: nat, t: Trace, e: Expr, l: Expr, r: Expr, kind: JumpKind)
    requires Sound(t) && l < e && r < e
    ensures var t1 := NoRef(GenE(strict, t, l));
            Good(strict, t, RedirectHere(GenE(strict, Put(strict, t1, JMP(kind, 0)), r), |t1.plain|), Calm(l)
                && Calm(r))
    decreases e, 1
  {
    hide Put, NoRef, GenE, Sound, Settled, Ready, RedirectHere;
    var t1 := NoRefIf(GenE(strict, t, l), true);
    GenValueGood(strict, t, l, true);
    if Settled(t1) { SettledReady(t1); }
    JumpThen(strict, t1, e, r, kind);
    var t2 := GenE(strict, Put(strict, t1, JMP(kind, 0)), r);
    RedirectHereStep(strict, t2, |t1.plain|);
  }

  /** A waiting jump and an expression behind it. */
  lemma JumpThen(strict: nat, t1: Trace, e: Expr, r: Expr, kind: JumpKind)
    requires Sound(t1) && r < e
    ensures var t2 := GenE(strict, Put(strict, t1, JMP(kind, 0)), r);
            Sound(t2) && |t1.plain| < |t2.plain| && t2.plain[|t1.plain|].JMP?
            && (Calm(r) && !t1.crossed ==> Settled(t2) && !t2.crossed)
    decreases e, 0
  {
    hide Put, GenE, CodeE;
    var t0 := Put(strict, t1, JMP(kind, 0));
    PutOther(strict, t1, JMP(kind, 0));
    PutPlaced(strict, t1, JMP(kind, 0));
    GenEGood(strict, t0, r);
    GenEWrites(strict, t0, r);
  }

  lemma GenNilAssignGood(strict: nat, t: Trace, e: Expr, l: Expr, r: Expr)
    requires Sound(t) && l < e && r < e
    ensures var t1 := GenE(strict, t, l);
            var t2 := GenE(strict, Put(strict, t1, JMP(IfSet, 0)), r);
            Good(strict, t, RedirectHere(Put(strict, t2, BIN(Set)), |t1.plain|), Calm(l) && Calm(r))
    decreases e, 1
  {
    hide Put, GenE, Sound, Settled, Ready, RedirectHere;
    var t1 := GenE(strict, t, l);
    GenEGood(strict, t, l);
    if Settled(t1) { SettledReady(t1); }
    JumpThen(strict, t1, e, r, IfSet);
    var t2 := GenE(strict, Put(strict, t1, JMP(IfSet, 0)), r);
    PutOther(strict, t2, BIN(Set));
    SoundPlaced(t2);
    PutPlaced(strict, t2, BIN(Set));
    RedirectHereStep(strict, Put(strict, t2, BIN(Set)), |t1.plain|);
  }

  lemma {:induction false} GenArgsGood(strict: nat, t: Trace, a: Args)
    requires Sound(t)
    ensures var t' := GenArgs(strict, t, a);
            Sound(t') && (CalmArgs(a) && Ready(t) ==> Ready(t') && (Count(a) > 0 ==> Settled(t')))
    decreases a
  {
    hide Put, NoRef, GenE, Sound, Settled, Ready, Calm;
    match a
    case NoArgs =>
    case Arg(e, keepRef, rest) =>
      GenValueGood(strict, t, e, !keepRef);
      GenArgsGood(strict, NoRefIf(GenE(strict, t, e), !keepRef), rest);
  }

  /** Parameters brought to their number, then the call. */
  lemma CallGood(strict: nat, t: Trace, t1: Trace, have: nat, want: nat, x: Chunk, calm: bool)
    requires Sound(t1) && (x.FUNC? || x.CALL?)
    requires calm && Ready(t) ==> Ready(t1) && (have > 0 ==> Settled(t1))
    ensures Good(strict, t, PutAll(strict, t1, Balance(have, want) + [x]), calm)
  {
    hide Put, Sound;
    if have == want {
      assert [] + [x] == [x] && [x][1..] == [];
      if Ready(t1) { ReadyUncrossed(t1); }
      PutEnd(strict, t, t1, x, calm);
    } else {
      var b := STACK(want - have);
      PutTwo(strict, t1, b, x);
      assert Balance(have, want) + [x] == [b, x];
      if have < want {
        PutNulls(strict, t1, b);
        if Settled(Put(strict, t1, b)) { SettledReady(Put(strict, t1, b)); }
      } else {
        PutPops(strict, t1, b);
      }
      PutEnd(strict, t, Put(strict, t1, b), x, calm);
    }
  }

  lemma PutTwo(strict: nat, t: Trace, x: Chunk, y: Chunk)
    ensures PutAll(strict, t, [x, y]) == Put(strict, Put(strict, t, x), y)
  {
    hide Put;
    var t1 := Put(strict, t, x);
    assert [x, y][1..] == [y] && [y][1..] == [];
    assert PutAll(strict, t1, [y]) == PutAll(strict, Put(strict, t1, y), []);
  }

  /** Stack chunks on any state keep it sound. */
  lemma {:induction false} PutAllSound(strict: nat, t: Trace, xs: Code)
    requires Sound(t) && forall x :: x in xs ==> !x.JMP? && !x.INT? && !x.BOOL?
    ensures Sound(PutAll(strict, t, xs))
    decreases |xs|
  {
    hide Put, Sound;
    if |xs| > 0 {
      PutSound(strict, t, xs[0]);
      PutAllSound(strict, Put(strict, t, xs[0]), xs[1..]);
    }
  }

  lemma GenCallGood(strict: nat, t: Trace, e: Expr, callee: Callee, args: Args)
    requires Sound(t) && args < e
    ensures Good(strict, t,
                 PutAll(strict, GenArgs(strict, PutAll(strict, t, CodeBefore(callee)), args),
                     CodeCall(callee, Count(args))),
                 !callee.NoInherited? && !callee.NoGlobal? && CalmArgs(args))
    decreases e, 0
  {
    hide Put, Sound, Settled, Ready, GenArgs;
    var t0 := PutAll(strict, t, CodeBefore(callee));
    PutAllSound(strict, t, CodeBefore(callee));
    if callee.Global? {
      assert [STACK(1)][1..] == [];
      PutNulls(strict, t, STACK(1));
      if Ready(t) { SettledReady(t0); }
    }
    GenArgsGood(strict, t0, args);
    var t1, n := GenArgs(strict, t0, args), Count(args);
    match callee
    case Function(f, pars) => CallGood(strict, t, t1, n, pars, FUNC(f, pars), CalmArgs(args));
    case Global(f) => CallGood(strict, t, t1, n, MAX_PAR, CALL(CallGlobal, f), CalmArgs(args));
    case NewArray =>
      assert [ARRAY(n)][1..] == [];
      if Ready(t1) { ReadyUncrossed(t1); }
      PutEnd(strict, t, t1, ARRAY(n), CalmArgs(args));
    case _ => PutAllSound(strict, t1, CodeCall(callee, n));
  }

  lemma ReadyUncrossed(t: Trace)
    requires Ready(t)
    ensures !t.crossed
  {
  }

  lemma GenMethodGood(strict: nat, t: Trace, e: Expr, how: Method, target: Expr, args: Args)
    requires Sound(t) && target < e && args < e
    ensures Good(strict, t,
                 PutAll(strict, GenArgs(strict, GenE(strict, t, target), args), CodeMethod(how, Count(args))),
                 how.Named? && Calm(target) && CalmArgs(args))
    decreases e, 0
  {
    hide Put, Sound, Settled, Ready, GenArgs, GenE;
    var t0 := GenE(strict, t, target);
    GenEGood(strict, t, target);
    if Settled(t0) { SettledReady(t0); }
    GenArgsGood(strict, t0, args);
    var t1, n := GenArgs(strict, t0, args), Count(args);
    match how
    case Named(failSafe, f) =>
      CallGood(strict, t, t1, n, MAX_PAR, CALL(MethodKind(failSafe), f), Calm(target) && CalmArgs(args));
    case Unknown => PutAllSound(strict, t1, CodeMethod(how, n));
  }
}
