/** The patch behind an error leads all jumps out that hold 0, because they do not lead anywhere yet.
    A jump to itself holds 0, too. Told from the text: when there is such a jump, so that the patch
    changes more than it should. */
module LedOut {
  import opened Bytecode
  import opened Source
  import opened Compile
  import opened Peephole
  import opened Emitter
  import opened EmitterPlain
  import opened EmitterStmt
  import opened EmitterJoined
  import opened EmitterCalm
  import opened EmitterCalmStmt
  import opened Compiled
  import opened FunctionEnd
  import opened Moments
  import Meaning
  import StmtCorrect

  // ----- the text -----

  /** The statement leaves no chunk: at most it pushes nulls and drops them. */
  predicate Nothing(strict: nat, s: Stmt) {
    match s
    case SEmpty => true
    case SExpr(e, _) => OnlyNulls(strict, e)
    case SSeq(a, b) => Nothing(strict, a) && Nothing(strict, b)
    case _ => false
  }

  /** The first thing that leaves a chunk is `continue`. */
  predicate First(strict: nat, s: Stmt) {
    match s
    case SContinue => true
    case SSeq(a, b) => First(strict, a) || (Nothing(strict, a) && First(strict, b))
    case _ => false
  }

  /** The rounds of the loop consist of the body: there is no condition, and no increment that leaves a
      chunk. */
  predicate Bare(strict: nat, c: OptExpr, inc: OptExpr) {
    c.NoExpr? && (inc.Some? ==> OnlyNulls(strict, inc.e))
  }

  /** In such a loop, a round leads to itself: nothing was written in the body, or nothing before a
      `continue`. */
  predicate Stuck(strict: nat, s: Stmt) {
    match s
    case SSeq(a, b) => Stuck(strict, a) || Stuck(strict, b)
    case SIf(_, t) => Stuck(strict, t)
    case SIfElse(_, t, e) => Stuck(strict, t) || Stuck(strict, e)
    case SWhile(_, b) => Stuck(strict, b)
    case SFor(_, c, inc, b) =>
      Stuck(strict, b) || (Bare(strict, c, inc) && (Nothing(strict, b) || First(strict, b)))
    case SForEach(_, _, b) => Stuck(strict, b)
    case _ => false
  }

  // ----- chunks of the text -----

  lemma StackSplit(a: Code, b: Code, c: nat)
    requires c <= |a| && AllStack((a + b)[c..])
    ensures AllStack(a[c..]) && AllStack(b)
  {
    var s := (a + b)[c..];
    forall i | 0 <= i < |a[c..]| ensures a[c..][i].STACK? { assert s[i] == a[c..][i]; }
    forall i | 0 <= i < |b| ensures b[i].STACK? { assert s[|a| - c + i] == b[i]; }
  }

  lemma NoStack(a: Code, x: Chunk, b: Code, c: nat)
    requires c <= |a| && !x.STACK?
    ensures !AllStack((a + [x] + b)[c..])
  {
    assert (a + [x] + b)[c..][|a| - c] == x;
  }

  lemma AllParts(a: Code, b: Code)
    ensures AllStack(a + b) <==> AllStack(a) && AllStack(b)
  {
    if AllStack(a + b) {
      assert (a + b)[0..] == a + b && a[0..] == a;
      StackSplit(a, b, 0);
    }
  }

  lemma {:induction false} ExprStack(strict: nat, e: Expr, valueOnly: bool)
    requires AllStack(CodeE(strict, e, valueOnly))
    ensures OnlyNulls(strict, e)
    decreases e
  {
    hide CodeArgs, CodeCall, CodeMethod, CodeBefore, AllStack;
    match e
    case EConst(c) => OneStack(CodeE(strict, e, valueOnly)[0]);
    case ESlot(kind, i) => OneStack(SLOT(kind, i, !valueOnly));
    case EUnary(op, arg) =>
      if op == PrePlus {
        ExprStack(strict, arg, valueOnly);
      } else if op == PreNeg && EndsInInt(CodeE(strict, arg, false)) {
        NoneNegated(CodeE(strict, arg, false));
      } else {
        AllParts(CodeE(strict, arg, !KeepsRef(op)), [UN(UnaryChunk(op, valueOnly))]);
        OneStack(UN(UnaryChunk(op, valueOnly)));
      }
    case EBinary(op, l, r) =>
      AllParts(CodeE(strict, l, !Modifies(op)) + CodeE(strict, r, true), [BIN(BinChunk(op, strict))]);
      OneStack(BIN(BinChunk(op, strict)));
    case ELogic(op, l, r) => LogicStack(strict, op, l, r, valueOnly);
    case ENilAssign(l, r) =>
      var second := CodeE(strict, r, false) + [BIN(Set)];
      AllParts(CodeE(strict, l, false) + [JMP(IfSet, |second| + 1)], second);
      AllParts(CodeE(strict, r, false), [BIN(Set)]);
      OneStack(BIN(Set));
    case ECall(callee, args) =>
      var n := Count(args);
      AllParts(CodeBefore(callee) + CodeArgs(strict, args), CodeCall(callee, n));
      AllParts(CodeBefore(callee), CodeArgs(strict, args));
      FunctionEnd.CallEnds(callee, Unknown, n);
      ArgsStack(strict, args);
    case EMethod(how, target, args) =>
      var n := Count(args);
      AllParts(CodeE(strict, target, false) + CodeArgs(strict, args), CodeMethod(how, n));
      AllParts(CodeE(strict, target, false), CodeArgs(strict, args));
      FunctionEnd.CallEnds(NewArray, how, n);
      ExprStack(strict, target, false);
      ArgsStack(strict, args);
  }

  lemma OneStack(x: Chunk)
    ensures AllStack([x]) <==> x.STACK?
  {
    assert [x][0] == x;
  }

  lemma NoneNegated(code: Code)
    requires EndsInInt(code)
    ensures !AllStack(NegateLast(code))
  {
    assert !NegateLast(code)[|code| - 1].STACK?;
  }

  lemma LogicStack(strict: nat, op: Logic, l: Expr, r: Expr, valueOnly: bool)
    ensures !AllStack(CodeE(strict, ELogic(op, l, r), valueOnly))
  {
    hide AllStack;
    if ShortCircuit(op, strict) {
      var second := CodeE(strict, r, valueOnly);
      AllParts(CodeE(strict, l, true) + [JMP(LogicJump(op), |second| + 1)], second);
      AllParts(CodeE(strict, l, true), [JMP(LogicJump(op), |second| + 1)]);
      OneStack(JMP(LogicJump(op), |second| + 1));
    } else {
      AllParts(CodeE(strict, l, true) + CodeE(strict, r, true), [BIN(LogicChunk(op))]);
      OneStack(BIN(LogicChunk(op)));
    }
  }

  lemma {:induction false} ArgsStack(strict: nat, a: Args)
    requires AllStack(CodeArgs(strict, a))
    ensures AllNulls(strict, a)
    decreases a
  {
    hide CodeE, AllStack;
    match a
    case NoArgs =>
    case Arg(e, keepRef, rest) =>
      AllParts(CodeE(strict, e, !keepRef), CodeArgs(strict, rest));
      ExprStack(strict, e, !keepRef);
      ArgsStack(strict, rest);
  }

  /** Statements that leave no chunk are those that ask for stack chunks only. */
  lemma {:induction false} TextStack(strict: nat, s: Stmt, ref: bool, ctl: Ctl)
    requires AllStack(CodeS(strict, s, ref, ctl))
    ensures Nothing(strict, s)
    decreases s
  {
    hide CodeE, AllStack, LoopCode, CodeBody, CodeTest, CodeInc, OnlyNulls;
    match s
    case SEmpty =>
    case SExpr(e, valueOnly) =>
      AllParts(CodeE(strict, e, valueOnly), [STACK(-1)]);
      ExprStack(strict, e, valueOnly);
    case SVar(v, e) =>
      AllParts(CodeE(strict, e, true), [IVARN(v)]);
      OneStack(IVARN(v));
    case SSeq(a, b) =>
      var first := CodeS(strict, a, ref, ctl);
      AllParts(first, CodeS(strict, b, ref, Later(ctl, |first|)));
      TextStack(strict, a, ref, ctl);
      TextStack(strict, b, ref, Later(ctl, |first|));
    case _ => OtherStack(strict, s, ref, ctl);
  }

  lemma OtherStack(strict: nat, s: Stmt, ref: bool, ctl: Ctl)
    requires !s.SEmpty? && !s.SExpr? && !s.SVar? && !s.SSeq?
    ensures !AllStack(CodeS(strict, s, ref, ctl))
  {
    hide CodeE, LoopCode, CodeBody, CodeTest, CodeInc;
    var code := CodeS(strict, s, ref, ctl);
    match s
    case SIf(c, t) => assert code[|CodeE(strict, c, true)|].JMP?;
    case SIfElse(c, t, e) => assert code[|CodeE(strict, c, true)|].JMP?;
    case SWhile(c, body) => LoopLast(strict, Some(c), NoExpr, CodeBody(strict, Some(c), NoExpr, body, ref));
    case SFor(start, c, inc, body) =>
      var loop := LoopCode(strict, c, inc, CodeBody(strict, c, inc, body, ref));
      LoopLast(strict, c, inc, CodeBody(strict, c, inc, body, ref));
      assert code == CodeS(strict, start, ref, Pending) + loop;
      assert code[|code| - 1] == Last(loop);
    case SForEach(v, e, body) => assert code[|CodeE(strict, e, false)| + 1].FOREACH?;
    case SBreak => assert code[0].JMP?;
    case SContinue => assert code[0].JMP?;
    case SReturn(e) => assert code[|CodeE(strict, e, !ref)|].RETURN?;
    case SReturnNil => assert code[0].NIL?;
    case _ =>
  }

  lemma LoopLast(strict: nat, c: OptExpr, inc: OptExpr, body: Code)
    ensures var code := LoopCode(strict, c, inc, body); |code| > 0 && Last(code).JMP?
  {
    hide CodeTest, CodeInc;
  }

  // ----- jumps of the text -----

  predicate Forward(code: Code) { forall i :: 0 <= i < |code| && code[i].JMP? ==> code[i].off > 0 }

  lemma ForwardBoth(a: Code, b: Code)
    requires Forward(a) && Forward(b)
    ensures Forward(a + b)
  {
  }

  /** The jumps inside an expression lead over an operand. */
  lemma {:induction false} ForwardE(strict: nat, e: Expr, valueOnly: bool)
    ensures Forward(CodeE(strict, e, valueOnly))
    decreases e, 1
  {
    hide CodeArgs, CodeBefore, CodeCall, CodeMethod;
    match e
    case EUnary(_, _) => ForwardUnary(strict, e, valueOnly);
    case EBinary(op, l, r) =>
      ForwardE(strict, l, !Modifies(op));
      ForwardE(strict, r, true);
    case ELogic(_, _, _) => ForwardLogic(strict, e, valueOnly);
    case ENilAssign(l, r) =>
      ForwardE(strict, l, false);
      ForwardE(strict, r, false);
    case ECall(callee, args) =>
      ForwardArgs(strict, args);
      CallNoJumps(callee, Unknown, Count(args));
    case EMethod(how, target, args) =>
      ForwardE(strict, target, false);
      ForwardArgs(strict, args);
      CallNoJumps(NewArray, how, Count(args));
    case _ =>
  }

  lemma ForwardUnary(strict: nat, e: Expr, valueOnly: bool)
    requires e.EUnary?
    ensures Forward(CodeE(strict, e, valueOnly))
    decreases e, 0
  {
    ForwardE(strict, e.arg, valueOnly);
    ForwardE(strict, e.arg, false);
    ForwardE(strict, e.arg, !KeepsRef(e.uop));
  }

  lemma ForwardLogic(strict: nat, e: Expr, valueOnly: bool)
    requires e.ELogic?
    ensures Forward(CodeE(strict, e, valueOnly))
    decreases e, 0
  {
    ForwardE(strict, e.left, true);
    ForwardE(strict, e.right, valueOnly);
    ForwardE(strict, e.right, true);
  }

  lemma {:induction false} ForwardArgs(strict: nat, a: Args)
    ensures Forward(CodeArgs(strict, a))
    decreases a
  {
    hide CodeE;
    if a.Arg? {
      ForwardE(strict, a.e, !a.keepRef);
      ForwardArgs(strict, a.rest);
    }
  }

  lemma {:induction false} ForwardSimple(strict: nat, s: Stmt, ref: bool)
    requires Simple(s)
    ensures Forward(CodeS(strict, s, ref, Pending))
    decreases s
  {
    hide CodeE;
    match s
    case SExpr(e, valueOnly) => ForwardE(strict, e, valueOnly);
    case SVar(_, e) => ForwardE(strict, e, true);
    case SSeq(a, b) =>
      ForwardSimple(strict, a, ref);
      ForwardSimple(strict, b, ref);
    case _ =>
  }

  /** Jump `i` leads back to its own place, or over stack chunks only. */
  ghost predicate Spot(code: Code, i: nat) {
    i < |code| && code[i].JMP? && 0 <= i + code[i].off <= i && AllStack(code[i + code[i].off..i])
  }

  ghost predicate Spotless(code: Code, from: nat) { forall i: nat :: from <= i < |code| ==> !Spot(code, i) }

  lemma SpotlessThen(a: Code, b: Code, from: nat)
    requires Spotless(a, from) && Spotless(a + b, |a|)
    ensures Spotless(a + b, from)
  {
    hide AllStack;
    forall i: nat | from <= i < |a + b| ensures !Spot(a + b, i) {
      if i < |a| && a[i].JMP? && 0 <= i + a[i].off <= i {
        assert (a + b)[i + a[i].off..i] == a[i + a[i].off..i];
        assert !Spot(a, i);
      }
    }
  }

  lemma ForwardSpotless(pre: Code, x: Code)
    requires Forward(x)
    ensures Spotless(pre + x, |pre|)
  {
    hide AllStack;
  }

  /** A jump back, over something. */
  lemma BackSpotless(pre: Code, off: int)
    requires 0 <= |pre| + off <= |pre| && !AllStack(pre[|pre| + off..])
    ensures Spotless(pre + [JMP(Always, off)], |pre|)
  {
    hide AllStack;
    assert (pre + [JMP(Always, off)])[|pre| + off..|pre|] == pre[|pre| + off..];
  }

  lemma SpotlessSame(code: Code, a: Code, from: nat)
    requires code == a && Spotless(a, from)
    ensures Spotless(code, from)
  {
  }

  /** A text that is nowhere stuck asks for no such jump. `pre` stands before it; `break` and `continue`
      lead to `brk` and `cont`. */
  lemma {:induction false} NoSpots(strict: nat, s: Stmt, ref: bool, pre: Code, brk: int, cont: nat)
    requires !Stuck(strict, s) && LoopsOnly(s, true)
    requires cont <= |pre| && brk >= |pre| + |CodeS(strict, s, ref, Pending)|
    requires AllStack(pre[cont..]) ==> !First(strict, s)
    ensures Spotless(pre + CodeS(strict, s, ref, To(brk - |pre|, cont - |pre|)), |pre|)
    decreases s, 2
  {
    hide CodeE, CodeS, Spotless, IfCode, IfElseCode, LoopCode, CodeBody, AllStack;
    var to := To(brk - |pre|, cont - |pre|);
    match s
    case SSeq(_, _) => SeqSpots(strict, s, ref, pre, brk, cont);
    case SIf(_, _) => IfSpots(strict, s, ref, pre, brk, cont);
    case SIfElse(_, _, _) => ElseSpots(strict, s, ref, pre, brk, cont);
    case SWhile(c, body) =>
      OpenLoops(strict, s, ref, to);
      BodySpots(strict, s, ref, pre, Some(c), NoExpr, body);
    case SFor(start, c, inc, body) =>
      OpenLoops(strict, s, ref, to);
      var first := CodeS(strict, start, ref, Pending);
      var loop := LoopCode(strict, c, inc, CodeBody(strict, c, inc, body, ref));
      ForwardSimple(strict, start, ref);
      ForwardSpotless(pre, first);
      BodySpots(strict, s, ref, pre + first, c, inc, body);
      SpotlessThen(pre + first, loop, |pre|);
      assert pre + first + loop == pre + (first + loop);
    case SForEach(v, e, body) =>
      OpenLoops(strict, s, ref, to);
      EachSpots(strict, s, ref, pre);
    case SContinue =>
      JumpCode(strict, s, ref, to);
      BackSpotless(pre, cont - |pre|);
    case SBreak =>
      JumpCode(strict, s, ref, to);
      JumpCode(strict, s, ref, Pending);
      ForwardOne(Always, brk - |pre|);
      ForwardSpotless(pre, [JMP(Always, brk - |pre|)]);
    case _ =>
      ForwardLeaf(strict, s, ref, to);
      ForwardSpotless(pre, CodeS(strict, s, ref, to));
  }

  lemma ForwardOne(kind: JumpKind, off: int)
    requires off > 0
    ensures Forward([JMP(kind, off)])
  {
  }

  lemma ForwardLeaf(strict: nat, s: Stmt, ref: bool, ctl: Ctl)
    requires s.SEmpty? || s.SExpr? || s.SVar? || s.SReturn? || s.SReturnNil?
    ensures Forward(CodeS(strict, s, ref, ctl))
  {
    hide CodeE;
    match s
    case SExpr(e, valueOnly) => ForwardE(strict, e, valueOnly);
    case SVar(_, e) => ForwardE(strict, e, true);
    case SReturn(e) => ForwardE(strict, e, !ref);
    case _ =>
  }

  lemma SeqSpots(strict: nat, s: Stmt, ref: bool, pre: Code, brk: int, cont: nat)
    requires s.SSeq? && !Stuck(strict, s) && LoopsOnly(s, true)
    requires cont <= |pre| && brk >= |pre| + |CodeS(strict, s, ref, Pending)|
    requires AllStack(pre[cont..]) ==> !First(strict, s)
    ensures Spotless(pre + CodeS(strict, s, ref, To(brk - |pre|, cont - |pre|)), |pre|)
    decreases s, 1
  {
    hide CodeE, CodeS, Spotless, AllStack;
    var to := To(brk - |pre|, cont - |pre|);
    OpenSeq(strict, s, ref, to);
    OpenSeq(strict, s, ref, Pending);
    var first := CodeS(strict, s.first, ref, to);
    SameLength(strict, s.first, ref, to, Pending);
    var second := CodeS(strict, s.second, ref, Later(to, |first|));
    NoSpots(strict, s.first, ref, pre, brk, cont);
    if AllStack((pre + first)[cont..]) {
      StackSplit(pre, first, cont);
      TextStack(strict, s.first, ref, to);
    }
    assert Later(to, |first|) == To(brk - |pre + first|, cont - |pre + first|);
    NoSpots(strict, s.second, ref, pre + first, brk, cont);
    SpotlessThen(pre + first, second, |pre|);
    assert pre + first + second == pre + (first + second);
  }

  lemma IfSpots(strict: nat, s: Stmt, ref: bool, pre: Code, brk: int, cont: nat)
    requires s.SIf? && !Stuck(strict, s) && LoopsOnly(s, true)
    requires cont <= |pre| && brk >= |pre| + |CodeS(strict, s, ref, Pending)|
    ensures Spotless(pre + CodeS(strict, s, ref, To(brk - |pre|, cont - |pre|)), |pre|)
    decreases s, 1
  {
    hide CodeE, CodeS, Spotless, AllStack, Forward;
    var to := To(brk - |pre|, cont - |pre|);
    OpenIf(strict, s, ref, to);
    OpenIf(strict, s, ref, Pending);
    var test := CodeE(strict, s.cond, true);
    var thn := CodeS(strict, s.thn, ref, Later(to, |test| + 1));
    SameLength(strict, s.thn, ref, Later(to, |test| + 1), Pending);
    BranchSpots(strict, s, ref, pre, test, JMP(Cond, |thn| + 1), s.thn, brk, cont) by {
      ForwardE(strict, s.cond, true);
    }
    assert pre + (test + [JMP(Cond, |thn| + 1)]) + thn == pre + IfCode(test, thn);
  }

  /** A branch behind a jump that leads over it. */
  lemma BranchSpots(strict: nat, s: Stmt, ref: bool, pre: Code, test: Code, j: Chunk, branch: Stmt, brk: int, cont: nat)
    requires branch < s && !Stuck(strict, branch) && LoopsOnly(branch, true) && Forward(test) && j.JMP? && j.off > 0
    requires var n := |pre| + |test| + 1; cont <= |pre| && brk >= n + |CodeS(strict, branch, ref, Pending)|
    ensures var head := test + [j];
            Spotless(pre + head + CodeS(strict, branch, ref, To(brk - |pre + head|, cont - |pre + head|)), |pre|)
    decreases s, 0
  {
    hide CodeE, CodeS, Spotless, AllStack, Forward;
    var head := test + [j];
    ForwardBoth(test, [j]) by { ForwardOne(j.jkind, j.off); }
    ForwardSpotless(pre, head);
    NoStack(pre + test, j, [], cont);
    assert pre + head == pre + test + [j] + [];
    NoSpots(strict, branch, ref, pre + head, brk, cont);
    SpotlessThen(pre + head, CodeS(strict, branch, ref, To(brk - |pre + head|, cont - |pre + head|)), |pre|);
  }

  lemma ElseSpots(strict: nat, s: Stmt, ref: bool, pre: Code, brk: int, cont: nat)
    requires s.SIfElse? && !Stuck(strict, s) && LoopsOnly(s, true)
    requires cont <= |pre| && brk >= |pre| + |CodeS(strict, s, ref, Pending)|
    ensures Spotless(pre + CodeS(strict, s, ref, To(brk - |pre|, cont - |pre|)), |pre|)
    decreases s, 1
  {
    hide CodeE, CodeS, Spotless, AllStack, Forward;
    var to := To(brk - |pre|, cont - |pre|);
    OpenIfElse(strict, s, ref, to);
    OpenIfElse(strict, s, ref, Pending);
    var test := CodeE(strict, s.cond, true);
    var thn := CodeS(strict, s.thn, ref, Later(to, |test| + 1));
    SameLength(strict, s.thn, ref, Later(to, |test| + 1), Pending);
    var els := CodeS(strict, s.els, ref, Later(to, |test| + |thn| + 2));
    SameLength(strict, s.els, ref, Later(to, |test| + |thn| + 2), Pending);
    BranchSpots(strict, s, ref, pre, test, JMP(Cond, |thn| + 2), s.thn, brk, cont) by {
      ForwardE(strict, s.cond, true);
    }
    var front := pre + (test + [JMP(Cond, |thn| + 2)]) + thn;
    BranchSpots(strict, s, ref, front, [], JMP(Always, |els| + 1), s.els, brk, cont) by { ForwardNone(); }
    assert Later(to, |test| + |thn| + 2)
        == To(brk - |front + ([] + [JMP(Always, |els| + 1)])|, cont - |front + ([] + [JMP(Always, |els| + 1)])|);
    var back := [] + [JMP(Always, |els| + 1)] + els;
    assert front + ([] + [JMP(Always, |els| + 1)]) + els == front + back;
    SpotlessThen(front, back, |pre|);
    assert front + back == pre + IfElseCode(test, thn, els);
  }

  lemma ForwardNone()
    ensures Forward([])
  {
  }

  /** A loop: its condition, increment and body, and the jump back. */
  lemma BodySpots(strict: nat, s: Stmt, ref: bool, pre: Code, c: OptExpr, inc: OptExpr, body: Stmt)
    requires body < s && !Stuck(strict, body) && LoopsOnly(body, true)
    requires Bare(strict, c, inc) ==> !Nothing(strict, body) && !First(strict, body)
    ensures Spotless(pre + LoopCode(strict, c, inc, CodeBody(strict, c, inc, body, ref)), |pre|)
    decreases s, 0
  {
    hide CodeE, CodeS, Spotless, AllStack, Forward, CodeTest, CodeInc, Bare;
    var len := |CodeS(strict, body, ref, Pending)|;
    var ctl := BodyCtl(strict, c, inc, len);
    var b := CodeBody(strict, c, inc, body, ref);
    SameLength(strict, body, ref, Pending, ctl);
    var step := CodeInc(strict, inc, TestLen(strict, c));
    var head := CodeTest(strict, c, |step| + |b| + 1) + step;
    TestLength(strict, c, |step| + |b| + 1);
    var round := |pre| + RoundEnd(strict, c, inc);
    var back := [JMP(Always, RoundEnd(strict, c, inc) - BodyStart(strict, c, inc) - |b|)];
    HeadSpots(strict, c, inc, pre, |b|);
    RoundInside(strict, c, inc);
    if AllStack((pre + head)[round..]) { BareHead(strict, c, inc, pre, |b|); }
    assert ctl == To(|pre + head| + len + 1 - |pre + head|, round - |pre + head|);
    NoSpots(strict, body, ref, pre + head, |pre + head| + len + 1, round);
    SpotlessThen(pre + head, b, |pre|);
    if AllStack((pre + head + b)[round..]) {
      StackSplit(pre + head, b, round);
      BareHead(strict, c, inc, pre, |b|);
      TextStack(strict, body, ref, ctl);
    }
    BackSpotless(pre + head + b, round - |pre + head + b|);
    SpotlessThen(pre + head + b, back, |pre|);
    assert pre + head + b + back == pre + LoopCode(strict, c, inc, b);
  }

  lemma RoundInside(strict: nat, c: OptExpr, inc: OptExpr)
    ensures RoundEnd(strict, c, inc) <= BodyStart(strict, c, inc)
  {
    hide CodeE;
  }

  lemma TestLength(strict: nat, c: OptExpr, rest: nat)
    ensures |CodeTest(strict, c, rest)| == TestLen(strict, c)
    ensures c.Some? <==> TestLen(strict, c) > 0
    ensures c.Some? ==> Last(CodeTest(strict, c, rest)) == JMP(Cond, rest + 1)
  {
    hide CodeE;
  }

  /** The condition and the increment. */
  lemma HeadSpots(strict: nat, c: OptExpr, inc: OptExpr, pre: Code, b: nat)
    ensures var step := CodeInc(strict, inc, TestLen(strict, c));
            Spotless(pre + (CodeTest(strict, c, |step| + b + 1) + step), |pre|)
  {
    hide CodeE, Spotless, AllStack, Forward, CodeTest;
    var n := TestLen(strict, c);
    var step := CodeInc(strict, inc, n);
    var test := CodeTest(strict, c, |step| + b + 1);
    TestLength(strict, c, |step| + b + 1);
    ForwardTest(strict, c, |step| + b + 1);
    ForwardSpotless(pre, test);
    match inc
    case NoExpr =>
      assert pre + (test + []) == pre + test;
    case Some(e) =>
      var x := CodeE(strict, e, true) + [STACK(-1)];
      var over := [JMP(Always, if n == 0 then |x| + 1 else |x| + 2)];
      ForwardStep(strict, e, if n == 0 then |x| + 1 else |x| + 2);
      ForwardSpotless(pre + test, over + x);
      SpotlessThen(pre + test, over + x, |pre|);
      if n == 0 {
        assert pre + (test + step) == pre + test + (over + x);
      } else {
        var front, back: Code := pre + test + (over + x), [JMP(Always, -(n + |x| + 1))];
        TestBetween(pre, test, over + x);
        BackSpotless(front, -(n + |x| + 1));
        SpotlessThen(front, back, |pre|);
        assert step == over + x + back;
        assert pre + (test + (over + x + back)) == front + back;
      }
  }

  /** A condition ends with a jump. */
  lemma TestBetween(pre: Code, test: Code, rest: Code)
    requires |test| > 0 && Last(test).JMP?
    ensures !AllStack((pre + test + rest)[|pre|..])
  {
    var n := |test| - 1;
    assert (pre + test + rest)[|pre|..][n] == Last(test);
  }

  lemma ForwardTest(strict: nat, c: OptExpr, rest: nat)
    ensures Forward(CodeTest(strict, c, rest))
  {
    hide CodeE;
    if c.Some? { ForwardE(strict, c.e, true); }
  }

  lemma ForwardStep(strict: nat, e: Expr, off: int)
    requires off > 0
    ensures Forward([JMP(Always, off)] + (CodeE(strict, e, true) + [STACK(-1)]))
  {
    hide CodeE;
    ForwardE(strict, e, true);
  }

  /** Where nothing but stack chunks stands between the end of a round and the body. */
  lemma BareHead(strict: nat, c: OptExpr, inc: OptExpr, pre: Code, b: nat)
    requires RoundEnd(strict, c, inc) <= BodyStart(strict, c, inc)
    requires var step := CodeInc(strict, inc, TestLen(strict, c));
             var head := CodeTest(strict, c, |step| + b + 1) + step;
             |pre| + RoundEnd(strict, c, inc) <= |pre + head|
             && AllStack((pre + head)[|pre| + RoundEnd(strict, c, inc)..])
    ensures Bare(strict, c, inc)
  {
    hide CodeE, AllStack, CodeTest, OnlyNulls;
    var n := TestLen(strict, c);
    var step := CodeInc(strict, inc, n);
    var test := CodeTest(strict, c, |step| + b + 1);
    TestLength(strict, c, |step| + b + 1);
    if inc.Some? {
      var x := CodeE(strict, inc.e, true) + [STACK(-1)];
      var rest := (pre + (test + step))[|pre| + n + 1..];
      if n == 0 {
        assert rest == x;
      } else {
        assert rest == x + [JMP(Always, -(n + |x| + 1))];
        AllParts(x, [JMP(Always, -(n + |x| + 1))]);
        OneStack(JMP(Always, -(n + |x| + 1)));
      }
      AllParts(CodeE(strict, inc.e, true), [STACK(-1)]);
      ExprStack(strict, inc.e, true);
    } else if n > 0 {
      assert test == test[..n - 1] + [Last(test)];
      assert (pre + (test + step))[|pre|..] == (test[..n - 1] + [Last(test)] + [])[0..];
      NoStack(test[..n - 1], Last(test), [], 0);
    }
  }

  lemma EachSpots(strict: nat, s: Stmt, ref: bool, pre: Code)
    requires s.SForEach? && !Stuck(strict, s.body) && LoopsOnly(s.body, true)
    ensures var b := CodeS(strict, s.body, ref, To(|CodeS(strict, s.body, ref, Pending)| + 1, -2));
            Spotless(pre + (CodeE(strict, s.e, false) + [ConstCode(strict, CInt(0))]
                            + [FOREACH(s.v), JMP(Always, |b| + 2)] + b + [JMP(Always, -(|b| + 2)), STACK(-2)]), |pre|)
    decreases s, 1
  {
    hide CodeE, CodeS, Spotless, AllStack, Forward;
    var len := |CodeS(strict, s.body, ref, Pending)|;
    var b := CodeS(strict, s.body, ref, To(len + 1, -2));
    SameLength(strict, s.body, ref, Pending, To(len + 1, -2));
    var front := CodeE(strict, s.e, false) + [ConstCode(strict, CInt(0))] + [FOREACH(s.v)];
    var head := front + [JMP(Always, |b| + 2)];
    ForwardEach(strict, s.e, s.v, |b| + 2);
    ForwardSpotless(pre, head);
    NoStack(pre + front, JMP(Always, |b| + 2), [], |pre + front| - 1);
    assert pre + head == pre + front + [JMP(Always, |b| + 2)] + [];
    assert To(len + 1, -2) == To(|pre + head| + len + 1 - |pre + head|, |pre + head| - 2 - |pre + head|);
    NoSpots(strict, s.body, ref, pre + head, |pre + head| + len + 1, |pre + head| - 2);
    SpotlessThen(pre + head, b, |pre|);
    NoStack(pre + front, JMP(Always, |b| + 2), b, |pre + front| - 1);
    assert pre + head + b == pre + front + [JMP(Always, |b| + 2)] + b;
    BackSpotless(pre + head + b, -(|b| + 2));
    var back := [JMP(Always, -(|b| + 2))];
    SpotlessThen(pre + head + b, back, |pre|);
    ForwardSpotless(pre + head + b + back, [STACK(-2)]) by { ForwardDrop(); }
    SpotlessThen(pre + head + b + back, [STACK(-2)], |pre|);
    assert pre + head + b + back + [STACK(-2)]
        == pre + (CodeE(strict, s.e, false) + [ConstCode(strict, CInt(0))] + [FOREACH(s.v), JMP(Always, |b| + 2)]
                  + b + [JMP(Always, -(|b| + 2)), STACK(-2)]);
  }

  lemma ForwardDrop()
    ensures Forward([STACK(-2)])
  {
  }

  lemma ForwardEach(strict: nat, e: Expr, v: nat, off: int)
    requires off > 0
    ensures Forward(CodeE(strict, e, false) + [ConstCode(strict, CInt(0))] + [FOREACH(v)] + [JMP(Always, off)])
  {
    hide CodeE;
    ForwardE(strict, e, false);
  }

  // ----- places of the text that leaves no chunk -----

  /** Since the jump target `mark`, at which the code was `base`, `h` nulls have been pushed, and nothing
      else; or a join has crossed a target. */
  ghost predicate On(base: Code, mark: nat, t: Trace, h: nat) {
    t.crossed
    || (&& |t.pos| == |t.plain| + 1 && mark <= |t.plain| && mark in t.marks && t.pos[mark] == |base|
        && (forall k :: mark <= k <= |t.plain| ==> t.pos[k] >= |base|)
        && (if h == 0 then t.code == base else !t.jump && t.code == base + [STACK(h)]))
  }

  lemma PutOn(strict: nat, base: Code, mark: nat, t: Trace, h: nat, x: Chunk)
    requires On(base, mark, t, h) && Converted(strict, x).STACK? && Converted(strict, x).n != 0
             && h + Converted(strict, x).n >= 0
    ensures On(base, mark, Put(strict, t, x), h + Converted(strict, x).n)
  {
    var c := Converted(strict, x);
    if !t.crossed {
      if h > 0 {
        assert t.code[..|t.code| - 1] == base;
        if h + c.n > 0 { assert t.code[|t.code| - 1 := STACK(h + c.n)] == base + [STACK(h + c.n)]; }
      } else if !t.jump && Joins(t.code, c) {
        if OpenRun(t) { StartBehind(t.plain, t.marks, mark, |t.plain| - 1); }
      }
    }
  }

  lemma StartBehind(plain: Code, marks: set<nat>, mark: nat, i: nat)
    requires mark in marks && mark <= i <= |plain|
    ensures mark <= Start(plain, marks, i)
  {
    assert Border(plain, marks, mark);
  }

  lemma NoRefOn(base: Code, mark: nat, t: Trace, h: nat)
    requires On(base, mark, t, h) && h > 0
    ensures On(base, mark, NoRef(t), h)
  {
    if !t.crossed { assert LastToValue(t.code) == t.code; }
  }

  lemma NoneOn(strict: nat, t: Trace)
    ensures PutAll(strict, t, []) == t
  {
  }

  lemma {:induction false} AllOn(strict: nat, base: Code, mark: nat, t: Trace, h: nat, xs: Code)
    requires On(base, mark, t, h) && Covered(xs, h)
    ensures h + FunctionEnd.Sum(xs) >= 0 && On(base, mark, PutAll(strict, t, xs), h + FunctionEnd.Sum(xs))
    decreases |xs|
  {
    hide Put, On;
    if |xs| > 0 {
      PutOn(strict, base, mark, t, h, xs[0]);
      AllOn(strict, base, mark, Put(strict, t, xs[0]), h + xs[0].n, xs[1..]);
    }
  }

  lemma {:induction false} NullsOn(strict: nat, base: Code, mark: nat, t: Trace, h: nat, e: Expr)
    requires On(base, mark, t, h) && OnlyNulls(strict, e)
    ensures On(base, mark, GenE(strict, t, e), h + 1)
    decreases e
  {
    hide Put, PutAll, GenArgs, On, Covered, FunctionEnd.Sum, CodeCall, CodeMethod;
    match e
    case EConst(c) => PutOn(strict, base, mark, t, h, RawConst(c));
    case EUnary(op, arg) => NullsOn(strict, base, mark, t, h, arg);
    case ECall(callee, args) =>
      var k, n := if callee.NoGlobal? then 1 else 0, Count(args);
      NobodyAbove(n, h);
      NoneOn(strict, t);
      if callee.NoGlobal? { AllOn(strict, base, mark, t, h, CodeBefore(callee)); }
      var t1 := PutAll(strict, t, CodeBefore(callee));
      ArgsOn(strict, base, mark, t1, h + k, args);
      AllOn(strict, base, mark, GenArgs(strict, t1, args), h + k + n, CodeCall(callee, n));
    case EMethod(how, target, args) =>
      var n := Count(args);
      NobodyAbove(n, h);
      NullsOn(strict, base, mark, t, h, target);
      ArgsOn(strict, base, mark, GenE(strict, t, target), h + 1, args);
      AllOn(strict, base, mark, GenArgs(strict, GenE(strict, t, target), args), h + 1 + n, CodeMethod(how, n));
  }

  lemma {:induction false} ArgsOn(strict: nat, base: Code, mark: nat, t: Trace, h: nat, a: Args)
    requires On(base, mark, t, h) && AllNulls(strict, a)
    ensures On(base, mark, GenArgs(strict, t, a), h + Count(a))
    decreases a
  {
    hide NoRef, On, GenE;
    match a
    case NoArgs =>
    case Arg(e, keepRef, rest) =>
      NullsOn(strict, base, mark, t, h, e);
      NoRefOn(base, mark, GenE(strict, t, e), h + 1);
      ArgsOn(strict, base, mark, NoRefIf(GenE(strict, t, e), !keepRef), h + 1, rest);
  }

  lemma ExprOn(strict: nat, base: Code, mark: nat, t: Trace, e: Expr, valueOnly: bool)
    requires On(base, mark, t, 0) && OnlyNulls(strict, e)
    ensures On(base, mark, Put(strict, NoRefIf(GenE(strict, t, e), valueOnly), STACK(-1)), 0)
  {
    hide On, GenE, NoRef, Put;
    NullsOn(strict, base, mark, t, 0, e);
    NoRefOn(base, mark, GenE(strict, t, e), 1);
    PutOn(strict, base, mark, NoRefIf(GenE(strict, t, e), valueOnly), 1, STACK(-1));
  }

  lemma {:induction false} StmtOn(strict: nat, ref: bool, base: Code, mark: nat, t: Trace, s: Stmt)
    requires On(base, mark, t, 0) && Nothing(strict, s)
    ensures On(base, mark, GenS(strict, ref, t, s).t, 0)
    decreases s
  {
    hide On, GenE, NoRef, Put;
    match s
    case SEmpty =>
    case SExpr(e, valueOnly) => ExprOn(strict, base, mark, t, e, valueOnly);
    case SSeq(a, b) =>
      StmtOn(strict, ref, base, mark, t, a);
      StmtOn(strict, ref, base, mark, GenS(strict, ref, t, a).t, b);
  }

  /** Which chunk of the text the first `continue` is. */
  function FirstPlace(strict: nat, ref: bool, s: Stmt): (r: nat)
    requires First(strict, s)
    ensures r < |CodeS(strict, s, ref, Pending)|
  {
    match s
    case SSeq(a, b) =>
      if First(strict, a) then FirstPlace(strict, ref, a)
      else |CodeS(strict, a, ref, Pending)| + FirstPlace(strict, ref, b)
    case SContinue => 0
  }

  lemma {:induction false} FirstJump(strict: nat, ref: bool, s: Stmt, ctl: Ctl)
    requires First(strict, s) && ctl.To?
    ensures var i := FirstPlace(strict, ref, s);
            i < |CodeS(strict, s, ref, ctl)| && CodeS(strict, s, ref, ctl)[i] == JMP(Always, ctl.cont - i)
    decreases s
  {
    hide CodeS;
    match s
    case SSeq(a, b) =>
      OpenSeq(strict, s, ref, ctl);
      SameLength(strict, a, ref, Pending, ctl);
      if First(strict, a) {
        FirstJump(strict, ref, a, ctl);
      } else {
        FirstJump(strict, ref, b, Later(ctl, |CodeS(strict, a, ref, ctl)|));
      }
    case SContinue => JumpCode(strict, s, ref, ctl);
  }

  /** Its place is where the body begins. */
  lemma {:induction false} FirstOn(strict: nat, ref: bool, base: Code, mark: nat, t: Trace, s: Stmt)
    requires On(base, mark, t, 0) && First(strict, s) && Moments.Ok(t)
    ensures var i, u := |t.plain| + FirstPlace(strict, ref, s), GenS(strict, ref, t, s).t;
            u.crossed || (i < |u.pos| && u.pos[i] == |base|)
    decreases s
  {
    hide On, Put, CodeS, Moments.Ok, GenS, AllAlike;
    match s
    case SSeq(a, b) =>
      var t1 := GenS(strict, ref, t, a).t;
      assert GenS(strict, ref, t, s).t == GenS(strict, ref, t1, b).t by { SeqTrace(strict, ref, t, s); }
      ReachS(strict, ref, t, a);
      ReachS(strict, ref, t1, b);
      if First(strict, a) {
        FirstOn(strict, ref, base, mark, t, a);
      } else {
        StmtOn(strict, ref, base, mark, t, a);
        FirstOn(strict, ref, base, mark, t1, b);
        StmtLength(strict, ref, t, a);
      }
    case SContinue =>
      ContinueOn(strict, base, mark, t);
      LeafTrace(strict, ref, t);
  }

  lemma SeqTrace(strict: nat, ref: bool, t: Trace, s: Stmt)
    requires s.SSeq?
    ensures GenS(strict, ref, t, s).t == GenS(strict, ref, GenS(strict, ref, t, s.first).t, s.second).t
  {
  }

  lemma LeafTrace(strict: nat, ref: bool, t: Trace)
    ensures GenS(strict, ref, t, SContinue).t == Put(strict, t, JMP(Always, 0))
  {
  }

  lemma ContinueOn(strict: nat, base: Code, mark: nat, t: Trace)
    requires On(base, mark, t, 0) && Moments.Ok(t)
    ensures var u := Put(strict, t, JMP(Always, 0));
            u.crossed || (|t.plain| < |u.pos| && u.pos[|t.plain|] == |base|)
  {
    hide Joined, ForEachJumps;
  }

  lemma StmtLength(strict: nat, ref: bool, t: Trace, s: Stmt)
    requires Moments.Ok(t)
    ensures |GenS(strict, ref, t, s).t.plain| == |t.plain| + |CodeS(strict, s, ref, Pending)|
  {
    hide GenS, CodeS, ControlsOf, Joined;
    GenSWrites(strict, ref, t, s);
  }

  // ----- where a text is stuck -----

  /** Chunk `i` of what was written for the statement leads back to chunk `w`, which has the same place
      in the code; and it is no open `break` or `continue`. */
  ghost predicate Still(strict: nat, ref: bool, t: Trace, s: Stmt, w: nat, i: nat) {
    var n, u, code := |t.plain|, GenS(strict, ref, t, s).t, CodeS(strict, s, ref, Pending);
    && n <= w <= i < n + |code| && code[i - n] == JMP(Always, w - i)
    && (forall c :: c in ControlsOf(strict, ref, s, n) ==> c.at != i)
    && (u.crossed || (i < |u.pos| && u.pos[w] == u.pos[i]))
  }

  /** So it is for a statement that contains `e`, of which `e` is written from `t1` on. */
  lemma FromInside(strict: nat, ref: bool, t: Trace, s: Stmt, t1: Trace, e: Stmt, w: nat, i: nat)
    requires Moments.Ok(t) && Still(strict, ref, t1, e, w, i)
    requires MomentS(strict, ref, t, s, GenS(strict, ref, t1, e).t)
    requires var n := |t.plain|;
             n <= |t1.plain| && i < n + |CodeS(strict, s, ref, Pending)|
             && CodeS(strict, s, ref, Pending)[i - n] == CodeS(strict, e, ref, Pending)[i - |t1.plain|]
             && forall c :: c in ControlsOf(strict, ref, s, n) ==> c.at != i
    ensures Still(strict, ref, t, s, w, i)
  {
    hide GenS, CodeS, ControlsOf, MomentS, Moments.Ok, AllAlike;
    BetweenS(strict, ref, t, s, GenS(strict, ref, t1, e).t);
  }

  /** Chunks apart from `break` and `continue` do not depend on where the loop around leads. */
  lemma {:induction false} SameBut(strict: nat, s: Stmt, ref: bool, ctl: Ctl, base: nat, j: nat)
    requires j < |CodeS(strict, s, ref, Pending)|
    requires forall c :: c in ControlsOf(strict, ref, s, base) ==> c.at != base + j
    ensures j < |CodeS(strict, s, ref, ctl)| && CodeS(strict, s, ref, ctl)[j] == CodeS(strict, s, ref, Pending)[j]
    decreases s
  {
    hide CodeE, CodeS, ControlsOf;
    SameLength(strict, s, ref, ctl, Pending);
    OpenControls(strict, ref, s, base);
    match s
    case SSeq(a, b) =>
      OpenSeq(strict, s, ref, ctl);
      OpenSeq(strict, s, ref, Pending);
      SameLength(strict, a, ref, ctl, Pending);
      var n := |CodeS(strict, a, ref, Pending)|;
      if j < n { SameBut(strict, a, ref, ctl, base, j); } else {
        SameBut(strict, b, ref, Later(ctl, n), base + n, j - n);
      }
    case SIf(c, t) =>
      OpenIf(strict, s, ref, ctl);
      OpenIf(strict, s, ref, Pending);
      var n := |CodeE(strict, c, true)| + 1;
      SameLength(strict, t, ref, Later(ctl, n), Pending);
      if j >= n { SameBut(strict, t, ref, Later(ctl, n), base + n, j - n); }
    case SIfElse(c, t, e) => SameButElse(strict, s, ref, ctl, base, j);
    case SBreak => assert Control(true, base) in ControlsOf(strict, ref, s, base); JumpCode(strict, s, ref, Pending);
    case SContinue =>
      assert Control(false, base) in ControlsOf(strict, ref, s, base);
      JumpCode(strict, s, ref, Pending);
    case _ => OpenOther(strict, s, ref, ctl, Pending);
  }

  lemma SameButElse(strict: nat, s: Stmt, ref: bool, ctl: Ctl, base: nat, j: nat)
    requires s.SIfElse? && j < |CodeS(strict, s, ref, Pending)|
    requires forall c :: c in ControlsOf(strict, ref, s, base) ==> c.at != base + j
    ensures j < |CodeS(strict, s, ref, ctl)| && CodeS(strict, s, ref, ctl)[j] == CodeS(strict, s, ref, Pending)[j]
    decreases s, 0
  {
    hide CodeE, CodeS, ControlsOf;
    SameLength(strict, s, ref, ctl, Pending);
    OpenControls(strict, ref, s, base);
    OpenIfElse(strict, s, ref, ctl);
    OpenIfElse(strict, s, ref, Pending);
    var n := |CodeE(strict, s.cond, true)| + 1;
    SameLength(strict, s.thn, ref, Later(ctl, n), Pending);
    var k := n + |CodeS(strict, s.thn, ref, Pending)| + 1;
    SameLength(strict, s.els, ref, Later(ctl, k), Pending);
    if n <= j < k - 1 {
      SameBut(strict, s.thn, ref, Later(ctl, n), base + n, j - n);
    } else if j >= k {
      SameBut(strict, s.els, ref, Later(ctl, k), base + k, j - k);
    }
  }

  lemma {:induction false} StuckStill(strict: nat, ref: bool, t: Trace, s: Stmt) returns (w: nat, i: nat)
    requires Moments.Ok(t) && Stuck(strict, s)
    ensures Still(strict, ref, t, s, w, i)
    decreases s, 1
  {
    hide GenS, CodeS, CodeE, ControlsOf, MomentS, Moments.Ok, Still, Put, NoRef, GenE, RedirectHere, Nothing, First;
    match s
    case SSeq(a, b) => w, i := StillSeq(strict, ref, t, s);
    case SIf(c, e) =>
      var t1 := CondTrace(strict, t, c);
      w, i := StuckStill(strict, ref, t1, e);
      StillIf(strict, ref, t, s, w, i);
    case SIfElse(c, a, e) => w, i := StillElse(strict, ref, t, s);
    case SWhile(c, body) =>
      ReachHere(t);
      var t1 := CondTrace(strict, Here(t), c);
      w, i := StuckStill(strict, ref, t1, body);
      StillWhile(strict, ref, t, s, w, i);
    case SFor(start, c, inc, body) => w, i := StillFor(strict, ref, t, s);
    case SForEach(v, e, body) =>
      var t1 := EachTrace(strict, t, e, v);
      w, i := StuckStill(strict, ref, t1, body);
      StillEach(strict, ref, t, s, w, i);
  }

  /** The body behind a condition begins. */
  lemma CondTrace(strict: nat, t: Trace, c: Expr) returns (t1: Trace)
    requires Moments.Ok(t)
    ensures t1 == Put(strict, NoRef(GenE(strict, t, c)), JMP(Cond, 0)) && Moments.Ok(t1)
    ensures |t1.plain| == |t.plain| + |CodeE(strict, c, true)| + 1
  {
    hide Put, NoRef, GenE, CodeE, Sound, Leads, Placed;
    t1 := Put(strict, NoRef(GenE(strict, t, c)), JMP(Cond, 0));
    BetweenCond(strict, t, c);
    SoundPlaced(t);
    GenCondWrites(strict, t, c);
  }

  lemma EachTrace(strict: nat, t: Trace, e: Expr, v: nat) returns (t1: Trace)
    requires Moments.Ok(t)
    ensures t1 == Put(strict, Put(strict, Put(strict, GenE(strict, t, e), INT(0)), FOREACH(v)), JMP(Always, 0))
    ensures Moments.Ok(t1) && |t1.plain| == |t.plain| + |CodeE(strict, e, false)| + 3
  {
    hide Put, GenE, CodeE, Sound, Placed, AllAlike, Aligned;
    var t0 := GenE(strict, t, e);
    var t2 := Put(strict, t0, INT(0));
    ReachE(strict, t, e);
    SoundPlaced(t);
    GenEWrites(strict, t, e);
    ReachPut(strict, t0, INT(0));
    ReachEach(strict, t2, v);
    SoundPlaced(t2);
    PutPlaced(strict, t2, FOREACH(v));
    PutPlaced(strict, Put(strict, t2, FOREACH(v)), JMP(Always, 0));
    t1 := Put(strict, Put(strict, t2, FOREACH(v)), JMP(Always, 0));
  }

  lemma StillParts(strict: nat, ref: bool, t: Trace, s: Stmt, w: nat, i: nat)
    requires Still(strict, ref, t, s, w, i)
    ensures var n, code := |t.plain|, CodeS(strict, s, ref, Pending);
            n <= w <= i < n + |code| && code[i - n] == JMP(Always, w - i)
            && forall c :: c in ControlsOf(strict, ref, s, n) ==> c.at != i
  {
    hide GenS, CodeS, ControlsOf;
  }

  lemma StillSeq(strict: nat, ref: bool, t: Trace, s: Stmt) returns (w: nat, i: nat)
    requires Moments.Ok(t) && s.SSeq? && Stuck(strict, s)
    ensures Still(strict, ref, t, s, w, i)
    decreases s, 0
  {
    hide GenS, CodeS, ControlsOf, Moments.Ok, Still, Leads;
    var n, k := |t.plain|, |CodeS(strict, s.first, ref, Pending)|;
    var t1 := GenS(strict, ref, t, s.first).t;
    OpenSeq(strict, s, ref, Pending);
    OpenControls(strict, ref, s, n);
    ControlsInside(strict, ref, s.first, n);
    ControlsInside(strict, ref, s.second, n + k);
    StmtLength(strict, ref, t, s.first);
    if Stuck(strict, s.first) {
      w, i := StuckStill(strict, ref, t, s.first);
      StillParts(strict, ref, t, s.first, w, i);
      FromInside(strict, ref, t, s, t, s.first, w, i);
    } else {
      ReachS(strict, ref, t, s.first);
      w, i := StuckStill(strict, ref, t1, s.second);
      StillParts(strict, ref, t1, s.second, w, i);
      FromInside(strict, ref, t, s, t1, s.second, w, i);
    }
  }

  lemma StillIf(strict: nat, ref: bool, t: Trace, s: Stmt, w: nat, i: nat)
    requires Moments.Ok(t) && s.SIf?
    requires Still(strict, ref, Put(strict, NoRef(GenE(strict, t, s.cond)), JMP(Cond, 0)), s.thn, w, i)
    ensures Still(strict, ref, t, s, w, i)
  {
    hide GenS, CodeS, CodeE, ControlsOf, Moments.Ok, Still, Put, NoRef, GenE;
    var t1 := CondTrace(strict, t, s.cond);
    OpenIf(strict, s, ref, Pending);
    OpenControls(strict, ref, s, |t.plain|);
    StillParts(strict, ref, t1, s.thn, w, i);
    FromInside(strict, ref, t, s, t1, s.thn, w, i);
  }

  lemma StillElse(strict: nat, ref: bool, t: Trace, s: Stmt) returns (w: nat, i: nat)
    requires Moments.Ok(t) && s.SIfElse? && Stuck(strict, s)
    ensures Still(strict, ref, t, s, w, i)
    decreases s, 0
  {
    hide GenS, CodeS, CodeE, ControlsOf, Moments.Ok, Still, Put, NoRef, GenE, RedirectHere;
    var n, k := |CodeE(strict, s.cond, true)| + 1, |CodeS(strict, s.thn, ref, Pending)|;
    var t1 := CondTrace(strict, t, s.cond);
    OpenIfElse(strict, s, ref, Pending);
    OpenControls(strict, ref, s, |t.plain|);
    ControlsInside(strict, ref, s.thn, |t.plain| + n);
    ControlsInside(strict, ref, s.els, |t.plain| + n + k + 1);
    if Stuck(strict, s.thn) {
      w, i := StuckStill(strict, ref, t1, s.thn);
      StillParts(strict, ref, t1, s.thn, w, i);
      FromInside(strict, ref, t, s, t1, s.thn, w, i);
    } else {
      var t2 := ElseTrace(strict, ref, t, s.cond, s.thn);
      w, i := StuckStill(strict, ref, t2, s.els);
      StillParts(strict, ref, t2, s.els, w, i);
      FromInside(strict, ref, t, s, t2, s.els, w, i);
    }
  }

  lemma ElseTrace(strict: nat, ref: bool, t: Trace, c: Expr, thn: Stmt) returns (t2: Trace)
    requires Moments.Ok(t)
    ensures var t0 := NoRef(GenE(strict, t, c));
            var w1 := GenS(strict, ref, Put(strict, t0, JMP(Cond, 0)), thn);
            t2 == RedirectHere(Put(strict, w1.t, JMP(Always, 0)), |t0.plain|)
    ensures Moments.Ok(t2)
    ensures |t2.plain| == |t.plain| + |CodeE(strict, c, true)| + |CodeS(strict, thn, ref, Pending)| + 2
  {
    hide GenS, CodeS, CodeE, Put, NoRef, GenE, RedirectHere, Leads, Moments.Ok;
    var t0 := NoRef(GenE(strict, t, c));
    var t1 := CondTrace(strict, t, c);
    BetweenCond(strict, t, c);
    StmtLength(strict, ref, t1, thn);
    BetweenOver(strict, ref, t1, |t0.plain|, SSeq(thn, thn), thn, t);
    ReachS(strict, ref, t1, thn);
    var t3 := GenS(strict, ref, t1, thn).t;
    ReachPut(strict, t3, JMP(Always, 0));
    var t4 := Put(strict, t3, JMP(Always, 0));
    ReachRedirectHere(t4, |t0.plain|);
    t2 := RedirectHere(t4, |t0.plain|);
  }

  /** Chunks of the body, in the loop. */
  lemma LoopAt(strict: nat, c: OptExpr, inc: OptExpr, body: Stmt, ref: bool, base: nat, j: nat)
    requires j < |CodeS(strict, body, ref, Pending)|
    requires forall c :: c in ControlsOf(strict, ref, body, base) ==> c.at != base + j
    ensures var loop := LoopCode(strict, c, inc, CodeBody(strict, c, inc, body, ref));
            BodyStart(strict, c, inc) + j < |loop|
            && loop[BodyStart(strict, c, inc) + j] == CodeS(strict, body, ref, Pending)[j]
  {
    hide CodeE, CodeS, ControlsOf, LoopCode, BodyStart, RoundEnd;
    SameBut(strict, body, ref, BodyCtl(strict, c, inc, |CodeS(strict, body, ref, Pending)|), base, j);
    LoopShape(strict, c, inc, CodeBody(strict, c, inc, body, ref));
  }

  /** The body in its loop, and the jump back behind it. */
  lemma LoopShape(strict: nat, c: OptExpr, inc: OptExpr, body: Code)
    ensures var loop, n := LoopCode(strict, c, inc, body), BodyStart(strict, c, inc);
            |loop| == n + |body| + 1 && loop[n + |body|] == JMP(Always, RoundEnd(strict, c, inc) - (n + |body|))
            && forall j :: 0 <= j < |body| ==> loop[n + j] == body[j]
  {
    hide CodeE, CodeTest, CodeInc, RoundEnd;
    TestLength(strict, c, |CodeInc(strict, inc, TestLen(strict, c))| + |body| + 1);
  }

  lemma StillWhile(strict: nat, ref: bool, t: Trace, s: Stmt, w: nat, i: nat)
    requires Moments.Ok(t) && s.SWhile?
    requires Still(strict, ref, Put(strict, NoRef(GenE(strict, Here(t), s.cond)), JMP(Cond, 0)), s.body, w, i)
    ensures Still(strict, ref, t, s, w, i)
  {
    hide GenS, CodeS, ControlsOf, Moments.Ok, Still, Put, NoRef, GenE, Here, LoopCode, CodeBody, CodeE, Leads;
    ReachHere(t);
    HereLength(t);
    var t1 := CondTrace(strict, Here(t), s.cond);
    OpenLoops(strict, s, ref, Pending);
    OpenControls(strict, ref, s, |t.plain|);
    StillParts(strict, ref, t1, s.body, w, i);
    WhileStart(strict, s.cond);
    LoopAt(strict, Some(s.cond), NoExpr, s.body, ref, |t1.plain|, i - |t1.plain|);
    FromInside(strict, ref, t, s, t1, s.body, w, i);
  }

  lemma HereLength(t: Trace)
    ensures Here(t).plain == t.plain
  {
  }

  lemma WhileStart(strict: nat, c: Expr)
    ensures BodyStart(strict, Some(c), NoExpr) == |CodeE(strict, c, true)| + 1
  {
    hide CodeE;
  }

  lemma StillEach(strict: nat, ref: bool, t: Trace, s: Stmt, w: nat, i: nat)
    requires Moments.Ok(t) && s.SForEach?
    requires var t2 := Put(strict, GenE(strict, t, s.e), INT(0));
             Still(strict, ref, Put(strict, Put(strict, t2, FOREACH(s.v)), JMP(Always, 0)), s.body, w, i)
    ensures Still(strict, ref, t, s, w, i)
  {
    hide GenS, CodeS, ControlsOf, Moments.Ok, Still, Put, NoRef, GenE, CodeE;
    var t1 := EachTrace(strict, t, s.e, s.v);
    OpenLoops(strict, s, ref, Pending);
    OpenControls(strict, ref, s, |t.plain|);
    StillParts(strict, ref, t1, s.body, w, i);
    var len := |CodeS(strict, s.body, ref, Pending)|;
    SameBut(strict, s.body, ref, To(len + 1, -2), |t1.plain|, i - |t1.plain|);
    SameLength(strict, s.body, ref, Pending, To(len + 1, -2));
    FromInside(strict, ref, t, s, t1, s.body, w, i);
  }

  /** The body of a `for` loop begins: at `back` the rounds end. */
  lemma ForTrace(strict: nat, ref: bool, t: Trace, s: Stmt) returns (t3: Trace, back: nat)
    requires Moments.Ok(t) && s.SFor?
    ensures var t0 := GenS(strict, ref, t, s.start).t;
            var t1 := GenTest(strict, t0, s.test);
            var t2 := GenInc(strict, t1, s.inc, s.test.Some?, |t0.plain|);
            t3 == (if s.inc.Some? then RedirectHere(Here(t2), |t1.plain|) else Here(t2))
            && back == (if s.inc.Some? then |t1.plain| + 1 else if s.test.Some? then |t0.plain| else |t2.plain|)
    ensures var n := |t.plain| + |CodeS(strict, s.start, ref, Pending)|;
            Moments.Ok(t3) && |t3.plain| == n + BodyStart(strict, s.test, s.inc)
            && back == n + RoundEnd(strict, s.test, s.inc)
    ensures Bare(strict, s.test, s.inc) ==> On(t3.code, back, t3, 0)
  {
    hide GenS, CodeS, CodeE, GenTest, GenInc, RedirectHere, Here, Moments.Ok, Leads, Bare, On, BodyStart, RoundEnd,
         TestLen, Landing;
    var t0 := GenS(strict, ref, t, s.start).t;
    var t1 := GenTest(strict, t0, s.test);
    var t2 := GenInc(strict, t1, s.inc, s.test.Some?, |t0.plain|);
    ReachS(strict, ref, t, s.start);
    StmtLength(strict, ref, t, s.start);
    var exits: seq<nat>;
    HeadReached(strict, t0, s.test, s.inc);
    t3, back, exits := ForHead(strict, t0, s.test, s.inc);
    HeadLength(strict, t0, s.test, s.inc);
    RoundStart(strict, s.test, s.inc);
    if Bare(strict, s.test, s.inc) {
      BareOn(strict, t0, s.test, s.inc);
      assert s.test.NoExpr? by { BareTest(strict, s.test, s.inc); }
    }
  }

  lemma HeadReached(strict: nat, t0: Trace, c: OptExpr, inc: OptExpr)
    requires Moments.Ok(t0)
    ensures Moments.Ok(GenInc(strict, GenTest(strict, t0, c), inc, c.Some?, |t0.plain|))
  {
    hide GenTest, GenInc, Leads, Moments.Ok, Landing;
    var t1 := GenTest(strict, t0, c);
    BetweenTest(strict, t0, c, t0);
    OkSound(t0);
    TestSafe(strict, t0, c);
    BetweenInc(strict, t1, inc, c.Some?, |t0.plain|, t0);
  }

  lemma BareTest(strict: nat, c: OptExpr, inc: OptExpr)
    requires Bare(strict, c, inc)
    ensures c.NoExpr?
  {
  }

  lemma RoundStart(strict: nat, c: OptExpr, inc: OptExpr)
    ensures inc.Some? ==> RoundEnd(strict, c, inc) == TestLen(strict, c) + 1
    ensures inc.NoExpr? ==> RoundEnd(strict, c, inc) == 0 && (c.NoExpr? ==> BodyStart(strict, c, inc) == 0)
  {
    hide CodeE;
  }

  lemma HeadLength(strict: nat, t0: Trace, c: OptExpr, inc: OptExpr)
    requires Moments.Ok(t0)
    ensures var t1 := GenTest(strict, t0, c);
            var t2 := GenInc(strict, t1, inc, c.Some?, |t0.plain|);
            var t3 := if inc.Some? then RedirectHere(Here(t2), |t1.plain|) else Here(t2);
            |t1.plain| == |t0.plain| + TestLen(strict, c) && |t2.plain| == |t0.plain| + BodyStart(strict, c, inc)
            && |t3.plain| == |t2.plain|
    ensures c.Some? <==> TestLen(strict, c) > 0
  {
    hide CodeE, GenTest, GenInc, RedirectHere, Here, Placed, CodeInc;
    SoundPlaced(t0);
    GenTestWrites(strict, t0, c);
    var t1 := GenTest(strict, t0, c);
    GenIncWrites(strict, t0, t1, WaitingTest(strict, c), inc, c.Some?);
    TestLength(strict, c, 0);
  }

  /** Between the end of a bare round and the body there is no chunk. */
  lemma BareOn(strict: nat, t0: Trace, c: OptExpr, inc: OptExpr)
    requires Moments.Ok(t0) && Bare(strict, c, inc)
    ensures var t1 := GenTest(strict, t0, c);
            var t2 := GenInc(strict, t1, inc, c.Some?, |t0.plain|);
            var t3 := if inc.Some? then RedirectHere(Here(t2), |t1.plain|) else Here(t2);
            On(t3.code, if inc.Some? then |t1.plain| + 1 else |t2.plain|, t3, 0)
  {
    hide GenE, NoRef, Put, OnlyNulls, Sound, Here, On, RedirectHere;
    match inc
    case NoExpr => HereOn(t0);
    case Some(e) =>
      var a := Put(strict, t0, JMP(Always, 0));
      ReachPut(strict, t0, JMP(Always, 0));
      HereOn(a);
      ExprOn(strict, a.code, |a.plain|, Here(a), e, true);
      var t2 := Put(strict, NoRef(GenE(strict, Here(a), e)), STACK(-1));
      LastOn(t2, a.code, |a.plain|, |t0.plain|);
  }

  lemma HereOn(t: Trace)
    requires Moments.Ok(t)
    ensures On(Here(t).code, |t.plain|, Here(t), 0) && Here(t).code == t.code
  {
    hide Joined;
  }

  lemma LastOn(t: Trace, base: Code, mark: nat, g: nat)
    requires On(base, mark, t, 0)
    ensures On(RedirectHere(Here(t), g).code, mark, RedirectHere(Here(t), g), 0)
  {
  }

  lemma StillFor(strict: nat, ref: bool, t: Trace, s: Stmt) returns (w: nat, i: nat)
    requires Moments.Ok(t) && s.SFor? && Stuck(strict, s)
    ensures Still(strict, ref, t, s, w, i)
    decreases s, 0
  {
    hide GenS, CodeS, ControlsOf, Moments.Ok, Still, GenTest, GenInc, RedirectHere, Here, LoopCode, CodeBody, CodeE,
         Leads,
         Nothing, First, Bare, On, MomentS, BodyStart, RoundEnd;
    var t3, back := ForTrace(strict, ref, t, s);
    BodyEnd(strict, ref, t, s, t3);
    OpenLoops(strict, s, ref, Pending);
    OpenControls(strict, ref, s, |t.plain|);
    var n := |t.plain| + |CodeS(strict, s.start, ref, Pending)|;
    if Stuck(strict, s.body) {
      w, i := StuckStill(strict, ref, t3, s.body);
      StillParts(strict, ref, t3, s.body, w, i);
      LoopAt(strict, s.test, s.inc, s.body, ref, |t3.plain|, i - |t3.plain|);
      FromInside(strict, ref, t, s, t3, s.body, w, i);
    } else {
      w := back;
      i := StillRound(strict, ref, t, s, t3, back);
    }
  }

  lemma StillRound(strict: nat, ref: bool, t: Trace, s: Stmt, t3: Trace, back: nat) returns (i: nat)
    requires Moments.Ok(t) && s.SFor? && (Nothing(strict, s.body) || First(strict, s.body))
    requires Moments.Ok(t3) && On(t3.code, back, t3, 0) && MomentS(strict, ref, t, s, GenS(strict, ref, t3, s.body).t)
    requires var n := |t.plain| + |CodeS(strict, s.start, ref, Pending)|;
             |t3.plain| == n + BodyStart(strict, s.test, s.inc) && back == n + RoundEnd(strict, s.test, s.inc)
    ensures Still(strict, ref, t, s, back, i)
  {
    hide GenS, CodeS, ControlsOf, Moments.Ok, Still, LoopCode, CodeBody, CodeE, Leads, Nothing, First, On, BodyStart,
         RoundEnd, FirstPlace, MomentS;
    i := |t3.plain| + if Nothing(strict, s.body) then |CodeS(strict, s.body, ref, Pending)|
                      else FirstPlace(strict, ref, s.body);
    OpenLoops(strict, s, ref, Pending);
    OpenControls(strict, ref, s, |t.plain|);
    RoundPlace(strict, ref, t3, s.body, back);
    RoundJump(strict, ref, s.test, s.inc, s.body);
    BetweenS(strict, ref, t, s, GenS(strict, ref, t3, s.body).t);
    PlacesKept(GenS(strict, ref, t3, s.body).t, GenS(strict, ref, t, s).t);
    RoundInside(strict, s.test, s.inc);
    StillIs(strict, ref, t, s, back, i);
  }

  lemma PlacesKept(u: Trace, v: Trace)
    requires Leads(u, v)
    ensures (u.crossed ==> v.crossed) && |u.pos| <= |v.pos| && forall k :: 0 <= k < |u.pos| ==> v.pos[k] == u.pos[k]
  {
    hide AllAlike;
  }

  lemma StillIs(strict: nat, ref: bool, t: Trace, s: Stmt, w: nat, i: nat)
    requires var n, u, code := |t.plain|, GenS(strict, ref, t, s).t, CodeS(strict, s, ref, Pending);
             && n <= w <= i < n + |code| && code[i - n] == JMP(Always, w - i)
             && ControlsOf(strict, ref, s, n) == []
             && (u.crossed || (i < |u.pos| && u.pos[w] == u.pos[i]))
    ensures Still(strict, ref, t, s, w, i)
  {
    hide GenS, CodeS, ControlsOf;
  }

  /** The end of the body is a moment of the loop. */
  lemma BodyEnd(strict: nat, ref: bool, t: Trace, s: Stmt, t3: Trace)
    requires s.SFor?
    requires var t0 := GenS(strict, ref, t, s.start).t;
             var t1 := GenTest(strict, t0, s.test);
             var t2 := GenInc(strict, t1, s.inc, s.test.Some?, |t0.plain|);
             t3 == (if s.inc.Some? then RedirectHere(Here(t2), |t1.plain|) else Here(t2))
    ensures MomentS(strict, ref, t, s, GenS(strict, ref, t3, s.body).t)
  {
    hide GenS, GenTest, GenInc, RedirectHere, Here;
    assert MomentS(strict, ref, t3, s.body, GenS(strict, ref, t3, s.body).t);
  }

  /** The jump back, or the first `continue`, has the place at which the round ends. */
  lemma RoundPlace(strict: nat, ref: bool, t3: Trace, body: Stmt, back: nat)
    requires Moments.Ok(t3) && On(t3.code, back, t3, 0) && (Nothing(strict, body) || First(strict, body))
    ensures var u := GenS(strict, ref, t3, body).t;
            var i := |t3.plain| + if Nothing(strict, body) then |CodeS(strict, body, ref, Pending)|
                                  else FirstPlace(strict, ref, body);
            u.crossed || (back < |u.pos| && i < |u.pos| && u.pos[back] == u.pos[i])
  {
    hide GenS, CodeS, Moments.Ok, Nothing, First, FirstPlace, AllAlike;
    var u := GenS(strict, ref, t3, body).t;
    ReachS(strict, ref, t3, body);
    StmtLength(strict, ref, t3, body);
    if Nothing(strict, body) {
      StmtOn(strict, ref, t3.code, back, t3, body);
      PlacedEnd(u);
    } else {
      FirstOn(strict, ref, t3.code, back, t3, body);
    }
  }

  /** Where it leads. */
  lemma RoundJump(strict: nat, ref: bool, c: OptExpr, inc: OptExpr, body: Stmt)
    ensures var loop := LoopCode(strict, c, inc, CodeBody(strict, c, inc, body, ref));
            var n, k := BodyStart(strict, c, inc), |CodeS(strict, body, ref, Pending)|;
            |loop| == n + k + 1 && loop[n + k] == JMP(Always, RoundEnd(strict, c, inc) - (n + k))
            && (First(strict, body) ==>
                  var j := FirstPlace(strict, ref, body);
                  j < k && loop[n + j] == JMP(Always, RoundEnd(strict, c, inc) - (n + j)))
  {
    hide CodeE, CodeS, LoopCode, First, FirstPlace, RoundEnd, BodyStart;
    var k := |CodeS(strict, body, ref, Pending)|;
    var ctl := BodyCtl(strict, c, inc, k);
    SameLength(strict, body, ref, Pending, ctl);
    LoopShape(strict, c, inc, CodeBody(strict, c, inc, body, ref));
    if First(strict, body) { FirstJump(strict, ref, body, ctl); }
  }

  // ----- the patch -----

  /** Jump `i` of the unfinished code leads where it will lead in the end. */
  predicate Led(u: Trace, t: Trace, i: nat) {
    i < |u.plain| && i < |t.plain| && u.plain[i].JMP? && u.plain[i] == t.plain[i]
  }

  /** The patch leaves such jumps as they are: it changes open jumps only. */
  ghost predicate PatchesOpen(u: Trace, t: Trace) {
    forall i: nat :: Led(u, t, i) && i < |u.pos| && 0 <= u.pos[i] < |u.code| ==>
      LeadOut(u.code)[u.pos[i]] == u.code[u.pos[i]]
  }

  lemma {:induction false} NoFirst(strict: nat, s: Stmt)
    requires LoopsOnly(s, false)
    ensures !First(strict, s)
    decreases s
  {
    if s.SSeq? {
      NoFirst(strict, s.first);
      NoFirst(strict, s.second);
    }
  }

  /** What a text asks for that is nowhere stuck. */
  lemma PlainSpotless(strict: nat, ref: bool, body: Stmt)
    requires LoopsOnly(body, false) && !Stuck(strict, body)
    ensures Spotless(GenS(strict, ref, EMPTY, body).t.plain, 0)
  {
    hide GenS, CodeS, Spotless, AllStack, ControlsOf, First, LoopsOnly, Joined;
    var code := CodeS(strict, body, ref, Pending);
    BodyPlain(strict, ref, body);
    Meaning.AnyLoop(body);
    NoFirst(strict, body);
    NoSpots(strict, body, ref, [], |code|, 0);
    StmtCorrect.SimpleIsPlain(strict, body, ref, Pending, To(|code|, 0));
    assert [] + code == code;
  }

  lemma BodyPlain(strict: nat, ref: bool, body: Stmt)
    ensures GenS(strict, ref, EMPTY, body).t.plain == CodeS(strict, body, ref, Pending)
  {
    hide GenS, CodeS, ControlsOf;
    EmptySound();
    GenSWrites(strict, ref, EMPTY, body);
    assert EMPTY.plain + CodeS(strict, body, ref, Pending) == CodeS(strict, body, ref, Pending);
  }

  /** A jump that holds 0 in joined code stands for a jump back over stack chunks. */
  lemma ZeroIsSpot(u: Trace, i: nat)
    requires Sound(u) && !u.crossed && i < |u.plain| && u.plain[i].JMP?
    requires 0 <= u.pos[i] < |u.code| && u.code[u.pos[i]].JMP? && u.code[u.pos[i]].off == 0
    ensures Spot(u.plain, i)
  {
    hide Start, SameRun;
    assert SameChunk(u.plain, u.marks, u.code, u.pos, i);
    var w := i + u.plain[i].off;
    forall j: nat | w <= j < i ensures u.plain[j].STACK? {
      if !u.plain[j].STACK? { BorderOrder(u.plain, u.marks, u.code, u.pos, w, j); }
    }
  }

  /** More chunks, and references that become values, change nothing. */
  lemma SpotStays(u: Trace, t: Trace, i: nat)
    requires AllAlike(u.plain, t.plain) && Led(u, t, i) && Spot(u.plain, i)
    ensures Spot(t.plain, i)
  {
    hide Delta;
    var w := i + u.plain[i].off;
    forall j | w <= j < i ensures t.plain[j].STACK? {
      assert Alike(u.plain[j], t.plain[j]);
      assert u.plain[w..i][j - w] == u.plain[j];
    }
  }

  /** Exactly when the patch changes open jumps only, at whatever moment of writing a function the
      parser stops with an error: when its text is nowhere stuck. */
  lemma LedOutExactly(strict: nat, ref: bool, body: Stmt)
    requires LoopsOnly(body, false) && !Crosses(strict, ref, body)
    ensures (forall u :: MomentS(strict, ref, EMPTY, body, u) ==> PatchesOpen(u, GenS(strict, ref, EMPTY, body).t))
            <==> !Stuck(strict, body)
  {
    hide GenS, MomentS, Crosses, PatchesOpen, LoopsOnly;
    var t := GenS(strict, ref, EMPTY, body).t;
    if Stuck(strict, body) {
      StuckPatched(strict, ref, body);
      LastMoment(strict, ref, body);
    } else {
      forall u | MomentS(strict, ref, EMPTY, body, u) ensures PatchesOpen(u, t) { FreePatched(strict, ref, body, u); }
    }
  }

  lemma LastMoment(strict: nat, ref: bool, body: Stmt)
    ensures MomentS(strict, ref, EMPTY, body, GenS(strict, ref, EMPTY, body).t)
  {
    hide GenS;
  }

  lemma FreePatched(strict: nat, ref: bool, body: Stmt, u: Trace)
    requires LoopsOnly(body, false) && !Crosses(strict, ref, body) && !Stuck(strict, body)
    requires MomentS(strict, ref, EMPTY, body, u)
    ensures PatchesOpen(u, GenS(strict, ref, EMPTY, body).t)
  {
    hide GenS, MomentS, LoopsOnly, Sound, AllAlike, Spot, LeadOut;
    var t := GenS(strict, ref, EMPTY, body).t;
    EmptyOk();
    BetweenS(strict, ref, EMPTY, body, u);
    BodyWritten(strict, ref, body);
    PlainSpotless(strict, ref, body);
    forall i: nat | Led(u, t, i) && i < |u.pos| && 0 <= u.pos[i] < |u.code|
      ensures LeadOut(u.code)[u.pos[i]] == u.code[u.pos[i]]
    {
      if LeadOut(u.code)[u.pos[i]] != u.code[u.pos[i]] {
        PatchedIsZero(u.code, u.pos[i]);
        ZeroIsSpot(u, i);
        SpotStays(u, t, i);
      }
    }
  }

  lemma PatchedIsZero(code: Code, q: nat)
    requires q < |code|
    ensures LeadOut(code)[q] != code[q] <==> code[q].JMP? && code[q].off == 0
  {
  }

  /** Where a text is stuck, even the patch of the whole text goes wrong. */
  lemma StuckPatched(strict: nat, ref: bool, body: Stmt)
    requires !Crosses(strict, ref, body) && Stuck(strict, body)
    ensures var t := GenS(strict, ref, EMPTY, body).t; !PatchesOpen(t, t)
  {
    hide GenS, CodeS, LeadOut, ControlsOf, Joined;
    var t := GenS(strict, ref, EMPTY, body).t;
    EmptyOk();
    BodyWritten(strict, ref, body);
    BodyPlain(strict, ref, body);
    var w, i := StuckStill(strict, ref, EMPTY, body);
    assert t.plain[i] == JMP(Always, w as int - i);
    assert SameChunk(t.plain, t.marks, t.code, t.pos, i) by { ChunkSame(t, i); }
    PatchedIsZero(t.code, t.pos[i]);
    assert Led(t, t, i);
  }

  lemma ChunkSame(t: Trace, i: nat)
    requires Sound(t) && !t.crossed && i < |t.plain| && !t.plain[i].STACK?
    ensures |t.pos| == |t.plain| + 1 && SameChunk(t.plain, t.marks, t.code, t.pos, i)
  {
  }
}
