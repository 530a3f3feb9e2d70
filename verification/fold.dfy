/** A minus sign changes the number written last instead of computing. What that means for
    every expression, and when it is what was meant. */
module Folding {
  import opened Bytecode
  import opened Source
  import opened Compile
  import opened ExprCorrect

  /** Whether the last chunk is a number, told from the expression. */
  predicate EndsInNumber(strict: nat, e: Expr)
    decreases e
  {
    match e
    case EConst(c) => ConstCode(strict, c).INT?
    case EUnary(op, arg) => op == PrePlus && EndsInNumber(strict, arg)
    case ELogic(op, _, r) => ShortCircuit(op, strict) && EndsInNumber(strict, r)
    case _ => false
  }

  function NegateNumber(strict: nat, e: Expr): (r: Expr)
    requires EndsInNumber(strict, e)
    ensures EndsInNumber(strict, r)
    decreases e
  {
    match e
    case EConst(c) => EConst(CInt(-c.x))
    case EUnary(op, arg) => EUnary(op, NegateNumber(strict, arg))
    case ELogic(op, l, r) => ELogic(op, l, NegateNumber(strict, r))
  }

  /** The expression the compiler has in effect compiled. */
  function Fold(strict: nat, e: Expr): Expr
    decreases e
  {
    match e
    case EUnary(op, arg) =>
      var a := Fold(strict, arg);
      if op == PreNeg && EndsInNumber(strict, a) then NegateNumber(strict, a) else EUnary(op, a)
    case EBinary(op, l, r) => EBinary(op, Fold(strict, l), Fold(strict, r))
    case ELogic(op, l, r) => ELogic(op, Fold(strict, l), Fold(strict, r))
    case ENilAssign(l, r) => ENilAssign(Fold(strict, l), Fold(strict, r))
    case ECall(callee, args) => ECall(callee, FoldArgs(strict, args))
    case EMethod(how, t, args) => EMethod(how, Fold(strict, t), FoldArgs(strict, args))
    case _ => e
  }

  function FoldArgs(strict: nat, a: Args): (r: Args)
    ensures Count(r) == Count(a)
    decreases a
  {
    match a
    case NoArgs => NoArgs
    case Arg(e, keepRef, rest) => Arg(Fold(strict, e), keepRef, FoldArgs(strict, rest))
  }

  // ----- the code of an expression is the code of its folded form -----

  lemma CallEndsInNoNumber(strict: nat, e: Expr, valueOnly: bool)
    requires e.ECall? || e.EMethod?
    ensures !EndsInInt(CodeE(strict, e, valueOnly)) && !EndsInNumber(strict, e)
  {
    hide CodeArgs, Balance;
  }

  lemma {:induction false} EndsInNumberCode(strict: nat, e: Expr, valueOnly: bool)
    requires Unfolded(strict, e)
    ensures EndsInInt(CodeE(strict, e, valueOnly)) <==> EndsInNumber(strict, e)
    decreases e
  {
    hide CodeArgs, UnfoldedArgs, CodeBefore, CodeCall, CodeMethod;
    match e
    case ECall(callee, args) => CallEndsInNoNumber(strict, e, valueOnly);
    case EMethod(how, target, args) => CallEndsInNoNumber(strict, e, valueOnly);
    case EUnary(op, arg) => if op == PrePlus { EndsInNumberCode(strict, arg, valueOnly); }
    case ELogic(op, l, r) =>
      if ShortCircuit(op, strict) {
        EndsInNumberCode(strict, r, valueOnly);
        CodeENonEmpty(strict, r, valueOnly);
      }
    case _ =>
  }

  lemma {:induction false} NegateNumberCode(strict: nat, e: Expr, valueOnly: bool)
    requires Unfolded(strict, e) && EndsInNumber(strict, e)
    ensures Unfolded(strict, NegateNumber(strict, e))
    ensures EndsInInt(CodeE(strict, e, false))
    ensures CodeE(strict, NegateNumber(strict, e), valueOnly) == NegateLast(CodeE(strict, e, false))
    decreases e, 1
  {
    hide CodeArgs, UnfoldedArgs;
    match e
    case EConst(c) =>
    case EUnary(op, arg) => NegateNumberCode(strict, arg, valueOnly);
    case ELogic(_, _, _) => NegateLogicCode(strict, e, valueOnly);
  }

  lemma NegateLogicCode(strict: nat, e: Expr, valueOnly: bool)
    requires e.ELogic? && Unfolded(strict, e) && EndsInNumber(strict, e)
    ensures Unfolded(strict, NegateNumber(strict, e))
    ensures EndsInInt(CodeE(strict, e, false))
    ensures CodeE(strict, NegateNumber(strict, e), valueOnly) == NegateLast(CodeE(strict, e, false))
    decreases e, 0
  {
    hide CodeArgs, UnfoldedArgs;
    NegateNumberCode(strict, e.right, valueOnly);
    var first := CodeE(strict, e.left, true);
    var second := CodeE(strict, e.right, false);
    assert CodeE(strict, e, false) == first + [JMP(LogicJump(e.lop), |second| + 1)] + second;
    assert CodeE(strict, NegateNumber(strict, e), valueOnly) ==
      first + [JMP(LogicJump(e.lop), |second| + 1)] + NegateLast(second);
  }

  lemma {:induction false} FoldCode(strict: nat, e: Expr, valueOnly: bool)
    ensures Unfolded(strict, Fold(strict, e))
    ensures CodeE(strict, Fold(strict, e), valueOnly) == CodeE(strict, e, valueOnly)
    decreases e, 1
  {
    hide CodeArgs, UnfoldedArgs, FoldArgs;
    match e
    case EUnary(_, _) => FoldUnaryCode(strict, e, valueOnly);
    case EBinary(op, l, r) => FoldCode(strict, l, !Modifies(op)); FoldCode(strict, r, true);
    case ELogic(_, _, _) => FoldLogicCode(strict, e, valueOnly);
    case ENilAssign(l, r) => FoldCode(strict, l, false); FoldCode(strict, r, false);
    case ECall(_, args) => FoldArgsCode(strict, args);
    case EMethod(_, t, args) => FoldCode(strict, t, false); FoldArgsCode(strict, args);
    case _ =>
  }

  lemma FoldUnaryCode(strict: nat, e: Expr, valueOnly: bool)
    requires e.EUnary?
    ensures Unfolded(strict, Fold(strict, e))
    ensures CodeE(strict, Fold(strict, e), valueOnly) == CodeE(strict, e, valueOnly)
    decreases e, 0
  {
    hide CodeArgs, UnfoldedArgs, FoldArgs;
    var a := Fold(strict, e.arg);
    FoldCode(strict, e.arg, if e.uop == PrePlus then valueOnly else !KeepsRef(e.uop));
    if e.uop == PreNeg {
      FoldCode(strict, e.arg, false);
      EndsInNumberCode(strict, a, false);
      if EndsInNumber(strict, a) {
        NegateNumberCode(strict, a, valueOnly);
      }
    }
  }

  lemma FoldLogicCode(strict: nat, e: Expr, valueOnly: bool)
    requires e.ELogic?
    ensures Unfolded(strict, Fold(strict, e))
    ensures CodeE(strict, Fold(strict, e), valueOnly) == CodeE(strict, e, valueOnly)
    decreases e, 0
  {
    hide CodeArgs, UnfoldedArgs, FoldArgs;
    FoldCode(strict, e.left, true);
    FoldCode(strict, e.right, if ShortCircuit(e.lop, strict) then valueOnly else true);
  }

  lemma {:induction false} FoldArgsCode(strict: nat, a: Args)
    ensures UnfoldedArgs(strict, FoldArgs(strict, a))
    ensures CodeArgs(strict, FoldArgs(strict, a)) == CodeArgs(strict, a)
    decreases a
  {
    hide CodeE, Unfolded, Fold;
    match a
    case NoArgs =>
    case Arg(e, keepRef, rest) => FoldCode(strict, e, !keepRef); FoldArgsCode(strict, rest);
  }

  // ----- when folding keeps the meaning -----

  lemma NegWraps(x: int)
    ensures Wrap32(-Wrap32(x)) == Wrap32(-x)
  {
    var k := (x - Wrap32(x)) / 0x1_0000_0000;
    assert -Wrap32(x) == -x + k * 0x1_0000_0000;
  }

  /** How evaluating an operand that ends in a number can go: it throws, it is decided before
      the number is reached, or the number is its value. */
  datatype Way = Throws | Early(v: Value, m: Mem) | Reached

  function WayOf(env: Env, e: Expr, m: Mem): Way
    requires EndsInNumber(env.fr.strict, e)
    decreases e
  {
    match e
    case EConst(_) => Reached
    case EUnary(_, arg) => WayOf(env, arg, m)
    case ELogic(op, l, r) =>
      match Eval(env, l, true, m)
      case Fault(_, _) => Throws
      case Val(a, m1) => if Decided(op, m1, a) then Early(a, m1) else WayOf(env, r, m1)
  }

  /** The folded operand gives the negated value exactly when it is not decided early with a
      value that negation would have changed. */
  lemma {:induction false} FoldedMeaning(env: Env, e: Expr, valueOnly: bool, m: Mem)
    requires EndsInNumber(env.fr.strict, e)
    ensures Eval(env, NegateNumber(env.fr.strict, e), valueOnly, m) == Then1(env, Neg, Eval(env, e, true, m))
            <==> (WayOf(env, e, m).Early? ==>
                  ApplyUn(env, Neg, WayOf(env, e, m).v, WayOf(env, e, m).m)
                  == Ok(WayOf(env, e, m).v, WayOf(env, e, m).m))
    decreases e
  {
    hide EvalArgs;
    match e
    case EConst(c) => NegWraps(c.x);
    case EUnary(_, arg) => FoldedMeaning(env, arg, valueOnly, m);
    case ELogic(op, l, r) =>
      match Eval(env, l, true, m)
      case Fault(_, _) =>
      case Val(a, m1) => if !Decided(op, m1, a) { FoldedMeaning(env, r, valueOnly, m1); }
  }

  /** `-(a || 5)` where `a` is 3: 3 is what the code computes, -3 what was meant. */
  lemma FoldChangesMeaning(env: Env, m: Mem)
    requires env.fr.strict >= 2
    ensures var e := ELogic(LOr, EConst(CInt(3)), EConst(CInt(5)));
            Eval(env, EUnary(PreNeg, e), true, m) == Val(Int(-3), m)
            && Eval(env, Fold(env.fr.strict, EUnary(PreNeg, e)), true, m) == Val(Int(3), m)
  {
    hide EvalArgs;
    var three := EConst(CInt(3));
    var e := ELogic(LOr, three, EConst(CInt(5)));
    assert Eval(env, three, true, m) == Val(Int(3), m);
    assert Truthy(m, Int(3));
    assert Eval(env, e, true, m) == Val(Int(3), m);
    assert Fold(env.fr.strict, e) == e;
    assert NegateNumber(env.fr.strict, e) == ELogic(LOr, three, EConst(CInt(-5)));
  }

  /** Minus signs stand only before plain numbers where they fold. */
  predicate Clean(strict: nat, e: Expr)
    decreases e
  {
    match e
    case EUnary(op, arg) =>
      Clean(strict, arg) &&
      (op == PreNeg && EndsInNumber(strict, Fold(strict, arg)) ==> PlainNumber(Fold(strict, arg)))
    case EBinary(_, l, r) => Clean(strict, l) && Clean(strict, r)
    case ELogic(_, l, r) => Clean(strict, l) && Clean(strict, r)
    case ENilAssign(l, r) => Clean(strict, l) && Clean(strict, r)
    case ECall(_, args) => CleanArgs(strict, args)
    case EMethod(_, t, args) => Clean(strict, t) && CleanArgs(strict, args)
    case _ => true
  }

  predicate CleanArgs(strict: nat, a: Args)
    decreases a
  {
    match a
    case NoArgs => true
    case Arg(e, _, rest) => Clean(strict, e) && CleanArgs(strict, rest)
  }

  predicate PlainNumber(e: Expr) {
    match e
    case EConst(c) => c.CInt?
    case EUnary(op, arg) => op == PrePlus && PlainNumber(arg)
    case _ => false
  }

  lemma {:induction false} PlainNumberReached(env: Env, e: Expr, m: Mem)
    requires EndsInNumber(env.fr.strict, e) && PlainNumber(e)
    ensures WayOf(env, e, m) == Reached
    decreases e
  {
    if e.EUnary? { PlainNumberReached(env, e.arg, m); }
  }

  /** With minus signs only before plain numbers, folding changes no result. */
  lemma {:induction false} FoldKeepsMeaning(env: Env, e: Expr, valueOnly: bool, m: Mem)
    requires Clean(env.fr.strict, e)
    ensures Eval(env, Fold(env.fr.strict, e), valueOnly, m) == Eval(env, e, valueOnly, m)
    decreases e, 1
  {
    hide EvalArgs, FoldArgs, CleanArgs, ApplyUn, ApplyBin, Decided, IsNil, ReadSlot;
    var strict := env.fr.strict;
    match e
    case EUnary(_, _) => FoldUnaryKeepsMeaning(env, e, valueOnly, m);
    case EBinary(op, l, r) =>
      FoldKeepsMeaning(env, l, !Modifies(op), m);
      var a := Eval(env, l, !Modifies(op), m);
      if a.Val? { FoldKeepsMeaning(env, r, true, a.m); }
    case ELogic(op, l, r) =>
      FoldKeepsMeaning(env, l, true, m);
      var a := Eval(env, l, true, m);
      if a.Val? { FoldKeepsMeaning(env, r, true, a.m); FoldKeepsMeaning(env, r, valueOnly, a.m); }
    case ENilAssign(l, r) =>
      FoldKeepsMeaning(env, l, false, m);
      var a := Eval(env, l, false, m);
      if a.Val? { FoldKeepsMeaning(env, r, false, a.m); }
    case ECall(_, args) => FoldArgsKeepsMeaning(env, args, m);
    case EMethod(_, t, args) =>
      FoldKeepsMeaning(env, t, false, m);
      var a := Eval(env, t, false, m);
      if a.Val? { FoldArgsKeepsMeaning(env, args, a.m); }
    case _ =>
  }

  lemma FoldUnaryKeepsMeaning(env: Env, e: Expr, valueOnly: bool, m: Mem)
    requires e.EUnary? && Clean(env.fr.strict, e)
    ensures Eval(env, Fold(env.fr.strict, e), valueOnly, m) == Eval(env, e, valueOnly, m)
    decreases e, 0
  {
    hide EvalArgs, FoldArgs, CleanArgs, ApplyUn, ApplyBin, Decided, IsNil, ReadSlot;
    var a := Fold(env.fr.strict, e.arg);
    FoldKeepsMeaning(env, e.arg, if e.uop == PrePlus then valueOnly else !KeepsRef(e.uop), m);
    if e.uop == PreNeg && EndsInNumber(env.fr.strict, a) {
      PlainNumberReached(env, a, m);
      FoldedMeaning(env, a, valueOnly, m);
    }
  }

  lemma {:induction false} FoldArgsKeepsMeaning(env: Env, a: Args, m: Mem)
    requires CleanArgs(env.fr.strict, a)
    ensures EvalArgs(env, FoldArgs(env.fr.strict, a), m) == EvalArgs(env, a, m)
    decreases a
  {
    hide Eval, Fold, Clean;
    match a
    case NoArgs =>
    case Arg(e, keepRef, rest) =>
      FoldKeepsMeaning(env, e, !keepRef, m);
      var v := Eval(env, e, !keepRef, m);
      if v.Val? { FoldArgsKeepsMeaning(env, rest, v.m); }
  }
}
