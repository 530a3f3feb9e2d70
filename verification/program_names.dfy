/** A function whose text names only parameters and variables that it has, and gives script
    functions the ten parameters they take, is compiled to code that does. */
module ProgramNames {
  import opened Bytecode
  import Wrappers
  import opened Source
  import opened Compile
  import opened Peephole
  import opened Emitter
  import opened EmitterJoined
  import opened Compiled
  import CrossingText
  import Relocate
  import Machine
  import Programs

  // ----- what a text names -----

  /** `vars` variables, and what each function takes. */
  datatype Names = Names(vars: nat, takes: nat -> Wrappers.Option<nat>)

  predicate SlotNamed(ns: Names, kind: SlotKind, i: nat) {
    match kind
    case ParN => i < MAX_PAR
    case VarN => i < ns.vars
    case _ => true
  }

  predicate ExprNames(ns: Names, e: Expr)
    decreases e
  {
    match e
    case EConst(_) => true
    case ESlot(kind, i) => SlotNamed(ns, kind, i)
    case EUnary(_, arg) => ExprNames(ns, arg)
    case EBinary(_, l, r) => ExprNames(ns, l) && ExprNames(ns, r)
    case ELogic(_, l, r) => ExprNames(ns, l) && ExprNames(ns, r)
    case ENilAssign(l, r) => ExprNames(ns, l) && ExprNames(ns, r)
    case ECall(callee, args) =>
      (callee.Function? && ns.takes(callee.f).Some? ==> callee.pars == ns.takes(callee.f).value) && ArgsName(ns, args)
    case EMethod(_, target, args) => ExprNames(ns, target) && ArgsName(ns, args)
  }

  predicate ArgsName(ns: Names, a: Args)
    decreases a
  {
    match a
    case NoArgs => true
    case Arg(e, _, rest) => ExprNames(ns, e) && ArgsName(ns, rest)
  }

  predicate OptNames(ns: Names, e: OptExpr) { e.Some? ==> ExprNames(ns, e.e) }

  predicate StmtNames(ns: Names, s: Stmt) {
    match s
    case SExpr(e, _) => ExprNames(ns, e)
    case SVar(_, e) => ExprNames(ns, e)
    case SSeq(a, b) => StmtNames(ns, a) && StmtNames(ns, b)
    case SIf(c, t) => ExprNames(ns, c) && StmtNames(ns, t)
    case SIfElse(c, t, e) => ExprNames(ns, c) && StmtNames(ns, t) && StmtNames(ns, e)
    case SWhile(c, b) => ExprNames(ns, c) && StmtNames(ns, b)
    case SFor(a, c, i, b) => StmtNames(ns, a) && OptNames(ns, c) && OptNames(ns, i) && StmtNames(ns, b)
    case SForEach(_, e, b) => ExprNames(ns, e) && StmtNames(ns, b)
    case SReturn(e) => ExprNames(ns, e)
    case _ => true
  }

  // ----- what its code names -----

  predicate Named(ns: Names, x: Chunk) {
    Relocate.ChunkNames(x, Frame(0, MAX_PAR, false, 0, false), MAX_PAR + ns.vars, ns.takes)
  }

  predicate AllNamed(ns: Names, code: Code) { forall i :: 0 <= i < |code| ==> Named(ns, code[i]) }

  lemma {:induction false} ExprCode(ns: Names, strict: nat, e: Expr, valueOnly: bool)
    requires ExprNames(ns, e)
    ensures AllNamed(ns, CodeE(strict, e, valueOnly))
    decreases e, 1
  {
    hide CodeArgs, CodeBefore, CodeCall, CodeMethod;
    match e
    case EUnary(_, _) => UnaryCode(ns, strict, e, valueOnly);
    case EBinary(op, l, r) =>
      ExprCode(ns, strict, l, !Modifies(op));
      ExprCode(ns, strict, r, true);
    case ELogic(op, l, r) =>
      ExprCode(ns, strict, l, true);
      ExprCode(ns, strict, r, valueOnly);
      ExprCode(ns, strict, r, true);
    case ENilAssign(l, r) =>
      ExprCode(ns, strict, l, false);
      ExprCode(ns, strict, r, false);
    case ECall(callee, args) =>
      ArgsCode(ns, strict, args);
      CallCode(ns, callee, Unknown, Count(args));
    case EMethod(how, target, args) =>
      ExprCode(ns, strict, target, false);
      ArgsCode(ns, strict, args);
      CallCode(ns, NewArray, how, Count(args));
    case _ =>
  }

  lemma UnaryCode(ns: Names, strict: nat, e: Expr, valueOnly: bool)
    requires e.EUnary? && ExprNames(ns, e)
    ensures AllNamed(ns, CodeE(strict, e, valueOnly))
    decreases e, 0
  {
    ExprCode(ns, strict, e.arg, valueOnly);
    ExprCode(ns, strict, e.arg, false);
    ExprCode(ns, strict, e.arg, !KeepsRef(e.uop));
  }

  lemma CallCode(ns: Names, callee: Callee, how: Method, n: nat)
    requires callee.Function? && ns.takes(callee.f).Some? ==> callee.pars == ns.takes(callee.f).value
    ensures AllNamed(ns, CodeBefore(callee)) && AllNamed(ns, CodeCall(callee, n)) && AllNamed(ns, CodeMethod(how, n))
  {
  }

  lemma {:induction false} ArgsCode(ns: Names, strict: nat, a: Args)
    requires ArgsName(ns, a)
    ensures AllNamed(ns, CodeArgs(strict, a))
    decreases a
  {
    match a
    case NoArgs =>
    case Arg(e, keepRef, rest) =>
      ExprCode(ns, strict, e, !keepRef);
      ArgsCode(ns, strict, rest);
  }

  lemma {:induction false} StmtCode(ns: Names, strict: nat, s: Stmt, ref: bool, ctl: Ctl)
    requires StmtNames(ns, s)
    ensures AllNamed(ns, CodeS(strict, s, ref, ctl))
    decreases s, 2
  {
    hide CodeE, LoopCode, CodeBody, ExprNames, AllNamed, IfCode, IfElseCode;
    match s
    case SSeq(a, b) =>
      StmtCode(ns, strict, a, ref, ctl);
      StmtCode(ns, strict, b, ref, Later(ctl, |CodeS(strict, a, ref, ctl)|));
      NamedJoin(ns, CodeS(strict, a, ref, ctl), CodeS(strict, b, ref, Later(ctl, |CodeS(strict, a, ref, ctl)|)));
    case SIf(c, t) =>
      var l := Later(ctl, |CodeE(strict, c, true)| + 1);
      ExprCode(ns, strict, c, true);
      StmtCode(ns, strict, t, ref, l);
      NoneNamed(ns);
      IfNamed(ns, CodeE(strict, c, true), CodeS(strict, t, ref, l), []);
    case SIfElse(c, t, e) =>
      var n := |CodeE(strict, c, true)| + 1;
      var thn := CodeS(strict, t, ref, Later(ctl, n));
      ExprCode(ns, strict, c, true);
      StmtCode(ns, strict, t, ref, Later(ctl, n));
      StmtCode(ns, strict, e, ref, Later(ctl, n + |thn| + 1));
      IfNamed(ns, CodeE(strict, c, true), thn, CodeS(strict, e, ref, Later(ctl, n + |thn| + 1)));
    case SWhile(_, _) => LoopsCode(ns, strict, s, ref, ctl);
    case SFor(_, _, _, _) => LoopsCode(ns, strict, s, ref, ctl);
    case SForEach(_, _, _) => LoopsCode(ns, strict, s, ref, ctl);
    case _ => LeafCode(ns, strict, s, ref, ctl);
  }

  lemma LoopsCode(ns: Names, strict: nat, s: Stmt, ref: bool, ctl: Ctl)
    requires StmtNames(ns, s) && (s.SWhile? || s.SFor? || s.SForEach?)
    ensures AllNamed(ns, CodeS(strict, s, ref, ctl))
    decreases s, 1
  {
    hide CodeE, CodeS, LoopCode, CodeBody, ExprNames, AllNamed;
    match s
    case SWhile(c, body) =>
      OpenLoops(strict, s, ref, ctl);
      RoundsCode(ns, strict, s, OptExpr.Some(c), NoExpr, body, ref);
    case SFor(start, c, inc, body) =>
      OpenLoops(strict, s, ref, ctl);
      StmtCode(ns, strict, start, ref, Pending);
      RoundsCode(ns, strict, s, c, inc, body, ref);
      NamedJoin(ns, CodeS(strict, start, ref, Pending), LoopCode(strict, c, inc, CodeBody(strict, c, inc, body, ref)));
    case SForEach(v, e, body) =>
      OpenLoops(strict, s, ref, ctl);
      var to := To(|CodeS(strict, body, ref, Pending)| + 1, -2);
      ExprCode(ns, strict, e, false);
      StmtCode(ns, strict, body, ref, to);
      EachNamed(ns, strict, CodeE(strict, e, false), v, CodeS(strict, body, ref, to));
  }

  lemma LeafCode(ns: Names, strict: nat, s: Stmt, ref: bool, ctl: Ctl)
    requires StmtNames(ns, s) && !s.SSeq? && !s.SIf? && !s.SIfElse? && !s.SWhile? && !s.SFor? && !s.SForEach?
    ensures AllNamed(ns, CodeS(strict, s, ref, ctl))
  {
    hide CodeE, ExprNames;
    match s
    case SExpr(e, valueOnly) => ExprCode(ns, strict, e, valueOnly);
    case SVar(_, e) => ExprCode(ns, strict, e, true);
    case SReturn(e) => ExprCode(ns, strict, e, !ref);
    case _ =>
  }

  lemma NoneNamed(ns: Names)
    ensures AllNamed(ns, [])
  {
  }

  lemma NamedJoin(ns: Names, a: Code, b: Code)
    requires AllNamed(ns, a) && AllNamed(ns, b)
    ensures AllNamed(ns, a + b)
  {
    hide Named;
  }

  lemma IfNamed(ns: Names, test: Code, thn: Code, els: Code)
    requires AllNamed(ns, test) && AllNamed(ns, thn) && AllNamed(ns, els)
    ensures AllNamed(ns, IfCode(test, thn)) && AllNamed(ns, IfElseCode(test, thn, els))
  {
    hide AllNamed;
    JumpNamed(ns, Cond, |thn| + 1);
    JumpNamed(ns, Cond, |thn| + 2);
    JumpNamed(ns, Always, |els| + 1);
    NamedJoin(ns, test, [JMP(Cond, |thn| + 1)]);
    NamedJoin(ns, test + [JMP(Cond, |thn| + 1)], thn);
    NamedJoin(ns, test, [JMP(Cond, |thn| + 2)]);
    NamedJoin(ns, test + [JMP(Cond, |thn| + 2)], thn);
    NamedJoin(ns, test + [JMP(Cond, |thn| + 2)] + thn, [JMP(Always, |els| + 1)]);
    NamedJoin(ns, test + [JMP(Cond, |thn| + 2)] + thn + [JMP(Always, |els| + 1)], els);
  }

  lemma JumpNamed(ns: Names, kind: JumpKind, off: int)
    ensures AllNamed(ns, [JMP(kind, off)])
  {
  }

  lemma EachNamed(ns: Names, strict: nat, e: Code, v: nat, b: Code)
    requires AllNamed(ns, e) && AllNamed(ns, b)
    ensures AllNamed(ns, e + [ConstCode(strict, CInt(0))] + [FOREACH(v),
            JMP(Always, |b| + 2)] + b + [JMP(Always, -(|b| + 2)), STACK(-2)])
  {
    var zero: Code, head: Code, tail: Code :=
      [ConstCode(strict, CInt(0))], [FOREACH(v), JMP(Always, |b| + 2)], [JMP(Always, -(|b| + 2)), STACK(-2)];
    assert AllNamed(ns, zero) && AllNamed(ns, head) && AllNamed(ns, tail);
    hide AllNamed;
    NamedJoin(ns, e, zero);
    NamedJoin(ns, e + zero, head);
    NamedJoin(ns, e + zero + head, b);
    NamedJoin(ns, e + zero + head + b, tail);
  }

  lemma RoundsCode(ns: Names, strict: nat, s: Stmt, c: OptExpr, inc: OptExpr, body: Stmt, ref: bool)
    requires body < s && OptNames(ns, c) && OptNames(ns, inc) && StmtNames(ns, body)
    ensures AllNamed(ns, LoopCode(strict, c, inc, CodeBody(strict, c, inc, body, ref)))
    decreases s, 0
  {
    hide CodeE, CodeS, ExprNames, AllNamed, StmtNames, CodeTest, CodeInc;
    var b := CodeBody(strict, c, inc, body, ref);
    var step := CodeInc(strict, inc, TestLen(strict, c));
    var test, back := CodeTest(strict, c, |step| + |b| + 1), RoundEnd(strict, c, inc) - BodyStart(strict, c, inc) - |b|;
    TestNamed(ns, strict, c, |step| + |b| + 1);
    IncNamed(ns, strict, inc, TestLen(strict, c));
    StmtCode(ns, strict, body, ref, BodyCtl(strict, c, inc, |CodeS(strict, body, ref, Pending)|));
    JumpNamed(ns, Always, back);
    NamedJoin(ns, test, step);
    NamedJoin(ns, test + step, b);
    NamedJoin(ns, test + step + b, [JMP(Always, back)]);
  }

  lemma TestNamed(ns: Names, strict: nat, c: OptExpr, rest: nat)
    requires OptNames(ns, c)
    ensures AllNamed(ns, CodeTest(strict, c, rest))
  {
    hide CodeE;
    if c.Some? { ExprCode(ns, strict, c.e, true); }
  }

  lemma IncNamed(ns: Names, strict: nat, inc: OptExpr, test: nat)
    requires OptNames(ns, inc)
    ensures AllNamed(ns, CodeInc(strict, inc, test))
  {
    hide CodeE;
    if inc.Some? { ExprCode(ns, strict, inc.e, true); }
  }

  /** The finished code names what the text names. */
  lemma CodeNamesText(strict: nat, ref: bool, body: Stmt, ns: Names)
    requires StmtNames(ns, body) && !Crosses(strict, ref, body)
    ensures Relocate.CodeNames(GenFunction(strict, ref, body).code, Frame(0, MAX_PAR, false, strict, ref),
            MAX_PAR + ns.vars, ns.takes)
  {
    hide GenFunction, CodeS, StmtNames, Joined, Border;
    var t := GenFunction(strict, ref, body);
    FunctionWritten(strict, ref, body);
    StmtCode(ns, strict, body, ref, Pending);
    assert AllNamed(ns, t.plain);
    hide Crosses;
    forall q | 0 <= q < |t.code| ensures Named(ns, t.code[q]) {
      if !t.code[q].STACK? {
        FirstBorder(t);
        var j := AskedFor(t.plain, t.marks, t.code, t.pos, q, 0);
      }
    }
    NamedNames(strict, ref, t.code, ns);
  }

  lemma NamedNames(strict: nat, ref: bool, code: Code, ns: Names)
    requires AllNamed(ns, code)
    ensures Relocate.CodeNames(code, Frame(0, MAX_PAR, false, strict, ref), MAX_PAR + ns.vars, ns.takes)
  {
    forall q | 0 <= q < |code|
      ensures Relocate.ChunkNames(code[q], Frame(0, MAX_PAR, false, strict, ref), MAX_PAR + ns.vars, ns.takes)
    {
      assert Named(ns, code[q]);
    }
  }

  lemma FirstBorder(t: Trace)
    requires Sound(t) && !t.crossed
    ensures Border(t.plain, t.marks, 0) && Joined(t.plain, t.marks, t.code, t.pos) && t.pos[0] == 0
  {
  }

  /** So a function of a program can be told from its text. */
  lemma WrittenFromText(w: Machine.World, fn: Machine.Func, body: Stmt)
    requires fn.Script? && fn.code == GenFunction(fn.strict, fn.returnRef, body).code && !fn.returnRef
    requires LoopsOnly(body, false) && !CrossingText.CrossesS(fn.strict, body)
             && StmtNames(Names(fn.vars, Programs.Takes(w)), body)
    ensures Programs.Written(w, fn, body)
  {
    hide GenFunction, LoopsOnly, Crosses, StmtNames, CrossingText.CrossesS;
    CrossingText.CrossesFromText(fn.strict, fn.returnRef, body);
    CodeNamesText(fn.strict, fn.returnRef, body, Names(fn.vars, Programs.Takes(w)));
  }
}
