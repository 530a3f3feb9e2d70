/** The chunks written for each expression and statement when stack chunks are never joined.
    Jumps are relative, so the code of a phrase does not depend on where it stands. */
module Compile {
  import opened Bytecode
  import opened Source

  // ----- expressions -----

  /** The literals 0 and false are written as "push one null" below strict 3. */
  function ConstCode(strict: nat, c: Const): Chunk {
    match c
    case CNil => NIL
    case CInt(x) => if x == 0 && strict < 3 then STACK(1) else INT(x)
    case CBool(b) => if !b && strict < 3 then STACK(1) else BOOL(b)
    case CString(s) => STRING(s)
    case CId(id) => C4ID(id)
  }

  function LogicJump(op: Logic): JumpKind {
    match op
    case LAnd => IfFalse
    case LOr => IfTrue
    case LNil => IfNotNil
  }

  /** Brings `have` parameters on the stack to the `want` the callee takes. */
  function Balance(have: nat, want: nat): Code {
    if have == want then [] else [STACK(want - have)]
  }

  /** The minus sign changes a number that was just written. */
  predicate EndsInInt(code: Code) { |code| > 0 && code[|code| - 1].INT? }

  function NegateLast(code: Code): Code
    requires EndsInInt(code)
  {
    code[|code| - 1 := INT(-code[|code| - 1].x)]
  }

  /** The place a call without a target leaves for its result. */
  function CodeBefore(callee: Callee): Code {
    if callee.Global? || callee.NoGlobal? then [STACK(1)] else []
  }

  function CodeCall(callee: Callee, have: nat): Code {
    match callee
    case Function(f, pars) => Balance(have, pars) + [FUNC(f, pars)]
    case Global(f) => Balance(have, MAX_PAR) + [CALL(CallGlobal, f)]
    case NoInherited => Balance(have, 0) + [STACK(1)]
    case NoGlobal => Balance(have, 0) + [STACK(-1), STACK(1)]
    case NewArray => [ARRAY(have)]
  }

  function CodeMethod(how: Method, have: nat): Code {
    match how
    case Named(failSafe, f) => Balance(have, MAX_PAR) + [CALL(MethodKind(failSafe), f)]
    case Unknown => Balance(have, 0) + [STACK(-1), STACK(1)]
  }

  function CodeE(strict: nat, e: Expr, valueOnly: bool): Code
    decreases e
  {
    match e
    case EConst(c) => [ConstCode(strict, c)]
    case ESlot(kind, i) => [SLOT(kind, i, !valueOnly)]
    case EUnary(op, arg) =>
      if op == PrePlus then CodeE(strict, arg, valueOnly)
      else if op == PreNeg && EndsInInt(CodeE(strict, arg, false)) then NegateLast(CodeE(strict, arg, false))
      else CodeE(strict, arg, !KeepsRef(op)) + [UN(UnaryChunk(op, valueOnly))]
    case EBinary(op, l, r) =>
      CodeE(strict, l, !Modifies(op)) + CodeE(strict, r, true) + [BIN(BinChunk(op, strict))]
    case ELogic(op, l, r) =>
      if ShortCircuit(op, strict) then
        var second := CodeE(strict, r, valueOnly);
        CodeE(strict, l, true) + [JMP(LogicJump(op), |second| + 1)] + second
      else CodeE(strict, l, true) + CodeE(strict, r, true) + [BIN(LogicChunk(op))]
    case ENilAssign(l, r) =>
      var second := CodeE(strict, r, false) + [BIN(Set)];
      CodeE(strict, l, false) + [JMP(IfSet, |second| + 1)] + second
    case ECall(callee, args) => CodeBefore(callee) + CodeArgs(strict, args) + CodeCall(callee, Count(args))
    case EMethod(how, target, args) =>
      CodeE(strict, target, false) + CodeArgs(strict, args) + CodeMethod(how, Count(args))
  }

  function CodeArgs(strict: nat, a: Args): Code
    decreases a
  {
    match a
    case NoArgs => []
    case Arg(e, keepRef, rest) => CodeE(strict, e, !keepRef) + CodeArgs(strict, rest)
  }

  // ----- statements -----

  /** Where `break` and `continue` jump, counted from the start of the phrase. While the
      loop's end is unknown their jumps hold 0. */
  datatype Ctl = Pending | To(brk: int, cont: int)

  function Later(ctl: Ctl, d: nat): Ctl {
    match ctl
    case Pending => Pending
    case To(b, c) => To(b - d, c - d)
  }

  function IfCode(test: Code, thn: Code): (r: Code)
    ensures |r| == |test| + 1 + |thn|
  {
    test + [JMP(Cond, |thn| + 1)] + thn
  }

  function IfElseCode(test: Code, thn: Code, els: Code): (r: Code)
    ensures |r| == |test| + 2 + |thn| + |els|
  {
    test + [JMP(Cond, |thn| + 2)] + thn + [JMP(Always, |els| + 1)] + els
  }

  function CodeS(strict: nat, s: Stmt, returnRef: bool, ctl: Ctl): Code
    decreases s, 0
  {
    match s
    case SEmpty => []
    case SExpr(e, valueOnly) => CodeE(strict, e, valueOnly) + [STACK(-1)]
    case SVar(v, init) => CodeE(strict, init, true) + [IVARN(v)]
    case SSeq(a, b) =>
      var first := CodeS(strict, a, returnRef, ctl);
      first + CodeS(strict, b, returnRef, Later(ctl, |first|))
    case SIf(c, t) =>
      var test := CodeE(strict, c, true);
      var thn := CodeS(strict, t, returnRef, Later(ctl, |test| + 1));
      IfCode(test, thn)
    case SIfElse(c, t, e) =>
      var test := CodeE(strict, c, true);
      var thn := CodeS(strict, t, returnRef, Later(ctl, |test| + 1));
      var els := CodeS(strict, e, returnRef, Later(ctl, |test| + |thn| + 2));
      IfElseCode(test, thn, els)
    case SWhile(c, body) =>
      LoopCode(strict, Some(c), NoExpr, CodeBody(strict, Some(c), NoExpr, body, returnRef))
    case SFor(start, c, inc, body) =>
      CodeS(strict, start, returnRef, Pending)
      + LoopCode(strict, c, inc, CodeBody(strict, c, inc, body, returnRef))
    case SForEach(v, e, body) =>
      var b := CodeS(strict, body, returnRef, To(|CodeS(strict, body, returnRef, Pending)| + 1, -2));
      CodeE(strict, e, false) + [ConstCode(strict, CInt(0))]
      + [FOREACH(v), JMP(Always, |b| + 2)] + b + [JMP(Always, -(|b| + 2)), STACK(-2)]
    case SBreak => [JMP(Always, if ctl.To? then ctl.brk else 0)]
    case SContinue => [JMP(Always, if ctl.To? then ctl.cont else 0)]
    case SReturn(e) => CodeE(strict, e, !returnRef) + [RETURN]
    case SReturnNil => [NIL, RETURN]
  }

  /** The condition and the jump over the rest of the loop, `rest` chunks long. */
  function CodeTest(strict: nat, c: OptExpr, rest: nat): Code {
    match c
    case NoExpr => []
    case Some(e) => CodeE(strict, e, true) + [JMP(Cond, rest + 1)]
  }

  function TestLen(strict: nat, c: OptExpr): nat { |CodeTest(strict, c, 0)| }

  /** The increment, jumped over on the way in, followed by a jump to the condition that
      stands `test` chunks long before it. */
  function CodeInc(strict: nat, inc: OptExpr, test: nat): Code {
    match inc
    case NoExpr => []
    case Some(e) =>
      var step := CodeE(strict, e, true) + [STACK(-1)];
      if test == 0 then [JMP(Always, |step| + 1)] + step
      else [JMP(Always, |step| + 2)] + step + [JMP(Always, -(test + |step| + 1))]
  }

  /** Where a round ends: at the increment, or else at the condition, or else at the body. */
  function RoundEnd(strict: nat, c: OptExpr, inc: OptExpr): nat {
    if inc.Some? then TestLen(strict, c) + 1 else 0
  }

  function BodyStart(strict: nat, c: OptExpr, inc: OptExpr): nat {
    TestLen(strict, c) + |CodeInc(strict, inc, TestLen(strict, c))|
  }

  function BodyCtl(strict: nat, c: OptExpr, inc: OptExpr, len: nat): Ctl {
    To(len + 1, RoundEnd(strict, c, inc) - BodyStart(strict, c, inc))
  }

  function CodeBody(strict: nat, c: OptExpr, inc: OptExpr, body: Stmt, returnRef: bool): Code
    decreases body, 1
  {
    CodeS(strict, body, returnRef, BodyCtl(strict, c, inc, |CodeS(strict, body, returnRef, Pending)|))
  }

  function LoopCode(strict: nat, c: OptExpr, inc: OptExpr, body: Code): Code {
    var step := CodeInc(strict, inc, TestLen(strict, c));
    CodeTest(strict, c, |step| + |body| + 1) + step + body
    + [JMP(Always, RoundEnd(strict, c, inc) - BodyStart(strict, c, inc) - |body|)]
  }

  /** The length of a statement's code does not depend on where its jumps lead. */
  lemma {:induction false} SameLength(strict: nat, s: Stmt, returnRef: bool, c1: Ctl, c2: Ctl)
    ensures |CodeS(strict, s, returnRef, c1)| == |CodeS(strict, s, returnRef, c2)|
    decreases s, 1
  {
    hide CodeE, LoopCode, CodeBody, ConstCode, IfCode, IfElseCode;
    match s
    case SSeq(a, b) =>
      SameLength(strict, a, returnRef, c1, c2);
      var n := |CodeS(strict, a, returnRef, c1)|;
      SameLength(strict, b, returnRef, Later(c1, n), Later(c2, n));
    case SIf(c, t) =>
      var n := |CodeE(strict, c, true)|;
      SameLength(strict, t, returnRef, Later(c1, n + 1), Later(c2, n + 1));
    case SIfElse(_, _, _) => SameLengthElse(strict, s, returnRef, c1, c2);
    case _ =>
  }

  lemma SameLengthElse(strict: nat, s: Stmt, returnRef: bool, c1: Ctl, c2: Ctl)
    requires s.SIfElse?
    ensures |CodeS(strict, s, returnRef, c1)| == |CodeS(strict, s, returnRef, c2)|
    decreases s, 0
  {
    hide CodeE, LoopCode, CodeBody, ConstCode, IfCode, IfElseCode;
    var n := |CodeE(strict, s.cond, true)|;
    SameLength(strict, s.thn, returnRef, Later(c1, n + 1), Later(c2, n + 1));
    var k := n + |CodeS(strict, s.thn, returnRef, Later(c1, n + 1))| + 2;
    SameLength(strict, s.els, returnRef, Later(c1, k), Later(c2, k));
  }

  /** Every expression leaves at least one chunk. */
  lemma {:induction false} CodeENonEmpty(strict: nat, e: Expr, valueOnly: bool)
    ensures |CodeE(strict, e, valueOnly)| > 0
  {
    if e.EUnary? { CodeENonEmpty(strict, e.arg, valueOnly); CodeENonEmpty(strict, e.arg, false); }
  }

  // ----- the code of one statement in terms of its parts -----

  lemma OpenSeq(strict: nat, s: Stmt, ref: bool, ctl: Ctl)
    requires s.SSeq?
    ensures var first := CodeS(strict, s.first, ref, ctl);
            CodeS(strict, s, ref, ctl) == first + CodeS(strict, s.second, ref, Later(ctl, |first|))
  {
  }

  lemma OpenIf(strict: nat, s: Stmt, ref: bool, ctl: Ctl)
    requires s.SIf?
    ensures var test := CodeE(strict, s.cond, true);
            CodeS(strict, s, ref, ctl) == IfCode(test, CodeS(strict, s.thn, ref, Later(ctl, |test| + 1)))
  {
  }

  lemma OpenIfElse(strict: nat, s: Stmt, ref: bool, ctl: Ctl)
    requires s.SIfElse?
    ensures var test := CodeE(strict, s.cond, true);
            var thn := CodeS(strict, s.thn, ref, Later(ctl, |test| + 1));
            CodeS(strict, s, ref, ctl)
            == IfElseCode(test, thn, CodeS(strict, s.els, ref, Later(ctl, |test| + |thn| + 2)))
  {
  }

  predicate Branches(s: Stmt) { s.SSeq? || s.SIf? || s.SIfElse? }

  /** Nothing but these depends on where the loop around leads. */
  lemma OpenOther(strict: nat, s: Stmt, ref: bool, c1: Ctl, c2: Ctl)
    requires !Branches(s) && !s.SBreak? && !s.SContinue?
    ensures CodeS(strict, s, ref, c1) == CodeS(strict, s, ref, c2)
  {
  }
}
