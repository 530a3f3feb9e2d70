/** The compiler writing code: one chunk after the other into a growing buffer, joining stack
    chunks as it goes, and coming back to fill in jumps. Beside the code the trace keeps what
    the compiler does not: the chunks as they were asked for, and where they went. */
module Emitter {
  import opened Bytecode
  import opened Source
  import opened Compile
  import opened Peephole

  /** `code`, `jump` (whether the next chunk is a jump target) and `height` (the number of values
      on the stack) are what the compiler knows. `plain` are the chunks asked for, `marks` the
      places among them that were declared jump targets, `pos[i]` the length of the code when
      chunk `i` was asked for. `crossed`: a chunk was joined to one before a jump target. */
  datatype Trace = Trace(code: Code, jump: bool, height: int,
                         plain: Code, marks: set<nat>, pos: seq<int>, crossed: bool)

  const EMPTY: Trace := Trace([], false, 0, [], {}, [0], false)

  /** Change of the number of values on the stack, as it is counted at compile time. */
  function Delta(c: Chunk): int {
    match c
    case UN(_) => 0
    case BIN(_) => -1
    case FUNC(_, pars) => 1 - pars
    case CALL(_, _) => 0 - MAX_PAR as int
    case ARRAY(size) => 1 - size
    case STACK(n) => n
    case IVARN(_) => -1
    case JMP(kind, _) => PassedDelta(kind)
    case FOREACH(_) => 0
    case RETURN => -1
    case ERR => 0
    case EOFN => 0
    case _ => 1
  }

  /** Below strict 3 a zero becomes "push one null". */
  function Converted(strict: nat, c: Chunk): Chunk {
    if (c == INT(0) || c == BOOL(false)) && strict < 3 then STACK(1) else c
  }

  function Last(code: Code): Chunk
    requires |code| > 0
  {
    code[|code| - 1]
  }

  /** Stack chunks are joined unless that would push after popping. */
  predicate Joins(code: Code, c: Chunk) {
    c.STACK? && |code| > 0 && Last(code).STACK? && (c.n <= 0 || Last(code).n >= 0)
  }

  function JoinInto(code: Code, n: int): Code
    requires |code| > 0 && Last(code).STACK?
  {
    var sum := Last(code).n + n;
    if sum == 0 then code[..|code| - 1] else code[|code| - 1 := STACK(sum)]
  }

  /** Whether the last chunk of the code belongs to the stack chunks asked for since the last
      jump target. */
  predicate OpenRun(t: Trace) {
    |t.plain| > 0 && |t.pos| == |t.plain| + 1 && Last(t.plain).STACK? && |t.plain| !in t.marks
    && t.pos[Start(t.plain, t.marks, |t.plain| - 1)] < |t.code|
  }

  function Put(strict: nat, t: Trace, x: Chunk): Trace {
    var c := Converted(strict, x);
    if !t.jump && Joins(t.code, c) then
      var code := JoinInto(t.code, c.n);
      Trace(code, false, t.height + Delta(x), t.plain + [c], t.marks, t.pos + [|code|], t.crossed || !OpenRun(t))
    else
      Trace(t.code + [c], false, t.height + Delta(x), t.plain + [c], t.marks, t.pos + [|t.code| + 1], t.crossed)
  }

  function PutAll(strict: nat, t: Trace, xs: Code): Trace
    decreases |xs|
  {
    if |xs| == 0 then t else PutAll(strict, Put(strict, t, xs[0]), xs[1..])
  }

  /** The next chunk is a jump target. */
  function Here(t: Trace): Trace {
    t.(jump := true, marks := t.marks + {|t.plain|})
  }

  predicate IsJump(t: Trace, g: nat) {
    |t.pos| == |t.plain| + 1 && g < |t.plain| && t.plain[g].JMP? && 0 <= t.pos[g] < |t.code|
    && t.code[t.pos[g]].JMP?
  }

  /** The jump asked for as chunk `g` shall lead to chunk `w`. */
  function Redirect(t: Trace, g: nat, w: nat): Trace {
    if IsJump(t, g) && w <= |t.plain| then
      t.(code := t.code[t.pos[g] := JMP(t.code[t.pos[g]].jkind, t.pos[w] - t.pos[g])],
         plain := t.plain[g := JMP(t.plain[g].jkind, w - g)])
    else t
  }

  function RedirectHere(t: Trace, g: nat): Trace { Redirect(Here(t), g, |t.plain|) }

  /** A jump back to chunk `w`. */
  function PutBack(t: Trace, w: nat): Trace
    requires w < |t.pos|
  {
    Trace(t.code + [JMP(Always, t.pos[w] - |t.code|)], false, t.height,
          t.plain + [JMP(Always, w - |t.plain|)], t.marks, t.pos + [|t.code| + 1], t.crossed)
  }

  /** The chunk that leaves a value where `c` leaves a reference. */
  function ToValue(c: Chunk): Chunk {
    match c
    case SLOT(kind, i, _) => SLOT(kind, i, false)
    case UN(DynVar(_)) => UN(DynVar(false))
    case UN(DynPar(_)) => UN(DynPar(false))
    case _ => c
  }

  function LastToValue(code: Code): Code {
    if |code| == 0 then code else code[|code| - 1 := ToValue(Last(code))]
  }

  function NoRef(t: Trace): Trace {
    t.(code := LastToValue(t.code), plain := LastToValue(t.plain))
  }

  function Negate(t: Trace): Trace
    requires EndsInInt(t.code)
  {
    t.(code := NegateLast(t.code), plain := if EndsInInt(t.plain) then NegateLast(t.plain) else t.plain)
  }

  // ----- expressions -----

  function RawConst(c: Const): Chunk {
    match c
    case CNil => NIL
    case CInt(x) => INT(x)
    case CBool(b) => BOOL(b)
    case CString(s) => STRING(s)
    case CId(id) => C4ID(id)
  }

  function NoRefIf(t: Trace, cond: bool): Trace { if cond then NoRef(t) else t }

  /** Writes an expression that may leave a reference. */
  function GenE(strict: nat, t: Trace, e: Expr): Trace
    decreases e
  {
    match e
    case EConst(c) => Put(strict, t, RawConst(c))
    case ESlot(kind, i) => Put(strict, t, SLOT(kind, i, true))
    case EUnary(op, arg) =>
      var t1 := GenE(strict, t, arg);
      if op == PrePlus then t1
      else if op == PreNeg && EndsInInt(t1.code) then Negate(t1)
      else Put(strict, NoRefIf(t1, !KeepsRef(op)), UN(UnaryChunk(op, false)))
    case EBinary(op, l, r) =>
      var t1 := NoRefIf(GenE(strict, t, l), !Modifies(op));
      Put(strict, NoRef(GenE(strict, t1, r)), BIN(BinChunk(op, strict)))
    case ELogic(op, l, r) =>
      var t1 := NoRef(GenE(strict, t, l));
      if ShortCircuit(op, strict) then
        RedirectHere(GenE(strict, Put(strict, t1, JMP(LogicJump(op), 0)), r), |t1.plain|)
      else Put(strict, NoRef(GenE(strict, t1, r)), BIN(LogicChunk(op)))
    case ENilAssign(l, r) =>
      var t1 := GenE(strict, t, l);
      var t2 := GenE(strict, Put(strict, t1, JMP(IfSet, 0)), r);
      RedirectHere(Put(strict, t2, BIN(Set)), |t1.plain|)
    case ECall(callee, args) =>
      PutAll(strict, GenArgs(strict, PutAll(strict, t, CodeBefore(callee)), args), CodeCall(callee, Count(args)))
    case EMethod(how, target, args) =>
      PutAll(strict, GenArgs(strict, GenE(strict, t, target), args), CodeMethod(how, Count(args)))
  }

  function GenArgs(strict: nat, t: Trace, a: Args): Trace
    decreases a
  {
    match a
    case NoArgs => t
    case Arg(e, keepRef, rest) => GenArgs(strict, NoRefIf(GenE(strict, t, e), !keepRef), rest)
  }

  // ----- statements -----

  /** A `break` or `continue` whose jump waits for the end of its loop. */
  datatype Control = Control(isBreak: bool, at: nat)

  datatype Written = Written(t: Trace, controls: seq<Control>)

  /** Breaks lead to the chunk that comes next, continues to chunk `w`. */
  function Resolve(t: Trace, controls: seq<Control>, w: nat): Trace
    decreases |controls|
  {
    if |controls| == 0 then t
    else
      var t1 := if controls[0].isBreak then RedirectHere(t, controls[0].at) else Redirect(t, controls[0].at, w);
      Resolve(t1, controls[1..], w)
  }

  /** Writes a statement. The controls are those of the loop around it, newest first. */
  function GenS(strict: nat, ref: bool, t: Trace, s: Stmt): Written
    decreases s
  {
    match s
    case SEmpty => Written(t, [])
    case SExpr(e, valueOnly) =>
      Written(Put(strict, NoRefIf(GenE(strict, t, e), valueOnly), STACK(-1)), [])
    case SVar(v, e) => Written(Put(strict, NoRef(GenE(strict, t, e)), IVARN(v)), [])
    case SSeq(a, b) =>
      var w1 := GenS(strict, ref, t, a);
      var w2 := GenS(strict, ref, w1.t, b);
      Written(w2.t, w2.controls + w1.controls)
    case SIf(c, thn) =>
      var t1 := NoRef(GenE(strict, t, c));
      var w := GenS(strict, ref, Put(strict, t1, JMP(Cond, 0)), thn);
      Written(RedirectHere(w.t, |t1.plain|), w.controls)
    case SIfElse(c, thn, els) =>
      var t1 := NoRef(GenE(strict, t, c));
      var w1 := GenS(strict, ref, Put(strict, t1, JMP(Cond, 0)), thn);
      var t2 := RedirectHere(Put(strict, w1.t, JMP(Always, 0)), |t1.plain|);
      var w2 := GenS(strict, ref, t2, els);
      Written(RedirectHere(w2.t, |w1.t.plain|), w2.controls + w1.controls)
    case SWhile(c, body) =>
      var t1 := NoRef(GenE(strict, Here(t), c));
      var w := GenS(strict, ref, Put(strict, t1, JMP(Cond, 0)), body);
      Written(EndLoop(w, |t.plain|, [|t1.plain|]), [])
    case SFor(start, c, inc, body) =>
      var t0 := GenS(strict, ref, t, start).t;
      var t1 := GenTest(strict, t0, c);
      var t2 := GenInc(strict, t1, inc, c.Some?, |t0.plain|);
      var t3 := if inc.Some? then RedirectHere(Here(t2), |t1.plain|) else Here(t2);
      var w := GenS(strict, ref, t3, body);
      var back := if inc.Some? then |t1.plain| + 1 else if c.Some? then |t0.plain| else |t2.plain|;
      Written(EndLoop(w, back, if c.Some? then [|t1.plain| - 1] else []), [])
    case SForEach(v, e, body) =>
      var t1 := Put(strict, GenE(strict, t, e), INT(0));
      var t2 := Put(strict, Put(strict, t1, FOREACH(v)), JMP(Always, 0));
      var w := GenS(strict, ref, t2, body);
      Written(Put(strict, EndLoop(w, |t1.plain|, [|t1.plain| + 1]), STACK(-2)), [])
    case SBreak => Written(Put(strict, t, JMP(Always, 0)), [Control(true, |t.plain|)])
    case SContinue => Written(Put(strict, t, JMP(Always, 0)), [Control(false, |t.plain|)])
    case SReturn(e) => Written(Put(strict, NoRefIf(GenE(strict, t, e), !ref), RETURN), [])
    case SReturnNil => Written(Put(strict, Put(strict, t, NIL), RETURN), [])
  }

  /** The condition of a `for` loop and the jump out. */
  function GenTest(strict: nat, t: Trace, c: OptExpr): Trace {
    match c
    case NoExpr => t
    case Some(e) => Put(strict, NoRef(GenE(strict, Here(t), e)), JMP(Cond, 0))
  }

  /** The increment of a `for` loop, behind a jump over it. */
  function GenInc(strict: nat, t: Trace, inc: OptExpr, cond: bool, start: nat): Trace {
    match inc
    case NoExpr => t
    case Some(e) =>
      var t1 := Put(strict, NoRef(GenE(strict, Here(Put(strict, t, JMP(Always, 0))), e)), STACK(-1));
      if cond && start < |t1.pos| then PutBack(t1, start) else t1
  }

  /** The jump back, then the jumps out of the loop and those of its controls. */
  function EndLoop(w: Written, back: nat, exits: seq<nat>): Trace {
    if back < |w.t.pos| then
      var t1 := PutBack(w.t, back);
      Resolve(if |exits| > 0 then RedirectHere(t1, exits[0]) else t1, w.controls, back)
    else w.t
  }

  // ----- functions -----

  /** A return is added unless one was just written and nothing leads behind it. */
  predicate NeedsReturn(t: Trace) {
    !(|t.code| > 0 && Last(t.code).RETURN?) || t.jump
  }

  function GenFunction(strict: nat, ref: bool, body: Stmt): Trace {
    var t := GenS(strict, ref, EMPTY, body).t;
    Put(strict, if NeedsReturn(t) then Put(strict, Put(strict, t, NIL), RETURN) else t, EOFN)
  }

  function FinalReturn(strict: nat, ref: bool, body: Stmt): bool {
    NeedsReturn(GenS(strict, ref, EMPTY, body).t)
  }
}
