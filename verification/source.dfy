/** Script expressions and statements as the parser recognises them, and what they mean:
    a direct evaluator that knows no chunks, no jumps and no stack. */
module Source {
  import opened Bytecode

  /** Prefix and postfix operators, and Var(n) and Par(n). `+` compiles to nothing. */
  datatype Unary =
    | PreInc | PreDec | PreBitNot | PreNot | PrePlus | PreNeg
    | PostInc | PostDec
    | VarOf | ParOf

  datatype Logic = LAnd | LOr | LNil

  datatype Const = CNil | CInt(x: int) | CBool(b: bool) | CString(s: nat) | CId(id: nat)

  /** What a parameter list is written for. */
  datatype Callee =
    | Function(f: nat, pars: nat)   // F(...), inherited(...)
    | Global(gf: nat)               // global->F(...)
    | NoInherited                   // _inherited(...) with nothing overloaded
    | NoGlobal                      // global->~F(...) when no function F exists
    | NewArray                      // [...]

  datatype Method =
    | Named(failSafe: bool, mf: nat)   // target->F(...), target->~F(...)
    | Unknown                          // target->~F(...) when no function F exists

  datatype Expr =
    | EConst(c: Const)
    | ESlot(kind: SlotKind, i: nat)
    | EUnary(uop: Unary, arg: Expr)
    | EBinary(bop: BinOp, left: Expr, right: Expr)
    | ELogic(lop: Logic, left: Expr, right: Expr)
    | ENilAssign(left: Expr, right: Expr)
    | ECall(callee: Callee, args: Args)
    | EMethod(how: Method, target: Expr, args: Args)

  /** `keepRef`: the called function takes a reference here. */
  datatype Args = NoArgs | Arg(e: Expr, keepRef: bool, rest: Args)

  datatype Stmt =
    | SEmpty
    | SExpr(e: Expr, valueOnly: bool)
    | SVar(v: nat, init: Expr)
    | SSeq(first: Stmt, second: Stmt)
    | SIf(cond: Expr, thn: Stmt)
    | SIfElse(cond: Expr, thn: Stmt, els: Stmt)
    | SWhile(cond: Expr, body: Stmt)
    | SFor(start: Stmt, test: OptExpr, inc: OptExpr, body: Stmt)
    | SForEach(v: nat, e: Expr, body: Stmt)
    | SBreak
    | SContinue
    | SReturn(e: Expr)
    | SReturnNil

  datatype OptExpr = NoExpr | Some(e: Expr)

  function Count(a: Args): nat {
    match a
    case NoArgs => 0
    case Arg(_, _, rest) => 1 + Count(rest)
  }

  /** Operators that change their left operand and so need a reference to it. */
  predicate Modifies(op: BinOp) {
    op in {PowIt, MulIt, DivIt, ModIt, Inc, Dec, LeftShiftIt, RightShiftIt,
           ConcatIt, AndIt, OrIt, XOrIt, Set}
  }

  /** Operators whose operand stays a reference if it is one. */
  predicate KeepsRef(op: Unary) { op !in {PreBitNot, PreNot, PreNeg} }

  function UnaryChunk(op: Unary, valueOnly: bool): UnOp
    requires op != PrePlus
  {
    match op
    case PreInc => Inc1
    case PreDec => Dec1
    case PreBitNot => BitNot
    case PreNot => Not
    case PreNeg => Neg
    case PostInc => Inc1Postfix
    case PostDec => Dec1Postfix
    case VarOf => DynVar(!valueOnly)
    case ParOf => DynPar(!valueOnly)
  }

  /** `==` and `!=` below strict 2 compare the old way. */
  function BinChunk(op: BinOp, strict: nat): BinOp {
    if op == Equal && strict < 2 then EqualIdent
    else if op == NotEqual && strict < 2 then NotEqualIdent
    else op
  }

  // ----- meaning of expressions -----

  datatype EResult = Val(v: Value, m: Mem) | Fault(e: Error, m: Mem)

  datatype AResult = Vals(vs: seq<Value>, m: Mem) | ArgFault(e: Error, m: Mem)

  function Result(r: OpResult): EResult {
    match r
    case Ok(v, m) => Val(v, m)
    case Throw(e, m) => Fault(e, m)
  }

  /** Below strict 3 the literals 0 and false are nil; NONE always is. */
  function ConstValue(strict: nat, c: Const): Value {
    match c
    case CNil => Nil
    case CInt(x) => if x == 0 && strict < 3 then Nil else Int(Wrap32(x))
    case CBool(b) => if !b && strict < 3 then Nil else Bool(b)
    case CString(s) => Str(s)
    case CId(id) => if id == 0 then Nil else Id(id)
  }

  /** As many parameters as the function takes: missing ones are nil, extra ones dropped. */
  function Fit(vs: seq<Value>, want: nat): (r: seq<Value>)
    ensures |r| == want
    ensures forall i :: 0 <= i < want ==> r[i] == if i < |vs| then vs[i] else Nil
  {
    if |vs| >= want then vs[..want] else vs + Nils(want - |vs|)
  }

  /** `&&` ends with its left side if that is false, `||` if it is true, `??` if it is set. */
  predicate Decided(op: Logic, m: Mem, v: Value) {
    match op
    case LAnd => !Truthy(m, v)
    case LOr => Truthy(m, v)
    case LNil => !IsNil(m, v)
  }

  /** Before strict 2, `&&` and `||` evaluate both sides. */
  predicate ShortCircuit(op: Logic, strict: nat) { op == LNil || strict >= 2 }

  function LogicChunk(op: Logic): BinOp
    requires op != LNil
  {
    if op == LAnd then And else Or
  }

  /** The value of an expression. A variable is a reference to its slot unless only its value
      is wanted (`valueOnly`); an assignment is a reference to what was assigned. */
  function Eval(env: Env, e: Expr, valueOnly: bool, m: Mem): EResult
    decreases e
  {
    match e
    case EConst(c) => Val(ConstValue(env.fr.strict, c), m)
    case ESlot(kind, i) => Result(ReadSlot(env.fr, kind, i, !valueOnly, m))
    case EUnary(op, arg) =>
      if op == PrePlus then Eval(env, arg, valueOnly, m)
      else Then1(env, UnaryChunk(op, valueOnly), Eval(env, arg, !KeepsRef(op), m))
    case EBinary(op, l, r) =>
      (match Eval(env, l, !Modifies(op), m)
       case Fault(x, m1) => Fault(x, m1)
       case Val(a, m1) => Then2(env, BinChunk(op, env.fr.strict), a, Eval(env, r, true, m1)))
    case ELogic(op, l, r) =>
      (match Eval(env, l, true, m)
       case Fault(x, m1) => Fault(x, m1)
       case Val(a, m1) =>
         if !ShortCircuit(op, env.fr.strict) then Then2(env, LogicChunk(op), a, Eval(env, r, true, m1))
         else if Decided(op, m1, a) then Val(a, m1)
         else Eval(env, r, valueOnly, m1))
    case ENilAssign(l, r) =>
      (match Eval(env, l, false, m)
       case Fault(x, m1) => Fault(x, m1)
       case Val(a, m1) =>
         if !IsNil(m1, a) then Val(a, m1)
         else Then2(env, Set, a, Eval(env, r, false, m1)))
    case ECall(callee, args) => CallResult(env, callee, EvalArgs(env, args, m))
    case EMethod(how, target, args) =>
      (match Eval(env, target, false, m)
       case Fault(x, m1) => Fault(x, m1)
       case Val(t, m1) => MethodResult(env, how, t, EvalArgs(env, args, m1)))
  }

  function EvalArgs(env: Env, a: Args, m: Mem): AResult
    decreases a
  {
    match a
    case NoArgs => Vals([], m)
    case Arg(e, keepRef, rest) =>
      match Eval(env, e, !keepRef, m)
      case Fault(x, m1) => ArgFault(x, m1)
      case Val(v, m1) =>
        match EvalArgs(env, rest, m1)
        case ArgFault(x, m2) => ArgFault(x, m2)
        case Vals(vs, m2) => Vals([v] + vs, m2)
  }

  /** Where there is nobody to call, the parameters are dropped and the result is nil. */
  function CallResult(env: Env, callee: Callee, r: AResult): EResult {
    match r
    case ArgFault(x, m) => Fault(x, m)
    case Vals(vs, m) =>
      match callee
      case Function(f, pars) => Result(env.sem.call(f, Fit(vs, pars), m))
      case Global(f) => Result(env.sem.objCall(CallGlobal, f, Nil, Fit(vs, MAX_PAR), m))
      case NoInherited => Val(Nil, m)
      case NoGlobal => Val(Nil, m)
      case NewArray => Val(Array(PlainAll(m, vs)), m)
  }

  function MethodKind(failSafe: bool): CallKind { if failSafe then CallFailSafe else CallObject }

  function MethodResult(env: Env, how: Method, target: Value, r: AResult): EResult {
    match r
    case ArgFault(x, m) => Fault(x, m)
    case Vals(vs, m) =>
      match how
      case Named(failSafe, f) => Result(env.sem.objCall(MethodKind(failSafe), f, target, Fit(vs, MAX_PAR), m))
      case Unknown => Val(Nil, m)
  }

  function Then1(env: Env, op: UnOp, r: EResult): EResult {
    match r
    case Fault(x, m) => Fault(x, m)
    case Val(v, m) => Result(ApplyUn(env, op, v, m))
  }

  function Then2(env: Env, op: BinOp, a: Value, r: EResult): EResult {
    match r
    case Fault(x, m) => Fault(x, m)
    case Val(b, m) => Result(ApplyBin(env, op, a, b, m))
  }

  // ----- meaning of statements -----

  datatype SResult =
    | Normal(m: Mem)
    | Broke(m: Mem)
    | Continued(m: Mem)
    | Return(v: Value, m: Mem)
    | SFault(e: Error, m: Mem)
    | OutOfFuel

  function ReturnValue(fr: Frame, m: Mem, v: Value): Value {
    if fr.returnRef then v else Plain(m, v)
  }

  /** Runs a statement; `fuel` bounds the number of rounds each loop may take. */
  function Exec(env: Env, fuel: nat, s: Stmt, m: Mem): SResult
    decreases fuel, s, 0
  {
    match s
    case SEmpty => Normal(m)
    case SExpr(e, valueOnly) => Ignore(Eval(env, e, valueOnly, m))
    case SVar(v, init) =>
      (match Eval(env, init, true, m)
       case Fault(x, m1) => SFault(x, m1)
       case Val(a, m1) => Normal(Assign(m1, SlotAddr(env.fr, VarN, v), a)))
    case SSeq(a, b) =>
      (match Exec(env, fuel, a, m)
       case Normal(m1) => Exec(env, fuel, b, m1)
       case r => r)
    case SIf(c, t) =>
      (match Eval(env, c, true, m)
       case Fault(x, m1) => SFault(x, m1)
       case Val(a, m1) => if Truthy(m1, a) then Exec(env, fuel, t, m1) else Normal(m1))
    case SIfElse(c, t, e) =>
      (match Eval(env, c, true, m)
       case Fault(x, m1) => SFault(x, m1)
       case Val(a, m1) => if Truthy(m1, a) then Exec(env, fuel, t, m1) else Exec(env, fuel, e, m1))
    case SWhile(c, body) => Loop(env, fuel, Some(c), NoExpr, body, m)
    case SFor(start, c, inc, body) =>
      (match Exec(env, fuel, start, m)
       case Normal(m1) => Loop(env, fuel, c, inc, body, m1)
       case r => r)
    case SForEach(v, e, body) =>
      (match Eval(env, e, false, m)
       case Fault(x, m1) => SFault(x, m1)
       case Val(a, m1) =>
         if !Plain(m1, a).Array? then SFault(NotAnArray, m1)
         else Each(env, fuel, v, Plain(m1, a).items, 0, body, m1))
    case SBreak => Broke(m)
    case SContinue => Continued(m)
    case SReturn(e) =>
      (match Eval(env, e, !env.fr.returnRef, m)
       case Fault(x, m1) => SFault(x, m1)
       case Val(a, m1) => Return(ReturnValue(env.fr, m1, a), m1))
    case SReturnNil => Return(Nil, m)
  }

  function Ignore(r: EResult): SResult {
    match r
    case Fault(x, m) => SFault(x, m)
    case Val(_, m) => Normal(m)
  }

  /** The condition, the body, the increment, and again. A missing condition holds. */
  function Loop(env: Env, fuel: nat, c: OptExpr, inc: OptExpr, body: Stmt, m: Mem): SResult
    decreases fuel, body, 1
  {
    if fuel == 0 then OutOfFuel
    else
      match EvalCond(env, c, m)
      case Fault(x, m1) => SFault(x, m1)
      case Val(a, m1) =>
        if !Truthy(m1, a) then Normal(m1)
        else
          match Exec(env, fuel, body, m1)
          case Broke(m2) => Normal(m2)
          case Return(v, m2) => Return(v, m2)
          case SFault(x, m2) => SFault(x, m2)
          case OutOfFuel => OutOfFuel
          case Normal(m2) => Again(env, fuel, c, inc, body, m2)
          case Continued(m2) => Again(env, fuel, c, inc, body, m2)
  }

  function Again(env: Env, fuel: nat, c: OptExpr, inc: OptExpr, body: Stmt, m: Mem): SResult
    requires fuel > 0
    decreases fuel, body, 0
  {
    match EvalInc(env, inc, m)
    case SFault(x, m1) => SFault(x, m1)
    case Normal(m1) => Loop(env, fuel - 1, c, inc, body, m1)
    case r => r
  }

  function EvalCond(env: Env, c: OptExpr, m: Mem): EResult {
    match c
    case NoExpr => Val(Bool(true), m)
    case Some(e) => Eval(env, e, true, m)
  }

  function EvalInc(env: Env, inc: OptExpr, m: Mem): SResult {
    match inc
    case NoExpr => Normal(m)
    case Some(e) => Ignore(Eval(env, e, true, m))
  }

  /** Runs the body once for each element from number `i` on. The elements are those the
      array had when the loop began. */
  function Each(env: Env, fuel: nat, v: nat, items: seq<Value>, i: nat, body: Stmt, m: Mem): SResult
    requires i <= |items|
    decreases fuel, body, 1, |items| - i
  {
    if i == |items| then Normal(m)
    else
      match Exec(env, fuel, body, Assign(m, SlotAddr(env.fr, VarN, v), items[i]))
      case Broke(m1) => Normal(m1)
      case Return(x, m1) => Return(x, m1)
      case SFault(x, m1) => SFault(x, m1)
      case OutOfFuel => OutOfFuel
      case Normal(m1) => Each(env, fuel, v, items, i + 1, body, m1)
      case Continued(m1) => Each(env, fuel, v, items, i + 1, body, m1)
  }

  /** `break` and `continue` only inside loops, as strict 2 demands. */
  predicate LoopsOnly(s: Stmt, inLoop: bool) {
    match s
    case SSeq(a, b) => LoopsOnly(a, inLoop) && LoopsOnly(b, inLoop)
    case SIf(_, t) => LoopsOnly(t, inLoop)
    case SIfElse(_, t, e) => LoopsOnly(t, inLoop) && LoopsOnly(e, inLoop)
    case SWhile(_, b) => LoopsOnly(b, true)
    case SFor(start, _, _, b) => Simple(start) && LoopsOnly(b, true)
    case SForEach(_, _, b) => LoopsOnly(b, true)
    case SBreak => inLoop
    case SContinue => inLoop
    case _ => true
  }

  /** What may stand first in a `for`: nothing, an expression, variable definitions. */
  predicate Simple(s: Stmt) {
    match s
    case SEmpty => true
    case SExpr(_, valueOnly) => valueOnly
    case SVar(_, _) => true
    case SSeq(a, b) => Simple(a) && Simple(b)
    case _ => false
  }
}
