/** The chunks the script compiler emits, and what one chunk does inside one call.

    A call works on three things: the memory it can reach (the part of the value stack
    below its temporaries, object locals, globals), the temporaries it has pushed itself,
    and the position of the current chunk. */
module Bytecode {

  // ----- values and memory -----

  /** Where a variable lives. Parameters and named variables are slots of the value stack. */
  datatype Addr = StackAt(n: nat) | LocalAt(n: nat) | GlobalAt(n: nat) | ElementAt(n: nat)

  datatype Value =
    | Nil
    | Int(i: int)
    | Bool(b: bool)
    | Str(s: nat)
    | Id(id: nat)           // not NONE, which is nil
    | Object(o: nat)
    | Array(items: seq<Value>)
    | Ref(at: Addr)

  datatype Mem = Mem(stack: seq<Value>, heap: map<Addr, Value>)

  /** Script integers are 32 bits wide. */
  function Wrap32(x: int): (r: int)
    ensures -0x8000_0000 <= r < 0x8000_0000
    ensures (x - r) % 0x1_0000_0000 == 0
  {
    (x + 0x8000_0000) % 0x1_0000_0000 - 0x8000_0000
  }

  function Load(m: Mem, a: Addr): Value {
    if a.StackAt? then
      if a.n < |m.stack| then m.stack[a.n] else Nil
    else if a in m.heap then m.heap[a] else Nil
  }

  function Write(m: Mem, a: Addr, v: Value): Mem {
    if a.StackAt? then
      if a.n < |m.stack| then m.(stack := m.stack[a.n := v]) else m
    else m.(heap := m.heap[a := v])
  }

  /** References are followed until a value is found. The engine builds no cycles; a cyclic
      memory, where it would not come back, reads as nil here. */
  function Follow(m: Mem, v: Value, hops: nat): Value
    decreases hops
  {
    if !v.Ref? then v
    else if hops == 0 then Nil
    else Follow(m, Load(m, v.at), hops - 1)
  }

  function Target(m: Mem, a: Addr, hops: nat): Addr
    decreases hops
  {
    var v := Load(m, a);
    if v.Ref? && hops > 0 then Target(m, v.at, hops - 1) else a
  }

  function Hops(m: Mem): nat { |m.stack| + |m.heap| + 1 }

  /** The value behind any references. */
  function Plain(m: Mem, v: Value): Value { Follow(m, v, Hops(m)) }

  /** Assignment writes the plain value of the right side into the slot the left side
      finally refers to. */
  function Assign(m: Mem, a: Addr, v: Value): Mem {
    Write(m, Target(m, a, Hops(m)), Plain(m, v))
  }

  /** False only for nil, 0 and false. */
  predicate Truthy(m: Mem, v: Value) {
    var p := Plain(m, v);
    !(p.Nil? || p == Int(0) || p == Bool(false))
  }

  predicate IsNil(m: Mem, v: Value) { Plain(m, v).Nil? }

  // ----- operators -----

  datatype UnOp =
    | Inc1 | Dec1 | BitNot | Not | Neg
    | Inc1Postfix | Dec1Postfix
    | DynVar(varAsRef: bool) | DynPar(parAsRef: bool)

  datatype BinOp =
    | Pow | Div | Mul | Mod | Sub | Sum | LeftShift | RightShift
    | LessThan | LessThanEqual | GreaterThan | GreaterThanEqual | Concat
    | EqualIdent | Equal | NotEqualIdent | NotEqual | SEqual | SNEqual
    | BitAnd | BitXOr | BitOr | And | Or
    | PowIt | MulIt | DivIt | ModIt | Inc | Dec | LeftShiftIt | RightShiftIt
    | ConcatIt | AndIt | OrIt | XOrIt
    | Set

  datatype Error =
    | Thrown(what: nat)   // an operator, conversion or called function threw
    | NotALocation        // assignment to something that is no reference
    | NoObject            // object local used in a definition call
    | NotAnArray          // for-in over something that is no array
    | SyntaxError         // AB_ERR
    | NoReturn            // AB_EOFN
    | Underflow           // more values needed than this call has pushed
    | BadTarget           // the position is outside the code, or there is no such function
    | ValueOverflow       // more than 1024 values
    | ContextOverflow     // more than 512 calls
    | TooDeep             // no error of the engine: an evaluator has given up

  datatype OpResult = Ok(v: Value, m: Mem) | Throw(e: Error, m: Mem)

  /** What the operators, conversions and called functions do. Every result about compiled
      code holds for every choice of these functions. */
  datatype Sem = Sem(
    un: (UnOp, Value, Mem) -> OpResult,
    bin: (BinOp, Value, Value, Mem) -> OpResult,
    call: (nat, seq<Value>, Mem) -> OpResult,
    objCall: (CallKind, nat, Value, seq<Value>, Mem) -> OpResult)

  datatype CallKind = CallGlobal | CallObject | CallFailSafe

  const MAX_PAR: nat := 10

  /** The fixed data of the running call: where its parameters and variables start, whether
      it has an object, the strictness of its script, whether it returns references. */
  datatype Frame = Frame(pars: nat, vars: nat, hasObject: bool, strict: nat, returnRef: bool)

  datatype Env = Env(sem: Sem, fr: Frame)

  /** AB_Neg on a number is done here; everything else is left to the operators. */
  function ApplyUn(env: Env, op: UnOp, v: Value, m: Mem): OpResult {
    if op == Neg && v.Int? then Ok(Int(Wrap32(-v.i)), m) else env.sem.un(op, v, m)
  }

  /** Below strict 3 an assigned 0 or false becomes nil. */
  function Assigned(fr: Frame, m: Mem, v: Value): Value {
    if fr.strict < 3 && !Truthy(m, v) then Nil else Plain(m, v)
  }

  /** AB_Set leaves its left operand, the reference, as the result. */
  function ApplyBin(env: Env, op: BinOp, a: Value, b: Value, m: Mem): OpResult {
    if op == Set then
      if a.Ref? then Ok(a, Assign(m, a.at, Assigned(env.fr, m, b))) else Throw(NotALocation, m)
    else env.sem.bin(op, a, b, m)
  }

  // ----- chunks -----

  datatype SlotKind = ParN | VarN | LocalN | GlobalN

  datatype JumpKind =
    | Always        // AB_JUMP
    | IfFalse       // AB_JUMPAND: jump and keep, or pop and go on
    | IfTrue        // AB_JUMPOR
    | IfNil         // AB_JUMPNIL: never pops
    | IfNotNil      // AB_JUMPNOTNIL
    | IfSet         // AB_NilCoalescingIt: never pops
    | Cond          // AB_CONDN: pops on both ways

  datatype Chunk =
    | NIL
    | INT(x: int)
    | BOOL(bx: bool)
    | STRING(sx: nat)
    | C4ID(ix: nat)
    | SLOT(kind: SlotKind, slot: nat, asRef: bool)
    | UN(uop: UnOp)
    | BIN(bop: BinOp)
    | FUNC(f: nat, pars: nat)
    | CALL(ckind: CallKind, cf: nat)
    | ARRAY(size: nat)
    | STACK(n: int)
    | IVARN(iv: nat)
    | JMP(jkind: JumpKind, off: int)
    | FOREACH(fv: nat)
    | RETURN
    | ERR
    | EOFN

  type Code = seq<Chunk>

  function SlotAddr(fr: Frame, kind: SlotKind, i: nat): Addr {
    match kind
    case ParN => StackAt(fr.pars + i)
    case VarN => StackAt(fr.vars + i)
    case LocalN => LocalAt(i)
    case GlobalN => GlobalAt(i)
  }

  function ReadSlot(fr: Frame, kind: SlotKind, i: nat, asRef: bool, m: Mem): OpResult {
    if kind == LocalN && !fr.hasObject then Throw(NoObject, m)
    else
      var a := SlotAddr(fr, kind, i);
      Ok(if asRef then Ref(a) else Load(m, a), m)
  }

  // ----- one chunk -----

  datatype Config = Config(pc: int, temps: seq<Value>, m: Mem)

  datatype Outcome =
    | Running(c: Config)
    | Returned(v: Value, m: Mem)
    | Failed(e: Error, m: Mem)

  function Nils(n: nat): (r: seq<Value>)
    ensures |r| == n
  {
    seq(n, _ => Nil)
  }

  /** Replaces the top `n` temporaries by the operator's result. */
  function Finish(c: Config, n: nat, r: OpResult): Outcome
    requires n <= |c.temps|
  {
    match r
    case Ok(v, m) => Running(Config(c.pc + 1, c.temps[..|c.temps| - n] + [v], m))
    case Throw(e, m) => Failed(e, m)
  }

  function Push(c: Config, v: Value): Outcome { Finish(c, 0, Ok(v, c.m)) }

  /** Positive: pushes that many nils. Negative: pops. */
  function ApplyStack(n: int, temps: seq<Value>): seq<Value>
    requires -n <= |temps|
  {
    if n < 0 then temps[..|temps| + n] else temps + Nils(n)
  }

  /** Whether a jump is taken when `top` is the value on top. */
  predicate Taken(kind: JumpKind, m: Mem, top: Value) {
    match kind
    case Always => true
    case IfFalse => !Truthy(m, top)
    case IfTrue => Truthy(m, top)
    case IfNil => IsNil(m, top)
    case IfNotNil => !IsNil(m, top)
    case IfSet => !IsNil(m, top)
    case Cond => !Truthy(m, top)
  }

  /** Change of height when the jump is taken. */
  function TakenDelta(kind: JumpKind): int {
    if kind == Cond then -1 else 0
  }

  /** Change of height when it is not. */
  function PassedDelta(kind: JumpKind): int {
    match kind
    case Always => 0
    case IfFalse => -1
    case IfTrue => -1
    case IfNil => 0
    case IfNotNil => -1
    case IfSet => 0
    case Cond => -1
  }

  function Jump(kind: JumpKind, off: int, c: Config): Outcome {
    if kind == Always then Running(c.(pc := c.pc + off))
    else if |c.temps| == 0 then Failed(Underflow, c.m)
    else
      var top := c.temps[|c.temps| - 1];
      var rest := c.temps[..|c.temps| - 1];
      if Taken(kind, c.m, top) then
        // AB_JUMPNIL keeps the plain value, the others keep the value as it is
        var kept := if kind == IfNil then rest + [Plain(c.m, top)] else c.temps;
        Running(c.(pc := c.pc + off, temps := if kind == Cond then rest else kept))
      else
        Running(c.(pc := c.pc + 1, temps := if PassedDelta(kind) < 0 then rest else c.temps))
  }

  /** The position counter starts as 0, or as nil where a literal 0 is compiled to a null. */
  function Position(v: Value): nat {
    if v.Int? && v.i > 0 then v.i else 0
  }

  function ForEach(fr: Frame, v: nat, c: Config): Outcome {
    var n := |c.temps|;
    if n < 2 then Failed(Underflow, c.m)
    else
      var i := Position(c.temps[n - 1]);
      var arr := if i == 0 then Plain(c.m, c.temps[n - 2]) else c.temps[n - 2];
      if !arr.Array? then Failed(NotAnArray, c.m)
      else
        var temps := c.temps[..n - 2] + [arr];
        if i >= |arr.items| then Running(c.(pc := c.pc + 1, temps := temps + [c.temps[n - 1]]))
        else Running(Config(c.pc + 2, temps + [Int(i + 1)],
                            Assign(c.m, SlotAddr(fr, VarN, v), arr.items[i])))
  }

  function Step(env: Env, code: Code, c: Config): Outcome {
    if !(0 <= c.pc < |code|) then Failed(BadTarget, c.m)
    else
      var n := |c.temps|;
      var top := if n > 0 then c.temps[n - 1] else Nil;
      match code[c.pc]
      case NIL => Push(c, Nil)
      case INT(x) => Push(c, Int(Wrap32(x)))
      case BOOL(b) => Push(c, Bool(b))
      case STRING(s) => Push(c, Str(s))
      case C4ID(i) => Push(c, if i == 0 then Nil else Id(i))
      case SLOT(kind, i, asRef) => Finish(c, 0, ReadSlot(env.fr, kind, i, asRef, c.m))
      case UN(op) =>
        if n < 1 then Failed(Underflow, c.m) else Finish(c, 1, ApplyUn(env, op, top, c.m))
      case BIN(op) =>
        if n < 2 then Failed(Underflow, c.m)
        else Finish(c, 2, ApplyBin(env, op, c.temps[n - 2], top, c.m))
      case FUNC(f, pars) =>
        if n < pars then Failed(Underflow, c.m)
        else Finish(c, pars, env.sem.call(f, c.temps[n - pars..], c.m))
      case CALL(kind, f) =>
        if n < MAX_PAR + 1 then Failed(Underflow, c.m)
        else Finish(c, MAX_PAR + 1,
                    env.sem.objCall(kind, f, c.temps[n - MAX_PAR - 1], c.temps[n - MAX_PAR..], c.m))
      case ARRAY(size) =>
        if n < size then Failed(Underflow, c.m)
        else Finish(c, size, Ok(Array(PlainAll(c.m, c.temps[n - size..])), c.m))
      case STACK(x) =>
        if n + x < 0 then Failed(Underflow, c.m)
        else Running(c.(pc := c.pc + 1, temps := ApplyStack(x, c.temps)))
      case IVARN(v) =>
        if n < 1 then Failed(Underflow, c.m)
        else Running(Config(c.pc + 1, c.temps[..n - 1], Assign(c.m, SlotAddr(env.fr, VarN, v), top)))
      case JMP(kind, off) => Jump(kind, off, c)
      case FOREACH(v) => ForEach(env.fr, v, c)
      case RETURN =>
        if n < 1 then Failed(Underflow, c.m)
        else Returned(if env.fr.returnRef then top else Plain(c.m, top), c.m)
      case ERR => Failed(SyntaxError, c.m)
      case EOFN => Failed(NoReturn, c.m)
  }

  function PlainAll(m: Mem, vs: seq<Value>): (r: seq<Value>)
    ensures |r| == |vs|
  {
    seq(|vs|, i requires 0 <= i < |vs| => Plain(m, vs[i]))
  }

  // ----- many chunks -----

  function Steps(env: Env, code: Code, c: Config, k: nat): Outcome
    decreases k
  {
    if k == 0 then Running(c)
    else
      match Step(env, code, c)
      case Running(c') => Steps(env, code, c', k - 1)
      case Returned(v, m) => Returned(v, m)
      case Failed(e, m) => Failed(e, m)
  }

  /** The run from `c` stops with `o`. */
  ghost predicate Stops(env: Env, code: Code, c: Config, o: Outcome) {
    !o.Running? && exists k: nat :: Steps(env, code, c, k) == o
  }

  lemma {:induction false} StepsAdd(env: Env, code: Code, c: Config, j: nat, k: nat)
    ensures Steps(env, code, c, j + k) ==
            match Steps(env, code, c, j)
            case Running(c') => Steps(env, code, c', k)
            case o => o
    decreases j
  {
    hide Step;
    if j > 0 && Step(env, code, c).Running? {
      StepsAdd(env, code, Step(env, code, c).c, j - 1, k);
    }
  }

  /** A run has one outcome only. */
  lemma OneOutcome(env: Env, code: Code, c: Config, o: Outcome, k: nat)
    requires Stops(env, code, c, o)
    ensures Steps(env, code, c, k).Running? || Steps(env, code, c, k) == o
  {
    var j: nat :| Steps(env, code, c, j) == o;
    if j <= k { StepsAdd(env, code, c, j, k - j); } else { StepsAdd(env, code, c, k, j - k); }
  }
}
