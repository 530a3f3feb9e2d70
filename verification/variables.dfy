/** What variables, assignments and conditions do, stated on single chunks and on the evaluator, and
    the chunks that operators are written as. */
module Variables {
  import opened Bytecode
  import opened Source
  import opened Compile

  // ----- what counts as false -----

  /** `v` leads through `n` references to the value `p`. */
  ghost predicate LeadsTo(m: Mem, v: Value, n: nat, p: Value)
    decreases n
  {
    if n == 0 then v == p && !p.Ref? else v.Ref? && LeadsTo(m, Load(m, v.at), n - 1, p)
  }

  /** No longer than there are slots: references that do not go round. */
  predicate Short(m: Mem, n: nat) { n <= |m.stack| + |m.heap| + 1 }

  lemma {:induction false} LeadsFollow(m: Mem, v: Value, n: nat, p: Value, hops: nat)
    requires LeadsTo(m, v, n, p) && n <= hops
    ensures Follow(m, v, hops) == p
    decreases n
  {
    if n > 0 { LeadsFollow(m, Load(m, v.at), n - 1, p, hops - 1); }
  }

  /** nil, the number 0 and `false` are false; every other number, `true`, and every string, id, object
      and array is true. */
  predicate CountsFalse(p: Value) {
    match p
    case Nil => true
    case Int(i) => i == 0
    case Bool(b) => !b
    case Str(_) => false
    case Id(_) => false
    case Object(_) => false
    case Array(_) => false
    case Ref(_) => false
  }

  /** The run of a jump chunk at `pc` with `top` on the stack. */
  function OnJump(env: Env, kind: JumpKind, off: int, rest: seq<Value>, top: Value, m: Mem): Outcome {
    Step(env, [JMP(kind, off)], Config(0, rest + [top], m))
  }

  /** Which jumps are taken, and what they leave on the stack: for every value on top, directly or
      through references. */
  lemma JumpDecides(env: Env, off: int, rest: seq<Value>, top: Value, m: Mem, n: nat, p: Value)
    requires LeadsTo(m, top, n, p) && Short(m, n)
    ensures var kept, popped, passed :=
              Running(Config(off, rest + [top], m)), Running(Config(1, rest, m)), Running(Config(1, rest + [top], m));
            && OnJump(env, Always, off, rest, top, m) == kept
            && OnJump(env, IfFalse, off, rest, top, m) == (if CountsFalse(p) then kept else popped)
            && OnJump(env, IfTrue, off, rest, top, m) == (if CountsFalse(p) then popped else kept)
            && OnJump(env, IfNil, off, rest, top, m)
               == (if p == Nil then Running(Config(off, rest + [Nil], m)) else passed)
            && OnJump(env, IfNotNil, off, rest, top, m) == (if p == Nil then popped else kept)
            && OnJump(env, IfSet, off, rest, top, m) == (if p == Nil then passed else kept)
            && OnJump(env, Cond, off, rest, top, m)
               == (if CountsFalse(p) then Running(Config(off, rest, m)) else popped)
  {
    LeadsFollow(m, top, n, p, Hops(m));
    hide Follow, LeadsTo, Step;
    var all := rest + [top];
    assert all[|all| - 1] == top && all[..|all| - 1] == rest;
    forall kind ensures OnJump(env, kind, off, rest, top, m) == Jump(kind, off, Config(0, all, m)) {
      JumpStep(env, kind, off, all, m);
    }
  }

  lemma JumpStep(env: Env, kind: JumpKind, off: int, temps: seq<Value>, m: Mem)
    ensures Step(env, [JMP(kind, off)], Config(0, temps, m)) == Jump(kind, off, Config(0, temps, m))
  {
  }

  /** The evaluator decides in the same way. */
  lemma ConditionDecides(env: Env, fuel: nat, c: Expr, thn: Stmt, els: Stmt, m: Mem, v: Value, m1: Mem, n: nat,
                         p: Value)
    requires Eval(env, c, true, m) == Val(v, m1) && LeadsTo(m1, v, n, p) && Short(m1, n)
    ensures Exec(env, fuel, SIfElse(c, thn, els), m) == Exec(env, fuel, if CountsFalse(p) then els else thn, m1)
    ensures Exec(env, fuel, SIf(c, thn), m) == if CountsFalse(p) then Normal(m1) else Exec(env, fuel, thn, m1)
    ensures CountsFalse(p) && fuel > 0 ==> Exec(env, fuel, SWhile(c, thn), m) == Normal(m1)
  {
    Judged(m1, v, n, p);
    hide Eval, LeadsTo, Truthy, CountsFalse;
    if CountsFalse(p) && fuel > 0 { assert EvalCond(env, OptExpr.Some(c), m) == Val(v, m1); }
  }

  /** `&&`, `||` and `??` end with the left side, or go on with the right one. */
  lemma ShortDecides(env: Env, l: Expr, r: Expr, valueOnly: bool, m: Mem, v: Value, m1: Mem, n: nat, p: Value)
    requires Eval(env, l, true, m) == Val(v, m1) && LeadsTo(m1, v, n, p) && Short(m1, n)
    ensures var left, right := Val(v, m1), Eval(env, r, valueOnly, m1);
            && (env.fr.strict >= 2 ==>
                  Eval(env, ELogic(LAnd, l, r), valueOnly, m) == if CountsFalse(p) then left else right)
            && (env.fr.strict >= 2 ==>
                  Eval(env, ELogic(LOr, l, r), valueOnly, m) == if CountsFalse(p) then right else left)
            && Eval(env, ELogic(LNil, l, r), valueOnly, m) == if p == Nil then right else left
  {
    Judged(m1, v, n, p);
    hide LeadsTo, Truthy, IsNil, CountsFalse;
    hide EvalArgs, ApplyBin, ReadSlot;
  }

  lemma Judged(m: Mem, v: Value, n: nat, p: Value)
    requires LeadsTo(m, v, n, p) && Short(m, n)
    ensures Truthy(m, v) == !CountsFalse(p) && IsNil(m, v) == (p == Nil)
  {
    LeadsFollow(m, v, n, p, Hops(m));
    LeadsEnd(m, v, n, p);
  }

  // ----- variables -----

  /** The call has this variable: parameters stand below the named variables, which are on the stack; the
      locals are those of an object. */
  predicate Has(fr: Frame, m: Mem, kind: SlotKind, i: nat) {
    match kind
    case ParN => fr.pars + i < fr.vars && fr.pars + i < |m.stack|
    case VarN => fr.pars <= fr.vars && fr.vars + i < |m.stack|
    case LocalN => fr.hasObject
    case GlobalN => true
  }

  /** What the chunk of a variable pushes: its value, or a reference to it. */
  function Reads(env: Env, kind: SlotKind, i: nat, m: Mem): Outcome {
    Step(env, [SLOT(kind, i, false)], Config(0, [], m))
  }

  function Refers(env: Env, kind: SlotKind, i: nat, m: Mem): Outcome {
    Step(env, [SLOT(kind, i, true)], Config(0, [], m))
  }

  /** `=` with a reference and a value. */
  function Sets(env: Env, a: Addr, x: Value, m: Mem): Outcome {
    Step(env, [BIN(Set)], Config(0, [Ref(a), x], m))
  }

  /** The slot `a` leads through `n` references to the slot `t`. */
  ghost predicate LeadsToSlot(m: Mem, a: Addr, n: nat, t: Addr)
    decreases n
  {
    if n == 0 then t == a && !Load(m, a).Ref? else Load(m, a).Ref? && LeadsToSlot(m, Load(m, a).at, n - 1, t)
  }

  predicate Exists(m: Mem, a: Addr) { a.StackAt? ==> a.n < |m.stack| }

  /** Below strict 3 what is false is assigned as nil. */
  function Stored(strict: nat, p: Value): Value { if strict < 3 && CountsFalse(p) then Nil else p }

  /** `m'` has `w` in the slot `t`, and is `m` everywhere else. */
  ghost predicate OnlyAt(m: Mem, m': Mem, t: Addr, w: Value) {
    |m'.stack| == |m.stack| && Load(m', t) == w && forall b :: b != t ==> Load(m', b) == Load(m, b)
  }

  lemma {:induction false} SlotTarget(m: Mem, a: Addr, n: nat, t: Addr, hops: nat)
    requires LeadsToSlot(m, a, n, t) && n <= hops
    ensures Target(m, a, hops) == t
    decreases n
  {
    if n > 0 { SlotTarget(m, Load(m, a).at, n - 1, t, hops - 1); }
  }

  /** Assignment changes the slot in which the references end, and no other: it has the new value. */
  lemma SetDoes(env: Env, a: Addr, n: nat, t: Addr, x: Value, k: nat, p: Value, m: Mem)
    requires LeadsToSlot(m, a, n, t) && Short(m, n) && Exists(m, t) && LeadsTo(m, x, k, p) && Short(m, k)
    ensures Sets(env, a, x, m).Running?
    ensures var c := Sets(env, a, x, m).c;
            c.pc == 1 && c.temps == [Ref(a)] && OnlyAt(m, c.m, t, Stored(env.fr.strict, p))
            && LeadsTo(c.m, Ref(a), n + 1, Stored(env.fr.strict, p))
  {
    LeadsFollow(m, x, k, p, Hops(m));
    SlotTarget(m, a, n, t, Hops(m));
    LeadsEnd(m, x, k, p);
    StoredPlain(m, env.fr.strict, p);
    SetStep(env, a, x, m);
    hide Follow, Target, LeadsTo, LeadsToSlot, Step;
    var c := Sets(env, a, x, m).c;
    assert OnlyAt(m, c.m, t, Stored(env.fr.strict, p));
    LeadsThere(m, c.m, a, n, t, Stored(env.fr.strict, p));
  }

  lemma SetStep(env: Env, a: Addr, x: Value, m: Mem)
    ensures Sets(env, a, x, m) == Running(Config(1, [Ref(a)], Assign(m, a, Assigned(env.fr, m, x))))
  {
    hide Assign, Assigned;
    var c := Config(0, [Ref(a), x], m);
    assert c.temps[..0] + [Ref(a)] == [Ref(a)];
  }

  lemma {:induction false} LeadsEnd(m: Mem, x: Value, k: nat, p: Value)
    requires LeadsTo(m, x, k, p)
    ensures !p.Ref?
    decreases k
  {
    if k > 0 { LeadsEnd(m, Load(m, x.at), k - 1, p); }
  }

  lemma StoredPlain(m: Mem, strict: nat, p: Value)
    requires !p.Ref?
    ensures Plain(m, p) == p && Plain(m, Nil) == Nil && !Stored(strict, p).Ref?
  {
  }

  lemma {:induction false} LeadsThere(m: Mem, m': Mem, a: Addr, n: nat, t: Addr, w: Value)
    requires LeadsToSlot(m, a, n, t) && OnlyAt(m, m', t, w) && !w.Ref?
    ensures LeadsTo(m', Ref(a), n + 1, w)
    decreases n
  {
    if n > 0 {
      SlotEnd(m, Load(m, a).at, n - 1, t);
      LeadsThere(m, m', Load(m, a).at, n - 1, t, w);
      assert Load(m', a) == Load(m, a);
    } else {
      assert LeadsTo(m', w, 0, w);
    }
  }

  lemma {:induction false} SlotEnd(m: Mem, a: Addr, n: nat, t: Addr)
    requires LeadsToSlot(m, a, n, t)
    ensures !Load(m, t).Ref?
    decreases n
  {
    if n > 0 { SlotEnd(m, Load(m, a).at, n - 1, t); }
  }

  /** Every variable is its own: what is written through the reference the chunk of one variable gives
      is read by the chunk of that variable, and by that of no other. */
  lemma VariablesApart(env: Env, kind: SlotKind, i: nat, m: Mem, m': Mem, w: Value) returns (a: Addr)
    requires Has(env.fr, m, kind, i)
    ensures Refers(env, kind, i, m) == Running(Config(1, [Ref(a)], m)) && Exists(m, a)
    ensures Reads(env, kind, i, m) == Running(Config(1, [Load(m, a)], m))
    ensures OnlyAt(m, m', a, w) ==> Reads(env, kind, i, m') == Running(Config(1, [w], m'))
    ensures OnlyAt(m, m', a, w) ==>
              forall k, j: nat :: (k != kind || j != i) && Has(env.fr, m, k, j) ==>
                Reads(env, k, j, m).Running? && Reads(env, k, j, m')
                == Running(Config(1, Reads(env, k, j, m).c.temps, m'))
  {
    a := match kind
      case ParN => StackAt(env.fr.pars + i)
      case VarN => StackAt(env.fr.vars + i)
      case LocalN => LocalAt(i)
      case GlobalN => GlobalAt(i);
  }

  /** Without an object there are no locals. */
  lemma NoLocals(env: Env, i: nat, m: Mem)
    requires !env.fr.hasObject
    ensures Reads(env, LocalN, i, m) == Refers(env, LocalN, i, m) == Failed(NoObject, m)
  {
  }

  /** The evaluator reads variables as the chunks do. */
  lemma EvalReads(env: Env, kind: SlotKind, i: nat, m: Mem)
    requires Has(env.fr, m, kind, i)
    ensures Reads(env, kind, i, m).Running? && Refers(env, kind, i, m).Running?
    ensures Eval(env, ESlot(kind, i), true, m) == Val(Reads(env, kind, i, m).c.temps[0], m)
    ensures Eval(env, ESlot(kind, i), false, m) == Val(Refers(env, kind, i, m).c.temps[0], m)
  {
  }

  /** `x = e`, for every variable and every right side that has a value: it succeeds, leaves a reference
      to `x`, `x` has the value from then on, and nothing else has changed since `e` was evaluated. */
  lemma AssignmentDoes(env: Env, kind: SlotKind, i: nat, a: Addr, e: Expr, valueOnly: bool, m: Mem, v: Value, m1: Mem,
                       k: nat, p: Value, n: nat, t: Addr) returns (m': Mem)
    requires Refers(env, kind, i, m) == Running(Config(1, [Ref(a)], m)) && Has(env.fr, m1, kind, i)
    requires Eval(env, e, true, m) == Val(v, m1) && LeadsTo(m1, v, k, p) && Short(m1, k)
    requires LeadsToSlot(m1, a, n, t) && Short(m1, n) && Exists(m1, t)
    ensures Eval(env, EBinary(Set, ESlot(kind, i), e), valueOnly, m) == Val(Ref(a), m')
    ensures OnlyAt(m1, m', t, Stored(env.fr.strict, p)) && LeadsTo(m', Ref(a), n + 1, Stored(env.fr.strict, p))
    ensures n == 0 ==> Eval(env, ESlot(kind, i), true, m') == Val(Stored(env.fr.strict, p), m')
  {
    hide LeadsTo, LeadsToSlot, Stored, Step, Has, Reads, Refers, Assign, Assigned, OnlyAt;
    SetStep(env, a, v, m1);
    ReferenceValue(env, kind, i, a, m);
    SetDoes(env, a, n, t, v, k, p, m1);
    m' := Sets(env, a, v, m1).c.m;
    var b := VariablesApart(env, kind, i, m1, m', Stored(env.fr.strict, p));
    SameSlot(env, kind, i, m, m1, a, b);
    SlotIsTarget(m1, a, n, t);
    StillHas(env.fr, m1, m', kind, i, t, Stored(env.fr.strict, p));
    EvalReads(env, kind, i, m');
  }

  lemma ReferenceValue(env: Env, kind: SlotKind, i: nat, a: Addr, m: Mem)
    requires Refers(env, kind, i, m) == Running(Config(1, [Ref(a)], m))
    ensures Eval(env, ESlot(kind, i), false, m) == Val(Ref(a), m)
  {
    assert [Ref(a)][0] == Ref(a);
  }

  lemma SameSlot(env: Env, kind: SlotKind, i: nat, m: Mem, m1: Mem, a: Addr, b: Addr)
    requires Refers(env, kind, i, m) == Running(Config(1, [Ref(a)], m))
    requires Refers(env, kind, i, m1) == Running(Config(1, [Ref(b)], m1))
    ensures a == b
  {
    assert [Ref(a)][0] == Ref(a) && [Ref(b)][0] == Ref(b);
  }

  lemma StillHas(fr: Frame, m: Mem, m': Mem, kind: SlotKind, i: nat, t: Addr, w: Value)
    requires Has(fr, m, kind, i) && OnlyAt(m, m', t, w)
    ensures Has(fr, m', kind, i)
  {
  }

  lemma SlotIsTarget(m: Mem, a: Addr, n: nat, t: Addr)
    requires LeadsToSlot(m, a, n, t)
    ensures n == 0 ==> t == a
  {
  }

  /** What is no reference cannot be assigned to. */
  lemma SetFails(env: Env, v: Value, x: Value, m: Mem)
    requires !v.Ref?
    ensures Step(env, [BIN(Set)], Config(0, [v, x], m)) == Failed(NotALocation, m)
  {
  }

  /** `[...]`: the array has the values the elements lead to, in their order. */
  lemma ArrayHolds(env: Env, rest: seq<Value>, vs: seq<Value>, m: Mem, n: nat -> nat, ps: seq<Value>)
    requires |ps| == |vs|
    requires forall i :: 0 <= i < |vs| ==> LeadsTo(m, vs[i], n(i), ps[i]) && Short(m, n(i))
    ensures Step(env, [ARRAY(|vs|)], Config(0, rest + vs, m)) == Running(Config(1, rest + [Array(ps)], m))
  {
    hide LeadsTo;
    var temps := rest + vs;
    assert temps[|temps| - |vs|..] == vs && temps[..|temps| - |vs|] == rest;
    forall i | 0 <= i < |vs| ensures PlainAll(m, vs)[i] == ps[i] { LeadsFollow(m, vs[i], n(i), ps[i], Hops(m)); }
    assert PlainAll(m, vs) == ps;
  }

  /** A returned value is not a reference, unless the function is declared to return one. */
  lemma ReturnHolds(env: Env, rest: seq<Value>, v: Value, m: Mem, n: nat, p: Value)
    requires LeadsTo(m, v, n, p) && Short(m, n)
    ensures Step(env, [RETURN], Config(0, rest + [v], m)) == Returned(if env.fr.returnRef then v else p, m)
  {
    LeadsFollow(m, v, n, p, Hops(m));
    hide LeadsTo, Follow;
    assert (rest + [v])[|rest|] == v;
  }

  /** Integers have 32 bits; the minus sign is one operator that does not depend on the others. */
  lemma NumbersWrap(env: Env, rest: seq<Value>, x: int, m: Mem)
    ensures -0x8000_0000 <= x < 0x8000_0000 ==>
              Step(env, [INT(x)], Config(0, rest, m)) == Running(Config(1, rest + [Int(x)], m))
    ensures -0x8000_0000 < x < 0x8000_0000 ==>
              Step(env, [UN(Neg)], Config(0, rest + [Int(x)], m)) == Running(Config(1, rest + [Int(-x)], m))
    ensures Step(env, [UN(Neg)], Config(0, rest + [Int(-0x8000_0000)], m))
            == Running(Config(1, rest + [Int(-0x8000_0000)], m))
  {
    assert rest[..|rest| - 0] == rest;
    forall y ensures (rest + [Int(y)])[|rest|] == Int(y) && (rest + [Int(y)])[..|rest|] == rest {
    }
  }

  // ----- what operators are written as -----

  /** The twelve compound operators and `=`: the left side stays a reference. */
  lemma AssigningWritten(strict: nat, kind: SlotKind, i: nat, r: Expr, valueOnly: bool, op: BinOp)
    requires match op
             case PowIt => true   case MulIt => true        case DivIt => true          case ModIt => true
             case Inc => true     case Dec => true          case LeftShiftIt => true    case RightShiftIt => true
             case ConcatIt => true case AndIt => true       case OrIt => true           case XOrIt => true
             case Set => true     case _ => false
    ensures CodeE(strict, EBinary(op, ESlot(kind, i), r), valueOnly)
            == [SLOT(kind, i, true)] + CodeE(strict, r, true) + [BIN(op)]
  {
    OpenBinary(strict, op, ESlot(kind, i), r, valueOnly);
  }

  /** The operators that compute a value: both sides are values. */
  lemma ComputingWritten(strict: nat, kind: SlotKind, i: nat, r: Expr, valueOnly: bool, op: BinOp)
    requires match op
             case Pow => true      case Div => true        case Mul => true          case Mod => true
             case Sub => true      case Sum => true        case LeftShift => true    case RightShift => true
             case LessThan => true case LessThanEqual => true case GreaterThan => true case GreaterThanEqual => true
             case Concat => true   case SEqual => true     case SNEqual => true
             case BitAnd => true   case BitXOr => true     case BitOr => true        case _ => false
    ensures CodeE(strict, EBinary(op, ESlot(kind, i), r), valueOnly)
            == [SLOT(kind, i, false)] + CodeE(strict, r, true) + [BIN(op)]
  {
    OpenBinary(strict, op, ESlot(kind, i), r, valueOnly);
  }

  /** `==` and `!=` have chunks of their own below strict 2. */
  lemma EqualityWritten(strict: nat, kind: SlotKind, i: nat, r: Expr, valueOnly: bool)
    ensures var left, right := [SLOT(kind, i, false)], CodeE(strict, r, true);
            CodeE(strict, EBinary(Equal, ESlot(kind, i), r), valueOnly)
            == left + right + [BIN(if strict == 0 || strict == 1 then EqualIdent else Equal)]
            && CodeE(strict, EBinary(NotEqual, ESlot(kind, i), r), valueOnly)
               == left + right + [BIN(if strict == 0 || strict == 1 then NotEqualIdent else NotEqual)]
  {
    OpenBinary(strict, Equal, ESlot(kind, i), r, valueOnly);
    OpenBinary(strict, NotEqual, ESlot(kind, i), r, valueOnly);
  }

  lemma OpenBinary(strict: nat, op: BinOp, l: Expr, r: Expr, valueOnly: bool)
    ensures CodeE(strict, EBinary(op, l, r), valueOnly)
            == CodeE(strict, l, !Modifies(op)) + CodeE(strict, r, true) + [BIN(BinChunk(op, strict))]
  {
  }

  /** `&&` and `||` are operators below strict 2, from then on jumps over the right side; `??` always
      is one, and `??=` jumps over right side and assignment. */
  lemma LogicWritten(strict: nat, kind: SlotKind, i: nat, r: Expr, valueOnly: bool)
    ensures var left, right, last := [SLOT(kind, i, false)], CodeE(strict, r, true), CodeE(strict, r, valueOnly);
            var over := |last| + 1;
            && CodeE(strict, ELogic(LAnd, ESlot(kind, i), r), valueOnly)
               == (if strict == 0 || strict == 1 then left + right + [BIN(And)] else left + [JMP(IfFalse, over)] + last)
            && CodeE(strict, ELogic(LOr, ESlot(kind, i), r), valueOnly)
               == (if strict == 0 || strict == 1 then left + right + [BIN(Or)] else left + [JMP(IfTrue, over)] + last)
            && CodeE(strict, ELogic(LNil, ESlot(kind, i), r), valueOnly) == left + [JMP(IfNotNil, over)] + last
    ensures var right := CodeE(strict, r, false);
            CodeE(strict, ENilAssign(ESlot(kind, i), r), valueOnly)
            == [SLOT(kind, i, true)] + [JMP(IfSet, |right| + 2)] + right + [BIN(Set)]
  {
    var x := ESlot(kind, i);
    OpenLogic(strict, LAnd, x, r, valueOnly);
    OpenLogic(strict, LOr, x, r, valueOnly);
    OpenLogic(strict, LNil, x, r, valueOnly);
    OpenNilAssign(strict, x, r, valueOnly);
    OpenSlot(strict, kind, i);
    hide CodeE;
  }

  lemma OpenSlot(strict: nat, kind: SlotKind, i: nat)
    ensures CodeE(strict, ESlot(kind, i), true) == [SLOT(kind, i, false)]
    ensures CodeE(strict, ESlot(kind, i), false) == [SLOT(kind, i, true)]
  {
  }

  lemma OpenLogic(strict: nat, op: Logic, l: Expr, r: Expr, valueOnly: bool)
    ensures var left, last := CodeE(strict, l, true), CodeE(strict, r, valueOnly);
            CodeE(strict, ELogic(op, l, r), valueOnly)
            == if ShortCircuit(op, strict) then left + [JMP(LogicJump(op), |last| + 1)] + last
               else left + CodeE(strict, r, true) + [BIN(LogicChunk(op))]
  {
  }

  lemma OpenNilAssign(strict: nat, l: Expr, r: Expr, valueOnly: bool)
    ensures var right := CodeE(strict, r, false);
            CodeE(strict, ENilAssign(l, r), valueOnly)
            == CodeE(strict, l, false) + [JMP(IfSet, |right| + 2)] + right + [BIN(Set)]
  {
    hide CodeE;
    var left, right := CodeE(strict, l, false), CodeE(strict, r, false);
    NilAssignCode(strict, l, r, valueOnly);
    assert left + [JMP(IfSet, |right| + 2)] + (right + [BIN(Set)]) == left + [JMP(IfSet, |right| + 2)] + right
        + [BIN(Set)];
  }

  lemma NilAssignCode(strict: nat, l: Expr, r: Expr, valueOnly: bool)
    ensures var second := CodeE(strict, r, false) + [BIN(Set)];
            CodeE(strict, ENilAssign(l, r), valueOnly) == CodeE(strict, l, false) + [JMP(IfSet, |second| + 1)] + second
  {
  }

  /** The operators with one operand. */
  lemma OneOperandWritten(strict: nat, kind: SlotKind, i: nat, valueOnly: bool)
    ensures var x, ref, value := ESlot(kind, i), SLOT(kind, i, true), SLOT(kind, i, false);
            && CodeE(strict, EUnary(PreInc, x), valueOnly) == [ref, UN(Inc1)]
            && CodeE(strict, EUnary(PreDec, x), valueOnly) == [ref, UN(Dec1)]
            && CodeE(strict, EUnary(PostInc, x), valueOnly) == [ref, UN(Inc1Postfix)]
            && CodeE(strict, EUnary(PostDec, x), valueOnly) == [ref, UN(Dec1Postfix)]
            && CodeE(strict, EUnary(PreBitNot, x), valueOnly) == [value, UN(BitNot)]
            && CodeE(strict, EUnary(PreNot, x), valueOnly) == [value, UN(Not)]
            && CodeE(strict, EUnary(PreNeg, x), valueOnly) == [value, UN(Neg)]
            && CodeE(strict, EUnary(PrePlus, x), valueOnly) == [if valueOnly then value else ref]
            && CodeE(strict, EUnary(VarOf, x), valueOnly) == [ref, UN(DynVar(!valueOnly))]
            && CodeE(strict, EUnary(ParOf, x), valueOnly) == [ref, UN(DynPar(!valueOnly))]
  {
    OpenSlot(strict, kind, i);
    forall op: Unary | op != PrePlus
      ensures CodeE(strict, EUnary(op, ESlot(kind, i)), valueOnly)
              == [SLOT(kind, i, KeepsRef(op)), UN(UnaryChunk(op, valueOnly))]
    {
      OpenUnary(strict, op, kind, i, valueOnly);
    }
    assert CodeE(strict, EUnary(PrePlus, ESlot(kind, i)), valueOnly) == CodeE(strict, ESlot(kind, i), valueOnly);
    hide CodeE;
  }

  lemma OpenUnary(strict: nat, op: Unary, kind: SlotKind, i: nat, valueOnly: bool)
    requires op != PrePlus
    ensures CodeE(strict, EUnary(op, ESlot(kind, i)), valueOnly)
            == [SLOT(kind, i, KeepsRef(op)), UN(UnaryChunk(op, valueOnly))]
  {
  }

  /** Calls: the parameters are brought to the number the function takes, a place for the result goes
      before a global call, and `->~` is the call that may find nobody. */
  lemma CallsWritten(strict: nat, target: Expr, args: Args, f: nat, pars: nat, valueOnly: bool)
    ensures var list, n := CodeArgs(strict, args), Count(args);
            var fill := if n == 10 then [] else [STACK(10 - n)];
            && CodeE(strict, ECall(Function(f, pars), args), valueOnly)
               == list + ((if n == pars then [] else [STACK(pars - n)]) + [FUNC(f, pars)])
            && CodeE(strict, ECall(Global(f), args), valueOnly) == [STACK(1)] + list + (fill + [CALL(CallGlobal, f)])
            && CodeE(strict, EMethod(Named(false, f), target, args), valueOnly)
               == CodeE(strict, target, false) + list + (fill + [CALL(CallObject, f)])
            && CodeE(strict, EMethod(Named(true, f), target, args), valueOnly)
               == CodeE(strict, target, false) + list + (fill + [CALL(CallFailSafe, f)])
  {
    hide CodeArgs;
    var list := CodeArgs(strict, args);
    assert [] + list == list;
  }
}
