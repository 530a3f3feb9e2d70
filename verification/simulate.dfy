/** Running the code of an expression delivers what the evaluator says. */
module ExprCorrect {
  import opened Bytecode
  import opened Source
  import opened Compile

  /** `frag` stands in `code` from `pos` on. */
  ghost predicate At(code: Code, pos: nat, frag: Code) {
    pos + |frag| <= |code| && forall i :: 0 <= i < |frag| ==> code[pos + i] == frag[i]
  }

  lemma AtSplit(code: Code, pos: nat, a: Code, b: Code)
    requires At(code, pos, a + b)
    ensures At(code, pos, a) && At(code, pos + |a|, b)
  {
    assert forall i :: 0 <= i < |a| ==> (a + b)[i] == a[i];
    forall i | 0 <= i < |b| ensures code[pos + |a| + i] == b[i] {
      assert (a + b)[|a| + i] == b[i];
    }
  }

  /** A phrase of one chunk. */
  lemma AtOne(code: Code, pos: nat, x: Chunk)
    requires At(code, pos, [x])
    ensures code[pos] == x
  {
    assert code[pos + 0] == [x][0];
  }

  lemma Chain(env: Env, code: Code, c: Config, j: nat, k: nat)
    requires Steps(env, code, c, j).Running?
    ensures Steps(env, code, c, j + k) == Steps(env, code, Steps(env, code, c, j).c, k)
  {
    StepsAdd(env, code, c, j, k);
  }

  lemma One(env: Env, code: Code, c: Config)
    ensures Steps(env, code, c, 1) == Step(env, code, c)
  {
    hide Step;
    assert Step(env, code, c).Running? ==>
      Steps(env, code, Step(env, code, c).c, 0) == Running(Step(env, code, c).c);
  }

  /** After `k` steps from `c` the expression's result is there: its value on top of `temps`
      and the position behind its code, or its error. */
  ghost predicate Delivers(env: Env, code: Code, c: Config, k: nat, temps: seq<Value>, end: int, r: EResult) {
    match r
    case Val(v, m) => Steps(env, code, c, k) == Running(Config(end, temps + [v], m))
    case Fault(x, m) => Steps(env, code, c, k) == Failed(x, m)
  }

  ghost predicate DeliversAll(env: Env, code: Code, c: Config, k: nat, temps: seq<Value>, end: int, r: AResult) {
    match r
    case Vals(vs, m) => Steps(env, code, c, k) == Running(Config(end, temps + vs, m))
    case ArgFault(x, m) => Steps(env, code, c, k) == Failed(x, m)
  }

  /** What follows a finished part. */
  lemma After(env: Env, code: Code, c: Config, j: nat, c1: Config, k: nat, temps: seq<Value>, end: int, r: EResult)
    requires Steps(env, code, c, j) == Running(c1)
    requires Delivers(env, code, c1, k, temps, end, r)
    ensures Delivers(env, code, c, j + k, temps, end, r)
  {
    Chain(env, code, c, j, k);
  }

  lemma AfterAll(env: Env, code: Code, c: Config, j: nat, c1: Config, k: nat, temps: seq<Value>, end: int, r: AResult)
    requires Steps(env, code, c, j) == Running(c1)
    requires DeliversAll(env, code, c1, k, temps, end, r)
    ensures DeliversAll(env, code, c, j + k, temps, end, r)
  {
    Chain(env, code, c, j, k);
  }

  // ----- single chunks -----

  lemma UnChunk(env: Env, code: Code, c: Config, temps: seq<Value>, v: Value, op: UnOp)
    requires 0 <= c.pc < |code| && code[c.pc] == UN(op) && c.temps == temps + [v]
    ensures Delivers(env, code, c, 1, temps, c.pc + 1, Result(ApplyUn(env, op, v, c.m)))
  {
    One(env, code, c);
    assert c.temps[..|c.temps| - 1] == temps;
  }

  lemma BinaryChunk(env: Env, code: Code, c: Config, temps: seq<Value>, a: Value, b: Value, op: BinOp)
    requires 0 <= c.pc < |code| && code[c.pc] == BIN(op) && c.temps == temps + [a] + [b]
    ensures Delivers(env, code, c, 1, temps, c.pc + 1, Result(ApplyBin(env, op, a, b, c.m)))
  {
    One(env, code, c);
    assert c.temps[..|c.temps| - 2] == temps;
  }

  lemma LogicJumpChunk(env: Env, code: Code, c: Config, op: Logic, off: int, temps: seq<Value>, a: Value)
    requires 0 <= c.pc < |code| && code[c.pc] == JMP(LogicJump(op), off) && c.temps == temps + [a]
    ensures Steps(env, code, c, 1) == Running(if Decided(op, c.m, a) then c.(pc := c.pc + off)
                                              else c.(pc := c.pc + 1, temps := temps))
  {
    One(env, code, c);
    assert c.temps[..|c.temps| - 1] == temps;
  }

  lemma SetJumpChunk(env: Env, code: Code, c: Config, off: int, temps: seq<Value>, a: Value)
    requires 0 <= c.pc < |code| && code[c.pc] == JMP(IfSet, off) && c.temps == temps + [a]
    ensures Steps(env, code, c, 1) == Running(c.(pc := c.pc + if IsNil(c.m, a) then 1 else off))
  {
    One(env, code, c);
  }

  lemma StackChunk(env: Env, code: Code, c: Config, n: int)
    requires 0 <= c.pc < |code| && code[c.pc] == STACK(n) && -n <= |c.temps|
    ensures Steps(env, code, c, 1) == Running(c.(pc := c.pc + 1, temps := ApplyStack(n, c.temps)))
  {
    One(env, code, c);
  }

  lemma NullChunk(env: Env, code: Code, pos: nat, temps: seq<Value>, m: Mem)
    requires At(code, pos, [STACK(1)])
    ensures Steps(env, code, Config(pos, temps, m), 1) == Running(Config(pos + 1, temps + [Nil], m))
  {
    AtOne(code, pos, STACK(1));
    StackChunk(env, code, Config(pos, temps, m), 1);
    assert ApplyStack(1, temps) == temps + [Nil];
  }

  lemma FuncChunk(env: Env, code: Code, c: Config, f: nat, temps: seq<Value>, vs: seq<Value>)
    requires 0 <= c.pc < |code| && code[c.pc] == FUNC(f, |vs|) && c.temps == temps + vs
    ensures Delivers(env, code, c, 1, temps, c.pc + 1, Result(env.sem.call(f, vs, c.m)))
  {
    One(env, code, c);
    assert c.temps[..|c.temps| - |vs|] == temps;
    assert c.temps[|c.temps| - |vs|..] == vs;
  }

  lemma CallChunk(env: Env, code: Code, c: Config, kind: CallKind, f: nat, temps: seq<Value>, t: Value, vs: seq<Value>)
    requires 0 <= c.pc < |code| && code[c.pc] == CALL(kind, f)
    requires |vs| == MAX_PAR && c.temps == temps + [t] + vs
    ensures Delivers(env, code, c, 1, temps, c.pc + 1, Result(env.sem.objCall(kind, f, t, vs, c.m)))
  {
    One(env, code, c);
    assert c.temps[..|c.temps| - MAX_PAR - 1] == temps;
    assert c.temps[|c.temps| - MAX_PAR - 1] == t;
    assert c.temps[|c.temps| - MAX_PAR..] == vs;
  }

  lemma ArrayChunk(env: Env, code: Code, c: Config, temps: seq<Value>, vs: seq<Value>)
    requires 0 <= c.pc < |code| && code[c.pc] == ARRAY(|vs|) && c.temps == temps + vs
    ensures Delivers(env, code, c, 1, temps, c.pc + 1, Val(Array(PlainAll(c.m, vs)), c.m))
  {
    One(env, code, c);
    assert c.temps[..|c.temps| - |vs|] == temps;
    assert c.temps[|c.temps| - |vs|..] == vs;
  }

  /** Stack chunk, if any, that makes `want` parameters out of those written. */
  lemma RunBalance(env: Env, code: Code, c: Config, temps: seq<Value>, vs: seq<Value>, want: nat) returns (k: nat)
    requires 0 <= c.pc && At(code, c.pc, Balance(|vs|, want)) && c.temps == temps + vs
    ensures Steps(env, code, c, k) == Running(c.(pc := c.pc + |Balance(|vs|, want)|, temps := temps + Fit(vs, want)))
  {
    k := |Balance(|vs|, want)|;
    if |vs| == want {
      assert Fit(vs, want) == vs;
    } else {
      AtOne(code, c.pc, STACK(want - |vs|));
      StackChunk(env, code, c, want - |vs|);
      assert ApplyStack(want - |vs|, temps + vs) == temps + Fit(vs, want);
    }
  }

  /** What lies below the dropped parameters is taken away and a null pushed. */
  lemma RunReplace(env: Env, code: Code, pos: nat, temps: seq<Value>, t: Value, m: Mem)
    requires At(code, pos, [STACK(-1), STACK(1)])
    ensures Steps(env, code, Config(pos, temps + [t], m), 2) == Running(Config(pos + 2, temps + [Nil], m))
  {
    hide Step;
    assert [STACK(-1), STACK(1)] == [STACK(-1)] + [STACK(1)];
    AtSplit(code, pos, [STACK(-1)], [STACK(1)]);
    AtOne(code, pos, STACK(-1));
    StackChunk(env, code, Config(pos, temps + [t], m), -1);
    assert ApplyStack(-1, temps + [t]) == temps;
    NullChunk(env, code, pos + 1, temps, m);
    Chain(env, code, Config(pos, temps + [t], m), 1, 1);
  }

  // ----- expressions with nothing left to fold -----

  /** No minus sign changes a number written before it. */
  predicate Unfolded(strict: nat, e: Expr)
    decreases e
  {
    match e
    case EUnary(op, arg) =>
      Unfolded(strict, arg) && !(op == PreNeg && EndsInInt(CodeE(strict, arg, false)))
    case EBinary(_, l, r) => Unfolded(strict, l) && Unfolded(strict, r)
    case ELogic(_, l, r) => Unfolded(strict, l) && Unfolded(strict, r)
    case ENilAssign(l, r) => Unfolded(strict, l) && Unfolded(strict, r)
    case ECall(_, args) => UnfoldedArgs(strict, args)
    case EMethod(_, t, args) => Unfolded(strict, t) && UnfoldedArgs(strict, args)
    case _ => true
  }

  predicate UnfoldedArgs(strict: nat, a: Args)
    decreases a
  {
    match a
    case NoArgs => true
    case Arg(e, _, rest) => Unfolded(strict, e) && UnfoldedArgs(strict, rest)
  }

  lemma {:induction false} RunE(env: Env, code: Code, pos: nat, e: Expr, valueOnly: bool, temps: seq<Value>, m: Mem)
    returns (k: nat)
    requires Unfolded(env.fr.strict, e)
    requires At(code, pos, CodeE(env.fr.strict, e, valueOnly))
    ensures Delivers(env, code, Config(pos, temps, m), k, temps, pos + |CodeE(env.fr.strict, e, valueOnly)|,
                     Eval(env, e, valueOnly, m))
    decreases e, 3
  {
    hide Step, CodeArgs, EvalArgs, UnfoldedArgs, CodeCall, CodeMethod;
    match e
    case EConst(_) => k := 1; RunAtom(env, code, pos, e, valueOnly, temps, m);
    case ESlot(_, _) => k := 1; RunAtom(env, code, pos, e, valueOnly, temps, m);
    case EUnary(_, _) => k := RunUnary(env, code, pos, e, valueOnly, temps, m);
    case EBinary(op, l, r) =>
      k := RunPair(env, code, pos, e, l, !Modifies(op), r, BinChunk(op, env.fr.strict), temps, m);
    case ELogic(_, _, _) => k := RunLogic(env, code, pos, e, valueOnly, temps, m);
    case ENilAssign(_, _) => k := RunAssignUnset(env, code, pos, e, valueOnly, temps, m);
    case ECall(_, _) => k := RunCalls(env, code, pos, e, valueOnly, temps, m);
    case EMethod(_, _, _) => k := RunCalls(env, code, pos, e, valueOnly, temps, m);
  }

  lemma RunUnary(env: Env, code: Code, pos: nat, e: Expr, valueOnly: bool, temps: seq<Value>, m: Mem)
    returns (k: nat)
    requires e.EUnary?
    requires Unfolded(env.fr.strict, e)
    requires At(code, pos, CodeE(env.fr.strict, e, valueOnly))
    ensures Delivers(env, code, Config(pos, temps, m), k, temps, pos + |CodeE(env.fr.strict, e, valueOnly)|,
                     Eval(env, e, valueOnly, m))
    decreases e, 2
  {
    hide Step, CodeArgs, EvalArgs, UnfoldedArgs, CodeCall, CodeMethod;
    if e.uop == PrePlus {
      k := RunE(env, code, pos, e.arg, valueOnly, temps, m);
    } else {
      k := RunArg(env, code, pos, e, e.arg, !KeepsRef(e.uop), UnaryChunk(e.uop, valueOnly), temps, m);
    }
  }

  lemma RunLogic(env: Env, code: Code, pos: nat, e: Expr, valueOnly: bool, temps: seq<Value>, m: Mem)
    returns (k: nat)
    requires e.ELogic?
    requires Unfolded(env.fr.strict, e)
    requires At(code, pos, CodeE(env.fr.strict, e, valueOnly))
    ensures Delivers(env, code, Config(pos, temps, m), k, temps, pos + |CodeE(env.fr.strict, e, valueOnly)|,
                     Eval(env, e, valueOnly, m))
    decreases e, 2
  {
    hide Step, CodeArgs, EvalArgs, UnfoldedArgs, CodeCall, CodeMethod;
    if ShortCircuit(e.lop, env.fr.strict) {
      k := RunShort(env, code, pos, e, e.lop, e.left, e.right, valueOnly, temps, m);
    } else {
      k := RunPair(env, code, pos, e, e.left, true, e.right, LogicChunk(e.lop), temps, m);
    }
  }

  lemma RunAssignUnset(env: Env, code: Code, pos: nat, e: Expr, valueOnly: bool, temps: seq<Value>, m: Mem)
    returns (k: nat)
    requires e.ENilAssign?
    requires Unfolded(env.fr.strict, e)
    requires At(code, pos, CodeE(env.fr.strict, e, valueOnly))
    ensures Delivers(env, code, Config(pos, temps, m), k, temps, pos + |CodeE(env.fr.strict, e, valueOnly)|,
                     Eval(env, e, valueOnly, m))
    decreases e, 2
  {
    hide Step, CodeArgs, EvalArgs, UnfoldedArgs, CodeCall, CodeMethod;
    k := RunNilAssign(env, code, pos, e, e.left, e.right, temps, m);
  }

  lemma RunCalls(env: Env, code: Code, pos: nat, e: Expr, valueOnly: bool, temps: seq<Value>, m: Mem)
    returns (k: nat)
    requires e.ECall? || e.EMethod?
    requires Unfolded(env.fr.strict, e)
    requires At(code, pos, CodeE(env.fr.strict, e, valueOnly))
    ensures Delivers(env, code, Config(pos, temps, m), k, temps, pos + |CodeE(env.fr.strict, e, valueOnly)|,
                     Eval(env, e, valueOnly, m))
    decreases e, 2
  {
    hide Step, CodeArgs, EvalArgs, UnfoldedArgs, CodeCall, CodeMethod;
    match e
    case ECall(callee, args) => k := RunCall(env, code, pos, e, callee, args, temps, m);
    case EMethod(how, target, args) => k := RunMethod(env, code, pos, e, how, target, args, temps, m);
  }

  lemma RunAtom(env: Env, code: Code, pos: nat, e: Expr, valueOnly: bool, temps: seq<Value>, m: Mem)
    requires (e.EConst? || e.ESlot?) && At(code, pos, CodeE(env.fr.strict, e, valueOnly))
    ensures Delivers(env, code, Config(pos, temps, m), 1, temps, pos + 1, Eval(env, e, valueOnly, m))
  {
    AtOne(code, pos, CodeE(env.fr.strict, e, valueOnly)[0]);
    One(env, code, Config(pos, temps, m));
    assert temps[..|temps|] == temps;
    assert ApplyStack(1, temps) == temps + [Nil];
  }

  /** One operand, one operator. */
  lemma RunArg(env: Env, code: Code, pos: nat, e: Expr, arg: Expr, valueOnly: bool, op: UnOp, temps: seq<Value>, m: Mem)
    returns (k: nat)
    requires arg < e && Unfolded(env.fr.strict, arg)
    requires At(code, pos, CodeE(env.fr.strict, arg, valueOnly) + [UN(op)])
    ensures Delivers(env, code, Config(pos, temps, m), k, temps, pos + |CodeE(env.fr.strict, arg, valueOnly)| + 1,
                     Then1(env, op, Eval(env, arg, valueOnly, m)))
    decreases e, 0
  {
    hide Step, CodeE, Eval, Unfolded;
    var ca := CodeE(env.fr.strict, arg, valueOnly);
    AtSplit(code, pos, ca, [UN(op)]);
    k := RunE(env, code, pos, arg, valueOnly, temps, m);
    var r := Eval(env, arg, valueOnly, m);
    if r.Val? {
      var c1 := Config(pos + |ca|, temps + [r.v], r.m);
      AtOne(code, pos + |ca|, UN(op));
      UnChunk(env, code, c1, temps, r.v, op);
      After(env, code, Config(pos, temps, m), k, c1, 1, temps, pos + |ca| + 1, Then1(env, op, r));
      k := k + 1;
    }
  }

  /** An operand on top of another, then the operator. */
  lemma RunSecond(env: Env, code: Code, pos: nat, e: Expr, a: Value, r: Expr, valueOnly: bool, op: BinOp,
                  temps: seq<Value>, m: Mem)
    returns (k: nat)
    requires r < e && Unfolded(env.fr.strict, r)
    requires At(code, pos, CodeE(env.fr.strict, r, valueOnly) + [BIN(op)])
    ensures Delivers(env, code, Config(pos, temps + [a], m), k, temps, pos + |CodeE(env.fr.strict, r, valueOnly)| + 1,
                     Then2(env, op, a, Eval(env, r, valueOnly, m)))
    decreases e, 0
  {
    hide Step, CodeE, Eval, Unfolded;
    var cr := CodeE(env.fr.strict, r, valueOnly);
    AtSplit(code, pos, cr, [BIN(op)]);
    k := RunE(env, code, pos, r, valueOnly, temps + [a], m);
    var b := Eval(env, r, valueOnly, m);
    if b.Val? {
      var c1 := Config(pos + |cr|, temps + [a] + [b.v], b.m);
      AtOne(code, pos + |cr|, BIN(op));
      BinaryChunk(env, code, c1, temps, a, b.v, op);
      After(env, code, Config(pos, temps + [a], m), k, c1, 1, temps, pos + |cr| + 1, Then2(env, op, a, b));
      k := k + 1;
    }
  }

  lemma RunPair(env: Env, code: Code, pos: nat, e: Expr, l: Expr, lv: bool, r: Expr, op: BinOp, temps: seq<Value>,
                m: Mem)
    returns (k: nat)
    requires l < e && r < e && Unfolded(env.fr.strict, l) && Unfolded(env.fr.strict, r)
    requires At(code, pos, CodeE(env.fr.strict, l, lv) + CodeE(env.fr.strict, r, true) + [BIN(op)])
    ensures var a := Eval(env, l, lv, m);
            Delivers(env, code, Config(pos, temps, m), k, temps,
                     pos + |CodeE(env.fr.strict, l, lv)| + |CodeE(env.fr.strict, r, true)| + 1,
                     if a.Fault? then a else Then2(env, op, a.v, Eval(env, r, true, a.m)))
    decreases e, 1
  {
    hide Step, CodeE, Eval, Unfolded;
    var cl, cr := CodeE(env.fr.strict, l, lv), CodeE(env.fr.strict, r, true);
    assert cl + cr + [BIN(op)] == cl + (cr + [BIN(op)]);
    AtSplit(code, pos, cl, cr + [BIN(op)]);
    k := RunE(env, code, pos, l, lv, temps, m);
    var a := Eval(env, l, lv, m);
    if a.Val? {
      var c1 := Config(pos + |cl|, temps + [a.v], a.m);
      var j := RunSecond(env, code, pos + |cl|, e, a.v, r, true, op, temps, a.m);
      After(env, code, Config(pos, temps, m), k, c1, j, temps, pos + |cl| + |cr| + 1,
            Then2(env, op, a.v, Eval(env, r, true, a.m)));
      k := k + j;
    }
  }

  lemma RunShort(env: Env, code: Code, pos: nat, e: Expr, op: Logic, l: Expr, r: Expr, valueOnly: bool,
                 temps: seq<Value>, m: Mem)
    returns (k: nat)
    requires l < e && r < e && Unfolded(env.fr.strict, l) && Unfolded(env.fr.strict, r)
    requires At(code, pos, CodeE(env.fr.strict, l, true)
                           + [JMP(LogicJump(op), |CodeE(env.fr.strict, r, valueOnly)| + 1)]
                           + CodeE(env.fr.strict, r, valueOnly))
    ensures var a := Eval(env, l, true, m);
            Delivers(env, code, Config(pos, temps, m), k, temps,
                     pos + |CodeE(env.fr.strict, l, true)| + 1 + |CodeE(env.fr.strict, r, valueOnly)|,
                     if a.Fault? || Decided(op, a.m, a.v) then a else Eval(env, r, valueOnly, a.m))
    decreases e, 0
  {
    hide Step, CodeE, Eval, Unfolded, Decided;
    var cl, cr := CodeE(env.fr.strict, l, true), CodeE(env.fr.strict, r, valueOnly);
    var jump := JMP(LogicJump(op), |cr| + 1);
    AtSplit(code, pos, cl + [jump], cr);
    AtSplit(code, pos, cl, [jump]);
    k := RunE(env, code, pos, l, true, temps, m);
    var a := Eval(env, l, true, m);
    if a.Val? {
      var c, c1 := Config(pos, temps, m), Config(pos + |cl|, temps + [a.v], a.m);
      AtOne(code, pos + |cl|, jump);
      LogicJumpChunk(env, code, c1, op, |cr| + 1, temps, a.v);
      Chain(env, code, c, k, 1);
      k := k + 1;
      if !Decided(op, a.m, a.v) {
        var j := RunE(env, code, pos + |cl| + 1, r, valueOnly, temps, a.m);
        After(env, code, c, k, Config(pos + |cl| + 1, temps, a.m), j, temps, pos + |cl| + 1 + |cr|,
              Eval(env, r, valueOnly, a.m));
        k := k + j;
      }
    }
  }

  lemma RunNilAssign(env: Env, code: Code, pos: nat, e: Expr, l: Expr, r: Expr, temps: seq<Value>, m: Mem)
    returns (k: nat)
    requires l < e && r < e && Unfolded(env.fr.strict, l) && Unfolded(env.fr.strict, r)
    requires At(code, pos, CodeE(env.fr.strict, l, false) + [JMP(IfSet, |CodeE(env.fr.strict, r, false)| + 2)]
                           + (CodeE(env.fr.strict, r, false) + [BIN(Set)]))
    ensures var a := Eval(env, l, false, m);
            Delivers(env, code, Config(pos, temps, m), k, temps,
                     pos + |CodeE(env.fr.strict, l, false)| + |CodeE(env.fr.strict, r, false)| + 2,
                     if a.Fault? || !IsNil(a.m, a.v) then a else Then2(env, Set, a.v, Eval(env, r, false, a.m)))
    decreases e, 1
  {
    hide Step, CodeE, Eval, Unfolded, IsNil;
    var cl, cr := CodeE(env.fr.strict, l, false), CodeE(env.fr.strict, r, false);
    var jump := JMP(IfSet, |cr| + 2);
    AtSplit(code, pos, cl + [jump], cr + [BIN(Set)]);
    AtSplit(code, pos, cl, [jump]);
    k := RunE(env, code, pos, l, false, temps, m);
    var a := Eval(env, l, false, m);
    if a.Val? {
      var c, c1 := Config(pos, temps, m), Config(pos + |cl|, temps + [a.v], a.m);
      AtOne(code, pos + |cl|, jump);
      SetJumpChunk(env, code, c1, |cr| + 2, temps, a.v);
      Chain(env, code, c, k, 1);
      k := k + 1;
      if IsNil(a.m, a.v) {
        var j := RunSecond(env, code, pos + |cl| + 1, e, a.v, r, false, Set, temps, a.m);
        After(env, code, c, k, Config(pos + |cl| + 1, temps + [a.v], a.m), j, temps, pos + |cl| + |cr| + 2,
              Then2(env, Set, a.v, Eval(env, r, false, a.m)));
        k := k + j;
      }
    }
  }

  // ----- parameters and calls -----

  lemma {:induction false} RunArgs(env: Env, code: Code, pos: nat, a: Args, temps: seq<Value>, m: Mem) returns (k: nat)
    requires UnfoldedArgs(env.fr.strict, a)
    requires At(code, pos, CodeArgs(env.fr.strict, a))
    ensures DeliversAll(env, code, Config(pos, temps, m), k, temps, pos + |CodeArgs(env.fr.strict, a)|,
                        EvalArgs(env, a, m))
    decreases a, 2
  {
    hide Step, CodeE, Eval, Unfolded;
    match a
    case NoArgs =>
      k := 0;
      assert temps + [] == temps;
    case Arg(e, keepRef, rest) =>
      var ce, cr := CodeE(env.fr.strict, e, !keepRef), CodeArgs(env.fr.strict, rest);
      AtSplit(code, pos, ce, cr);
      k := RunE(env, code, pos, e, !keepRef, temps, m);
      var v := Eval(env, e, !keepRef, m);
      if v.Val? {
        var c1 := Config(pos + |ce|, temps + [v.v], v.m);
        var j := RunArgs(env, code, pos + |ce|, rest, temps + [v.v], v.m);
        var vs := EvalArgs(env, rest, v.m);
        AfterAll(env, code, Config(pos, temps, m), k, c1, j, temps + [v.v], pos + |ce| + |cr|, vs);
        k := k + j;
        if vs.Vals? {
          assert temps + [v.v] + vs.vs == temps + ([v.v] + vs.vs);
        }
      }
  }

  lemma {:induction false} ArgCount(env: Env, a: Args, m: Mem)
    ensures EvalArgs(env, a, m).Vals? ==> |EvalArgs(env, a, m).vs| == Count(a)
  {
    hide Eval;
    match a
    case NoArgs =>
    case Arg(e, keepRef, rest) =>
      var r := Eval(env, e, !keepRef, m);
      if r.Val? { ArgCount(env, rest, r.m); }
  }

  /** The chunks behind the parameters of a call without a target. */
  lemma RunCallEnd(env: Env, code: Code, c: Config, callee: Callee, temps: seq<Value>, vs: seq<Value>) returns (k: nat)
    requires 0 <= c.pc && At(code, c.pc, CodeCall(callee, |vs|))
    requires c.temps == temps + (if CodeBefore(callee) == [] then [] else [Nil]) + vs
    ensures Delivers(env, code, c, k, temps, c.pc + |CodeCall(callee, |vs|)|, CallResult(env, callee, Vals(vs, c.m)))
  {
    hide Step;
    assert temps + [] == temps;
    match callee
    case Function(f, pars) =>
      k := RunWith(env, code, c, temps, vs, pars, FUNC(f, pars));
      FuncChunk(env, code, c.(pc := c.pc + |Balance(|vs|, pars)|, temps := temps + Fit(vs, pars)), f, temps,
          Fit(vs, pars));
      After(env, code, c, k, c.(pc := c.pc + |Balance(|vs|, pars)|, temps := temps + Fit(vs, pars)), 1, temps,
            c.pc + |CodeCall(callee, |vs|)|, CallResult(env, callee, Vals(vs, c.m)));
      k := k + 1;
    case Global(f) =>
      k := RunWith(env, code, c, temps + [Nil], vs, MAX_PAR, CALL(CallGlobal, f));
      var c1 := c.(pc := c.pc + |Balance(|vs|, MAX_PAR)|, temps := temps + [Nil] + Fit(vs, MAX_PAR));
      CallChunk(env, code, c1, CallGlobal, f, temps, Nil, Fit(vs, MAX_PAR));
      After(env, code, c, k, c1, 1, temps, c.pc + |CodeCall(callee, |vs|)|, CallResult(env, callee, Vals(vs, c.m)));
      k := k + 1;
    case NoInherited =>
      k := RunWith(env, code, c, temps, vs, 0, STACK(1));
      assert temps + Fit(vs, 0) == temps;
      NullChunk(env, code, c.pc + |Balance(|vs|, 0)|, temps, c.m);
      Chain(env, code, c, k, 1);
      k := k + 1;
    case NoGlobal => k := RunNobody(env, code, c, temps, Nil, vs);
    case NewArray =>
      k := 1;
      AtOne(code, c.pc, ARRAY(|vs|));
      ArrayChunk(env, code, c, temps, vs);
  }

  /** Brings the parameters to the number wanted; one more chunk follows. */
  lemma RunWith(env: Env, code: Code, c: Config, temps: seq<Value>, vs: seq<Value>, want: nat, last: Chunk)
    returns (k: nat)
    requires 0 <= c.pc && At(code, c.pc, Balance(|vs|, want) + [last]) && c.temps == temps + vs
    ensures Steps(env, code, c, k) == Running(c.(pc := c.pc + |Balance(|vs|, want)|, temps := temps + Fit(vs, want)))
    ensures At(code, c.pc + |Balance(|vs|, want)|, [last]) && code[c.pc + |Balance(|vs|, want)|] == last
  {
    AtSplit(code, c.pc, Balance(|vs|, want), [last]);
    AtOne(code, c.pc + |Balance(|vs|, want)|, last);
    k := RunBalance(env, code, c, temps, vs, want);
  }

  lemma RunNobody(env: Env, code: Code, c: Config, temps: seq<Value>, t: Value, vs: seq<Value>) returns (k: nat)
    requires 0 <= c.pc && At(code, c.pc, Balance(|vs|, 0) + [STACK(-1), STACK(1)]) && c.temps == temps + [t] + vs
    ensures Steps(env, code, c, k) == Running(Config(c.pc + |Balance(|vs|, 0)| + 2, temps + [Nil], c.m))
  {
    hide Step;
    AtSplit(code, c.pc, Balance(|vs|, 0), [STACK(-1), STACK(1)]);
    k := RunBalance(env, code, c, temps + [t], vs, 0);
    assert temps + [t] + Fit(vs, 0) == temps + [t];
    RunReplace(env, code, c.pc + |Balance(|vs|, 0)|, temps, t, c.m);
    Chain(env, code, c, k, 2);
    k := k + 2;
  }

  lemma RunMethodEnd(env: Env, code: Code, c: Config, how: Method, temps: seq<Value>, t: Value, vs: seq<Value>)
    returns (k: nat)
    requires 0 <= c.pc && At(code, c.pc, CodeMethod(how, |vs|)) && c.temps == temps + [t] + vs
    ensures Delivers(env, code, c, k, temps, c.pc + |CodeMethod(how, |vs|)|, MethodResult(env, how, t, Vals(vs, c.m)))
  {
    hide Step;
    match how
    case Named(failSafe, f) =>
      k := RunWith(env, code, c, temps + [t], vs, MAX_PAR, CALL(MethodKind(failSafe), f));
      var c1 := c.(pc := c.pc + |Balance(|vs|, MAX_PAR)|, temps := temps + [t] + Fit(vs, MAX_PAR));
      CallChunk(env, code, c1, MethodKind(failSafe), f, temps, t, Fit(vs, MAX_PAR));
      After(env, code, c, k, c1, 1, temps, c.pc + |CodeMethod(how, |vs|)|, MethodResult(env, how, t, Vals(vs, c.m)));
      k := k + 1;
    case Unknown => k := RunNobody(env, code, c, temps, t, vs);
  }

  lemma RunCall(env: Env, code: Code, pos: nat, e: Expr, callee: Callee, a: Args, temps: seq<Value>, m: Mem)
    returns (k: nat)
    requires a < e && UnfoldedArgs(env.fr.strict, a)
    requires At(code, pos, CodeBefore(callee) + CodeArgs(env.fr.strict, a) + CodeCall(callee, Count(a)))
    ensures Delivers(env, code, Config(pos, temps, m), k, temps,
                     pos + |CodeBefore(callee)| + |CodeArgs(env.fr.strict, a)| + |CodeCall(callee, Count(a))|,
                     CallResult(env, callee, EvalArgs(env, a, m)))
    decreases e, 0
  {
    hide Step, CodeArgs, EvalArgs, UnfoldedArgs, CodeCall;
    var before, ca := CodeBefore(callee), CodeArgs(env.fr.strict, a);
    AtSplit(code, pos, before + ca, CodeCall(callee, Count(a)));
    AtSplit(code, pos, before, ca);
    var base := temps + if before == [] then [] else [Nil];
    var c, c1 := Config(pos, temps, m), Config(pos + |before|, base, m);
    if before == [] { assert base == temps; } else { NullChunk(env, code, pos, temps, m); }
    assert Steps(env, code, c, |before|) == Running(c1);
    k := RunArgs(env, code, pos + |before|, a, base, m);
    var r := EvalArgs(env, a, m);
    AfterAll(env, code, c, |before|, c1, k, base, pos + |before| + |ca|, r);
    k := |before| + k;
    if r.Vals? {
      ArgCount(env, a, m);
      var c2 := Config(pos + |before| + |ca|, base + r.vs, r.m);
      var j := RunCallEnd(env, code, c2, callee, temps, r.vs);
      After(env, code, c, k, c2, j, temps, c2.pc + |CodeCall(callee, Count(a))|, CallResult(env, callee, r));
      k := k + j;
    }
  }

  lemma RunMethod(env: Env, code: Code, pos: nat, e: Expr, how: Method, target: Expr, a: Args, temps: seq<Value>,
                  m: Mem)
    returns (k: nat)
    requires target < e && a < e && Unfolded(env.fr.strict, target) && UnfoldedArgs(env.fr.strict, a)
    requires At(code, pos, CodeE(env.fr.strict, target, false) + CodeArgs(env.fr.strict, a) + CodeMethod(how, Count(a)))
    ensures var t := Eval(env, target, false, m);
            Delivers(env, code, Config(pos, temps, m), k, temps,
                     pos + |CodeE(env.fr.strict, target, false)| + |CodeArgs(env.fr.strict, a)| + |CodeMethod(how,
                         Count(a))|,
                     if t.Fault? then t else MethodResult(env, how, t.v, EvalArgs(env, a, t.m)))
    decreases e, 0
  {
    hide Step, CodeArgs, EvalArgs, UnfoldedArgs, CodeMethod, CodeE, Eval, Unfolded;
    var ct, ca := CodeE(env.fr.strict, target, false), CodeArgs(env.fr.strict, a);
    AtSplit(code, pos, ct + ca, CodeMethod(how, Count(a)));
    AtSplit(code, pos, ct, ca);
    k := RunE(env, code, pos, target, false, temps, m);
    var t := Eval(env, target, false, m);
    if t.Val? {
      var c, c1 := Config(pos, temps, m), Config(pos + |ct|, temps + [t.v], t.m);
      var j := RunArgs(env, code, pos + |ct|, a, temps + [t.v], t.m);
      var r := EvalArgs(env, a, t.m);
      AfterAll(env, code, c, k, c1, j, temps + [t.v], pos + |ct| + |ca|, r);
      k := k + j;
      if r.Vals? {
        ArgCount(env, a, t.m);
        var c2 := Config(pos + |ct| + |ca|, temps + [t.v] + r.vs, r.m);
        var i := RunMethodEnd(env, code, c2, how, temps, t.v, r.vs);
        After(env, code, c, k, c2, i, temps, c2.pc + |CodeMethod(how, Count(a))|, MethodResult(env, how, t.v, r));
        k := k + i;
      }
    }
  }
}
