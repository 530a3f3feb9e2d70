/** Running the code of a statement does what the evaluator says, round by round. */
module StmtCorrect {
  import opened Bytecode
  import opened Source
  import opened Compile
  import opened ExprCorrect

  predicate UnfoldedS(strict: nat, s: Stmt) {
    match s
    case SExpr(e, _) => Unfolded(strict, e)
    case SVar(_, e) => Unfolded(strict, e)
    case SSeq(a, b) => UnfoldedS(strict, a) && UnfoldedS(strict, b)
    case SIf(c, t) => Unfolded(strict, c) && UnfoldedS(strict, t)
    case SIfElse(c, t, e) => Unfolded(strict, c) && UnfoldedS(strict, t) && UnfoldedS(strict, e)
    case SWhile(c, b) => Unfolded(strict, c) && UnfoldedS(strict, b)
    case SFor(a, c, i, b) =>
      UnfoldedS(strict, a) && UnfoldedOpt(strict, c) && UnfoldedOpt(strict, i) && UnfoldedS(strict, b)
    case SForEach(_, e, b) => Unfolded(strict, e) && UnfoldedS(strict, b)
    case SReturn(e) => Unfolded(strict, e)
    case _ => true
  }

  predicate UnfoldedOpt(strict: nat, e: OptExpr) { e.Some? ==> Unfolded(strict, e.e) }

  /** After `k` steps from `c` the statement is done: at its end, at the target of a `break` or
      `continue`, returned or failed. Without an end in sight the run is still going on after
      at least `fuel` steps. */
  ghost predicate Performs(env: Env, code: Code, c: Config, k: nat, fuel: nat, temps: seq<Value>,
                           end: int, brk: int, cont: int, r: SResult) {
    var o := Steps(env, code, c, k);
    match r
    case Normal(m) => o == Running(Config(end, temps, m))
    case Broke(m) => k > 0 && o == Running(Config(brk, temps, m))
    case Continued(m) => k > 0 && o == Running(Config(cont, temps, m))
    case Return(v, m) => o == Returned(v, m)
    case SFault(x, m) => o == Failed(x, m)
    case OutOfFuel => k >= fuel && o.Running?
  }

  lemma AfterS(env: Env, code: Code, c: Config, j: nat, c1: Config, k: nat, fuel: nat, temps: seq<Value>,
               end: int, brk: int, cont: int, r: SResult)
    requires Steps(env, code, c, j) == Running(c1)
    requires Performs(env, code, c1, k, fuel, temps, end, brk, cont, r)
    ensures Performs(env, code, c, j + k, fuel, temps, end, brk, cont, r)
  {
    Chain(env, code, c, j, k);
  }

  // ----- single chunks -----

  lemma JumpChunk(env: Env, code: Code, c: Config, off: int)
    requires 0 <= c.pc < |code| && code[c.pc] == JMP(Always, off)
    ensures Steps(env, code, c, 1) == Running(c.(pc := c.pc + off))
  {
    One(env, code, c);
  }

  lemma CondChunk(env: Env, code: Code, c: Config, off: int, temps: seq<Value>, a: Value)
    requires 0 <= c.pc < |code| && code[c.pc] == JMP(Cond, off) && c.temps == temps + [a]
    ensures Steps(env, code, c, 1) == Running(c.(pc := c.pc + (if Truthy(c.m, a) then 1 else off), temps := temps))
  {
    One(env, code, c);
    assert c.temps[..|c.temps| - 1] == temps;
  }

  lemma ReturnChunk(env: Env, code: Code, c: Config, temps: seq<Value>, a: Value)
    requires 0 <= c.pc < |code| && code[c.pc] == RETURN && c.temps == temps + [a]
    ensures Steps(env, code, c, 1) == Returned(ReturnValue(env.fr, c.m, a), c.m)
  {
    One(env, code, c);
  }

  lemma VarChunk(env: Env, code: Code, c: Config, v: nat, temps: seq<Value>, a: Value)
    requires 0 <= c.pc < |code| && code[c.pc] == IVARN(v) && c.temps == temps + [a]
    ensures Steps(env, code, c, 1) ==
            Running(Config(c.pc + 1, temps, Assign(c.m, SlotAddr(env.fr, VarN, v), a)))
  {
    One(env, code, c);
    assert c.temps[..|c.temps| - 1] == temps;
  }

  lemma DropChunk(env: Env, code: Code, c: Config, temps: seq<Value>, dropped: seq<Value>)
    requires 0 <= c.pc < |code| && code[c.pc] == STACK(-|dropped|) && c.temps == temps + dropped
    ensures Steps(env, code, c, 1) == Running(Config(c.pc + 1, temps, c.m))
  {
    StackChunk(env, code, c, -|dropped|);
    assert ApplyStack(-|dropped|, c.temps) == temps;
  }

  // ----- a condition, an ignored value -----

  /** The condition of `if` or a loop: on to the next chunk, or over `skip` chunks. */
  lemma RunTest(env: Env, code: Code, pos: nat, e: Expr, off: int, temps: seq<Value>, m: Mem) returns (k: nat)
    requires Unfolded(env.fr.strict, e)
    requires At(code, pos, CodeE(env.fr.strict, e, true) + [JMP(Cond, off)])
    ensures var n := pos + |CodeE(env.fr.strict, e, true)|;
            var r := Eval(env, e, true, m);
            var o := Steps(env, code, Config(pos, temps, m), k);
            if r.Fault? then o == Failed(r.e, r.m)
            else k > 0 && o == Running(Config(n + (if Truthy(r.m, r.v) then 1 else off), temps, r.m))
  {
    hide Step, CodeE, Eval, Unfolded;
    var ce := CodeE(env.fr.strict, e, true);
    AtSplit(code, pos, ce, [JMP(Cond, off)]);
    AtOne(code, pos + |ce|, JMP(Cond, off));
    k := RunE(env, code, pos, e, true, temps, m);
    var r := Eval(env, e, true, m);
    if r.Val? {
      CondChunk(env, code, Config(pos + |ce|, temps + [r.v], r.m), off, temps, r.v);
      Chain(env, code, Config(pos, temps, m), k, 1);
      k := k + 1;
    }
  }

  lemma RunIgnored(env: Env, code: Code, pos: nat, e: Expr, valueOnly: bool, temps: seq<Value>, m: Mem) returns (k: nat)
    requires Unfolded(env.fr.strict, e)
    requires At(code, pos, CodeE(env.fr.strict, e, valueOnly) + [STACK(-1)])
    ensures var r := Eval(env, e, valueOnly, m);
            var o := Steps(env, code, Config(pos, temps, m), k);
            if r.Fault? then o == Failed(r.e, r.m)
            else k > 0 && o == Running(Config(pos + |CodeE(env.fr.strict, e, valueOnly)| + 1, temps, r.m))
  {
    hide Step, CodeE, Eval, Unfolded;
    var ce := CodeE(env.fr.strict, e, valueOnly);
    AtSplit(code, pos, ce, [STACK(-1)]);
    AtOne(code, pos + |ce|, STACK(-1));
    k := RunE(env, code, pos, e, valueOnly, temps, m);
    var r := Eval(env, e, valueOnly, m);
    if r.Val? {
      DropChunk(env, code, Config(pos + |ce|, temps + [r.v], r.m), temps, [r.v]);
      Chain(env, code, Config(pos, temps, m), k, 1);
      k := k + 1;
    }
  }

  // ----- statements -----

  lemma {:induction false} RunS(env: Env, code: Code, pos: nat, s: Stmt, ctl: Ctl, temps: seq<Value>, m: Mem, fuel: nat)
    returns (k: nat)
    requires UnfoldedS(env.fr.strict, s) && ctl.To? && LoopsOnly(s, true)
    requires At(code, pos, CodeS(env.fr.strict, s, env.fr.returnRef, ctl))
    ensures Performs(env, code, Config(pos, temps, m), k, fuel, temps,
                     pos + |CodeS(env.fr.strict, s, env.fr.returnRef, ctl)|, pos + ctl.brk, pos + ctl.cont,
                     Exec(env, fuel, s, m))
    decreases fuel, s, 3
  {
    hide Step, CodeE, Eval, Unfolded, LoopCode, CodeBody, IfCode, IfElseCode;
    var c := Config(pos, temps, m);
    match s
    case SEmpty => k := 0;
    case SExpr(e, valueOnly) => k := RunIgnored(env, code, pos, e, valueOnly, temps, m);
    case SVar(v, init) => k := RunVar(env, code, pos, v, init, temps, m);
    case SSeq(_, _) => k := RunSeq(env, code, pos, s, ctl, temps, m, fuel);
    case SIf(_, _) => k := RunIf(env, code, pos, s, ctl, temps, m, fuel);
    case SIfElse(_, _, _) => k := RunIfElse(env, code, pos, s, ctl, temps, m, fuel);
    case SWhile(_, _) => k := RunWhile(env, code, pos, s, ctl, temps, m, fuel);
    case SFor(_, _, _, _) => k := RunFor(env, code, pos, s, ctl, temps, m, fuel);
    case SForEach(_, _, _) => k := RunForEach(env, code, pos, s, ctl, temps, m, fuel);
    case SBreak =>
      k := 1;
      AtOne(code, pos, JMP(Always, ctl.brk));
      JumpChunk(env, code, c, ctl.brk);
    case SContinue =>
      k := 1;
      AtOne(code, pos, JMP(Always, ctl.cont));
      JumpChunk(env, code, c, ctl.cont);
    case SReturn(e) => k := RunReturn(env, code, pos, e, temps, m);
    case SReturnNil =>
      assert [NIL, RETURN] == [NIL] + [RETURN];
      AtSplit(code, pos, [NIL], [RETURN]);
      k := RunReturnNil(env, code, c);
  }

  lemma RunReturnNil(env: Env, code: Code, c: Config) returns (k: nat)
    requires 0 <= c.pc && At(code, c.pc, [NIL]) && At(code, c.pc + 1, [RETURN])
    ensures Steps(env, code, c, k) == Returned(Nil, c.m)
  {
    AtOne(code, c.pc, NIL);
    AtOne(code, c.pc + 1, RETURN);
    One(env, code, c);
    assert c.temps[..|c.temps|] == c.temps;
    var c1 := Config(c.pc + 1, c.temps + [Nil], c.m);
    ReturnChunk(env, code, c1, c.temps, Nil);
    Chain(env, code, c, 1, 1);
    k := 2;
  }

  lemma RunVar(env: Env, code: Code, pos: nat, v: nat, e: Expr, temps: seq<Value>, m: Mem) returns (k: nat)
    requires Unfolded(env.fr.strict, e)
    requires At(code, pos, CodeE(env.fr.strict, e, true) + [IVARN(v)])
    ensures var r := Eval(env, e, true, m);
            var o := Steps(env, code, Config(pos, temps, m), k);
            if r.Fault? then o == Failed(r.e, r.m)
            else o == Running(Config(pos + |CodeE(env.fr.strict, e, true)| + 1, temps,
                                     Assign(r.m, SlotAddr(env.fr, VarN, v), r.v)))
  {
    hide Step, CodeE, Eval, Unfolded;
    var ce := CodeE(env.fr.strict, e, true);
    AtSplit(code, pos, ce, [IVARN(v)]);
    AtOne(code, pos + |ce|, IVARN(v));
    k := RunE(env, code, pos, e, true, temps, m);
    var r := Eval(env, e, true, m);
    if r.Val? {
      VarChunk(env, code, Config(pos + |ce|, temps + [r.v], r.m), v, temps, r.v);
      Chain(env, code, Config(pos, temps, m), k, 1);
      k := k + 1;
    }
  }

  lemma RunReturn(env: Env, code: Code, pos: nat, e: Expr, temps: seq<Value>, m: Mem) returns (k: nat)
    requires Unfolded(env.fr.strict, e)
    requires At(code, pos, CodeE(env.fr.strict, e, !env.fr.returnRef) + [RETURN])
    ensures var r := Eval(env, e, !env.fr.returnRef, m);
            var o := Steps(env, code, Config(pos, temps, m), k);
            if r.Fault? then o == Failed(r.e, r.m)
            else o == Returned(ReturnValue(env.fr, r.m, r.v), r.m)
  {
    hide Step, CodeE, Eval, Unfolded;
    var ce := CodeE(env.fr.strict, e, !env.fr.returnRef);
    AtSplit(code, pos, ce, [RETURN]);
    AtOne(code, pos + |ce|, RETURN);
    k := RunE(env, code, pos, e, !env.fr.returnRef, temps, m);
    var r := Eval(env, e, !env.fr.returnRef, m);
    if r.Val? {
      ReturnChunk(env, code, Config(pos + |ce|, temps + [r.v], r.m), temps, r.v);
      Chain(env, code, Config(pos, temps, m), k, 1);
      k := k + 1;
    }
  }

  lemma RunSeq(env: Env, code: Code, pos: nat, s: Stmt, ctl: Ctl, temps: seq<Value>, m: Mem, fuel: nat) returns (k: nat)
    requires s.SSeq? && UnfoldedS(env.fr.strict, s) && ctl.To? && LoopsOnly(s, true)
    requires At(code, pos, CodeS(env.fr.strict, s, env.fr.returnRef, ctl))
    ensures Performs(env, code, Config(pos, temps, m), k, fuel, temps,
                     pos + |CodeS(env.fr.strict, s, env.fr.returnRef, ctl)|, pos + ctl.brk, pos + ctl.cont,
                     Exec(env, fuel, s, m))
    decreases fuel, s, 2
  {
    hide Step, CodeE, Eval, Unfolded, LoopCode, CodeBody, IfCode, IfElseCode;
    var ca := CodeS(env.fr.strict, s.first, env.fr.returnRef, ctl);
    var later := Later(ctl, |ca|);
    var cb := CodeS(env.fr.strict, s.second, env.fr.returnRef, later);
    AtSplit(code, pos, ca, cb);
    k := RunS(env, code, pos, s.first, ctl, temps, m, fuel);
    var r := Exec(env, fuel, s.first, m);
    if r.Normal? {
      var j := RunS(env, code, pos + |ca|, s.second, later, temps, r.m, fuel);
      AfterS(env, code, Config(pos, temps, m), k, Config(pos + |ca|, temps, r.m), j, fuel, temps,
             pos + |ca| + |cb|, pos + ctl.brk, pos + ctl.cont, Exec(env, fuel, s.second, r.m));
      k := k + j;
    }
  }

  lemma RunIf(env: Env, code: Code, pos: nat, s: Stmt, ctl: Ctl, temps: seq<Value>, m: Mem, fuel: nat) returns (k: nat)
    requires s.SIf? && UnfoldedS(env.fr.strict, s) && ctl.To? && LoopsOnly(s, true)
    requires At(code, pos, CodeS(env.fr.strict, s, env.fr.returnRef, ctl))
    ensures Performs(env, code, Config(pos, temps, m), k, fuel, temps,
                     pos + |CodeS(env.fr.strict, s, env.fr.returnRef, ctl)|, pos + ctl.brk, pos + ctl.cont,
                     Exec(env, fuel, s, m))
    decreases fuel, s, 2
  {
    hide Step, CodeE, Eval, Unfolded, LoopCode, CodeBody;
    var test := CodeE(env.fr.strict, s.cond, true);
    var later := Later(ctl, |test| + 1);
    var ct := CodeS(env.fr.strict, s.thn, env.fr.returnRef, later);
    AtSplit(code, pos, test + [JMP(Cond, |ct| + 1)], ct);
    k := RunTest(env, code, pos, s.cond, |ct| + 1, temps, m);
    var r := Eval(env, s.cond, true, m);
    if r.Val? && Truthy(r.m, r.v) {
      var j := RunS(env, code, pos + |test| + 1, s.thn, later, temps, r.m, fuel);
      AfterS(env, code, Config(pos, temps, m), k, Config(pos + |test| + 1, temps, r.m), j, fuel, temps,
             pos + |test| + 1 + |ct|, pos + ctl.brk, pos + ctl.cont, Exec(env, fuel, s.thn, r.m));
      k := k + j;
    }
  }

  lemma IfElseParts(code: Code, pos: nat, test: Code, thn: Code, els: Code)
    requires At(code, pos, IfElseCode(test, thn, els))
    ensures At(code, pos, test + [JMP(Cond, |thn| + 2)]) && At(code, pos + |test| + 1, thn)
    ensures pos + |test| + 1 + |thn| < |code| && code[pos + |test| + 1 + |thn|] == JMP(Always, |els| + 1)
    ensures At(code, pos + |test| + |thn| + 2, els)
  {
    AtSplit(code, pos, test + [JMP(Cond, |thn| + 2)] + thn + [JMP(Always, |els| + 1)], els);
    AtSplit(code, pos, test + [JMP(Cond, |thn| + 2)] + thn, [JMP(Always, |els| + 1)]);
    AtSplit(code, pos, test + [JMP(Cond, |thn| + 2)], thn);
    AtOne(code, pos + |test| + 1 + |thn|, JMP(Always, |els| + 1));
  }

  lemma RunIfElse(env: Env, code: Code, pos: nat, s: Stmt, ctl: Ctl, temps: seq<Value>, m: Mem, fuel: nat)
    returns (k: nat)
    requires s.SIfElse? && UnfoldedS(env.fr.strict, s) && ctl.To? && LoopsOnly(s, true)
    requires At(code, pos, CodeS(env.fr.strict, s, env.fr.returnRef, ctl))
    ensures Performs(env, code, Config(pos, temps, m), k, fuel, temps,
                     pos + |CodeS(env.fr.strict, s, env.fr.returnRef, ctl)|, pos + ctl.brk, pos + ctl.cont,
                     Exec(env, fuel, s, m))
    decreases fuel, s, 2
  {
    hide Step, CodeE, Eval, Unfolded, CodeS, UnfoldedS, LoopsOnly, Exec;
    var strict, ref := env.fr.strict, env.fr.returnRef;
    OpenIfElse(strict, s, ref, ctl);
    MeansIfElse(env, s, m, fuel);
    var c := Config(pos, temps, m);
    var test := CodeE(strict, s.cond, true);
    var later := Later(ctl, |test| + 1);
    var ct := CodeS(strict, s.thn, ref, later);
    var elsewhere := Later(ctl, |test| + |ct| + 2);
    var ce := CodeS(strict, s.els, ref, elsewhere);
    IfElseParts(code, pos, test, ct, ce);
    k := RunTest(env, code, pos, s.cond, |ct| + 2, temps, m);
    var r := Eval(env, s.cond, true, m);
    if r.Val? && Truthy(r.m, r.v) {
      var p := pos + |test| + 1;
      var j := RunS(env, code, p, s.thn, later, temps, r.m, fuel);
      var n := ThenOver(env, code, Config(p, temps, r.m), j, fuel, temps, p + |ct|, |ce| + 1, pos + ctl.brk,
          pos + ctl.cont,
                        Exec(env, fuel, s.thn, r.m));
      AfterS(env, code, c, k, Config(p, temps, r.m), n, fuel, temps, p + |ct| + |ce| + 1, pos + ctl.brk, pos + ctl.cont,
             Exec(env, fuel, s.thn, r.m));
      k := k + n;
    } else if r.Val? {
      var p := pos + |test| + |ct| + 2;
      var j := RunS(env, code, p, s.els, elsewhere, temps, r.m, fuel);
      AfterS(env, code, c, k, Config(p, temps, r.m), j, fuel, temps, p + |ce|, pos + ctl.brk, pos + ctl.cont,
             Exec(env, fuel, s.els, r.m));
      k := k + j;
    }
  }

  /** The parts of the statement, and what it means in terms of them. */
  lemma MeansIfElse(env: Env, s: Stmt, m: Mem, fuel: nat)
    requires s.SIfElse? && UnfoldedS(env.fr.strict, s) && LoopsOnly(s, true)
    ensures Unfolded(env.fr.strict, s.cond) && UnfoldedS(env.fr.strict, s.thn) && UnfoldedS(env.fr.strict, s.els)
    ensures LoopsOnly(s.thn, true) && LoopsOnly(s.els, true)
    ensures var r := Eval(env, s.cond, true, m);
            Exec(env, fuel, s, m) ==
            if r.Fault? then SFault(r.e, r.m)
            else if Truthy(r.m, r.v) then Exec(env, fuel, s.thn, r.m) else Exec(env, fuel, s.els, r.m)
  {
    hide Unfolded, Eval;
  }

  /** A statement with a jump behind it. */
  lemma ThenOver(env: Env, code: Code, c: Config, j: nat, fuel: nat, temps: seq<Value>, end: nat, off: int, brk: int,
                 cont: int,
                 r: SResult) returns (k: nat)
    requires Performs(env, code, c, j, fuel, temps, end, brk, cont, r) && end < |code| && code[end] == JMP(Always, off)
    ensures Performs(env, code, c, k, fuel, temps, end + off, brk, cont, r)
  {
    hide Step;
    k := j;
    if r.Normal? {
      JumpChunk(env, code, Config(end, temps, r.m), off);
      Chain(env, code, c, j, 1);
      k := j + 1;
    }
  }

  // ----- while and for -----

  lemma TestLength(strict: nat, c: OptExpr, rest: nat)
    ensures |CodeTest(strict, c, rest)| == TestLen(strict, c)
    ensures c.Some? <==> TestLen(strict, c) > 0
  {
    if c.Some? { CodeENonEmpty(strict, c.e, true); }
  }

  lemma LoopParts(strict: nat, code: Code, pos: nat, c: OptExpr, inc: OptExpr, body: Code)
    requires At(code, pos, LoopCode(strict, c, inc, body))
    ensures var p := TestLen(strict, c);
            var bs := BodyStart(strict, c, inc);
            At(code, pos, CodeTest(strict, c, bs - p + |body| + 1))
            && At(code, pos + p, CodeInc(strict, inc, p)) && At(code, pos + bs, body)
            && pos + bs + |body| < |code|
            && code[pos + bs + |body|] == JMP(Always, RoundEnd(strict, c, inc) - bs - |body|)
    ensures |LoopCode(strict, c, inc, body)| == BodyStart(strict, c, inc) + |body| + 1
  {
    hide CodeE, CodeTest, CodeInc, RoundEnd;
    var p := TestLen(strict, c);
    var bs := BodyStart(strict, c, inc);
    var test, step := CodeTest(strict, c, bs - p + |body| + 1), CodeInc(strict, inc, p);
    var back := JMP(Always, RoundEnd(strict, c, inc) - bs - |body|);
    TestLength(strict, c, bs - p + |body| + 1);
    AtSplit(code, pos, test + step + body, [back]);
    AtSplit(code, pos, test + step, body);
    AtSplit(code, pos, test, step);
    AtOne(code, pos + bs + |body|, back);
  }

  lemma IncParts(strict: nat, code: Code, pos: nat, e: Expr, test: nat)
    requires At(code, pos, CodeInc(strict, Some(e), test))
    ensures var n := |CodeE(strict, e, true)| + 1;
            code[pos] == JMP(Always, |CodeInc(strict, Some(e), test)|)
            && At(code, pos + 1, CodeE(strict, e, true) + [STACK(-1)])
            && |CodeInc(strict, Some(e), test)| == (if test == 0 then n + 1 else n + 2)
            && (test > 0 ==> pos + 1 + n < |code| && code[pos + 1 + n] == JMP(Always, -(test + n + 1)))
  {
    hide CodeE;
    var step := CodeE(strict, e, true) + [STACK(-1)];
    var over := JMP(Always, |CodeInc(strict, Some(e), test)|);
    if test == 0 {
      AtSplit(code, pos, [over], step);
    } else {
      AtSplit(code, pos, [over] + step, [JMP(Always, -(test + |step| + 1))]);
      AtSplit(code, pos, [over], step);
      AtOne(code, pos + 1 + |step|, JMP(Always, -(test + |step| + 1)));
    }
    AtOne(code, pos, over);
  }

  /** Where a round begins: at the loop's start, or straight at the body when there is no
      condition. */
  ghost predicate RoundStart(strict: nat, pos: nat, c: OptExpr, inc: OptExpr, pc: int) {
    pc == pos || (c.NoExpr? && pc == pos + BodyStart(strict, c, inc))
  }

  /** From the start of a round to the body, or out of the loop. */
  lemma RunEntry(env: Env, code: Code, pos: nat, c: OptExpr, inc: OptExpr, body: Code, pc: int, temps: seq<Value>,
                 m: Mem)
    returns (k: nat)
    requires UnfoldedOpt(env.fr.strict, c) && RoundStart(env.fr.strict, pos, c, inc, pc)
    requires At(code, pos, LoopCode(env.fr.strict, c, inc, body))
    ensures var r := EvalCond(env, c, m);
            var o := Steps(env, code, Config(pc, temps, m), k);
            if r.Fault? then o == Failed(r.e, r.m)
            else if Truthy(r.m, r.v) then o == Running(Config(pos + BodyStart(env.fr.strict, c, inc), temps, r.m))
            else o == Running(Config(pos + |LoopCode(env.fr.strict, c, inc, body)|, temps, r.m))
  {
    hide Step, CodeE, Eval, Unfolded, LoopCode;
    var strict := env.fr.strict;
    var p, bs := TestLen(strict, c), BodyStart(strict, c, inc);
    LoopParts(strict, code, pos, c, inc, body);
    TestLength(strict, c, bs - p + |body| + 1);
    k := 0;
    if c.Some? {
      k := RunTest(env, code, pos, c.e, bs - p + |body| + 2, temps, m);
    }
    var r := EvalCond(env, c, m);
    if r.Val? && Truthy(r.m, r.v) && inc.Some? && (c.Some? || pc == pos) {
      IncParts(strict, code, pos + p, inc.e, p);
      JumpChunk(env, code, Config(pos + p, temps, r.m), bs - p);
      Chain(env, code, Config(pc, temps, m), k, 1);
      k := k + 1;
    }
  }

  /** From the end of a round to the start of the next. */
  lemma RunInc(env: Env, code: Code, pos: nat, c: OptExpr, inc: OptExpr, body: Code, temps: seq<Value>, m: Mem)
    returns (k: nat, pc: int)
    requires UnfoldedOpt(env.fr.strict, inc)
    requires At(code, pos, LoopCode(env.fr.strict, c, inc, body))
    ensures var r := EvalInc(env, inc, m);
            var o := Steps(env, code, Config(pos + RoundEnd(env.fr.strict, c, inc), temps, m), k);
            RoundStart(env.fr.strict, pos, c, inc, pc) &&
            match r
            case Normal(m1) => o == Running(Config(pc, temps, m1))
            case SFault(x, m1) => o == Failed(x, m1)
            case _ => false
  {
    hide Step, CodeE, Eval, Unfolded, LoopCode;
    var strict := env.fr.strict;
    var p, bs := TestLen(strict, c), BodyStart(strict, c, inc);
    LoopParts(strict, code, pos, c, inc, body);
    TestLength(strict, c, 0);
    k, pc := 0, pos;
    if inc.Some? {
      IncParts(strict, code, pos + p, inc.e, p);
      k := RunIgnored(env, code, pos + p + 1, inc.e, true, temps, m);
      var r := Eval(env, inc.e, true, m);
      if c.NoExpr? {
        pc := pos + bs;
      } else if r.Val? {
        var n := |CodeE(strict, inc.e, true)| + 1;
        JumpChunk(env, code, Config(pos + p + 1 + n, temps, r.m), -(p + n + 1));
        Chain(env, code, Config(pos + p + 1, temps, m), k, 1);
        k := k + 1;
      }
    }
  }

  /** Every loop, from the start of a round. */
  lemma {:induction false} RunLoop(env: Env, code: Code, pos: nat, c: OptExpr, inc: OptExpr, body: Stmt, pc: int,
                                   temps: seq<Value>, m: Mem, fuel: nat) returns (k: nat)
    requires UnfoldedOpt(env.fr.strict, c) && UnfoldedOpt(env.fr.strict, inc) && UnfoldedS(env.fr.strict, body)
    requires LoopsOnly(body, true) && RoundStart(env.fr.strict, pos, c, inc, pc)
    requires At(code, pos, LoopCode(env.fr.strict, c, inc, CodeBody(env.fr.strict, c, inc, body, env.fr.returnRef)))
    ensures Performs(env, code, Config(pc, temps, m), k, fuel, temps,
                     pos + |LoopCode(env.fr.strict, c, inc, CodeBody(env.fr.strict, c, inc, body, env.fr.returnRef))|,
                         0, 0,
                     Loop(env, fuel, c, inc, body, m))
    decreases fuel, body, 5
  {
    hide Step, CodeE, Eval, Unfolded, LoopCode, CodeS, UnfoldedS, EvalCond, EvalInc, Exec, LoopsOnly;
    var bc := CodeBody(env.fr.strict, c, inc, body, env.fr.returnRef);
    var end := pos + |LoopCode(env.fr.strict, c, inc, bc)|;
    var bs := BodyStart(env.fr.strict, c, inc);
    k := 0;
    if fuel > 0 {
      k := RunEntry(env, code, pos, c, inc, bc, pc, temps, m);
      var r := EvalCond(env, c, m);
      if r.Val? && Truthy(r.m, r.v) {
        var j := RunRound(env, code, pos, c, inc, body, temps, r.m, fuel);
        AfterS(env, code, Config(pc, temps, m), k, Config(pos + bs, temps, r.m), j, fuel, temps, end, 0, 0,
               AfterBody(env, fuel, c, inc, body, Exec(env, fuel, body, r.m)));
        k := k + j;
      }
    }
  }

  /** What becomes of a loop once its body has ended with `r`. */
  function AfterBody(env: Env, fuel: nat, c: OptExpr, inc: OptExpr, body: Stmt, r: SResult): SResult
    requires fuel > 0
  {
    match r
    case Broke(m2) => Normal(m2)
    case Return(v, m2) => Return(v, m2)
    case SFault(x, m2) => SFault(x, m2)
    case OutOfFuel => OutOfFuel
    case Normal(m2) => Again(env, fuel, c, inc, body, m2)
    case Continued(m2) => Again(env, fuel, c, inc, body, m2)
  }

  /** The body and whatever follows it. */
  lemma RunRound(env: Env, code: Code, pos: nat, c: OptExpr, inc: OptExpr, body: Stmt, temps: seq<Value>, m: Mem,
                 fuel: nat)
    returns (k: nat)
    requires fuel > 0
    requires UnfoldedOpt(env.fr.strict, c) && UnfoldedOpt(env.fr.strict, inc) && UnfoldedS(env.fr.strict, body)
    requires LoopsOnly(body, true)
    requires At(code, pos, LoopCode(env.fr.strict, c, inc, CodeBody(env.fr.strict, c, inc, body, env.fr.returnRef)))
    ensures Performs(env, code, Config(pos + BodyStart(env.fr.strict, c, inc), temps, m), k, fuel, temps,
                     pos + |LoopCode(env.fr.strict, c, inc, CodeBody(env.fr.strict, c, inc, body, env.fr.returnRef))|,
                         0, 0,
                     AfterBody(env, fuel, c, inc, body, Exec(env, fuel, body, m)))
    decreases fuel, body, 4
  {
    hide Step, CodeE, Eval, Unfolded, LoopCode, CodeS, UnfoldedS, EvalInc, Exec, LoopsOnly, Loop, RoundEnd, BodyStart;
    var strict, ref := env.fr.strict, env.fr.returnRef;
    var ctl := BodyCtl(strict, c, inc, |CodeS(strict, body, ref, Pending)|);
    var bc := CodeS(strict, body, ref, ctl);
    var bs, re := BodyStart(strict, c, inc), RoundEnd(strict, c, inc);
    SameLength(strict, body, ref, Pending, ctl);
    LoopParts(strict, code, pos, c, inc, bc);
    var c0 := Config(pos + bs, temps, m);
    k := RunS(env, code, pos + bs, body, ctl, temps, m, fuel);
    var r := Exec(env, fuel, body, m);
    if r.Normal? {
      JumpChunk(env, code, Config(pos + bs + |bc|, temps, r.m), re - bs - |bc|);
      Chain(env, code, c0, k, 1);
      k := k + 1;
    }
    if r.Normal? || r.Continued? {
      assert k > 0 && Steps(env, code, c0, k) == Running(Config(pos + re, temps, r.m));
      var j, pc := RunInc(env, code, pos, c, inc, bc, temps, r.m);
      Chain(env, code, c0, k, j);
      k := k + j;
      var i := EvalInc(env, inc, r.m);
      if i.Normal? {
        var n := RunLoop(env, code, pos, c, inc, body, pc, temps, i.m, fuel - 1);
        AfterFuel(env, code, c0, k, Config(pc, temps, i.m), n, fuel, temps, pos + |LoopCode(strict, c, inc, bc)|,
                  Loop(env, fuel - 1, c, inc, body, i.m));
        k := k + n;
      }
    }
  }

  lemma AfterFuel(env: Env, code: Code, c: Config, j: nat, c1: Config, k: nat, fuel: nat, temps: seq<Value>, end: int,
                  r: SResult)
    requires fuel > 0 && j > 0 && Steps(env, code, c, j) == Running(c1)
    requires Performs(env, code, c1, k, fuel - 1, temps, end, 0, 0, r)
    ensures Performs(env, code, c, j + k, fuel, temps, end, 0, 0, r)
  {
    Chain(env, code, c, j, k);
  }

  lemma {:induction false} LoopEnds(env: Env, fuel: nat, c: OptExpr, inc: OptExpr, body: Stmt, m: Mem)
    ensures !Loop(env, fuel, c, inc, body, m).Broke? && !Loop(env, fuel, c, inc, body, m).Continued?
    decreases fuel
  {
    hide Exec, Eval;
    if fuel > 0 {
      forall m1 | EvalInc(env, inc, m1).Normal? ensures
        !Loop(env, fuel - 1, c, inc, body, EvalInc(env, inc, m1).m).Broke?
        && !Loop(env, fuel - 1, c, inc, body, EvalInc(env, inc, m1).m).Continued?
      {
        LoopEnds(env, fuel - 1, c, inc, body, EvalInc(env, inc, m1).m);
      }
    }
  }

  lemma RunWhile(env: Env, code: Code, pos: nat, s: Stmt, ctl: Ctl, temps: seq<Value>, m: Mem, fuel: nat)
    returns (k: nat)
    requires s.SWhile? && UnfoldedS(env.fr.strict, s) && ctl.To? && LoopsOnly(s, true)
    requires At(code, pos, CodeS(env.fr.strict, s, env.fr.returnRef, ctl))
    ensures Performs(env, code, Config(pos, temps, m), k, fuel, temps,
                     pos + |CodeS(env.fr.strict, s, env.fr.returnRef, ctl)|, pos + ctl.brk, pos + ctl.cont,
                     Exec(env, fuel, s, m))
    decreases fuel, s, 2
  {
    hide Step, CodeE, Eval, Unfolded, LoopCode, CodeBody, Loop;
    k := RunLoop(env, code, pos, Some(s.cond), NoExpr, s.body, pos, temps, m, fuel);
    LoopEnds(env, fuel, Some(s.cond), NoExpr, s.body, m);
  }

  lemma SimpleElseIsPlain(strict: nat, s: Stmt, ref: bool, c1: Ctl, c2: Ctl)
    requires s.SIfElse? && LoopsOnly(s, false)
    ensures CodeS(strict, s, ref, c1) == CodeS(strict, s, ref, c2)
    decreases s, 0
  {
    hide CodeE, LoopCode, CodeBody, IfCode, IfElseCode;
    var n := |CodeE(strict, s.cond, true)|;
    SimpleIsPlain(strict, s.thn, ref, Later(c1, n + 1), Later(c2, n + 1));
    var k := n + |CodeS(strict, s.thn, ref, Later(c1, n + 1))| + 2;
    SimpleIsPlain(strict, s.els, ref, Later(c1, k), Later(c2, k));
  }

  lemma {:induction false} SimpleIsPlain(strict: nat, s: Stmt, ref: bool, c1: Ctl, c2: Ctl)
    requires LoopsOnly(s, false)
    ensures CodeS(strict, s, ref, c1) == CodeS(strict, s, ref, c2)
    decreases s, 1
  {
    hide CodeE, LoopCode, CodeBody, IfCode, IfElseCode;
    match s
    case SSeq(a, b) =>
      SimpleIsPlain(strict, a, ref, c1, c2);
      var n := |CodeS(strict, a, ref, c1)|;
      SimpleIsPlain(strict, b, ref, Later(c1, n), Later(c2, n));
    case SIf(c, t) =>
      var n := |CodeE(strict, c, true)|;
      SimpleIsPlain(strict, t, ref, Later(c1, n + 1), Later(c2, n + 1));
    case SIfElse(c, t, e) => SimpleElseIsPlain(strict, s, ref, c1, c2);
    case _ =>
  }

  lemma {:induction false} SimpleLoopsOnly(s: Stmt, inLoop: bool)
    requires Simple(s)
    ensures LoopsOnly(s, inLoop)
  {
    if s.SSeq? { SimpleLoopsOnly(s.first, inLoop); SimpleLoopsOnly(s.second, inLoop); }
  }

  lemma {:induction false} SimpleEnds(env: Env, fuel: nat, s: Stmt, m: Mem)
    requires Simple(s)
    ensures Exec(env, fuel, s, m).Normal? || Exec(env, fuel, s, m).SFault?
    decreases s
  {
    hide Eval;
    if s.SSeq? {
      SimpleEnds(env, fuel, s.first, m);
      var r := Exec(env, fuel, s.first, m);
      if r.Normal? { SimpleEnds(env, fuel, s.second, r.m); }
    }
  }

  lemma RunFor(env: Env, code: Code, pos: nat, s: Stmt, ctl: Ctl, temps: seq<Value>, m: Mem, fuel: nat) returns (k: nat)
    requires s.SFor? && UnfoldedS(env.fr.strict, s) && ctl.To? && LoopsOnly(s, true)
    requires At(code, pos, CodeS(env.fr.strict, s, env.fr.returnRef, ctl))
    ensures Performs(env, code, Config(pos, temps, m), k, fuel, temps,
                     pos + |CodeS(env.fr.strict, s, env.fr.returnRef, ctl)|, pos + ctl.brk, pos + ctl.cont,
                     Exec(env, fuel, s, m))
    decreases fuel, s, 2
  {
    hide Step, CodeE, Eval, Unfolded, LoopCode, CodeBody, Loop;
    var strict, ref := env.fr.strict, env.fr.returnRef;
    var ca := CodeS(strict, s.start, ref, Pending);
    var loop := LoopCode(strict, s.test, s.inc, CodeBody(strict, s.test, s.inc, s.body, ref));
    AtSplit(code, pos, ca, loop);
    SimpleLoopsOnly(s.start, false);
    SimpleLoopsOnly(s.start, true);
    SimpleIsPlain(strict, s.start, ref, Pending, To(0, 0));
    SimpleEnds(env, fuel, s.start, m);
    k := RunS(env, code, pos, s.start, To(0, 0), temps, m, fuel);
    var r := Exec(env, fuel, s.start, m);
    if r.Normal? {
      var j := RunLoop(env, code, pos + |ca|, s.test, s.inc, s.body, pos + |ca|, temps, r.m, fuel);
      LoopEnds(env, fuel, s.test, s.inc, s.body, r.m);
      AfterS(env, code, Config(pos, temps, m), k, Config(pos + |ca|, temps, r.m), j, fuel, temps,
             pos + |ca| + |loop|, 0, 0, Loop(env, fuel, s.test, s.inc, s.body, r.m));
      k := k + j;
    }
  }

  // ----- for ... in -----

  /** What lies on the stack before round `i`: the array, as it was written the first time, and
      the position. */
  ghost predicate AtRound(m: Mem, items: seq<Value>, i: nat, arr: Value, p: Value) {
    Position(p) == i && (if i == 0 then Plain(m, arr) else arr) == Array(items)
  }

  lemma ForEachChunk(env: Env, code: Code, c: Config, v: nat, temps: seq<Value>, items: seq<Value>, i: nat,
                     arr: Value, p: Value)
    requires 0 <= c.pc < |code| && code[c.pc] == FOREACH(v) && c.temps == temps + [arr, p]
    requires i <= |items| && AtRound(c.m, items, i, arr, p)
    ensures Steps(env, code, c, 1) == Running(
              if i == |items| then c.(pc := c.pc + 1, temps := temps + [Array(items), p])
              else Config(c.pc + 2, temps + [Array(items), Int(i + 1)],
                  Assign(c.m, SlotAddr(env.fr, VarN, v), items[i])))
  {
    One(env, code, c);
    assert c.temps[..|c.temps| - 2] == temps;
    assert temps + [Array(items)] + [p] == temps + [Array(items), p];
    assert temps + [Array(items)] + [Int(i + 1)] == temps + [Array(items), Int(i + 1)];
  }

  /** The code of the rounds, from FOREACH on. */
  ghost predicate EachCode(code: Code, pos: nat, v: nat, body: Code) {
    && At(code, pos + 2, body)
    && pos + |body| + 3 < |code|
    && code[pos] == FOREACH(v) && code[pos + 1] == JMP(Always, |body| + 2)
    && code[pos + 2 + |body|] == JMP(Always, -(|body| + 2)) && code[pos + 3 + |body|] == STACK(-2)
  }

  lemma {:induction false} RunEach(env: Env, code: Code, pos: nat, v: nat, items: seq<Value>, i: nat, body: Stmt,
                                   bc: Code,
                                   arr: Value, p: Value, temps: seq<Value>, m: Mem, fuel: nat) returns (k: nat)
    requires UnfoldedS(env.fr.strict, body) && LoopsOnly(body, true)
    requires i <= |items| && AtRound(m, items, i, arr, p)
    requires bc == CodeS(env.fr.strict, body, env.fr.returnRef, To(|bc| + 1, -2)) && EachCode(code, pos, v, bc)
    ensures Performs(env, code, Config(pos, temps + [arr, p], m), k, fuel, temps, pos + |bc| + 4, 0, 0,
                     Each(env, fuel, v, items, i, body, m))
    decreases fuel, body, 4, 2 * (|items| - i) + 1
  {
    hide Step, CodeE, Eval, Unfolded, CodeS, UnfoldedS, Exec, LoopsOnly;
    var c := Config(pos, temps + [arr, p], m);
    ForEachChunk(env, code, c, v, temps, items, i, arr, p);
    k := 1;
    if i == |items| {
      k := RunOut(env, code, c, k, pos + 1, |bc| + 2, temps, [Array(items), p], m);
    } else {
      var inside := temps + [Array(items), Int(i + 1)];
      var m1 := Assign(m, SlotAddr(env.fr, VarN, v), items[i]);
      var j := RunEachBody(env, code, pos, v, items, i, body, bc, temps, m1, fuel);
      AfterS(env, code, c, k, Config(pos + 2, inside, m1), j, fuel, temps, pos + |bc| + 4, 0, 0,
             Each(env, fuel, v, items, i, body, m));
      k := k + j;
    }
  }

  /** The body of one round, with the variable set, and the rounds that follow. */
  lemma RunEachBody(env: Env, code: Code, pos: nat, v: nat, items: seq<Value>, i: nat, body: Stmt, bc: Code,
                    temps: seq<Value>, m1: Mem, fuel: nat) returns (k: nat)
    requires UnfoldedS(env.fr.strict, body) && LoopsOnly(body, true) && i < |items|
    requires bc == CodeS(env.fr.strict, body, env.fr.returnRef, To(|bc| + 1, -2)) && EachCode(code, pos, v, bc)
    ensures Performs(env, code, Config(pos + 2, temps + [Array(items), Int(i + 1)], m1), k, fuel, temps,
            pos + |bc| + 4, 0, 0,
                     AfterRound(env, fuel, v, items, i, body, Exec(env, fuel, body, m1)))
    decreases fuel, body, 4, 2 * (|items| - i)
  {
    hide Step, CodeE, Eval, Unfolded, CodeS, UnfoldedS, Exec, LoopsOnly, Each;
    var inside := temps + [Array(items), Int(i + 1)];
    var c := Config(pos + 2, inside, m1);
    k := RunS(env, code, pos + 2, body, To(|bc| + 1, -2), inside, m1, fuel);
    var r := Exec(env, fuel, body, m1);
    if r.Broke? {
      DropChunk(env, code, Config(pos + 3 + |bc|, inside, r.m), temps, [Array(items), Int(i + 1)]);
      Chain(env, code, c, k, 1);
      k := k + 1;
    } else if r.Normal? || r.Continued? {
      if r.Normal? {
        JumpChunk(env, code, Config(pos + 2 + |bc|, inside, r.m), -(|bc| + 2));
        Chain(env, code, c, k, 1);
        k := k + 1;
      }
      var n := RunEach(env, code, pos, v, items, i + 1, body, bc, Array(items), Int(i + 1), temps, r.m, fuel);
      AfterS(env, code, c, k, Config(pos, inside, r.m), n, fuel, temps, pos + |bc| + 4, 0, 0,
             Each(env, fuel, v, items, i + 1, body, r.m));
      k := k + n;
    }
  }

  /** What a round that ends with `r` leads to. */
  function AfterRound(env: Env, fuel: nat, v: nat, items: seq<Value>, i: nat, body: Stmt, r: SResult): SResult
    requires i < |items|
  {
    match r
    case Broke(m1) => Normal(m1)
    case Normal(m1) => Each(env, fuel, v, items, i + 1, body, m1)
    case Continued(m1) => Each(env, fuel, v, items, i + 1, body, m1)
    case _ => r
  }

  /** Out of the loop: the jump behind FOREACH, then array and position are dropped. */
  lemma RunOut(env: Env, code: Code, c: Config, j: nat, pc: nat, off: nat, temps: seq<Value>, dropped: seq<Value>,
               m: Mem)
    returns (k: nat)
    requires Steps(env, code, c, j) == Running(Config(pc, temps + dropped, m)) && |dropped| == 2
    requires pc + off < |code| && code[pc] == JMP(Always, off) && code[pc + off] == STACK(-2)
    ensures Steps(env, code, c, k) == Running(Config(pc + off + 1, temps, m))
  {
    hide Step;
    JumpChunk(env, code, Config(pc, temps + dropped, m), off);
    Chain(env, code, c, j, 1);
    DropChunk(env, code, Config(pc + off, temps + dropped, m), temps, dropped);
    Chain(env, code, c, j + 1, 1);
    k := j + 2;
  }

  lemma {:induction false} EachEnds(env: Env, fuel: nat, v: nat, items: seq<Value>, i: nat, body: Stmt, m: Mem)
    requires i <= |items|
    ensures !Each(env, fuel, v, items, i, body, m).Broke? && !Each(env, fuel, v, items, i, body, m).Continued?
    decreases |items| - i
  {
    hide Exec;
    if i < |items| {
      var r := Exec(env, fuel, body, Assign(m, SlotAddr(env.fr, VarN, v), items[i]));
      if r.Normal? || r.Continued? { EachEnds(env, fuel, v, items, i + 1, body, r.m); }
    }
  }

  lemma EachParts(code: Code, pos: nat, e: Code, zero: Chunk, v: nat, b: Code)
    requires At(code, pos, e + [zero] + [FOREACH(v), JMP(Always, |b| + 2)] + b + [JMP(Always, -(|b| + 2)), STACK(-2)])
    ensures At(code, pos, e) && At(code, pos + |e|, [zero]) && EachCode(code, pos + |e| + 1, v, b)
  {
    var head, tail := [FOREACH(v), JMP(Always, |b| + 2)], [JMP(Always, -(|b| + 2)), STACK(-2)];
    AtSplit(code, pos, e + [zero] + head + b, tail);
    AtSplit(code, pos, e + [zero] + head, b);
    AtSplit(code, pos, e + [zero], head);
    AtSplit(code, pos, e, [zero]);
    assert head == [FOREACH(v)] + [JMP(Always, |b| + 2)] && tail == [JMP(Always, -(|b| + 2))] + [STACK(-2)];
    AtSplit(code, pos + |e| + 1, [FOREACH(v)], [JMP(Always, |b| + 2)]);
    AtSplit(code, pos + |e| + 3 + |b|, [JMP(Always, -(|b| + 2))], [STACK(-2)]);
    AtOne(code, pos + |e| + 1, FOREACH(v));
    AtOne(code, pos + |e| + 2, JMP(Always, |b| + 2));
    AtOne(code, pos + |e| + 3 + |b|, JMP(Always, -(|b| + 2)));
    AtOne(code, pos + |e| + 4 + |b|, STACK(-2));
  }

  lemma NotAnArrayChunk(env: Env, code: Code, c: Config, v: nat, temps: seq<Value>, arr: Value, p: Value)
    requires 0 <= c.pc < |code| && code[c.pc] == FOREACH(v) && c.temps == temps + [arr] + [p]
    requires Position(p) == 0 && !Plain(c.m, arr).Array?
    ensures Steps(env, code, c, 1) == Failed(NotAnArray, c.m)
  {
    One(env, code, c);
  }

  lemma RunForEach(env: Env, code: Code, pos: nat, s: Stmt, ctl: Ctl, temps: seq<Value>, m: Mem, fuel: nat)
    returns (k: nat)
    requires s.SForEach? && UnfoldedS(env.fr.strict, s) && ctl.To? && LoopsOnly(s, true)
    requires At(code, pos, CodeS(env.fr.strict, s, env.fr.returnRef, ctl))
    ensures Performs(env, code, Config(pos, temps, m), k, fuel, temps,
                     pos + |CodeS(env.fr.strict, s, env.fr.returnRef, ctl)|, pos + ctl.brk, pos + ctl.cont,
                     Exec(env, fuel, s, m))
    decreases fuel, s, 2
  {
    hide Step, CodeE, Eval, Unfolded, LoopCode, CodeBody, IfCode, IfElseCode, Each, Loop, Plain, Truthy, Later;
    var strict, ref := env.fr.strict, env.fr.returnRef;
    var to := To(|CodeS(strict, s.body, ref, Pending)| + 1, -2);
    var bc := CodeS(strict, s.body, ref, to);
    SameLength(strict, s.body, ref, Pending, to);
    var ce, zero := CodeE(strict, s.e, false), ConstCode(strict, CInt(0));
    EachParts(code, pos, ce, zero, s.v, bc);
    var c := Config(pos, temps, m);
    k := RunE(env, code, pos, s.e, false, temps, m);
    var r := Eval(env, s.e, false, m);
    if r.Val? {
      var p := ConstValue(strict, CInt(0));
      ZeroChunk(env, code, pos + |ce|, temps + [r.v], r.m);
      Chain(env, code, c, k, 1);
      k := k + 1;
      assert temps + [r.v] + [p] == temps + [r.v, p];
      var arr := Plain(r.m, r.v);
      if arr.Array? {
        var j := RunEach(env, code, pos + |ce| + 1, s.v, arr.items, 0, s.body, bc, r.v, p, temps, r.m, fuel);
        EachEnds(env, fuel, s.v, arr.items, 0, s.body, r.m);
        AfterS(env, code, c, k, Config(pos + |ce| + 1, temps + [r.v, p], r.m), j, fuel, temps,
               pos + |ce| + 1 + |bc| + 4, 0, 0, Each(env, fuel, s.v, arr.items, 0, s.body, r.m));
        k := k + j;
      } else {
        NotAnArrayChunk(env, code, Config(pos + |ce| + 1, temps + [r.v] + [p], r.m), s.v, temps, r.v, p);
        Chain(env, code, c, k, 1);
        k := k + 1;
      }
    }
  }

  lemma ZeroChunk(env: Env, code: Code, pos: nat, temps: seq<Value>, m: Mem)
    requires At(code, pos, [ConstCode(env.fr.strict, CInt(0))])
    ensures Steps(env, code, Config(pos, temps, m), 1)
            == Running(Config(pos + 1, temps + [ConstValue(env.fr.strict, CInt(0))], m))
    ensures Position(ConstValue(env.fr.strict, CInt(0))) == 0
  {
    RunAtom(env, code, pos, EConst(CInt(0)), true, temps, m);
  }
}
