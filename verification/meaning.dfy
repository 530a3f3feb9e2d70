/** What the code of a whole function does: it stops exactly when the evaluator does, with the
    same result. */
module Meaning {
  import opened Bytecode
  import opened Source
  import opened Compile
  import opened ExprCorrect
  import opened StmtCorrect
  import opened Folding

  // ----- folding in statements -----

  function FoldS(strict: nat, s: Stmt): Stmt {
    match s
    case SExpr(e, valueOnly) => SExpr(Fold(strict, e), valueOnly)
    case SVar(v, e) => SVar(v, Fold(strict, e))
    case SSeq(a, b) => SSeq(FoldS(strict, a), FoldS(strict, b))
    case SIf(c, t) => SIf(Fold(strict, c), FoldS(strict, t))
    case SIfElse(c, t, e) => SIfElse(Fold(strict, c), FoldS(strict, t), FoldS(strict, e))
    case SWhile(c, b) => SWhile(Fold(strict, c), FoldS(strict, b))
    case SFor(a, c, i, b) => SFor(FoldS(strict, a), FoldOpt(strict, c), FoldOpt(strict, i), FoldS(strict, b))
    case SForEach(v, e, b) => SForEach(v, Fold(strict, e), FoldS(strict, b))
    case SReturn(e) => SReturn(Fold(strict, e))
    case _ => s
  }

  function FoldOpt(strict: nat, e: OptExpr): OptExpr {
    match e
    case NoExpr => NoExpr
    case Some(x) => Some(Fold(strict, x))
  }

  predicate CleanS(strict: nat, s: Stmt) {
    match s
    case SExpr(e, _) => Clean(strict, e)
    case SVar(_, e) => Clean(strict, e)
    case SSeq(a, b) => CleanS(strict, a) && CleanS(strict, b)
    case SIf(c, t) => Clean(strict, c) && CleanS(strict, t)
    case SIfElse(c, t, e) => Clean(strict, c) && CleanS(strict, t) && CleanS(strict, e)
    case SWhile(c, b) => Clean(strict, c) && CleanS(strict, b)
    case SFor(a, c, i, b) => CleanS(strict, a) && CleanOpt(strict, c) && CleanOpt(strict, i) && CleanS(strict, b)
    case SForEach(_, e, b) => Clean(strict, e) && CleanS(strict, b)
    case SReturn(e) => Clean(strict, e)
    case _ => true
  }

  predicate CleanOpt(strict: nat, e: OptExpr) { e.Some? ==> Clean(strict, e.e) }

  lemma {:induction false} FoldSCode(strict: nat, s: Stmt, ref: bool, ctl: Ctl)
    ensures CodeS(strict, FoldS(strict, s), ref, ctl) == CodeS(strict, s, ref, ctl)
    decreases s, 1
  {
    hide CodeE, Fold, LoopCode, IfCode, IfElseCode, CodeBody;
    match s
    case SExpr(e, valueOnly) => FoldCode(strict, e, valueOnly);
    case SVar(_, e) => FoldCode(strict, e, true);
    case SSeq(a, b) =>
      FoldSCode(strict, a, ref, ctl);
      FoldSCode(strict, b, ref, Later(ctl, |CodeS(strict, a, ref, ctl)|));
    case SIf(c, t) =>
      FoldCode(strict, c, true);
      FoldSCode(strict, t, ref, Later(ctl, |CodeE(strict, c, true)| + 1));
    case SIfElse(_, _, _) => FoldElseCode(strict, s, ref, ctl);
    case SWhile(c, b) =>
      FoldCode(strict, c, true);
      FoldLoopCode(strict, Some(c), NoExpr, b, ref);
    case SFor(a, c, i, b) =>
      FoldSCode(strict, a, ref, Pending);
      FoldLoopCode(strict, c, i, b, ref);
    case SForEach(_, _, _) => FoldEachCode(strict, s, ref, ctl);
    case SReturn(e) => FoldCode(strict, e, !ref);
    case _ =>
  }

  lemma FoldEachCode(strict: nat, s: Stmt, ref: bool, ctl: Ctl)
    requires s.SForEach?
    ensures CodeS(strict, FoldS(strict, s), ref, ctl) == CodeS(strict, s, ref, ctl)
    decreases s, 0
  {
    hide CodeE, Fold, LoopCode, ConstCode, IfCode, IfElseCode, CodeBody, FoldOpt, Later;
    FoldCode(strict, s.e, false);
    FoldSCode(strict, s.body, ref, Pending);
    FoldSCode(strict, s.body, ref, To(|CodeS(strict, s.body, ref, Pending)| + 1, -2));
  }

  lemma FoldElseCode(strict: nat, s: Stmt, ref: bool, ctl: Ctl)
    requires s.SIfElse?
    ensures CodeS(strict, FoldS(strict, s), ref, ctl) == CodeS(strict, s, ref, ctl)
    decreases s, 0
  {
    hide CodeE, Fold, LoopCode, IfElseCode;
    var n := |CodeE(strict, s.cond, true)|;
    FoldCode(strict, s.cond, true);
    FoldSCode(strict, s.thn, ref, Later(ctl, n + 1));
    FoldSCode(strict, s.els, ref, Later(ctl, n + |CodeS(strict, s.thn, ref, Later(ctl, n + 1))| + 2));
  }

  lemma FoldLoopCode(strict: nat, c: OptExpr, i: OptExpr, b: Stmt, ref: bool)
    ensures LoopCode(strict, FoldOpt(strict, c), FoldOpt(strict, i),
                     CodeBody(strict, FoldOpt(strict, c), FoldOpt(strict, i), FoldS(strict, b), ref))
            == LoopCode(strict, c, i, CodeBody(strict, c, i, b, ref))
    decreases b, 2
  {
    hide CodeE, Fold, CodeS, FoldS, CodeTest, CodeInc;
    var n := BodyCtl(strict, c, i, |CodeS(strict, b, ref, Pending)|);
    FoldTestCode(strict, c, 0);
    FoldIncCode(strict, i, TestLen(strict, c));
    FoldSCode(strict, b, ref, Pending);
    FoldSCode(strict, b, ref, n);
    FoldTestCode(strict, c, |CodeInc(strict, i, TestLen(strict, c))| + |CodeS(strict, b, ref, n)| + 1);
  }

  lemma FoldTestCode(strict: nat, c: OptExpr, n: nat)
    ensures CodeTest(strict, FoldOpt(strict, c), n) == CodeTest(strict, c, n)
  {
    hide CodeE, Fold;
    if c.Some? { FoldCode(strict, c.e, true); }
  }

  lemma FoldIncCode(strict: nat, i: OptExpr, n: nat)
    ensures CodeInc(strict, FoldOpt(strict, i), n) == CodeInc(strict, i, n)
  {
    hide CodeE, Fold;
    if i.Some? { FoldCode(strict, i.e, true); }
  }

  lemma {:induction false} FoldSShape(strict: nat, s: Stmt, inLoop: bool)
    ensures UnfoldedS(strict, FoldS(strict, s))
    ensures LoopsOnly(FoldS(strict, s), inLoop) == LoopsOnly(s, inLoop)
    ensures Simple(FoldS(strict, s)) == Simple(s)
  {
    hide CodeE, Fold, Unfolded;
    match s
    case SExpr(e, _) => FoldCode(strict, e, true);
    case SVar(_, e) => FoldCode(strict, e, true);
    case SSeq(a, b) => FoldSShape(strict, a, inLoop); FoldSShape(strict, b, inLoop);
    case SIf(c, t) => FoldCode(strict, c, true); FoldSShape(strict, t, inLoop);
    case SIfElse(c, t, e) =>
      FoldCode(strict, c, true); FoldSShape(strict, t, inLoop); FoldSShape(strict, e, inLoop);
    case SWhile(c, b) => FoldCode(strict, c, true); FoldSShape(strict, b, true);
    case SFor(a, c, i, b) =>
      if c.Some? { FoldCode(strict, c.e, true); }
      if i.Some? { FoldCode(strict, i.e, true); }
      FoldSShape(strict, a, true);
      FoldSShape(strict, b, true);
    case SForEach(_, e, b) => FoldCode(strict, e, true); FoldSShape(strict, b, true);
    case SReturn(e) => FoldCode(strict, e, true);
    case _ =>
  }

  /** With minus signs only before plain numbers, folding changes no run. */
  lemma {:induction false} FoldSKeepsMeaning(env: Env, fuel: nat, s: Stmt, m: Mem)
    requires CleanS(env.fr.strict, s)
    ensures Exec(env, fuel, FoldS(env.fr.strict, s), m) == Exec(env, fuel, s, m)
    decreases fuel, s, 2
  {
    hide Eval, Fold, Clean, Loop, Each;
    var strict := env.fr.strict;
    match s
    case SExpr(e, valueOnly) => FoldKeepsMeaning(env, e, valueOnly, m);
    case SVar(_, e) => FoldKeepsMeaning(env, e, true, m);
    case SSeq(a, b) =>
      FoldSKeepsMeaning(env, fuel, a, m);
      var r := Exec(env, fuel, a, m);
      if r.Normal? { FoldSKeepsMeaning(env, fuel, b, r.m); }
    case SIf(c, t) =>
      FoldKeepsMeaning(env, c, true, m);
      var r := Eval(env, c, true, m);
      if r.Val? { FoldSKeepsMeaning(env, fuel, t, r.m); }
    case SIfElse(c, t, e) =>
      FoldKeepsMeaning(env, c, true, m);
      var r := Eval(env, c, true, m);
      if r.Val? { FoldSKeepsMeaning(env, fuel, t, r.m); FoldSKeepsMeaning(env, fuel, e, r.m); }
    case SWhile(c, b) => FoldLoopKeepsMeaning(env, fuel, Some(c), NoExpr, b, m);
    case SFor(a, c, i, b) =>
      FoldSKeepsMeaning(env, fuel, a, m);
      var r := Exec(env, fuel, a, m);
      if r.Normal? { FoldLoopKeepsMeaning(env, fuel, c, i, b, r.m); }
    case SForEach(v, e, b) =>
      FoldKeepsMeaning(env, e, false, m);
      var r := Eval(env, e, false, m);
      if r.Val? && Plain(r.m, r.v).Array? {
        FoldEachKeepsMeaning(env, fuel, v, Plain(r.m, r.v).items, 0, b, r.m);
      }
    case SReturn(e) => FoldKeepsMeaning(env, e, !env.fr.returnRef, m);
    case _ =>
  }

  lemma FoldOptKeepsMeaning(env: Env, e: OptExpr, m: Mem)
    requires CleanOpt(env.fr.strict, e)
    ensures EvalCond(env, FoldOpt(env.fr.strict, e), m) == EvalCond(env, e, m)
    ensures EvalInc(env, FoldOpt(env.fr.strict, e), m) == EvalInc(env, e, m)
  {
    hide Eval, Fold, Clean;
    if e.Some? { FoldKeepsMeaning(env, e.e, true, m); }
  }

  lemma {:induction false} FoldLoopKeepsMeaning(env: Env, fuel: nat, c: OptExpr, i: OptExpr, b: Stmt, m: Mem)
    requires CleanOpt(env.fr.strict, c) && CleanOpt(env.fr.strict, i) && CleanS(env.fr.strict, b)
    ensures Loop(env, fuel, FoldOpt(env.fr.strict, c), FoldOpt(env.fr.strict, i), FoldS(env.fr.strict, b), m)
            == Loop(env, fuel, c, i, b, m)
    decreases fuel, b, 3
  {
    hide Eval, Fold, Clean, Exec, EvalCond, EvalInc, FoldS, CleanS, CleanOpt, FoldOpt, Truthy;
    var strict := env.fr.strict;
    if fuel > 0 {
      FoldOptKeepsMeaning(env, c, m);
      var r := EvalCond(env, c, m);
      if r.Val? && Truthy(r.m, r.v) {
        FoldSKeepsMeaning(env, fuel, b, r.m);
        var r1 := Exec(env, fuel, b, r.m);
        if r1.Normal? || r1.Continued? {
          FoldOptKeepsMeaning(env, i, r1.m);
          var r2 := EvalInc(env, i, r1.m);
          if r2.Normal? { FoldLoopKeepsMeaning(env, fuel - 1, c, i, b, r2.m); }
        }
      }
    }
  }

  lemma {:induction false} FoldEachKeepsMeaning(env: Env, fuel: nat, v: nat, items: seq<Value>, i: nat, b: Stmt, m: Mem)
    requires i <= |items| && CleanS(env.fr.strict, b)
    ensures Each(env, fuel, v, items, i, FoldS(env.fr.strict, b), m) == Each(env, fuel, v, items, i, b, m)
    decreases fuel, b, 3, |items| - i
  {
    hide Exec, FoldS;
    if i < |items| {
      var m1 := Assign(m, SlotAddr(env.fr, VarN, v), items[i]);
      FoldSKeepsMeaning(env, fuel, b, m1);
      var r := Exec(env, fuel, b, m1);
      if r.Normal? || r.Continued? { FoldEachKeepsMeaning(env, fuel, v, items, i + 1, b, r.m); }
    }
  }

  // ----- whole functions -----

  /** The code of a function: its body, a `return nil` if the compiler saw the need for one, and
      the end mark. */
  function FunctionCode(strict: nat, body: Stmt, ref: bool, endReturn: bool): Code {
    CodeS(strict, body, ref, Pending) + (if endReturn then [NIL, RETURN] else []) + [EOFN]
  }

  /** What a call comes to when its body ends with `r`; nothing while it goes on. A body that
      simply ends runs into the end mark where no `return nil` was added. */
  function CallOutcome(endReturn: bool, r: SResult, m: Mem): Outcome {
    match r
    case Return(v, m1) => Returned(v, m1)
    case SFault(x, m1) => Failed(x, m1)
    case Normal(m1) => if endReturn then Returned(Nil, m1) else Failed(NoReturn, m1)
    case _ => Running(Config(0, [], m))
  }

  /** The evaluator comes to `o`. */
  ghost predicate ComesTo(env: Env, body: Stmt, endReturn: bool, m: Mem, o: Outcome) {
    !o.Running? && exists fuel: nat :: CallOutcome(endReturn, Exec(env, fuel, body, m), m) == o
  }

  lemma {:induction false} NoEscape(env: Env, fuel: nat, s: Stmt, m: Mem)
    requires LoopsOnly(s, false)
    ensures !Exec(env, fuel, s, m).Broke? && !Exec(env, fuel, s, m).Continued?
    decreases s
  {
    hide Eval, Loop, Each;
    match s
    case SSeq(a, b) =>
      NoEscape(env, fuel, a, m);
      var r := Exec(env, fuel, a, m);
      if r.Normal? { NoEscape(env, fuel, b, r.m); }
    case SIf(c, t) =>
      var r := Eval(env, c, true, m);
      if r.Val? { NoEscape(env, fuel, t, r.m); }
    case SIfElse(c, t, e) =>
      var r := Eval(env, c, true, m);
      if r.Val? { NoEscape(env, fuel, t, r.m); NoEscape(env, fuel, e, r.m); }
    case SWhile(c, b) => LoopEnds(env, fuel, Some(c), NoExpr, b, m);
    case SFor(a, c, i, b) =>
      SimpleEnds(env, fuel, a, m);
      var r := Exec(env, fuel, a, m);
      if r.Normal? { LoopEnds(env, fuel, c, i, b, r.m); }
    case SForEach(v, e, b) =>
      var r := Eval(env, e, false, m);
      if r.Val? && Plain(r.m, r.v).Array? { EachEnds(env, fuel, v, Plain(r.m, r.v).items, 0, b, r.m); }
    case _ =>
  }

  lemma {:induction false} AnyLoop(s: Stmt)
    requires LoopsOnly(s, false)
    ensures LoopsOnly(s, true)
  {
    match s
    case SSeq(a, b) => AnyLoop(a); AnyLoop(b);
    case SIf(_, t) => AnyLoop(t);
    case SIfElse(_, t, e) => AnyLoop(t); AnyLoop(e);
    case _ =>
  }

  /** A call stops as the evaluator says, or goes on for at least `fuel` steps. */
  lemma RunFunction(env: Env, body: Stmt, endReturn: bool, m: Mem, fuel: nat) returns (k: nat)
    requires UnfoldedS(env.fr.strict, body) && LoopsOnly(body, false)
    ensures var code := FunctionCode(env.fr.strict, body, env.fr.returnRef, endReturn);
            var r := Exec(env, fuel, body, m);
            var o := Steps(env, code, Config(0, [], m), k);
            if r.OutOfFuel? then k >= fuel && o.Running? else o == CallOutcome(endReturn, r, m)
    ensures !Exec(env, fuel, body, m).OutOfFuel? ==> !CallOutcome(endReturn, Exec(env, fuel, body, m), m).Running?
  {
    hide Step, CodeE, CodeS, Exec, UnfoldedS, LoopsOnly;
    var strict, ref := env.fr.strict, env.fr.returnRef;
    var bc := CodeS(strict, body, ref, Pending);
    var tail := if endReturn then [NIL, RETURN] else [];
    var code := FunctionCode(strict, body, ref, endReturn);
    assert At(code, 0, bc + tail + [EOFN]);
    AtSplit(code, 0, bc + tail, [EOFN]);
    AtSplit(code, 0, bc, tail);
    AnyLoop(body);
    SimpleIsPlain(strict, body, ref, Pending, To(0, 0));
    NoEscape(env, fuel, body, m);
    k := RunS(env, code, 0, body, To(0, 0), [], m, fuel);
    var r := Exec(env, fuel, body, m);
    if r.Normal? {
      var c1 := Config(|bc|, [], r.m);
      var j := RunFunctionEnd(env, code, c1, endReturn);
      Chain(env, code, Config(0, [], m), k, j);
      k := k + j;
    }
  }

  lemma RunFunctionEnd(env: Env, code: Code, c: Config, endReturn: bool) returns (k: nat)
    requires 0 <= c.pc && At(code, c.pc, (if endReturn then [NIL, RETURN] else []))
    requires At(code, c.pc + |if endReturn then [NIL, RETURN] else []|, [EOFN])
    ensures Steps(env, code, c, k) == if endReturn then Returned(Nil, c.m) else Failed(NoReturn, c.m)
  {
    hide Plain, Assign, ApplyUn, ApplyBin, ForEach, Jump, PlainAll, ReadSlot, Finish, ApplyStack;
    if endReturn {
      assert [NIL, RETURN] == [NIL] + [RETURN];
      AtSplit(code, c.pc, [NIL], [RETURN]);
      k := RunReturnNil(env, code, c);
    } else {
      AtOne(code, c.pc, EOFN);
      One(env, code, c);
      k := 1;
    }
  }

  /** For every function, memory and meaning of the operators: the code stops with an outcome
      exactly when the evaluator comes to it. So endless runs correspond too. */
  lemma CallMeaning(env: Env, body: Stmt, endReturn: bool, m: Mem, o: Outcome)
    requires LoopsOnly(body, false)
    ensures Stops(env, FunctionCode(env.fr.strict, body, env.fr.returnRef, endReturn), Config(0, [], m), o)
            <==> ComesTo(env, FoldS(env.fr.strict, body), endReturn, m, o)
  {
    hide Step, CodeS, Exec, FoldS, UnfoldedS, LoopsOnly;
    var folded := FoldS(env.fr.strict, body);
    FoldSShape(env.fr.strict, body, false);
    FoldSCode(env.fr.strict, body, env.fr.returnRef, Pending);
    var code := FunctionCode(env.fr.strict, body, env.fr.returnRef, endReturn);
    assert code == FunctionCode(env.fr.strict, folded, env.fr.returnRef, endReturn);
    var c := Config(0, [], m);
    if Stops(env, code, c, o) {
      var n: nat :| Steps(env, code, c, n) == o;
      var k := RunFunction(env, folded, endReturn, m, n + 1);
      OneOutcome(env, code, c, o, k);
      if Exec(env, n + 1, folded, m).OutOfFuel? {
        StepsAdd(env, code, c, n, k - n);
        assert false;
      }
    }
    if !o.Running? && exists fuel: nat :: CallOutcome(endReturn, Exec(env, fuel, folded, m), m) == o {
      var fuel: nat :| CallOutcome(endReturn, Exec(env, fuel, folded, m), m) == o;
      var k := RunFunction(env, folded, endReturn, m, fuel);
    }
  }

  /** The same for functions whose minus signs stand before plain numbers: nothing is said about
      folding. */
  lemma CallMeaningClean(env: Env, body: Stmt, endReturn: bool, m: Mem, o: Outcome)
    requires LoopsOnly(body, false) && CleanS(env.fr.strict, body)
    ensures Stops(env, FunctionCode(env.fr.strict, body, env.fr.returnRef, endReturn), Config(0, [], m), o)
            <==> ComesTo(env, body, endReturn, m, o)
  {
    hide Step, CodeS, Exec, FoldS, CleanS, LoopsOnly;
    CallMeaning(env, body, endReturn, m, o);
    var folded := FoldS(env.fr.strict, body);
    if exists fuel: nat :: CallOutcome(endReturn, Exec(env, fuel, folded, m), m) == o {
      var fuel: nat :| CallOutcome(endReturn, Exec(env, fuel, folded, m), m) == o;
      FoldSKeepsMeaning(env, fuel, body, m);
    }
    if exists fuel: nat :: CallOutcome(endReturn, Exec(env, fuel, body, m), m) == o {
      var fuel: nat :| CallOutcome(endReturn, Exec(env, fuel, body, m), m) == o;
      FoldSKeepsMeaning(env, fuel, body, m);
    }
  }
}
