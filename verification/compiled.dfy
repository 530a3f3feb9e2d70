/** What the compiler's finished code does, for whole functions. */
module Compiled {
  import opened Bytecode
  import opened Source
  import opened Compile
  import opened Meaning
  import opened Peephole
  import opened Emitter
  import opened EmitterPlain
  import opened EmitterStmt
  import opened EmitterJoined
  import opened EmitterCalm
  import opened EmitterCalmStmt

  // ----- behind FOREACH stands a jump -----

  predicate NoForEach(code: Code) { forall i :: 0 <= i < |code| ==> !code[i].FOREACH? }

  lemma {:induction false} ExprNoForEach(strict: nat, e: Expr, valueOnly: bool)
    ensures NoForEach(CodeE(strict, e, valueOnly))
    decreases e, 1
  {
    hide CodeArgs, CodeBefore, CodeCall, CodeMethod;
    match e
    case EUnary(_, _) => UnaryNoForEach(strict, e, valueOnly);
    case EBinary(op, l, r) =>
      ExprNoForEach(strict, l, !Modifies(op));
      ExprNoForEach(strict, r, true);
    case ELogic(_, _, _) => LogicNoForEach(strict, e, valueOnly);
    case ENilAssign(l, r) =>
      ExprNoForEach(strict, l, false);
      ExprNoForEach(strict, r, false);
    case ECall(callee, args) =>
      ArgsNoForEach(strict, args);
      CallNoForEach(callee, Count(args));
    case EMethod(how, target, args) =>
      ExprNoForEach(strict, target, false);
      ArgsNoForEach(strict, args);
      MethodNoForEach(how, Count(args));
    case _ =>
  }

  lemma UnaryNoForEach(strict: nat, e: Expr, valueOnly: bool)
    requires e.EUnary?
    ensures NoForEach(CodeE(strict, e, valueOnly))
    decreases e, 0
  {
    ExprNoForEach(strict, e.arg, valueOnly);
    ExprNoForEach(strict, e.arg, false);
    ExprNoForEach(strict, e.arg, !KeepsRef(e.uop));
  }

  lemma LogicNoForEach(strict: nat, e: Expr, valueOnly: bool)
    requires e.ELogic?
    ensures NoForEach(CodeE(strict, e, valueOnly))
    decreases e, 0
  {
    ExprNoForEach(strict, e.left, true);
    ExprNoForEach(strict, e.right, valueOnly);
    ExprNoForEach(strict, e.right, true);
  }

  lemma CallNoForEach(callee: Callee, n: nat)
    ensures NoForEach(CodeBefore(callee)) && NoForEach(CodeCall(callee, n))
  {
  }

  lemma MethodNoForEach(how: Method, n: nat)
    ensures NoForEach(CodeMethod(how, n))
  {
  }

  lemma {:induction false} ArgsNoForEach(strict: nat, a: Args)
    ensures NoForEach(CodeArgs(strict, a))
    decreases a
  {
    hide CodeE;
    if a.Arg? {
      ExprNoForEach(strict, a.e, !a.keepRef);
      ArgsNoForEach(strict, a.rest);
    }
  }

  lemma JumpsJoin(a: Code, b: Code)
    requires ForEachJumps(a) && ForEachJumps(b)
    ensures ForEachJumps(a + b)
  {
    forall i: nat | i < |a + b| && (a + b)[i].FOREACH? ensures i + 1 < |a + b| && (a + b)[i + 1].JMP? {
      if i < |a| { assert a[i].FOREACH?; } else { assert b[i - |a|].FOREACH?; }
    }
  }

  lemma NoForEachJumps(code: Code)
    requires NoForEach(code)
    ensures ForEachJumps(code)
  {
  }

  lemma {:induction false} StmtJumps(strict: nat, s: Stmt, ref: bool, ctl: Ctl)
    ensures ForEachJumps(CodeS(strict, s, ref, ctl))
    decreases s, 1
  {
    hide CodeE, CodeS, IfCode, IfElseCode, LoopCode, CodeBody, ForEachJumps;
    match s
    case SSeq(a, b) =>
      OpenSeq(strict, s, ref, ctl);
      var first := CodeS(strict, a, ref, ctl);
      StmtJumps(strict, a, ref, ctl);
      StmtJumps(strict, b, ref, Later(ctl, |first|));
      JumpsJoin(first, CodeS(strict, b, ref, Later(ctl, |first|)));
    case SIf(c, t) =>
      OpenIf(strict, s, ref, ctl);
      var n := |CodeE(strict, c, true)| + 1;
      StmtJumps(strict, t, ref, Later(ctl, n));
      IfJumps(strict, c, CodeS(strict, t, ref, Later(ctl, n)));
    case SIfElse(c, t, e) =>
      OpenIfElse(strict, s, ref, ctl);
      var n := |CodeE(strict, c, true)| + 1;
      var thn := CodeS(strict, t, ref, Later(ctl, n));
      StmtJumps(strict, t, ref, Later(ctl, n));
      StmtJumps(strict, e, ref, Later(ctl, n + |thn| + 1));
      ElseJumps(strict, c, thn, CodeS(strict, e, ref, Later(ctl, n + |thn| + 1)));
    case SWhile(c, body) => BodyJumps(strict, s, Some(c), NoExpr, body, ref); OpenLoops(strict, s, ref, ctl);
    case SFor(start, c, inc, body) =>
      OpenLoops(strict, s, ref, ctl);
      BodyJumps(strict, s, c, inc, body, ref);
      StmtJumps(strict, start, ref, Pending);
      JumpsJoin(CodeS(strict, start, ref, Pending), LoopCode(strict, c, inc, CodeBody(strict, c, inc, body, ref)));
    case SForEach(v, e, body) =>
      OpenLoops(strict, s, ref, ctl);
      var n := |CodeS(strict, body, ref, Pending)|;
      StmtJumps(strict, body, ref, To(n + 1, -2));
      EachJumps(strict, v, e, CodeS(strict, body, ref, To(n + 1, -2)));
    case _ => LeafJumps(strict, s, ref, ctl);
  }

  lemma OpenLoops(strict: nat, s: Stmt, ref: bool, ctl: Ctl)
    ensures s.SWhile? ==>
      CodeS(strict, s, ref, ctl) == LoopCode(strict, Some(s.cond), NoExpr,
          CodeBody(strict, Some(s.cond), NoExpr, s.body, ref))
    ensures s.SFor? ==>
      CodeS(strict, s, ref, ctl) ==
      CodeS(strict, s.start, ref, Pending) + LoopCode(strict, s.test, s.inc,
          CodeBody(strict, s.test, s.inc, s.body, ref))
    ensures s.SForEach? ==>
      var b := CodeS(strict, s.body, ref, To(|CodeS(strict, s.body, ref, Pending)| + 1, -2));
      CodeS(strict, s, ref, ctl) ==
      CodeE(strict, s.e, false) + [ConstCode(strict, CInt(0))]
      + [FOREACH(s.v), JMP(Always, |b| + 2)] + b + [JMP(Always, -(|b| + 2)), STACK(-2)]
  {
    hide CodeE, LoopCode, CodeBody;
  }

  lemma IfJumps(strict: nat, c: Expr, thn: Code)
    requires ForEachJumps(thn)
    ensures ForEachJumps(IfCode(CodeE(strict, c, true), thn))
  {
    hide CodeE;
    ExprNoForEach(strict, c, true);
    var head := CodeE(strict, c, true) + [JMP(Cond, |thn| + 1)];
    JumpsJoin(head, thn);
  }

  lemma ElseJumps(strict: nat, c: Expr, thn: Code, els: Code)
    requires ForEachJumps(thn) && ForEachJumps(els)
    ensures ForEachJumps(IfElseCode(CodeE(strict, c, true), thn, els))
  {
    hide CodeE;
    ExprNoForEach(strict, c, true);
    var head := CodeE(strict, c, true) + [JMP(Cond, |thn| + 2)];
    JumpsJoin(head, thn);
    JumpsJoin(head + thn, [JMP(Always, |els| + 1)]);
    JumpsJoin(head + thn + [JMP(Always, |els| + 1)], els);
  }

  lemma EachJumps(strict: nat, v: nat, e: Expr, b: Code)
    requires ForEachJumps(b)
    ensures ForEachJumps(CodeE(strict, e, false) + [ConstCode(strict, CInt(0))] + [FOREACH(v), JMP(Always, |b| + 2)]
                         + b + [JMP(Always, -(|b| + 2)), STACK(-2)])
  {
    hide CodeE;
    ExprNoForEach(strict, e, false);
    var start := CodeE(strict, e, false) + [ConstCode(strict, CInt(0))];
    var each := [FOREACH(v), JMP(Always, |b| + 2)];
    var end := [JMP(Always, -(|b| + 2)), STACK(-2)];
    JumpsJoin(start, each);
    JumpsJoin(start + each, b);
    JumpsJoin(start + each + b, end);
  }

  lemma LeafJumps(strict: nat, s: Stmt, ref: bool, ctl: Ctl)
    requires !Branches(s) && !s.SWhile? && !s.SFor? && !s.SForEach?
    ensures ForEachJumps(CodeS(strict, s, ref, ctl))
  {
    hide CodeE;
    match s
    case SExpr(e, valueOnly) => ExprNoForEach(strict, e, valueOnly);
    case SVar(_, e) => ExprNoForEach(strict, e, true);
    case SReturn(e) => ExprNoForEach(strict, e, !ref);
    case _ =>
  }

  lemma BodyJumps(strict: nat, s: Stmt, c: OptExpr, inc: OptExpr, body: Stmt, ref: bool)
    requires body < s
    ensures ForEachJumps(LoopCode(strict, c, inc, CodeBody(strict, c, inc, body, ref)))
    decreases s, 0
  {
    hide CodeE, CodeS;
    StmtJumps(strict, body, ref, BodyCtl(strict, c, inc, |CodeS(strict, body, ref, Pending)|));
    LoopJumps(strict, c, inc, CodeBody(strict, c, inc, body, ref));
  }

  lemma LoopJumps(strict: nat, c: OptExpr, inc: OptExpr, body: Code)
    requires ForEachJumps(body)
    ensures ForEachJumps(LoopCode(strict, c, inc, body))
  {
    hide CodeE, ForEachJumps, TestLen, BodyStart, RoundEnd;
    var step := CodeInc(strict, inc, TestLen(strict, c));
    var test := CodeTest(strict, c, |step| + |body| + 1);
    TestNoForEach(strict, c, |step| + |body| + 1);
    IncNoForEach(strict, inc, TestLen(strict, c));
    var back := [JMP(Always, RoundEnd(strict, c, inc) - BodyStart(strict, c, inc) - |body|)];
    NoForEachJumps(test);
    NoForEachJumps(step);
    NoForEachJumps(back);
    JumpsJoin(test, step);
    JumpsJoin(test + step, body);
    JumpsJoin(test + step + body, back);
  }

  lemma TestNoForEach(strict: nat, c: OptExpr, rest: nat)
    ensures NoForEach(CodeTest(strict, c, rest))
  {
    hide CodeE;
    if c.Some? { ExprNoForEach(strict, c.e, true); }
  }

  lemma IncNoForEach(strict: nat, inc: OptExpr, test: nat)
    ensures NoForEach(CodeInc(strict, inc, test))
  {
    hide CodeE;
    if inc.Some? { ExprNoForEach(strict, inc.e, true); }
  }

  lemma FunctionJumps(strict: nat, body: Stmt, ref: bool, endReturn: bool)
    ensures ForEachJumps(FunctionCode(strict, body, ref, endReturn))
  {
    hide CodeS;
    StmtJumps(strict, body, ref, Pending);
    var tail := if endReturn then [NIL, RETURN] else [];
    JumpsJoin(CodeS(strict, body, ref, Pending), tail);
    JumpsJoin(CodeS(strict, body, ref, Pending) + tail, [EOFN]);
  }

  // ----- the finished code -----

  /** A join reached across a jump target while the function was written. */
  predicate Crosses(strict: nat, ref: bool, body: Stmt) { GenFunction(strict, ref, body).crossed }

  /** The chunks asked for are the function's unjoined code, and the stack is empty at the end. */
  lemma FunctionWritten(strict: nat, ref: bool, body: Stmt)
    ensures var t := GenFunction(strict, ref, body);
            t.plain == FunctionCode(strict, body, ref, FinalReturn(strict, ref, body))
            && t.height == 0 && Sound(t) && t.crossed == GenS(strict, ref, EMPTY, body).t.crossed
  {
    hide GenS, CodeS, Put, Placed, Sound, ControlsOf, NeedsReturn;
    EmptySound();
    SoundPlaced(EMPTY);
    var t := GenS(strict, ref, EMPTY, body).t;
    GenSSafe(strict, ref, EMPTY, body);
    GenSWrites(strict, ref, EMPTY, body);
    var code := CodeS(strict, body, ref, Pending);
    StaysSound(strict, EMPTY, t, CalmS(body));
    if NeedsReturn(t) {
      var t1 := Put(strict, t, NIL);
      var t2 := Put(strict, t1, RETURN);
      PutOther(strict, t, NIL);
      PutOther(strict, t1, RETURN);
      PutOther(strict, t2, EOFN);
      PutWrote(strict, EMPTY, t, code, 0, NIL);
      PutWrote(strict, EMPTY, t1, code + [NIL], 1, RETURN);
      PutWrote(strict, EMPTY, t2, code + [NIL] + [RETURN], 0, EOFN);
      assert code + [NIL] + [RETURN] + [EOFN] == code + [NIL, RETURN] + [EOFN];
    } else {
      PutOther(strict, t, EOFN);
      PutWrote(strict, EMPTY, t, code, 0, EOFN);
    }
  }

  /** The compiler keeps meaning: if no join reached across a jump target, a call of the finished
      code stops with an outcome exactly when the evaluator comes to it. */
  lemma CompiledMeaning(env: Env, body: Stmt, m: Mem, o: Outcome)
    requires LoopsOnly(body, false) && !Crosses(env.fr.strict, env.fr.returnRef, body)
    ensures Stops(env, GenFunction(env.fr.strict, env.fr.returnRef, body).code, Config(0, [], m), o)
            <==> ComesTo(env, FoldS(env.fr.strict, body), FinalReturn(env.fr.strict, env.fr.returnRef, body), m, o)
  {
    hide Step, CodeS, Exec, FoldS, LoopsOnly, GenFunction, Joined, FinalReturn, Stops, ComesTo;
    var strict, ref := env.fr.strict, env.fr.returnRef;
    var t := GenFunction(strict, ref, body);
    FunctionWritten(strict, ref, body);
    FunctionJumps(strict, body, ref, FinalReturn(strict, ref, body));
    SameBehaviour(env, t.plain, t.marks, t.code, t.pos, m, o);
    CallMeaning(env, body, FinalReturn(strict, ref, body), m, o);
  }

  /** Only functions that do not exist make a join reach across a jump target. */
  lemma CalmNeverCrosses(strict: nat, ref: bool, body: Stmt)
    requires CalmS(body)
    ensures !Crosses(strict, ref, body)
  {
    hide GenS, GenFunction;
    EmptySound();
    GenSSafe(strict, ref, EMPTY, body);
    FunctionWritten(strict, ref, body);
  }

  /** The code does what the program says: in every environment and from every memory it stops
      with an outcome exactly when the evaluator comes to it. */
  ghost predicate Faithful(strict: nat, ref: bool, body: Stmt, code: Code) {
    forall env: Env, m: Mem, o: Outcome :: env.fr.strict == strict && env.fr.returnRef == ref ==>
      (Stops(env, code, Config(0, [], m), o) <==> ComesTo(env, body, FinalReturn(strict, ref, body), m, o))
  }

  /** So it is for every function that calls no missing function and whose minus signs stand
      before plain numbers or before operands that do not end in one. */
  lemma CleanFaithful(strict: nat, ref: bool, body: Stmt)
    requires LoopsOnly(body, false) && CalmS(body) && CleanS(strict, body)
    ensures Faithful(strict, ref, body, GenFunction(strict, ref, body).code)
  {
    hide Step, CodeS, Exec, FoldS, LoopsOnly, GenFunction, Joined, FinalReturn, Stops, CalmS, CleanS, ComesTo;
    CalmNeverCrosses(strict, ref, body);
    var code := GenFunction(strict, ref, body).code;
    forall env: Env, m: Mem, o: Outcome | env.fr.strict == strict && env.fr.returnRef == ref
      ensures Stops(env, code, Config(0, [], m), o) <==> ComesTo(env, body, FinalReturn(strict, ref, body), m, o)
    {
      CompiledMeaning(env, body, m, o);
      CallMeaning(env, body, FinalReturn(strict, ref, body), m, o);
      CallMeaningClean(env, body, FinalReturn(strict, ref, body), m, o);
    }
  }

  // ----- control stays inside -----

  /** Where one step can lead. */
  lemma StepTo(env: Env, code: Code, c: Config)
    requires 0 <= c.pc < |code| && Step(env, code, c).Running?
    ensures var x, pc := code[c.pc], Step(env, code, c).c.pc;
            !x.RETURN? && !x.EOFN? && !x.ERR?
            && (pc == c.pc + 1 || (x.JMP? && pc == c.pc + x.off) || (x.FOREACH? && pc == c.pc + 2))
  {
    hide ApplyUn, ApplyBin, ReadSlot, PlainAll, Assign, Plain, ApplyStack, Taken;
  }

  /** No chunk before `n` leads to `n` or anywhere outside. */
  ghost predicate Shut(code: Code, n: nat) {
    && 0 < n <= |code|
    && (forall i: nat :: i < n && code[i].JMP? ==> 0 <= i + code[i].off < n)
    && (forall i: nat :: i < n && code[i].FOREACH? ==> i + 2 < n)
    && (code[n - 1].RETURN? || code[n - 1].EOFN? || code[n - 1].ERR?)
  }

  lemma {:induction false} ShutStays(env: Env, code: Code, n: nat, c: Config, k: nat)
    requires Shut(code, n) && 0 <= c.pc < n
    ensures Steps(env, code, c, k).Running? ==> 0 <= Steps(env, code, c, k).c.pc < n
    decreases k
  {
    hide Step;
    if k > 0 && Step(env, code, c).Running? {
      StepTo(env, code, c);
      ShutStays(env, code, n, Step(env, code, c).c, k - 1);
    }
  }

  /** Every chunk that is no stack chunk was asked for. */
  lemma {:induction false} AskedFor(plain: Code, marks: set<nat>, code: Code, pos: seq<int>, q: nat, i: nat)
    returns (j: nat)
    requires Joined(plain, marks, code, pos) && q < |code| && !code[q].STACK?
    requires i <= |plain| && Border(plain, marks, i) && pos[i] <= q
    ensures j < |plain| && !plain[j].STACK? && pos[j] == q && SameChunk(plain, marks, code, pos, j)
    decreases |plain| - i
  {
    if plain[i].STACK? {
      var b := Stop(plain, marks, i);
      RunIsStacks(plain, marks, i, b - 1);
      assert SameRun(plain, marks, code, pos, b - 1);
      BehindStacks(code, pos[i], pos[b], q);
      j := AskedFor(plain, marks, code, pos, q, b);
    } else {
      assert SameChunk(plain, marks, code, pos, i);
      if pos[i] == q { j := i; } else { j := AskedFor(plain, marks, code, pos, q, i + 1); }
    }
  }

  lemma BehindStacks(code: Code, a: nat, b: nat, q: nat)
    requires a <= b <= |code| && AllStack(code[a..b]) && a <= q < |code| && !code[q].STACK?
    ensures b <= q
  {
    forall k | a <= k < b ensures code[k].STACK? {
      assert code[k] == code[a..b][k - a];
    }
  }

  /** Code that ends with a return to which no jump leads. */
  lemma EndShut(t: Trace)
    requires Sound(t) && !t.crossed && !t.jump && Aligned(t) && ForEachJumps(t.plain)
    requires Last(t.code).RETURN? || Last(t.code).EOFN?
    ensures Shut(t.code, |t.code|)
  {
    hide Border, Start, SameRun;
    var n := |t.plain|;
    forall q: nat | q < |t.code| && t.code[q].JMP? ensures 0 <= q + t.code[q].off < |t.code| {
      var i := AskedFor(t.plain, t.marks, t.code, t.pos, q, 0);
      TargetInside(t, i + t.plain[i].off);
    }
    forall q: nat | q < |t.code| && t.code[q].FOREACH? ensures q + 2 < |t.code| {
      var i := AskedFor(t.plain, t.marks, t.code, t.pos, q, 0);
      assert SameChunk(t.plain, t.marks, t.code, t.pos, i + 1);
    }
  }

  lemma TargetInside(t: Trace, w: int)
    requires Sound(t) && !t.crossed && !t.jump && Aligned(t) && !Last(t.plain).STACK?
    requires Landing(t.plain, t.marks, w)
    ensures 0 <= t.pos[w] < |t.code|
  {
    var n := |t.plain|;
    assert SameChunk(t.plain, t.marks, t.code, t.pos, n - 1);
    BorderOrder(t.plain, t.marks, t.code, t.pos, 0, w);
    BorderOrder(t.plain, t.marks, t.code, t.pos, w, n - 1);
  }

  /** However a call goes on, it never leaves the code of its function. */
  lemma ControlStaysInside(env: Env, body: Stmt, m: Mem, k: nat)
    requires !Crosses(env.fr.strict, env.fr.returnRef, body)
    ensures var code := GenFunction(env.fr.strict, env.fr.returnRef, body).code;
            var o := Steps(env, code, Config(0, [], m), k);
            o.Running? ==> 0 <= o.c.pc < |code|
  {
    hide GenS, Step, FunctionCode, FinalReturn, CodeS, NeedsReturn;
    var strict, ref := env.fr.strict, env.fr.returnRef;
    var t := GenFunction(strict, ref, body);
    FunctionWritten(strict, ref, body);
    FunctionJumps(strict, body, ref, FinalReturn(strict, ref, body));
    EndShut(t);
    ShutStays(env, t.code, |t.code|, Config(0, [], m), k);
  }

  /** It does not even come to the end mark if a final return was added, or if the code of the
      body ends with the chunk asked for last. */
  lemma EndMarkUnreached(env: Env, body: Stmt, m: Mem, k: nat)
    requires !Crosses(env.fr.strict, env.fr.returnRef, body)
    requires FinalReturn(env.fr.strict, env.fr.returnRef, body)
             || Aligned(GenS(env.fr.strict, env.fr.returnRef, EMPTY, body).t)
    ensures var code := GenFunction(env.fr.strict, env.fr.returnRef, body).code;
            var o := Steps(env, code, Config(0, [], m), k);
            o.Running? ==> 0 <= o.c.pc < |code| - 1
  {
    hide GenS, Step, CodeS, Sound, Put, Shut, Aligned, ForEachJumps;
    var strict, ref := env.fr.strict, env.fr.returnRef;
    var t := GenS(strict, ref, EMPTY, body).t;
    BodyWritten(strict, ref, body);
    if NeedsReturn(t) {
      WithReturnShut(env, strict, t, m, k);
    } else {
      WithoutReturnShut(env, strict, t, m, k);
    }
  }

  lemma BodyWritten(strict: nat, ref: bool, body: Stmt)
    ensures var t := GenS(strict, ref, EMPTY, body).t;
            Sound(t) && t.crossed == Crosses(strict, ref, body) && ForEachJumps(t.plain)
  {
    hide GenS, CodeS, GenFunction, CalmS, ControlsOf, Sound, ForEachJumps, Flat;
    EmptySound();
    FunctionWritten(strict, ref, body);
    GenSSafe(strict, ref, EMPTY, body);
    SoundPlaced(EMPTY);
    GenSWrites(strict, ref, EMPTY, body);
    StmtJumps(strict, body, ref, Pending);
    assert EMPTY.plain + CodeS(strict, body, ref, Pending) == CodeS(strict, body, ref, Pending);
  }

  lemma WithReturnShut(env: Env, strict: nat, t: Trace, m: Mem, k: nat)
    requires Sound(t) && !t.crossed && ForEachJumps(t.plain)
    ensures var code := Put(strict, Put(strict, Put(strict, t, NIL), RETURN), EOFN).code;
            var o := Steps(env, code, Config(0, [], m), k);
            o.Running? ==> 0 <= o.c.pc < |code| - 1
  {
    hide Sound, Shut, Step;
    var t1 := Put(strict, t, NIL);
    PutOther(strict, t, NIL);
    PutOther(strict, t1, RETURN);
    var t2 := Put(strict, t1, RETURN);
    SoundPlaced(t1);
    PutPlaced(strict, t1, RETURN);
    JumpsJoin(t.plain, [NIL]);
    JumpsJoin(t1.plain, [RETURN]);
    WithoutReturnShut(env, strict, t2, m, k);
  }

  lemma WithoutReturnShut(env: Env, strict: nat, t: Trace, m: Mem, k: nat)
    requires Sound(t) && !t.crossed && ForEachJumps(t.plain) && Aligned(t) && !t.jump && Last(t.code).RETURN?
    ensures var code := Put(strict, t, EOFN).code;
            var o := Steps(env, code, Config(0, [], m), k);
            o.Running? ==> 0 <= o.c.pc < |code| - 1
  {
    hide Step, Sound;
    EndShut(t);
    var code := t.code + [EOFN];
    assert Shut(code, |t.code|);
    ShutStays(env, code, |t.code|, Config(0, [], m), k);
  }

  /** From strict 3 on, a function that calls no function that does not exist never comes to its
      end mark: it returns, or fails at some other chunk, or goes on for ever. */
  lemma ModernFunctionsReturn(env: Env, body: Stmt, m: Mem, k: nat)
    requires env.fr.strict >= 3 && CalmS(body)
    ensures var code := GenFunction(env.fr.strict, env.fr.returnRef, body).code;
            var o := Steps(env, code, Config(0, [], m), k);
            o.Running? ==> 0 <= o.c.pc < |code| - 1
  {
    hide Step, GenFunction, CalmS, GenS, Sound, Placed;
    var strict, ref := env.fr.strict, env.fr.returnRef;
    CalmNeverCrosses(strict, ref, body);
    EmptySound();
    GenSSafe(strict, ref, EMPTY, body);
    var t := GenS(strict, ref, EMPTY, body).t;
    BodyWritten(strict, ref, body);
    if !Aligned(t) { NothingWritten(strict, t); }
    EndMarkUnreached(env, body, m, k);
  }

  lemma NothingWritten(strict: nat, t: Trace)
    requires Sound(t) && |t.plain| == 0
    ensures NeedsReturn(t)
  {
  }

  // ----- after an error -----

  /** All jumps that do not lead anywhere yet lead behind the code. */
  function LeadOut(code: Code): (r: Code)
    ensures |r| == |code|
  {
    seq(|code|, i requires 0 <= i < |code| =>
      if code[i].JMP? && code[i].off == 0 then JMP(code[i].jkind, |code| - i) else code[i])
  }

  /** The jumps of unfinished code that do lead somewhere lead inside it or just behind it. */
  lemma TargetsSoFar(t: Trace, q: nat)
    requires Sound(t) && !t.crossed && q < |t.code| && t.code[q].JMP?
    ensures 0 <= q + t.code[q].off <= |t.code|
  {
    hide SameRun, Start;
    var i := AskedFor(t.plain, t.marks, t.code, t.pos, q, 0);
    var w := i + t.plain[i].off;
    assert Border(t.plain, t.marks, w) && Border(t.plain, t.marks, |t.plain|);
    BorderOrder(t.plain, t.marks, t.code, t.pos, 0, w);
    BorderOrder(t.plain, t.marks, t.code, t.pos, w, |t.plain|);
  }

  /** What has been written of a function can be run behind an error: control stays inside and never
      comes to the end mark, as the error chunk is before it. */
  lemma UnfinishedStaysInside(env: Env, t: Trace, m: Mem, k: nat)
    requires Sound(t) && !t.crossed && ForEachJumps(t.plain)
    ensures var code := LeadOut(t.code) + [ERR, EOFN];
            var o := Steps(env, code, Config(0, [], m), k);
            o.Running? ==> 0 <= o.c.pc < |code| - 1
  {
    hide Sound, Steps, Landing, Border;
    var code, n := LeadOut(t.code) + [ERR, EOFN], |t.code| + 1;
    forall q: nat | q < n && code[q].JMP? ensures 0 <= q + code[q].off < n {
      TargetsSoFar(t, q);
    }
    forall q: nat | q < n && code[q].FOREACH? ensures q + 2 < n {
      ForEachSoFar(t, q);
    }
    ShutStays(env, code, n, Config(0, [], m), k);
  }

  lemma ForEachSoFar(t: Trace, q: nat)
    requires Sound(t) && !t.crossed && ForEachJumps(t.plain) && q < |t.code| && t.code[q].FOREACH?
    ensures q + 1 < |t.code|
  {
    hide SameRun, Start;
    var i := AskedFor(t.plain, t.marks, t.code, t.pos, q, 0);
    assert SameChunk(t.plain, t.marks, t.code, t.pos, i + 1);
  }

  /** The loop over the function's chunks after an error. */
  method PatchAfterError(code: array<Chunk>)
    modifies code
    ensures code[..] == LeadOut(old(code[..]))
  {
    for i := 0 to code.Length
      invariant forall j :: 0 <= j < i ==> code[j] == LeadOut(old(code[..]))[j]
      invariant forall j :: i <= j < code.Length ==> code[j] == old(code[j])
    {
      if code[i].JMP? && code[i].off == 0 {
        code[i] := JMP(code[i].jkind, code.Length - i);
      }
    }
  }
}
