/** Programs for which the finished code does something else than the program says. */
module CompiledLimits {
  import opened Bytecode
  import opened Source
  import opened Compile
  import opened Peephole
  import opened Emitter
  import EmitterCalm
  import opened Compiled

  // ----- a join across a jump target -----

  /** `f(a && 0, 0->~NoSuchFunction());` where `a` is the first parameter. */
  const CROSSING: Stmt := SExpr(OUTER, true)
  const OUTER: Expr := ECall(Function(7, 2), Arg(AND_ZERO, false, Arg(MISSING, false, NoArgs)))
  const AND_ZERO: Expr := ELogic(LAnd, ESlot(ParN, 0), EConst(CInt(0)))
  const MISSING: Expr := EMethod(Unknown, EConst(CInt(0)), NoArgs)

  const CROSSED_CODE: Code :=
    [SLOT(ParN, 0, false), JMP(IfFalse, 2), STACK(2), FUNC(7, 2), STACK(-1), NIL, RETURN, EOFN]

  /** Where the joining goes wrong: the code while the call's second parameter is written. */
  const SLOT_WRITTEN: Trace := Trace([SLOT(ParN, 0, true)], false, 1, [SLOT(ParN, 0, true)], {}, [0, 1], false)

  const AND_WRITTEN: Trace :=
    Trace([SLOT(ParN, 0, false), JMP(IfFalse, 2), STACK(1)], true, 1,
          [SLOT(ParN, 0, false), JMP(IfFalse, 2), STACK(1)], {3}, [0, 1, 2, 3], false)

  const ZERO_WRITTEN: Trace :=
    Trace([SLOT(ParN, 0, false), JMP(IfFalse, 2), STACK(1), STACK(1)], false, 2,
          [SLOT(ParN, 0, false), JMP(IfFalse, 2), STACK(1), STACK(1)], {3}, [0, 1, 2, 3, 4], false)

  /** The zero is dropped again, and with it the mark that a jump leads here. */
  const ZERO_DROPPED: Trace :=
    Trace([SLOT(ParN, 0, false), JMP(IfFalse, 2), STACK(1)], false, 1,
          [SLOT(ParN, 0, false), JMP(IfFalse, 2), STACK(1), STACK(1), STACK(-1)], {3}, [0, 1, 2, 3, 4, 3], false)

  const MISSING_WRITTEN: Trace :=
    Trace([SLOT(ParN, 0, false), JMP(IfFalse, 2), STACK(2)], false, 2,
          [SLOT(ParN, 0, false), JMP(IfFalse, 2), STACK(1), STACK(1), STACK(-1), STACK(1)], {3},
              [0, 1, 2, 3, 4, 3, 3], true)

  lemma OpenExprs(t: Trace)
    ensures GenE(2, t, ESlot(ParN, 0)) == Put(2, t, SLOT(ParN, 0, true))
    ensures GenE(2, t, EConst(CInt(0))) == Put(2, t, INT(0))
    ensures var t1 := NoRef(GenE(2, t, ESlot(ParN, 0)));
            GenE(2, t, AND_ZERO) == RedirectHere(GenE(2, Put(2, t1, JMP(IfFalse, 0)), EConst(CInt(0))), |t1.plain|)
    ensures GenE(2, t, MISSING) == PutAll(2, GenE(2, t, EConst(CInt(0))), [STACK(-1), STACK(1)])
  {
    hide Put, NoRef, RedirectHere, PutAll;
    assert [] + [STACK(-1), STACK(1)] == [STACK(-1), STACK(1)];
  }

  lemma WriteAnd()
    ensures GenE(2, EMPTY, AND_ZERO) == AND_WRITTEN
  {
    hide GenE, Put, NoRef, RedirectHere;
    OpenExprs(EMPTY);
    WriteSlot();
    OpenExprs(Put(2, NoRef(SLOT_WRITTEN), JMP(IfFalse, 0)));
    ZeroAfterJump();
  }

  lemma WriteSlot()
    ensures Put(2, EMPTY, SLOT(ParN, 0, true)) == SLOT_WRITTEN
    ensures |NoRef(SLOT_WRITTEN).plain| == 1
  {
  }

  lemma ZeroAfterJump()
    ensures RedirectHere(Put(2, Put(2, NoRef(SLOT_WRITTEN), JMP(IfFalse, 0)), INT(0)), 1) == AND_WRITTEN
  {
    var t2 := Put(2, NoRef(SLOT_WRITTEN), JMP(IfFalse, 0));
    assert t2 == Trace([SLOT(ParN, 0, false), JMP(IfFalse, 0)], false, 0,
                       [SLOT(ParN, 0, false), JMP(IfFalse, 0)], {}, [0, 1, 2], false);
    var t3 := Put(2, t2, INT(0));
    assert t3 == Trace([SLOT(ParN, 0, false), JMP(IfFalse, 0), STACK(1)], false, 1,
                       [SLOT(ParN, 0, false), JMP(IfFalse, 0), STACK(1)], {}, [0, 1, 2, 3], false);
    assert IsJump(Here(t3), 1);
  }

  lemma WriteMissing()
    ensures GenE(2, AND_WRITTEN, MISSING) == MISSING_WRITTEN
  {
    hide GenE;
    OpenExprs(AND_WRITTEN);
    assert Put(2, AND_WRITTEN, INT(0)) == ZERO_WRITTEN;
    assert Put(2, ZERO_WRITTEN, STACK(-1)) == ZERO_DROPPED;
    CrossHere();
    EmitterCalm.PutTwo(2, ZERO_WRITTEN, STACK(-1), STACK(1));
  }

  lemma CrossHere()
    ensures Put(2, ZERO_DROPPED, STACK(1)) == MISSING_WRITTEN
  {
    assert Start(ZERO_DROPPED.plain, {3}, 4) == 3;
    assert !OpenRun(ZERO_DROPPED);
  }

  lemma OpenOuter()
    ensures GenE(2, EMPTY, OUTER) == Put(2, NoRef(GenE(2, NoRef(GenE(2, EMPTY, AND_ZERO)), MISSING)), FUNC(7, 2))
  {
    hide Put, NoRef;
    assert CodeBefore(Function(7, 2)) == [] && PutAll(2, EMPTY, []) == EMPTY;
    assert CodeCall(Function(7, 2), 2) == [FUNC(7, 2)] by { assert [] + [FUNC(7, 2)] == [FUNC(7, 2)]; }
    var a := NoRef(GenE(2, EMPTY, AND_ZERO));
    var b := NoRef(GenE(2, a, MISSING));
    assert GenArgs(2, b, NoArgs) == b;
    assert GenArgs(2, a, Arg(MISSING, false, NoArgs)) == b;
    assert GenArgs(2, EMPTY, Arg(AND_ZERO, false, Arg(MISSING, false, NoArgs))) == b;
    PutAllOne(b, FUNC(7, 2));
  }

  lemma PutAllOne(t: Trace, x: Chunk)
    ensures PutAll(2, t, [x]) == Put(2, t, x)
  {
    hide Put;
    assert PutAll(2, Put(2, t, x), []) == Put(2, t, x);
  }

  lemma NoRefSame()
    ensures NoRef(AND_WRITTEN) == AND_WRITTEN && NoRef(MISSING_WRITTEN) == MISSING_WRITTEN
  {
    assert AND_WRITTEN.plain[2 := STACK(1)] == AND_WRITTEN.plain;
    assert MISSING_WRITTEN.plain[5 := STACK(1)] == MISSING_WRITTEN.plain;
    assert MISSING_WRITTEN.code[2 := STACK(2)] == MISSING_WRITTEN.code;
  }

  /** The two nulls are one chunk now, and the jump leads behind both. */
  lemma CrossingIsWritten()
    ensures Crosses(2, false, CROSSING)
    ensures GenFunction(2, false, CROSSING).code == CROSSED_CODE
  {
    hide GenE, NoRef, Put, NeedsReturn;
    WriteAnd();
    WriteMissing();
    OpenOuter();
    NoRefSame();
    var t1 := Put(2, MISSING_WRITTEN, FUNC(7, 2));
    OuterNoRef(t1);
    assert GenS(2, false, EMPTY, CROSSING).t == Put(2, t1, STACK(-1));
    WriteEnd();
  }

  lemma OuterNoRef(t: Trace)
    requires t == Put(2, MISSING_WRITTEN, FUNC(7, 2))
    ensures NoRef(t) == t
  {
    assert Last(t.plain) == FUNC(7, 2) == Last(t.code);
    assert LastToValue(t.plain) == t.plain && LastToValue(t.code) == t.code;
  }

  lemma WriteEnd()
    ensures var t := Put(2, Put(2, MISSING_WRITTEN, FUNC(7, 2)), STACK(-1));
            var t' := Put(2, Put(2, Put(2, t, NIL), RETURN), EOFN);
            NeedsReturn(t) && t'.code == CROSSED_CODE && t'.crossed
  {
    var t1 := Put(2, MISSING_WRITTEN, FUNC(7, 2));
    assert t1.code == [SLOT(ParN, 0, false), JMP(IfFalse, 2), STACK(2), FUNC(7, 2)] && !t1.jump && t1.crossed;
    var t := Put(2, t1, STACK(-1));
    assert t.code == t1.code + [STACK(-1)] && !t.jump && t.crossed;
    var t2 := Put(2, t, NIL);
    assert t2.code == t.code + [NIL] && !t2.jump && t2.crossed;
    var t3 := Put(2, t2, RETURN);
    assert t3.code == t2.code + [RETURN] && !t3.jump && t3.crossed;
  }

  /** With nil as parameter the call finds one value too few; the program means a call with two
      nils. */
  lemma CrossingChangesMeaning(env: Env, v: Value, m1: Mem)
    requires env.fr == Frame(0, 0, false, 2, false)
    requires env.sem.call(7, [Nil, Nil], Mem([Nil], map[])) == Ok(v, m1)
    ensures var m := Mem([Nil], map[]);
            Stops(env, GenFunction(2, false, CROSSING).code, Config(0, [], m), Failed(Underflow, m))
            && Exec(env, 0, CROSSING, m) == Normal(m1)
  {
    hide GenFunction, Eval, EvalArgs;
    var m := Mem([Nil], map[]);
    CrossingIsWritten();
    CrossedRun(env, m);
    CrossingMeaning(env, m, v, m1);
  }

  lemma CrossedRun(env: Env, m: Mem)
    requires env.fr == Frame(0, 0, false, 2, false) && m == Mem([Nil], map[])
    ensures Stops(env, CROSSED_CODE, Config(0, [], m), Failed(Underflow, m))
  {
    var c0 := Config(0, [], m);
    var c1 := Config(1, [Nil], m);
    var c2 := Config(3, [Nil], m);
    assert Step(env, CROSSED_CODE, c0) == Running(c1);
    assert Step(env, CROSSED_CODE, c1) == Running(c2);
    assert Step(env, CROSSED_CODE, c2) == Failed(Underflow, m);
    assert Steps(env, CROSSED_CODE, c2, 1) == Failed(Underflow, m);
    assert Steps(env, CROSSED_CODE, c1, 2) == Failed(Underflow, m);
    assert Steps(env, CROSSED_CODE, c0, 3) == Failed(Underflow, m);
  }

  lemma CrossingMeaning(env: Env, m: Mem, v: Value, m1: Mem)
    requires env.fr == Frame(0, 0, false, 2, false) && m == Mem([Nil], map[])
    requires env.sem.call(7, [Nil, Nil], m) == Ok(v, m1)
    ensures Exec(env, 0, CROSSING, m) == Normal(m1)
  {
    hide Follow;
    assert Eval(env, ESlot(ParN, 0), true, m) == Val(Nil, m);
    assert Plain(m, Nil) == Nil by { NilIsPlain(m); }
    assert Eval(env, AND_ZERO, true, m) == Val(Nil, m);
    assert Eval(env, MISSING, true, m) == Val(Nil, m) by { assert Eval(env, EConst(CInt(0)), false, m) == Val(Nil, m); }
    OuterMeaning(env, m, v, m1);
  }

  lemma NilIsPlain(m: Mem)
    ensures Plain(m, Nil) == Nil
  {
  }

  lemma OuterMeaning(env: Env, m: Mem, v: Value, m1: Mem)
    requires Eval(env, AND_ZERO, true, m) == Val(Nil, m) && Eval(env, MISSING, true, m) == Val(Nil, m)
    requires env.sem.call(7, [Nil, Nil], m) == Ok(v, m1)
    ensures Exec(env, 0, CROSSING, m) == Normal(m1)
  {
    var last := Arg(MISSING, false, NoArgs);
    assert EvalArgs(env, NoArgs, m) == Vals([], m);
    assert EvalArgs(env, last, m) == Vals([Nil], m);
    assert EvalArgs(env, Arg(AND_ZERO, false, last), m) == Vals([Nil, Nil], m);
    assert Fit([Nil, Nil], 2) == [Nil, Nil];
    assert Eval(env, OUTER, true, m) == Val(v, m1);
  }

  // ----- a function without its final return -----

  /** `if (a) return 1; 0;` */
  const ENDLESS: Stmt :=
    SSeq(SIf(ESlot(ParN, 0), SReturn(EConst(CInt(1)))), SExpr(EConst(CInt(0)), true))

  const ENDLESS_CODE: Code := [SLOT(ParN, 0, false), JMP(Cond, 3), INT(1), RETURN, EOFN]

  const IF_WRITTEN: Trace :=
    Trace([SLOT(ParN, 0, false), JMP(Cond, 3), INT(1), RETURN], true, 0,
          [SLOT(ParN, 0, false), JMP(Cond, 3), INT(1), RETURN], {4}, [0, 1, 2, 3, 4], false)

  lemma WriteIf()
    ensures GenS(2, false, EMPTY, SIf(ESlot(ParN, 0), SReturn(EConst(CInt(1))))).t == IF_WRITTEN
  {
    hide GenE, Put, NoRef, RedirectHere;
    OpenExprs(EMPTY);
    ParWritten();
    var t1 := NoRef(SLOT_WRITTEN);
    var t2 := Put(2, t1, JMP(Cond, 0));
    OneWritten(t2);
    assert GenS(2, false, t2, SReturn(EConst(CInt(1)))).t == Put(2, NoRef(Put(2, t2, INT(1))), RETURN);
    BodyThenJump();
  }

  lemma ParWritten()
    ensures Put(2, EMPTY, SLOT(ParN, 0, true)) == SLOT_WRITTEN && |NoRef(SLOT_WRITTEN).plain| == 1
  {
  }

  lemma OneWritten(t: Trace)
    ensures GenE(2, t, EConst(CInt(1))) == Put(2, t, INT(1))
  {
    hide Put;
  }

  lemma BodyThenJump()
    ensures RedirectHere(Put(2, NoRef(Put(2, Put(2, NoRef(SLOT_WRITTEN), JMP(Cond, 0)), INT(1))), RETURN), 1)
            == IF_WRITTEN
  {
    hide RedirectHere;
    var t2 := Put(2, NoRef(SLOT_WRITTEN), JMP(Cond, 0));
    assert t2 == Trace([SLOT(ParN, 0, false), JMP(Cond, 0)], false, 0,
                       [SLOT(ParN, 0, false), JMP(Cond, 0)], {}, [0, 1, 2], false);
    var t3 := Put(2, t2, INT(1));
    assert t3 == Trace([SLOT(ParN, 0, false), JMP(Cond, 0), INT(1)], false, 1,
                       [SLOT(ParN, 0, false), JMP(Cond, 0), INT(1)], {}, [0, 1, 2, 3], false);
    assert NoRef(t3) == t3;
    ReturnThenJump(t3);
  }

  lemma ReturnThenJump(t3: Trace)
    requires t3 == Trace([SLOT(ParN, 0, false), JMP(Cond, 0), INT(1)], false, 1,
                         [SLOT(ParN, 0, false), JMP(Cond, 0), INT(1)], {}, [0, 1, 2, 3], false)
    ensures RedirectHere(Put(2, t3, RETURN), 1) == IF_WRITTEN
  {
    var t4 := Put(2, t3, RETURN);
    assert t4 == Trace([SLOT(ParN, 0, false), JMP(Cond, 0), INT(1), RETURN], false, 0,
                       [SLOT(ParN, 0, false), JMP(Cond, 0), INT(1), RETURN], {}, [0, 1, 2, 3, 4], false);
    assert IsJump(Here(t4), 1);
  }

  /** The last statement leaves no chunk: what is left ends with the return of the `if`, and that
      a jump leads behind it is forgotten. */
  lemma EndlessIsWritten()
    ensures !FinalReturn(2, false, ENDLESS) && !Crosses(2, false, ENDLESS)
    ensures GenFunction(2, false, ENDLESS).code == ENDLESS_CODE
  {
    hide GenE, Put, NoRef;
    WriteIf();
    OpenExprs(IF_WRITTEN);
    ZeroLeavesNothing();
    var t1 := Put(2, IF_WRITTEN, INT(0));
    assert GenS(2, false, IF_WRITTEN, SExpr(EConst(CInt(0)), true)).t == Put(2, NoRef(t1), STACK(-1));
    assert GenS(2, false, EMPTY, ENDLESS).t == Put(2, NoRef(t1), STACK(-1)) by { hide *; EndlessParts(); WriteIf(); }
  }

  lemma EndlessParts()
    ensures GenS(2, false, EMPTY, ENDLESS).t
            == GenS(2, false, GenS(2, false, EMPTY, SIf(ESlot(ParN, 0), SReturn(EConst(CInt(1))))).t,
                SExpr(EConst(CInt(0)), true)).t
  {
    hide GenE, Put, NoRef, RedirectHere;
  }

  lemma ZeroLeavesNothing()
    ensures var t := Put(2, NoRef(Put(2, IF_WRITTEN, INT(0))), STACK(-1));
            t.code == IF_WRITTEN.code && !t.jump && !t.crossed && !NeedsReturn(t)
            && Put(2, t, EOFN).code == ENDLESS_CODE && !Put(2, t, EOFN).crossed
  {
    var t1 := Put(2, IF_WRITTEN, INT(0));
    assert t1 == Trace(IF_WRITTEN.code + [STACK(1)], false, 1, IF_WRITTEN.plain + [STACK(1)], {4}, [0, 1, 2, 3, 4, 5],
        false);
    assert NoRef(t1) == t1;
    assert Start(t1.plain, {4}, 4) == 4;
    assert JoinInto(t1.code, -1) == IF_WRITTEN.code;
  }

  /** Called with nil, the function runs into its end mark, which is an error. */
  lemma EndlessMissesReturn(env: Env)
    requires env.fr == Frame(0, 0, false, 2, false)
    ensures var m := Mem([Nil], map[]);
            Stops(env, GenFunction(2, false, ENDLESS).code, Config(0, [], m), Failed(NoReturn, m))
  {
    hide GenFunction, Step;
    EndlessIsWritten();
    EndlessRun(env, Mem([Nil], map[]));
  }

  lemma EndlessRun(env: Env, m: Mem)
    requires env.fr == Frame(0, 0, false, 2, false) && m == Mem([Nil], map[])
    ensures Stops(env, ENDLESS_CODE, Config(0, [], m), Failed(NoReturn, m))
  {
    var c0 := Config(0, [], m);
    var c1 := Config(1, [Nil], m);
    var c2 := Config(4, [], m);
    assert Step(env, ENDLESS_CODE, c0) == Running(c1);
    assert Step(env, ENDLESS_CODE, c1) == Running(c2);
    assert Step(env, ENDLESS_CODE, c2) == Failed(NoReturn, m);
    assert Steps(env, ENDLESS_CODE, c2, 1) == Failed(NoReturn, m);
    assert Steps(env, ENDLESS_CODE, c1, 2) == Failed(NoReturn, m);
    assert Steps(env, ENDLESS_CODE, c0, 3) == Failed(NoReturn, m);
  }
}
