/** A program that meets what is supposed of programs: one function that returns what another one
    returns. */
module ProgramExample {
  import opened Bytecode
  import opened Wrappers
  import opened Source
  import opened Compile
  import opened Emitter
  import opened Compiled
  import CrossingText
  import opened EmitterCalmStmt
  import opened Heights
  import Meaning
  import Machine
  import EngineRuns
  import Relocate
  import Programs
  import ProgramNames
  import ProgramRuns

  /** `return Seven();` */
  const CALLER: Stmt := SReturn(ECall(Function(1, MAX_PAR), NoArgs))

  /** `return 7;` */
  const SEVEN: Stmt := SReturn(EConst(CInt(7)))

  ghost function Texts(): map<nat, Stmt> { map[0 := CALLER, 1 := SEVEN] }

  /** Operators and built-in functions give nil, nothing is converted, objects have no functions. */
  ghost function Plain(funcs: seq<Machine.Func>): Machine.World {
    Machine.World(funcs,
                  (strict: nat) => (op: UnOp, v: Value, m: Mem) => Ok(Nil, m),
                  (strict: nat) => (op: BinOp, a: Value, b: Value, m: Mem) => Ok(Nil, m),
                  (f: nat, vs: seq<Value>, m: Mem) => Machine.Done(Nil, []),
                  (kind: CallKind, f: nat, t: Value, m: Mem) => Machine.Nobody,
                  (strict: nat, f: nat, vs: seq<Value>, m: Mem) => Machine.Converted(vs))
  }

  ghost function Compiled2(strict: nat, others: seq<Machine.Func>): Machine.World {
    Plain([Machine.Script(0, GenFunction(strict, false, CALLER).code, strict, false),
           Machine.Script(0, GenFunction(strict, false, SEVEN).code, strict, false)] + others)
  }

  lemma PlainGentle(funcs: seq<Machine.Func>)
    ensures Programs.Gentle(Plain(funcs))
  {
    var w := Plain(funcs);
    hide Relocate.Tidy, Relocate.MovedMem, Relocate.Flat;
    assert Relocate.Below(Nil, 0) by { Programs.NilBelow(); }
    forall strict: nat, op, v, m ensures Relocate.FairUn(w.un(strict), op, v, m) { NilFair(m); }
    forall strict: nat, op, a, b, m ensures Relocate.FairBin(w.bin(strict), op, a, b, m) { NilFair(m); }
    forall f, pars, m ensures Programs.FairNative(w, f, pars, m) { NilFair(m); }
    forall strict, f, pars, m ensures Programs.FairConvert(w, strict, f, pars, m) { }
  }

  lemma NilFair(m: Mem)
    ensures Relocate.Tidy(m) ==> Relocate.Fair(Ok(Nil, m), m)
    ensures forall mv :: Relocate.Moves(mv, m) ==>
              Relocate.MovedResult(mv, Ok(Nil, m)) == Ok(Nil, Relocate.MovedMem(mv, m))
  {
    hide Relocate.Tidy, Relocate.MovedMem;
    assert Relocate.Below(Nil, |m.stack|);
  }

  lemma TextFine(strict: nat, body: Stmt)
    requires body == CALLER || body == SEVEN
    ensures CalmS(body) && LoopsOnly(body, false)
    ensures forall takes: nat -> Option<nat> :: (takes(1).Some? ==> takes(1).value == MAX_PAR)
              ==> ProgramNames.StmtNames(ProgramNames.Names(0, takes), body)
  {
  }

  lemma IsProgram(strict: nat, others: seq<Machine.Func>)
    ensures Programs.Program(Compiled2(strict, others), Texts())
  {
    hide GenFunction, CalmS, LoopsOnly, ProgramNames.StmtNames, CrossingText.CrossesS;
    var w := Compiled2(strict, others);
    forall f | f in Texts() ensures Programs.Written(w, w.funcs[f], Texts()[f]) {
      var body := Texts()[f];
      TextFine(strict, body);
      CalmNeverCrosses(strict, false, body);
      CrossingText.CrossesFromText(strict, false, body);
      ProgramNames.WrittenFromText(w, w.funcs[f], body);
    }
  }

  /** A function that only returns a value. */
  lemma ReturnCode(strict: nat, e: Expr, t: Trace)
    requires t == NoRef(GenE(strict, EMPTY, e))
    ensures GenFunction(strict, false, SReturn(e)).code == t.code + [RETURN] + [EOFN]
  {
    hide GenE, NoRef;
    var t1 := Put(strict, t, RETURN);
    assert GenS(strict, false, EMPTY, SReturn(e)).t == t1;
    hide GenS;
    PutBehind(strict, t, RETURN);
    PutBehind(strict, t1, EOFN);
  }

  lemma SevenCode(strict: nat)
    ensures GenFunction(strict, false, SEVEN).code == [INT(7), RETURN, EOFN]
  {
    hide GenFunction;
    var t := NoRef(Put(strict, EMPTY, INT(7)));
    assert t.code == [INT(7)];
    ReturnCode(strict, SEVEN.e, t);
    assert [INT(7)] + [RETURN] + [EOFN] == [INT(7), RETURN, EOFN];
  }

  lemma CallerCode(strict: nat)
    ensures GenFunction(strict, false, CALLER).code == [STACK(10), FUNC(1, 10), RETURN, EOFN]
  {
    hide GenFunction, GenE, Put, NoRef;
    var t := NoRef(Put(strict, Put(strict, EMPTY, STACK(10)), FUNC(1, 10)));
    CallPut(strict);
    CallWritten(strict);
    ReturnCode(strict, CALLER.e, t);
    assert [STACK(10), FUNC(1, 10)] + [RETURN] + [EOFN] == [STACK(10), FUNC(1, 10), RETURN, EOFN];
  }

  lemma CallPut(strict: nat)
    ensures var t := NoRef(Put(strict, Put(strict, EMPTY, STACK(10)), FUNC(1, 10)));
            t.code == [STACK(10), FUNC(1, 10)] && !t.jump
  {
    var t1 := Put(strict, EMPTY, STACK(10));
    assert t1.code == [STACK(10)];
    PutBehind(strict, t1, FUNC(1, 10));
  }

  lemma PutBehind(strict: nat, t: Trace, x: Chunk)
    requires x.FUNC? || x.RETURN? || x.EOFN?
    ensures Put(strict, t, x).code == t.code + [x] && !Put(strict, t, x).jump
  {
  }

  lemma CallWritten(strict: nat)
    ensures GenE(strict, EMPTY, CALLER.e) == Put(strict, Put(strict, EMPTY, STACK(10)), FUNC(1, 10))
  {
    hide Put;
    assert Balance(0, 10) + [FUNC(1, 10)] == [STACK(10), FUNC(1, 10)];
    assert [STACK(10), FUNC(1, 10)][1..] == [FUNC(1, 10)] && [FUNC(1, 10)][1..] == [];
    var t := PutAll(strict, EMPTY, []);
    assert t == EMPTY;
    assert PutAll(strict, Put(strict, EMPTY, STACK(10)), [FUNC(1, 10)])
        == Put(strict, Put(strict, EMPTY, STACK(10)), FUNC(1, 10));
  }

  lemma Meets(strict: nat, others: seq<Machine.Func>)
    ensures ProgramRuns.Setup(Compiled2(strict, others), Texts(), 10, 0)
  {
    hide GenFunction, Programs.Gentle, Programs.Program;
    var w := Compiled2(strict, others);
    PlainGentle(w.funcs);
    IsProgram(strict, others);
    TextFine(strict, CALLER);
    TextFine(strict, SEVEN);
    CalmNeverCrosses(strict, false, CALLER);
    CalmNeverCrosses(strict, false, SEVEN);
    SevenCode(strict);
    CallerCode(strict);
    SmallCodes();
  }

  lemma SmallCodes()
    ensures forall i: nat :: i <= 3 ==> H([INT(7), RETURN, EOFN], i) <= 10
    ensures forall i: nat :: i <= 4 ==> H([STACK(10), FUNC(1, 10), RETURN, EOFN], i) <= 10
  {
    hide H;
    var a: Code, b: Code := [INT(7), RETURN, EOFN], [STACK(10), FUNC(1, 10), RETURN, EOFN];
    Counting(a);
    Counting(b);
    assert H(a, 0 + 1) == 1 && H(a, 1 + 1) == 0 && H(a, 2 + 1) == 0;
    assert H(b, 0 + 1) == 10 && H(b, 1 + 1) == 1 && H(b, 2 + 1) == 0 && H(b, 3 + 1) == 0;
  }

  lemma Counting(code: Code)
    ensures H(code, 0) == 0
    ensures forall i: nat :: i < |code| ==> H(code, i + 1) == H(code, i) + Delta(code[i])
  {
    HEnds(code);
    forall i: nat | i < |code| ensures H(code, i + 1) == H(code, i) + Delta(code[i]) { HNext(code, i); }
  }

  lemma SameFolded(strict: nat)
    ensures Meaning.FoldS(strict, SEVEN) == SEVEN && Meaning.FoldS(strict, CALLER) == CALLER
  {
  }

  /** What the evaluator says of the two functions. */
  lemma SevenEnds(env: Env, m: Mem)
    requires !env.fr.returnRef
    ensures Programs.Ends(env, SEVEN, m, Returned(Int(7), m))
  {
    SameFolded(env.fr.strict);
    hide Meaning.FoldS;
    assert Exec(env, 0, SEVEN, m) == Return(Int(7), m);
  }

  lemma CallIsSeven(strict: nat, others: seq<Machine.Func>, m: Mem, vs: seq<Value>)
    requires |vs| == MAX_PAR
    ensures Programs.CallOf(Compiled2(strict, others), Texts(), 1, strict, false, 1, vs, m) == Ok(Int(7), m)
  {
    hide GenFunction, Programs.Ends, Programs.SemOf;
    var w, bodies := Compiled2(strict, others), Texts();
    var full := Mem(m.stack + vs, m.heap);
    assert full.stack[|m.stack|..] == vs && Programs.WithArgs(full, |m.stack|, vs) == full;
    var env := Env(Programs.SemOf(w, bodies, 0, strict, false), Frame(|m.stack|, |full.stack|, false, strict, false));
    var m2 := Mem(full.stack + Nils(0), full.heap);
    assert m2 == full;
    SevenEnds(env, m2);
    IsProgram(strict, others);
    forall o | Programs.Ends(env, SEVEN, m2, o) ensures o == Returned(Int(7), m2) {
      Programs.OneEnd(env, w.funcs[1], w, SEVEN, m2, o, Returned(Int(7), m2));
    }
    assert Programs.BodyResult(env, SEVEN, m2, |m.stack|) == Ok(Int(7), Programs.Cut(m2, |m.stack|));
    assert Programs.Cut(m2, |m.stack|) == m;
  }

  lemma CallerEnds(strict: nat, others: seq<Machine.Func>, fr: Frame, m: Mem)
    requires fr.strict == strict && !fr.returnRef
    ensures Programs.Ends(Env(Programs.SemOf(Compiled2(strict, others), Texts(), 1, strict, false), fr), CALLER, m,
            Returned(Int(7), m))
  {
    hide GenFunction, Programs.CallOf, Programs.ObjCallOf;
    var env := Env(Programs.SemOf(Compiled2(strict, others), Texts(), 1, strict, false), fr);
    SameFolded(strict);
    hide Meaning.FoldS;
    CallIsSeven(strict, others, m, Fit([], MAX_PAR));
    assert EvalArgs(env, NoArgs, m) == Vals([], m);
    assert Eval(env, CALLER.e, true, m) == Val(Int(7), m);
    assert Exec(env, 0, CALLER, m) == Return(Int(7), m);
  }

  /** A built-in function that runs the caller comes by 7, through two calls on the engine's stacks. */
  lemma EngineGivesSeven(strict: nat, others: seq<Machine.Func>, vm: Machine.VM) returns (k: nat)
    requires vm.mode.InHost? && vm.mode.plan.Run? && !vm.mode.plan.pass
    requires var p := vm.mode.plan;
             p.f == 0 && !p.hasObject && p.args == Nils(MAX_PAR) && p.writes == []
                 && Relocate.Tidy(Mem(vm.stack, vm.heap))
             && |vm.stack| <= 990 && |vm.ctxs| <= 510
    ensures EngineRuns.BackWith(vm, Machine.VMSteps(Compiled2(strict, others), vm, k), Int(7),
            ProgramRuns.RunMem(Compiled2(strict, others), vm))
  {
    hide GenFunction, Programs.Ends, ProgramRuns.Setup, Relocate.Tidy, Machine.VMStep, Machine.VMSteps,
         EngineRuns.BackWith, ProgramRuns.RunMem, Programs.SemOf;
    var w, m := Compiled2(strict, others), ProgramRuns.RunMem(Compiled2(strict, others), vm);
    Meets(strict, others);
    Programs.NilsBelow(MAX_PAR, |vm.stack|);
    assert ProgramRuns.Runnable(w, Texts(), 1, vm, 10, 0);
    var c := ProgramRuns.RunContext(vm);
    CallerEnds(strict, others, Machine.EnvOf(w, c).fr, m);
    k := ProgramRuns.EngineRunsProgram(w, Texts(), 1, vm, Returned(Int(7), m), 10, 0);
  }
}
