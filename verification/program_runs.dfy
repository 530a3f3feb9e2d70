/** From whole programs to the engine: what the evaluator says of a program, with all the calls its
    functions make of each other, is what the engine does on its stacks. */
module ProgramRuns {
  import opened Bytecode
  import opened Heights
  import opened Machine
  import opened MachineSafe
  import opened EngineRuns
  import opened Relocate
  import opened Programs
  import Source
  import Emitter
  import Compiled

  // ----- room -----

  /** No function of the program has more than `tall` temporaries or `wide` variables. */
  ghost predicate Sizes(w: World, bodies: map<nat, Source.Stmt>, tall: nat, wide: nat) {
    forall f :: f in bodies && f < |w.funcs| && w.funcs[f].Script? ==> Small(w.funcs[f], tall, wide)
  }

  ghost predicate Small(fn: Func, tall: nat, wide: nat)
    requires fn.Script?
  {
    fn.vars <= wide && forall i: nat :: i <= |fn.code| ==> H(fn.code, i) <= tall
  }

  /** There is room for `n` more calls, one inside the other. */
  predicate Deep(w: World, c: Context, depth: nat, n: nat, tall: nat, wide: nat) {
    Base(w, c) + tall + n * (tall + wide) <= MAX_VALUES && depth + n <= MAX_CONTEXTS
  }

  ghost predicate Setup(w: World, bodies: map<nat, Source.Stmt>, tall: nat, wide: nat) {
    OpsOk(w) && Gentle(w) && Program(w, bodies) && Sizes(w, bodies, tall, wide)
  }

  /** The call `c`, where functions mean what they say up to `n` calls deep. */
  ghost function EnvAt(w: World, bodies: map<nat, Source.Stmt>, n: nat, c: Context): Env {
    Env(SemOf(w, bodies, n, StrictOf(w, c), c.hasObject), EnvOf(w, c).fr)
  }

  /** A script function that was called with its ten parameters. */
  predicate GoodFrame(w: World, bodies: map<nat, Source.Stmt>, c: Context) {
    c.func in bodies && c.func < |w.funcs| && w.funcs[c.func].Script? && c.vars == c.pars + MAX_PAR
  }

  lemma FrameFits(w: World, bodies: map<nat, Source.Stmt>, c: Context)
    requires Program(w, bodies) && GoodFrame(w, bodies, c)
    ensures CodeNames(CodeOf(w, c.func), EnvOf(w, c).fr, Base(w, c), Takes(w))
  {
    hide CodeNames, Written;
    var fn := w.funcs[c.func];
    assert Written(w, fn, bodies[c.func]);
    WrittenFits(w, fn, bodies[c.func], c.pars, EnvOf(w, c).fr);
  }

  lemma ProgramLoose(w: World, bodies: map<nat, Source.Stmt>, f: nat)
    requires Program(w, bodies) && f in bodies
    ensures Loose(CodeOf(w, f))
  {
    hide CodeNames, Emitter.GenFunction, Compiled.Crosses, Source.LoopsOnly, Loose, Even;
    var fn := w.funcs[f];
    assert Written(w, fn, bodies[f]);
    CompiledEven(fn.strict, fn.returnRef, bodies[f]);
    EvenLoose(fn.code);
  }

  lemma RoomHere(w: World, bodies: map<nat, Source.Stmt>, c: Context, depth: nat, n: nat, tall: nat, wide: nat)
    requires Sizes(w, bodies, tall, wide) && GoodFrame(w, bodies, c) && Deep(w, c, depth, n, tall, wide)
    ensures Room(w, c) && VarsOf(w, c.func) <= wide
    ensures forall i: nat :: i <= |CodeOf(w, c.func)| ==> H(CodeOf(w, c.func), i) <= tall
  {
    hide H;
    assert Small(w.funcs[c.func], tall, wide);
  }

  lemma RoomInside(w: World, c: Context, d: Context, depth: nat, n: nat, tall: nat, wide: nat, height: nat)
    requires Deep(w, c, depth, n, tall, wide) && n > 0 && height <= Base(w, c) + tall
    requires d.vars == height && VarsOf(w, d.func) <= wide
    ensures Deep(w, d, depth + 1, n - 1, tall, wide)
    ensures height + VarsOf(w, d.func) <= MAX_VALUES && depth < MAX_CONTEXTS
  {
    assert n * (tall + wide) == (n - 1) * (tall + wide) + (tall + wide);
    assert (n - 1) * (tall + wide) >= 0;
  }

  // ----- a call and its end -----

  /** The call made at chunk `pc` has ended, with result `r` for slot `slot`. */
  ghost predicate CallEnds(vm: VM, u: VM, pc: int, slot: nat, r: OpResult)
    requires |vm.ctxs| > 0
  {
    var k := |vm.ctxs|;
    && |r.m.stack| == slot && u.hosts == vm.hosts && u.heap == r.m.heap
    && match r
       case Ok(v, m) =>
         u.stack == m.stack + [v] && u.ctxs == vm.ctxs[k - 1 := Top(vm.ctxs).(cpos := pc)] && u.mode == InScript(pc + 1)
       case Throw(e, m) =>
         && u.mode.Raised? && u.mode.e == e && |u.ctxs| >= k && u.ctxs[..k - 1] == vm.ctxs[..k - 1]
         && SameCall(u.ctxs[k - 1], Top(vm.ctxs)) && slot <= |u.stack| && u.stack[..slot] == m.stack
  }

  /** From `vm1` on, where the call begins, it ends after `k` steps, while what was in progress goes
      on. */
  ghost predicate CallRuns(w: World, vm: VM, vm1: VM, k: nat, pc: int, slot: nat, r: OpResult)
    requires |vm.ctxs| > 0
  {
    CallEnds(vm, VMSteps(w, vm1, k), pc, slot, r) && Stays(w, vm1, k, |vm.hosts|)
  }

  lemma EndsNow(w: World, vm: VM, vm1: VM, k: nat, pc: int, slot: nat, r: OpResult)
    requires |vm.ctxs| > 0 && |vm1.hosts| >= |vm.hosts| && k <= 1
    requires CallEnds(vm, if k == 0 then vm1 else VMStep(w, vm1), pc, slot, r)
    ensures CallRuns(w, vm, vm1, k, pc, slot, r)
  {
    hide VMStep;
    VMOne(w, vm1);
    VMNone(w, vm1);
    StaysOne(w, vm1, |vm.hosts|);
  }

  /** The caller is about to call a function with the values from slot `pars` on. */
  ghost predicate Calls(w: World, vm: VM, pc: int, slot: nat, pars: nat) {
    && |vm.ctxs| > 0 && vm.mode == InScript(pc) && slot <= pars <= |vm.stack|
    && (slot == |vm.stack| ==> |vm.stack| < MAX_VALUES)
  }

  lemma RaisedEnds(vm: VM, u: VM, pc: int, slot: nat, e: Error, m: Mem)
    requires |vm.ctxs| > 0 && slot <= |vm.stack| && m == Mem(vm.stack, vm.heap)
    requires u == Machine.Raise(vm.(ctxs := vm.ctxs[|vm.ctxs| - 1 := Top(vm.ctxs).(cpos := pc)]), e, pc)
    ensures CallEnds(vm, u, pc, slot, Throw(e, Cut(m, slot)))
  {
  }

  /** A built-in function that runs no scripts. */
  lemma NativeEnds(w: World, vm: VM, vm1: VM, pc: int, slot: nat, pars: nat, f: nat, m1: Mem)
    requires Calls(w, vm, pc, slot, pars) && |m1.stack| == |vm.stack| && m1.heap == vm.heap
    requires !w.native(f, m1.stack[pars..], m1).Run?
    requires vm1 == vm.(stack := m1.stack, ctxs := vm.ctxs[|vm.ctxs| - 1 := Top(vm.ctxs).(cpos := pc)],
                        hosts := vm.hosts + [Calling(slot, pc)], mode := InHost(w.native(f, m1.stack[pars..], m1)))
    ensures CallEnds(vm, VMStep(w, vm1), pc, slot, CutResult(AtOnce(w.native(f, m1.stack[pars..], m1), m1), slot))
  {
    hide WriteAll;
    var plan := w.native(f, m1.stack[pars..], m1);
    WriteSize(m1, plan.writes);
    assert vm1.hosts[..|vm1.hosts| - 1] == vm.hosts;
    assert Mem(vm1.stack, vm1.heap) == m1;
    assert VMStep(w, vm1) == HostStep(w, vm1, plan);
    var m := WriteAll(m1, plan.writes);
    if slot == |m.stack| { assert m.stack[..slot] == m.stack; }
  }

  lemma WriteSize(m: Mem, writes: seq<Assignment>)
    ensures |WriteAll(m, writes).stack| == |m.stack|
  {
  }

  /** The script function that was called has come to its return. */
  lemma ReturnEnds(w: World, env: Env, vm: VM, vm1: VM, u: VM, pc: int, slot: nat, last: Config, v: Value, m: Mem)
    requires |vm.ctxs| > 0 && |vm1.ctxs| == |vm.ctxs| + 1 && vm1.hosts == vm.hosts
    requires vm1.ctxs[..|vm.ctxs|] == vm.ctxs[|vm.ctxs| - 1 := Top(vm.ctxs).(cpos := pc)]
    requires Top(vm1.ctxs).ret == Slot(slot) && slot <= Base(w, Top(vm1.ctxs))
    requires Matches(w, env, Top(vm1.ctxs)) && InFrame(w, vm1, u, last)
    requires var code := CodeOf(w, Top(vm1.ctxs).func);
             0 <= last.pc < |code| && code[last.pc].RETURN? && |last.temps| > 0
                 && Step(env, code, last) == Returned(v, m)
    ensures CallEnds(vm, VMStep(w, u), pc, slot, Ok(v, Cut(m, slot)))
  {
    hide Plain;
    FrameBase(w, vm1, u, last);
    var n := |u.ctxs| - 1;
    assert u.ctxs[..n] == vm1.ctxs[..n];
    assert u.stack[|u.stack| - 1] == last.temps[|last.temps| - 1];
    assert m == last.m;
    assert VMStep(w, u) == Leave(w, u);
    assert u.stack[..slot] == m.stack[..slot];
  }

  /** An error has come up in it. */
  lemma ErrorEnds(w: World, vm: VM, vm1: VM, u: VM, pc: int, slot: nat, e: Error, m: Mem)
    requires |vm.ctxs| > 0 && |vm1.ctxs| == |vm.ctxs| + 1 && vm1.hosts == vm.hosts
    requires vm1.ctxs[..|vm.ctxs|] == vm.ctxs[|vm.ctxs| - 1 := Top(vm.ctxs).(cpos := pc)]
    requires slot <= Base(w, Top(vm1.ctxs)) && ErrorIn(w, vm1, u, e, m)
    ensures CallEnds(vm, u, pc, slot, Throw(e, Cut(m, slot)))
  {
    var k := |vm.ctxs|;
    assert u.ctxs[..k] == vm1.ctxs[..k];
    assert u.ctxs[..k - 1] == u.ctxs[..k][..k - 1] == vm.ctxs[..k - 1];
    assert u.ctxs[k - 1] == u.ctxs[..k][k - 1];
    assert u.stack[..slot] == u.stack[..|m.stack|][..slot];
  }

  /** What the function called begins with. */
  ghost predicate Begun(w: World, bodies: map<nat, Source.Stmt>, vm: VM, vm1: VM, c: Context, pc: int, m: Mem) {
    && |vm.ctxs| > 0 && vm1.mode == InScript(0) && vm1.hosts == vm.hosts
    && vm1.ctxs == vm.ctxs[|vm.ctxs| - 1 := Top(vm.ctxs).(cpos := pc)] + [c]
    && GoodFrame(w, bodies, c) && |vm1.stack| == Base(w, c) && m == Mem(vm1.stack, vm1.heap) && Tidy(m)
  }

  lemma BegunFrame(w: World, bodies: map<nat, Source.Stmt>, vm: VM, vm1: VM, c: Context, pc: int, m: Mem)
    requires Begun(w, bodies, vm, vm1, c, pc, m)
    ensures Top(vm1.ctxs) == c && |vm1.ctxs| == |vm.ctxs| + 1
    ensures vm1.ctxs[..|vm.ctxs|] == vm.ctxs[|vm.ctxs| - 1 := Top(vm.ctxs).(cpos := pc)]
    ensures InFrame(w, vm1, vm1, Config(0, [], m)) && Counts(w, vm1, Config(0, [], m))
  {
    hide H, Tidy;
    HEnds(CodeOf(w, c.func));
    assert vm1.stack + [] == vm1.stack;
  }

  lemma MatchesAt(w: World, bodies: map<nat, Source.Stmt>, n: nat, c: Context)
    ensures Matches(w, EnvAt(w, bodies, n, c), c)
  {
  }

  /** The body of a script function that was called. */
  lemma ScriptEnds(w: World, bodies: map<nat, Source.Stmt>, n: nat, vm: VM, vm1: VM, c: Context, pc: int, slot: nat,
                   m: Mem,
                   tall: nat, wide: nat) returns (k: nat)
    requires Setup(w, bodies, tall, wide) && n > 0 && Begun(w, bodies, vm, vm1, c, pc, m)
    requires c.ret == Slot(slot) && slot <= c.pars && Deep(w, c, |vm1.ctxs|, n - 1, tall, wide)
    ensures var r := BodyResult(EnvAt(w, bodies, n - 1, c), bodies[c.func], m, slot);
            r == Throw(TooDeep, r.m) || CallRuns(w, vm, vm1, k, pc, slot, r)
    decreases n, 0
  {
    hide Ends, InFrame, ErrorIn, VMStep, Step, Room, CallsAgree, CodeNames, Counts, Written, SemOf, Tidy, CallEnds,
         Gentle, OpsOk, Sizes, Stays;
    var env, body, code := EnvAt(w, bodies, n - 1, c), bodies[c.func], CodeOf(w, c.func);
    var d := Config(0, [], m);
    k := 0;
    if exists o :: Ends(env, body, m, o) {
      var o :| Ends(env, body, m, o) && BodyResult(env, body, m, slot) == OfOutcome(o, m, slot);
      EndsNot(env, body, m, o);
      var fn := w.funcs[c.func];
      assert Written(w, fn, body);
      EndsStops(env, code, fn, w, body, m, o);
      var j: nat :| Steps(env, code, d, j) == o;
      BegunFrame(w, bodies, vm, vm1, c, pc, m);
      RoomHere(w, bodies, c, |vm1.ctxs|, n - 1, tall, wide);
      ProgramAgrees(w, bodies, n - 1, vm1, m, tall, wide);
      ReachedFirst(env, code, d);
      MatchesAt(w, bodies, n - 1, c);
      ProgramLoose(w, bodies, c.func);
      assert Runs(w, env, vm1, d);
      var i, last := RunFrame(w, env, vm1, vm1, d, d, j);
      k := i;
      var u := VMSteps(w, vm1, i);
      if o.Returned? {
        k := i + 1;
        ReturnEnds(w, env, vm, vm1, u, pc, slot, last, o.v, o.m);
        VMStepsAdd(w, vm1, i, 1);
        VMOne(w, u);
        EndsHosts(vm, VMStep(w, u), pc, slot, Ok(o.v, Cut(o.m, slot)));
        FrameHosts(w, vm1, u, last);
        StaysOne(w, u, |vm.hosts|);
        StaysThen(w, vm1, i, 1, |vm.hosts|);
        assert CallEnds(vm, VMSteps(w, vm1, k), pc, slot, OfOutcome(o, m, slot));
      } else if o.e != TooDeep {
        ErrorEnds(w, vm, vm1, u, pc, slot, o.e, o.m);
        assert CallEnds(vm, VMSteps(w, vm1, k), pc, slot, OfOutcome(o, m, slot));
      } else {
        assert OfOutcome(o, m, slot) == Throw(TooDeep, Cut(o.m, slot));
      }
    }
  }

  lemma EndsHosts(vm: VM, u: VM, pc: int, slot: nat, r: OpResult)
    requires |vm.ctxs| > 0 && CallEnds(vm, u, pc, slot, r)
    ensures u.hosts == vm.hosts
  {
  }

  /** The parameters, converted, in the place of those given. */
  lemma CallWith(w: World, vm: VM, f: nat, slot: nat, pars: nat, hasObject: bool, pc: int, args: seq<Value>)
    requires |vm.ctxs| > 0 && pars <= |vm.stack| && f < |w.funcs|
    requires w.convert(StrictOf(w, Top(vm.ctxs)), f, vm.stack[pars..], Mem(vm.stack, vm.heap)) == Converted(args)
    ensures var m1 := WithArgs(Mem(vm.stack, vm.heap), pars, args);
            var vm2 := vm.(stack := m1.stack, ctxs := vm.ctxs[|vm.ctxs| - 1 := Top(vm.ctxs).(cpos := pc)]);
            Machine.Call(w, vm, f, slot, pars, |vm.stack| - pars, hasObject, pc) ==
            match w.funcs[f]
            case Native =>
              vm2.(hosts := vm.hosts + [Calling(slot, pc)], mode := InHost(w.native(f, m1.stack[pars..], m1)))
            case Script(vars, _, _, _) => Enter(w, vm2, f, Context(Slot(slot), pars, |vm.stack|, f, hasObject, 0), pc)
  {
    var n := |vm.stack| - pars;
    assert vm.stack[pars..pars + n] == vm.stack[pars..];
    assert vm.stack[..pars] + args + vm.stack[pars + n..] == vm.stack[..pars] + args;
    var m1 := WithArgs(Mem(vm.stack, vm.heap), pars, args);
    assert m1.stack[pars..pars + n] == m1.stack[pars..];
  }

  lemma CallMisfit(w: World, vm: VM, f: nat, slot: nat, pars: nat, hasObject: bool, pc: int)
    requires |vm.ctxs| > 0 && pars <= |vm.stack|
    requires f < |w.funcs| ==> w.convert(StrictOf(w, Top(vm.ctxs)), f, vm.stack[pars..], Mem(vm.stack, vm.heap)).Misfit?
    ensures var e := if f < |w.funcs| then w.convert(StrictOf(w, Top(vm.ctxs)), f, vm.stack[pars..],
            Mem(vm.stack, vm.heap)).e else BadTarget;
            Machine.Call(w, vm, f, slot, pars, |vm.stack| - pars, hasObject, pc)
            == Machine.Raise(vm.(ctxs := vm.ctxs[|vm.ctxs| - 1 := Top(vm.ctxs).(cpos := pc)]), e, pc)
  {
    assert vm.stack[pars..pars + (|vm.stack| - pars)] == vm.stack[pars..];
  }

  lemma VMNone(w: World, vm: VM)
    ensures VMSteps(w, vm, 0) == vm
  {
  }

  /** What the evaluator says of a call is what the engine does with it. */
  lemma InvokeEnds(w: World, bodies: map<nat, Source.Stmt>, n: nat, vm: VM, f: nat, pc: int, slot: nat, pars: nat,
                   hasObject: bool,
                   tall: nat, wide: nat) returns (k: nat)
    requires Setup(w, bodies, tall, wide) && Calls(w, vm, pc, slot, pars) && Given(Mem(vm.stack, vm.heap), pars)
    requires f < |w.funcs| && w.funcs[f].Script? ==> |vm.stack| == pars + MAX_PAR
    requires Deep(w, Top(vm.ctxs), |vm.ctxs|, n, tall, wide) && |vm.stack| <= Base(w, Top(vm.ctxs)) + tall
    ensures var r := Invoke(w, bodies, n, StrictOf(w, Top(vm.ctxs)), hasObject, f, pars, Mem(vm.stack, vm.heap), slot);
            var vm1 := Machine.Call(w, vm, f, slot, pars, |vm.stack| - pars, hasObject, pc);
            r == Throw(TooDeep, r.m) || CallRuns(w, vm, vm1, k, pc, slot, r)
    decreases n, 1
  {
    hide Machine.Call, VMStep, SemOf, Tidy, CallEnds, Below, BodyResult, AtOnce, Gentle, OpsOk, Deep, WithArgs,
         VMSteps, CallRuns;
    var m := Mem(vm.stack, vm.heap);
    var vm1 := Machine.Call(w, vm, f, slot, pars, |vm.stack| - pars, hasObject, pc);
    k := 0;
    if f >= |w.funcs| || w.convert(StrictOf(w, Top(vm.ctxs)), f, vm.stack[pars..], m).Misfit? {
      CallMisfit(w, vm, f, slot, pars, hasObject, pc);
      var e := if f < |w.funcs| then w.convert(StrictOf(w, Top(vm.ctxs)), f, vm.stack[pars..], m).e else BadTarget;
      RaisedEnds(vm, vm1, pc, slot, e, m);
      EndsNow(w, vm, vm1, 0, pc, slot, Throw(e, Cut(m, slot)));
    } else {
      var args := w.convert(StrictOf(w, Top(vm.ctxs)), f, vm.stack[pars..], m).args;
      CallWith(w, vm, f, slot, pars, hasObject, pc, args);
      var m1 := WithArgs(m, pars, args);
      ArgsGiven(w, StrictOf(w, Top(vm.ctxs)), f, pars, m);
      if w.funcs[f].Native? {
        k := 1;
        PlanOnce(w, f, pars, m1);
        NativeEnds(w, vm, vm1, pc, slot, pars, f, m1);
        EndsNow(w, vm, vm1, 1, pc, slot, CutResult(AtOnce(w.native(f, m1.stack[pars..], m1), m1), slot));
      } else if n > 0 && f in bodies {
        var c := Context(Slot(slot), pars, |vm.stack|, f, hasObject, 0);
        var m2 := ScriptBegins(w, bodies, n, vm, vm1, m1, c, pc, tall, wide);
        k := ScriptEnds(w, bodies, n, vm, vm1, c, pc, slot, m2, tall, wide);
      }
    }
  }

  lemma ArgsGiven(w: World, strict: nat, f: nat, pars: nat, m: Mem)
    requires Gentle(w) && Given(m, pars) && w.convert(strict, f, m.stack[pars..], m).Converted?
    ensures var m1 := WithArgs(m, pars, w.convert(strict, f, m.stack[pars..], m).args);
            Given(m1, pars) && |m1.stack| == |m.stack| && m1.heap == m.heap
  {
    hide Tidy, Below, MovedMem, Gentle;
    var none := Move(0, []);
    NoMove(m);
    ConvertMoved(none, w, strict, f, pars, m);
    ArgsMoved(none, m, pars, w.convert(strict, f, m.stack[pars..], m).args);
  }

  lemma PlanOnce(w: World, f: nat, pars: nat, m: Mem)
    requires Gentle(w) && Given(m, pars)
    ensures !w.native(f, m.stack[pars..], m).Run?
  {
    assert FairNative(w, f, pars, m);
  }

  /** There is room for the function's variables and its context. */
  lemma ScriptBegins(w: World, bodies: map<nat, Source.Stmt>, n: nat, vm: VM, vm1: VM, m1: Mem, c: Context, pc: int,
                     tall: nat, wide: nat)
    returns (m2: Mem)
    requires Setup(w, bodies, tall, wide) && n > 0 && |vm.ctxs| > 0 && c.func in bodies && c.func < |w.funcs|
    requires w.funcs[c.func].Script? && |m1.stack| == |vm.stack| == c.vars == c.pars + MAX_PAR && m1.heap == vm.heap
             && Given(m1, c.pars)
    requires Deep(w, Top(vm.ctxs), |vm.ctxs|, n, tall, wide) && |vm.stack| <= Base(w, Top(vm.ctxs)) + tall
    requires var vm2 := vm.(stack := m1.stack, ctxs := vm.ctxs[|vm.ctxs| - 1 := Top(vm.ctxs).(cpos := pc)]);
             vm1 == Enter(w, vm2, c.func, c, pc)
    ensures m2 == Mem(m1.stack + Nils(w.funcs[c.func].vars), m1.heap)
    ensures Begun(w, bodies, vm, vm1, c, pc, m2) && Deep(w, c, |vm1.ctxs|, n - 1, tall, wide)
  {
    hide Tidy, Deep, Below, Setup, Enter, Flat;
    var vars := w.funcs[c.func].vars;
    m2 := Mem(m1.stack + Nils(vars), m1.heap);
    FewVars(w, bodies, c.func, tall, wide);
    RoomInside(w, Top(vm.ctxs), c, |vm.ctxs|, n, tall, wide, |vm.stack|);
    EnterDoes(w, vm.(stack := m1.stack, ctxs := vm.ctxs[|vm.ctxs| - 1 := Top(vm.ctxs).(cpos := pc)]), c, pc);
    NilsBelow(vars, |m1.stack|);
    MoreTidy(m1, Nils(vars));
  }

  lemma FewVars(w: World, bodies: map<nat, Source.Stmt>, f: nat, tall: nat, wide: nat)
    requires Setup(w, bodies, tall, wide) && f in bodies && f < |w.funcs| && w.funcs[f].Script?
    ensures VarsOf(w, f) == w.funcs[f].vars <= wide
  {
    hide Gentle, OpsOk, Program, H;
    assert Small(w.funcs[f], tall, wide);
  }

  lemma EnterDoes(w: World, vm: VM, c: Context, pc: int)
    requires |vm.stack| + VarsOf(w, c.func) <= MAX_VALUES && |vm.ctxs| < MAX_CONTEXTS
    ensures Enter(w, vm, c.func, c, pc)
            == vm.(stack := vm.stack + Nils(VarsOf(w, c.func)), ctxs := vm.ctxs + [c], mode := InScript(0))
  {
  }

  // ----- calls agree -----

  /** Chunk `pc` with the values `top` on `kept`, in the frame of `vm0`. */
  lemma BackInFrame(w: World, vm0: VM, vm: VM, u: VM, d: Config, t: nat, r: OpResult, mv: Move)
    requires InFrame(w, vm0, vm, d) && t <= |d.temps| && mv == Move(|d.m.stack|, d.temps[..t])
    requires |r.m.stack| == |d.m.stack| && (r.Ok? ==> Below(r.v, 0))
    requires CallEnds(vm, u, d.pc, |d.m.stack| + t, MovedResult(mv, r))
    ensures match r
            case Ok(v, m) => InFrame(w, vm0, u, Config(d.pc + 1, d.temps[..t] + [v], m))
            case Throw(e, m) => ErrorIn(w, vm0, u, e, m)
  {
    hide Flat;
    assert r.m.stack[..mv.at] == r.m.stack && r.m.stack[mv.at..] == [];
    assert MovedAll(mv, []) == [];
    assert MovedMem(mv, r.m) == Mem(r.m.stack + d.temps[..t], r.m.heap);
    match r
    case Ok(v, m) =>
      MovedBelow(mv, v, 0);
      assert u.stack == m.stack + d.temps[..t] + [v] == m.stack + (d.temps[..t] + [v]);
    case Throw(e, m) => assert u.stack[..|m.stack|] == (m.stack + d.temps[..t])[..|m.stack|];
  }

  /** The stack of the engine is that of the call, with the temporaries below in between. */
  lemma CalledMoved(w: World, vm0: VM, vm: VM, d: Config, t: nat, mv: Move)
    requires InFrame(w, vm0, vm, d) && Tidy(d.m) && AllBelow(d.temps, |d.m.stack|) && t <= |d.temps|
    requires mv == Move(|d.m.stack|, d.temps[..t])
    ensures var m := Mem(d.m.stack + d.temps[t..], d.m.heap);
            Moves(mv, m) && Tidy(m) && MovedMem(mv, m) == Mem(vm.stack, vm.heap)
  {
    hide Flat;
    var top := d.temps[t..];
    MoreTidy(d.m, top);
    MoreMoved(mv, d.m, top);
    assert MovedAll(mv, []) == [] && d.m.stack[..mv.at] == d.m.stack && d.m.stack[mv.at..] == [];
    forall i | 0 <= i < |top| ensures MovedAll(mv, top)[i] == top[i] { MovedBelow(mv, top[i], |d.m.stack|); }
    assert MovedAll(mv, top) == top;
    assert d.m.stack + d.temps[..t] + top == vm.stack by { assert d.temps[..t] + top == d.temps; }
    forall i | 0 <= i < t ensures Below(mv.pad[i], mv.at + i) { BelowHigher(mv.pad[i], |d.m.stack|, |d.m.stack| + i); }
  }

  /** A configuration at a call. */
  ghost predicate AtRest(w: World, bodies: map<nat, Source.Stmt>, vm0: VM, vm: VM, d: Config) {
    && InFrame(w, vm0, vm, d) && AtCall(w, vm0, d) && Tidy(d.m) && AllBelow(d.temps, |d.m.stack|)
    && GoodFrame(w, bodies, Top(vm0.ctxs)) && Counts(w, vm0, d)
  }

  /** The function called is `f`; its parameters are the values from temporary `p` on, and its result
      takes the place of those from `t` on. */
  lemma InvokeDone(w: World, bodies: map<nat, Source.Stmt>, n: nat, vm0: VM, vm: VM, d: Config, f: nat, t: nat, p: nat,
                   hasObject: bool,
                   tall: nat, wide: nat) returns (k: nat)
    requires Setup(w, bodies, tall, wide) && AtRest(w, bodies, vm0, vm, d) && t <= p <= |d.temps|
    requires Deep(w, Top(vm0.ctxs), |vm0.ctxs|, n, tall, wide)
    requires (f < |w.funcs| && w.funcs[f].Script? ==> |d.temps| == p + MAX_PAR)
             && (t == |d.temps| ==> |vm.stack| < MAX_VALUES)
    ensures var base := |d.m.stack|;
            var r := Invoke(w, bodies, n, StrictOf(w, Top(vm0.ctxs)), hasObject, f, base + p - t,
                Mem(d.m.stack + d.temps[t..], d.m.heap), base);
            var vm1 := Machine.Call(w, vm, f, base + t, base + p, |d.temps| - p, hasObject, d.pc);
            match r
            case Ok(v, m) =>
              InFrame(w, vm0, VMSteps(w, vm1, k), Config(d.pc + 1, d.temps[..t] + [v], m))
              && Stays(w, vm1, k, |vm0.hosts|)
            case Throw(e, m) =>
              e == TooDeep || (ErrorIn(w, vm0, VMSteps(w, vm1, k), e, m) && Stays(w, vm1, k, |vm0.hosts|))
    decreases n, 2
  {
    hide InFrame, ErrorIn, Tidy, Below, Invoke, VMSteps, Machine.Call, CallEnds, Gentle, OpsOk, Sizes, H, MovedMem,
         Stays,
         AtCall, Counts, GoodFrame,
         Deep, Given, Moves, Program;
    var base, mv := |d.m.stack|, Move(|d.m.stack|, d.temps[..t]);
    var m := Mem(d.m.stack + d.temps[t..], d.m.heap);
    var pars := base + p - t;
    InFrameSize(w, vm0, vm, d);
    FrameHosts(w, vm0, vm, d);
    var r := Invoke(w, bodies, n, StrictOf(w, Top(vm0.ctxs)), hasObject, f, pars, m, base);
    CalledMoved(w, vm0, vm, d, t, mv);
    TopGiven(w, d, t, p);
    InvokeMoved(mv, w, bodies, n, StrictOf(w, Top(vm0.ctxs)), hasObject, f, pars, m, base);
    RestHeight(w, bodies, vm0, vm, d, tall, wide, n);
    MovedGiven(mv, m, pars);
    k := InvokeEnds(w, bodies, n, vm, f, d.pc, base + t, base + p, hasObject, tall, wide);
    var r' := Invoke(w, bodies, n, StrictOf(w, Top(vm0.ctxs)), hasObject, f, base + p, Mem(vm.stack, vm.heap),
        base + t);
    assert r' == MovedResult(mv, r);
    if r' != Throw(TooDeep, r'.m) {
      BackInFrame(w, vm0, vm, VMSteps(w, Machine.Call(w, vm, f, base + t, base + p, |d.temps| - p, hasObject, d.pc),
          k), d, t, r, mv);
    }
  }

  lemma InFrameSize(w: World, vm0: VM, vm: VM, d: Config)
    requires InFrame(w, vm0, vm, d)
    ensures |vm.stack| == |d.m.stack| + |d.temps| && vm.mode == InScript(d.pc) && |vm.ctxs| == |vm0.ctxs| > 0
    ensures Base(w, Top(vm.ctxs)) == Base(w, Top(vm0.ctxs)) == |d.m.stack| && vm.heap == d.m.heap
    ensures StrictOf(w, Top(vm.ctxs)) == StrictOf(w, Top(vm0.ctxs))
    ensures forall i: nat :: i <= |d.temps| ==> vm.stack[|d.m.stack| + i..] == d.temps[i..]
  {
    forall i: nat | i <= |d.temps| ensures vm.stack[|d.m.stack| + i..] == d.temps[i..] { }
  }

  lemma TopGiven(w: World, d: Config, t: nat, p: nat)
    requires Tidy(d.m) && AllBelow(d.temps, |d.m.stack|) && t <= p <= |d.temps|
    ensures Given(Mem(d.m.stack + d.temps[t..], d.m.heap), |d.m.stack| + p - t)
  {
    hide Flat;
    MoreTidy(d.m, d.temps[t..]);
    var s, k := d.m.stack + d.temps[t..], |d.m.stack| + p - t;
    forall i | 0 <= i < |s[k..]| ensures Below(s[k..][i], k) { BelowHigher(d.temps[p + i], |d.m.stack|, k); }
  }

  lemma MovedGiven(mv: Move, m: Mem, pars: nat)
    requires Given(m, pars) && Moves(mv, m) && mv.at <= pars
    ensures Given(MovedMem(mv, m), pars + |mv.pad|)
  {
    hide Flat;
    MovedTidy(mv, m);
    TopMoved(mv, m, pars);
    var k := pars + |mv.pad|;
    forall i | 0 <= i < |m.stack[pars..]| ensures Below(Moved(mv, m.stack[pars..][i]), k) {
      MovedBelow(mv, m.stack[pars..][i], pars);
    }
  }

  lemma RestHeight(w: World, bodies: map<nat, Source.Stmt>, vm0: VM, vm: VM, d: Config, tall: nat, wide: nat, n: nat)
    requires Sizes(w, bodies, tall, wide) && AtRest(w, bodies, vm0, vm, d)
             && Deep(w, Top(vm0.ctxs), |vm0.ctxs|, n, tall, wide)
    ensures Deep(w, Top(vm.ctxs), |vm.ctxs|, n, tall, wide) && |vm.stack| <= Base(w, Top(vm.ctxs)) + tall
  {
    hide H, Tidy, Below;
    InFrameSize(w, vm0, vm, d);
    RoomHere(w, bodies, Top(vm0.ctxs), |vm0.ctxs|, n, tall, wide);
  }

  /** One step more. */
  lemma DoneLater(w: World, env: Env, vm0: VM, vm: VM, d: Config, k: nat)
    requires |vm0.ctxs| > 0 && InFrame(w, vm0, vm, d)
    requires match Step(env, CodeOf(w, Top(vm0.ctxs).func), d)
             case Running(d1) =>
               InFrame(w, vm0, VMSteps(w, VMStep(w, vm), k), d1) && Stays(w, VMStep(w, vm), k, |vm0.hosts|)
             case Failed(e, m) =>
               e == TooDeep
               || (ErrorIn(w, vm0, VMSteps(w, VMStep(w, vm), k), e, m) && Stays(w, VMStep(w, vm), k, |vm0.hosts|))
             case Returned(_, _) => true
    ensures CallDone(w, env, vm0, vm, d)
  {
    hide InFrame, ErrorIn, VMStep, Step, Stays;
    FrameHosts(w, vm0, vm, d);
    if Stays(w, VMStep(w, vm), k, |vm0.hosts|) { StaysLater(w, vm, k, |vm0.hosts|); }
    assert VMSteps(w, vm, k + 1) == VMSteps(w, VMStep(w, vm), k);
  }

  lemma StaysLater(w: World, vm: VM, k: nat, n: nat)
    requires |vm.hosts| >= n && Stays(w, VMStep(w, vm), k, n)
    ensures Stays(w, vm, k + 1, n)
  {
    hide VMStep;
    forall j: nat | j <= k + 1 ensures |VMSteps(w, vm, j).hosts| >= n {
      if j > 0 { assert VMSteps(w, vm, j) == VMSteps(w, VMStep(w, vm), j - 1); }
    }
  }

  /** The outcome of a call chunk with result `r`, which keeps `t` temporaries. */
  function AfterCall(d: Config, t: nat, r: OpResult): Outcome
    requires t <= |d.temps|
  {
    match r
    case Ok(v, m) => Running(Config(d.pc + 1, d.temps[..t] + [v], m))
    case Throw(e, m) => Failed(e, m)
  }

  lemma FuncMeans(w: World, bodies: map<nat, Source.Stmt>, n: nat, c: Context, d: Config)
    requires var code := CodeOf(w, c.func); 0 <= d.pc < |code| && code[d.pc].FUNC? && code[d.pc].pars <= |d.temps|
    ensures var code := CodeOf(w, c.func);
            var p, base := |d.temps| - code[d.pc].pars, |d.m.stack|;
            Step(EnvAt(w, bodies, n, c), code, d)
            == AfterCall(d, p, Invoke(w, bodies, n, StrictOf(w, c), c.hasObject, code[d.pc].f, base,
                Mem(d.m.stack + d.temps[p..], d.m.heap), base))
  {
    hide Invoke;
    var x := CodeOf(w, c.func)[d.pc];
    var vs := d.temps[|d.temps| - x.pars..];
    assert EnvAt(w, bodies, n, c).sem.call(x.f, vs, d.m)
        == CallOf(w, bodies, n, StrictOf(w, c), c.hasObject, x.f, vs, d.m);
  }

  lemma ObjMeans(w: World, bodies: map<nat, Source.Stmt>, n: nat, c: Context, d: Config)
    requires var code := CodeOf(w, c.func); 0 <= d.pc < |code| && code[d.pc].CALL? && MAX_PAR + 1 <= |d.temps|
    ensures var x, p, base := CodeOf(w, c.func)[d.pc], |d.temps| - MAX_PAR, |d.m.stack|;
            var full := Mem(d.m.stack + d.temps[p - 1..], d.m.heap);
            Step(EnvAt(w, bodies, n, c), CodeOf(w, c.func), d)
            == AfterCall(d, p - 1,
                         match w.resolve(x.ckind, x.cf, d.temps[p - 1], full)
                         case Found(g, hasObject) => Invoke(w, bodies, n, StrictOf(w, c), hasObject, g, base + 1,
                             full, base)
                         case Nobody => Ok(Nil, d.m)
                         case NotFound(e) => Throw(e, d.m))
  {
    hide Invoke;
    var x, p := CodeOf(w, c.func)[d.pc], |d.temps| - MAX_PAR;
    ObjMem(d, p);
    assert EnvAt(w, bodies, n, c).sem.objCall(x.ckind, x.cf, d.temps[p - 1], d.temps[p..], d.m)
        == ObjCallOf(w, bodies, n, StrictOf(w, c), x.ckind, x.cf, d.temps[p - 1], d.temps[p..], d.m);
  }

  /** Direct calls. */
  lemma FuncDone(w: World, bodies: map<nat, Source.Stmt>, n: nat, vm0: VM, vm: VM, d: Config, tall: nat, wide: nat)
    requires Setup(w, bodies, tall, wide) && AtRest(w, bodies, vm0, vm, d)
             && Deep(w, Top(vm0.ctxs), |vm0.ctxs|, n, tall, wide)
    requires CodeOf(w, Top(vm0.ctxs).func)[d.pc].FUNC?
    ensures CallDone(w, EnvAt(w, bodies, n, Top(vm0.ctxs)), vm0, vm, d)
    decreases n, 3
  {
    hide InFrame, ErrorIn, Tidy, Below, Invoke, VMSteps, Machine.Call, Setup, H, Deep, VMStep, Step, EnvAt, CodeNames,
         Counts;
    InFrameSize(w, vm0, vm, d);
    var c := Top(vm0.ctxs);
    var x := CodeOf(w, c.func)[d.pc];
    var p := |d.temps| - x.pars;
    FuncMeans(w, bodies, n, c, d);
    FuncPars(w, bodies, vm0, d, n, tall, wide);
    var k := InvokeDone(w, bodies, n, vm0, vm, d, x.f, p, p, c.hasObject, tall, wide);
    FuncStep(w, vm0, vm, d, x);
    DoneLater(w, EnvAt(w, bodies, n, c), vm0, vm, d, k);
  }

  lemma FuncPars(w: World, bodies: map<nat, Source.Stmt>, vm0: VM, d: Config, n: nat, tall: nat, wide: nat)
    requires Setup(w, bodies, tall, wide) && |vm0.ctxs| > 0 && GoodFrame(w, bodies, Top(vm0.ctxs))
    requires Deep(w, Top(vm0.ctxs), |vm0.ctxs|, n, tall, wide) && AtCall(w, vm0, d)
             && |d.m.stack| == Base(w, Top(vm0.ctxs))
    requires Counts(w, vm0, d) && CodeOf(w, Top(vm0.ctxs).func)[d.pc].FUNC?
    ensures var x := CodeOf(w, Top(vm0.ctxs).func)[d.pc];
            (x.f < |w.funcs| && w.funcs[x.f].Script? ==> x.pars == MAX_PAR)
                && (x.pars == 0 ==> |d.m.stack| + |d.temps| < MAX_VALUES)
  {
    hide Gentle, OpsOk, H, Deep, Program;
    var c := Top(vm0.ctxs);
    FrameFits(w, bodies, c);
    assert ChunkNames(CodeOf(w, c.func)[d.pc], EnvOf(w, c).fr, Base(w, c), Takes(w));
    PushRoom(w, bodies, vm0, d, n, tall, wide);
  }

  /** Where a call takes no values, there is room for its result. */
  lemma PushRoom(w: World, bodies: map<nat, Source.Stmt>, vm0: VM, d: Config, n: nat, tall: nat, wide: nat)
    requires Sizes(w, bodies, tall, wide) && |vm0.ctxs| > 0 && GoodFrame(w, bodies, Top(vm0.ctxs))
    requires Deep(w, Top(vm0.ctxs), |vm0.ctxs|, n, tall, wide) && AtCall(w, vm0, d)
             && |d.m.stack| == Base(w, Top(vm0.ctxs))
    requires Counts(w, vm0, d)
    ensures var x := CodeOf(w, Top(vm0.ctxs).func)[d.pc];
            x.FUNC? && x.pars == 0 ==> |d.m.stack| + |d.temps| < MAX_VALUES
  {
    var code := CodeOf(w, Top(vm0.ctxs).func);
    RoomHere(w, bodies, Top(vm0.ctxs), |vm0.ctxs|, n, tall, wide);
    HNext(code, d.pc);
  }

  lemma FuncStep(w: World, vm0: VM, vm: VM, d: Config, x: Chunk)
    requires InFrame(w, vm0, vm, d) && AtCall(w, vm0, d) && x == CodeOf(w, Top(vm0.ctxs).func)[d.pc] && x.FUNC?
    ensures var base, p := |d.m.stack|, |d.temps| - x.pars;
            VMStep(w, vm) == Machine.Call(w, vm, x.f, base + p, base + p, x.pars, Top(vm0.ctxs).hasObject, d.pc)
  {
    hide Machine.Call;
    FrameBase(w, vm0, vm, d);
  }

  /** Calls of objects and global calls. */
  lemma ObjDone(w: World, bodies: map<nat, Source.Stmt>, n: nat, vm0: VM, vm: VM, d: Config, tall: nat, wide: nat)
    requires Setup(w, bodies, tall, wide) && AtRest(w, bodies, vm0, vm, d)
             && Deep(w, Top(vm0.ctxs), |vm0.ctxs|, n, tall, wide)
    requires CodeOf(w, Top(vm0.ctxs).func)[d.pc].CALL?
    ensures CallDone(w, EnvAt(w, bodies, n, Top(vm0.ctxs)), vm0, vm, d)
    decreases n, 3
  {
    hide InFrame, ErrorIn, Tidy, Below, Invoke, VMSteps, Machine.Call, Gentle, OpsOk, Sizes, H, Deep, VMStep, Step,
         EnvAt, CodeNames,
         Counts, Program;
    InFrameSize(w, vm0, vm, d);
    var c := Top(vm0.ctxs);
    var x := CodeOf(w, c.func)[d.pc];
    var p := |d.temps| - MAX_PAR;
    var t := d.temps[p - 1];
    ObjMeans(w, bodies, n, c, d);
    SameFound(w, vm0, vm, d, x);
    ObjStep(w, vm0, vm, d, x);
    var found := w.resolve(x.ckind, x.cf, t, Mem(vm.stack, vm.heap));
    match found {
      case Found(g, hasObject) =>
        var k := InvokeDone(w, bodies, n, vm0, vm, d, g, p - 1, p, hasObject, tall, wide);
        DoneLater(w, EnvAt(w, bodies, n, c), vm0, vm, d, k);
      case Nobody =>
        VMNone(w, VMStep(w, vm));
        NobodyInFrame(w, vm0, vm, d, p);
        FrameHosts(w, vm0, VMStep(w, vm), Config(d.pc + 1, d.temps[..p - 1] + [Nil], d.m));
        StaysOne(w, VMStep(w, vm), |vm0.hosts|);
        DoneLater(w, EnvAt(w, bodies, n, c), vm0, vm, d, 0);
      case NotFound(e) =>
        VMNone(w, VMStep(w, vm));
        RaisedInFrame(w, vm0, vm, d, e);
        ErrorHosts(w, vm0, VMStep(w, vm), e, d.m);
        StaysOne(w, VMStep(w, vm), |vm0.hosts|);
        DoneLater(w, EnvAt(w, bodies, n, c), vm0, vm, d, 0);
    }
  }

  lemma ObjMem(d: Config, p: nat)
    requires 0 < p <= |d.temps|
    ensures d.m.stack + [d.temps[p - 1]] + d.temps[p..] == d.m.stack + d.temps[p - 1..]
  {
  }

  /** The function is found from the engine's whole stack as from that of the call. */
  lemma SameFound(w: World, vm0: VM, vm: VM, d: Config, x: Chunk)
    requires Gentle(w) && InFrame(w, vm0, vm, d) && Tidy(d.m) && AllBelow(d.temps, |d.m.stack|) && |d.temps| > MAX_PAR
             && x.CALL?
    ensures var p := |d.temps| - MAX_PAR;
            w.resolve(x.ckind, x.cf, d.temps[p - 1], Mem(vm.stack, vm.heap))
            == w.resolve(x.ckind, x.cf, d.temps[p - 1], Mem(d.m.stack + d.temps[p - 1..], d.m.heap))
  {
    hide Flat, Gentle, MovedMem;
    var p := |d.temps| - MAX_PAR;
    var t, mv := d.temps[p - 1], Move(|d.m.stack|, d.temps[..p - 1]);
    var m := Mem(d.m.stack + d.temps[p - 1..], d.m.heap);
    CalledMoved(w, vm0, vm, d, p - 1, mv);
    BelowHigher(t, |d.m.stack|, |m.stack|);
    MovedBelow(mv, t, |d.m.stack|);
    ResolveMoved(mv, w, x.ckind, x.cf, t, m);
  }

  lemma ObjStep(w: World, vm0: VM, vm: VM, d: Config, x: Chunk)
    requires InFrame(w, vm0, vm, d) && AtCall(w, vm0, d) && x == CodeOf(w, Top(vm0.ctxs).func)[d.pc] && x.CALL?
    ensures var base, p := |d.m.stack|, |d.temps| - MAX_PAR;
            VMStep(w, vm) ==
            match w.resolve(x.ckind, x.cf, d.temps[p - 1], Mem(vm.stack, vm.heap))
            case Found(g, hasObject) => Machine.Call(w, vm, g, base + p - 1, base + p, MAX_PAR, hasObject, d.pc)
            case Nobody => vm.(stack := vm.stack[..base + p - 1] + [Nil], mode := InScript(d.pc + 1))
            case NotFound(e) => Machine.Raise(vm, e, d.pc)
  {
    hide Machine.Call;
    FrameBase(w, vm0, vm, d);
  }

  lemma NobodyInFrame(w: World, vm0: VM, vm: VM, d: Config, p: nat)
    requires InFrame(w, vm0, vm, d) && 0 < p <= |d.temps|
    ensures InFrame(w, vm0, vm.(stack := vm.stack[..|d.m.stack| + p - 1] + [Nil], mode := InScript(d.pc + 1)),
                    Config(d.pc + 1, d.temps[..p - 1] + [Nil], d.m))
  {
    assert vm.stack[..|d.m.stack| + p - 1] + [Nil] == d.m.stack + (d.temps[..p - 1] + [Nil]);
  }

  lemma RaisedInFrame(w: World, vm0: VM, vm: VM, d: Config, e: Error)
    requires InFrame(w, vm0, vm, d)
    ensures ErrorIn(w, vm0, Machine.Raise(vm, e, d.pc), e, d.m)
  {
    assert vm.stack[..|d.m.stack|] == d.m.stack;
    assert vm.ctxs[|vm0.ctxs| - 1] == Top(vm.ctxs);
  }

  /** The calls that a function of the program makes mean what the evaluator says. */
  lemma {:induction false} ProgramAgrees(w: World, bodies: map<nat, Source.Stmt>, n: nat, vm0: VM, m: Mem, tall: nat,
                                         wide: nat)
    requires Setup(w, bodies, tall, wide) && |vm0.ctxs| > 0 && GoodFrame(w, bodies, Top(vm0.ctxs)) && Tidy(m)
    requires InFrame(w, vm0, vm0, Config(0, [], m)) && Deep(w, Top(vm0.ctxs), |vm0.ctxs|, n, tall, wide)
    ensures CallsAgree(w, EnvAt(w, bodies, n, Top(vm0.ctxs)), vm0, Config(0, [], m))
    decreases n, 4
  {
    hide InFrame, CallDone, Setup, Tidy, Deep, SemOf, Reached, AtCall, GoodFrame;
    var c, d0 := Top(vm0.ctxs), Config(0, [], m);
    var env, code := EnvAt(w, bodies, n, c), CodeOf(w, c.func);
    forall vm, d | InFrame(w, vm0, vm, d) && AtCall(w, vm0, d) && Reached(env, code, d0, d)
        ensures CallDone(w, env, vm0, vm, d) {
      ReachedRests(w, bodies, n, vm0, vm, m, d, tall, wide);
      AtCallChunk(w, vm0, d);
      if code[d.pc].FUNC? {
        FuncDone(w, bodies, n, vm0, vm, d, tall, wide);
      } else {
        ObjDone(w, bodies, n, vm0, vm, d, tall, wide);
      }
    }
  }

  lemma AtCallChunk(w: World, vm0: VM, d: Config)
    requires |vm0.ctxs| > 0 && AtCall(w, vm0, d)
    ensures var code := CodeOf(w, Top(vm0.ctxs).func); 0 <= d.pc < |code| && (code[d.pc].FUNC? || code[d.pc].CALL?)
  {
  }

  lemma ReachedRests(w: World, bodies: map<nat, Source.Stmt>, n: nat, vm0: VM, vm: VM, m: Mem, d: Config, tall: nat,
                     wide: nat)
    requires Setup(w, bodies, tall, wide) && |vm0.ctxs| > 0 && GoodFrame(w, bodies, Top(vm0.ctxs)) && Tidy(m)
    requires InFrame(w, vm0, vm0, Config(0, [], m)) && InFrame(w, vm0, vm, d) && AtCall(w, vm0, d)
    requires Reached(EnvAt(w, bodies, n, Top(vm0.ctxs)), CodeOf(w, Top(vm0.ctxs).func), Config(0, [], m), d)
    ensures AtRest(w, bodies, vm0, vm, d)
  {
    hide Tidy, SemOf, Step, CodeNames, FairSem, Gentle, OpsOk, Sizes, Loose, Below, MovedMem, H;
    var c, d0 := Top(vm0.ctxs), Config(0, [], m);
    var env, code := EnvAt(w, bodies, n, c), CodeOf(w, c.func);
    var j: nat :| Steps(env, code, d0, j) == Running(d);
    SemFair(w, bodies, n, StrictOf(w, c), c.hasObject);
    FrameFits(w, bodies, c);
    NoMove(m);
    StepsMoved(Move(0, []), env, code, d0, Takes(w), j);
    ProgramLoose(w, bodies, c.func);
    HEnds(code);
    StepsLevel(env, code, d0, j);
  }

  // ----- the whole way -----

  /** The run that the built-in function asks for: its context and the memory it begins with. */
  function RunContext(vm: VM): Context
    requires vm.mode.InHost? && vm.mode.plan.Run?
  {
    var p := vm.mode.plan;
    Context(External, |vm.stack|, |vm.stack| + |p.args|, p.f, p.hasObject, 0)
  }

  function RunMem(w: World, vm: VM): Mem
    requires vm.mode.InHost? && vm.mode.plan.Run?
  {
    var p := vm.mode.plan;
    var m := WriteAll(Mem(vm.stack, vm.heap), p.writes);
    Mem(m.stack + p.args + Nils(VarsOf(w, p.f)), m.heap)
  }

  /** What the run needs: a function of the program, ten parameters, a tidy memory, and room for it
      and `n` calls more. */
  ghost predicate Runnable(w: World, bodies: map<nat, Source.Stmt>, n: nat, vm: VM, tall: nat, wide: nat) {
    && vm.mode.InHost? && vm.mode.plan.Run? && !vm.mode.plan.pass
    && var p := vm.mode.plan;
       && p.f < |w.funcs| && p.f in bodies && w.funcs[p.f].Script? && |p.args| == MAX_PAR
       && Tidy(WriteAll(Mem(vm.stack, vm.heap), p.writes)) && AllBelow(p.args, |vm.stack|)
       && Deep(w, RunContext(vm), |vm.ctxs| + 1, n, tall, wide)
  }

  lemma RunStarts(w: World, bodies: map<nat, Source.Stmt>, n: nat, vm: VM, tall: nat, wide: nat)
    requires Setup(w, bodies, tall, wide) && Runnable(w, bodies, n, vm, tall, wide)
    ensures var vm0, c, m := VMStep(w, vm), RunContext(vm), RunMem(w, vm);
            vm0.mode == InScript(0) && vm0.ctxs == vm.ctxs + [c] && |vm0.hosts| == |vm.hosts| + 1
            && vm0.stack == m.stack && vm0.heap == m.heap && Tidy(m) && GoodFrame(w, bodies, c)
            && InFrame(w, vm0, vm0, Config(0, [], m))
  {
    hide WriteAll, Gentle, OpsOk, Sizes, Below, Flat, Program;
    var p, c := vm.mode.plan, RunContext(vm);
    var m0 := WriteAll(Mem(vm.stack, vm.heap), p.writes);
    WriteSize(Mem(vm.stack, vm.heap), p.writes);
    var vars := VarsOf(w, p.f);
    RoomAtStart(w, vm, n, tall, wide);
    MoreTidy(m0, p.args);
    NilsBelow(vars, |m0.stack + p.args|);
    MoreTidy(Mem(m0.stack + p.args, m0.heap), Nils(vars));
    var m := RunMem(w, vm);
    assert m.stack + [] == m.stack;
  }

  lemma RoomAtStart(w: World, vm: VM, n: nat, tall: nat, wide: nat)
    requires vm.mode.InHost? && vm.mode.plan.Run? && Deep(w, RunContext(vm), |vm.ctxs| + 1, n, tall, wide)
    ensures |vm.stack| + |vm.mode.plan.args| + VarsOf(w, vm.mode.plan.f) <= MAX_VALUES && |vm.ctxs| < MAX_CONTEXTS
  {
    assert n * (tall + wide) >= 0;
  }

  /** For every program: a built-in function that runs one of its functions goes on with what the
      evaluator says, which knows neither code nor stacks, and finds the memory as the evaluator
      leaves it; or with nil where the evaluator comes to an error. `n` bounds how deep functions
      call each other. */
  lemma EngineRunsProgram(w: World, bodies: map<nat, Source.Stmt>, n: nat, vm: VM, o: Outcome, tall: nat, wide: nat)
    returns (k: nat)
    requires Setup(w, bodies, tall, wide) && Runnable(w, bodies, n, vm, tall, wide)
    requires Programs.Ends(EnvAt(w, bodies, n, RunContext(vm)), bodies[vm.mode.plan.f], RunMem(w, vm), o)
    requires !(o.Failed? && o.e == TooDeep)
    ensures !o.Running? && BackWith(vm, VMSteps(w, vm, k), if o.Returned? then o.v else Nil, o.m) && Back(w, vm, k)
  {
    hide VMStep, VMSteps, BackWith, RunMem, RunsBody, Programs.Ends, EnvAt, Setup, Runnable, Back;
    ProgramBody(w, bodies, n, vm, tall, wide);
    EndsNot(EnvAt(w, bodies, n, RunContext(vm)), bodies[vm.mode.plan.f], RunMem(w, vm), o);
    k := EngineRunsFunction(w, EnvAt(w, bodies, n, RunContext(vm)), vm, bodies[vm.mode.plan.f], o);
  }

  lemma ProgramBody(w: World, bodies: map<nat, Source.Stmt>, n: nat, vm: VM, tall: nat, wide: nat)
    requires Setup(w, bodies, tall, wide) && Runnable(w, bodies, n, vm, tall, wide)
    ensures vm.mode.InHost? && vm.mode.plan.Run? && vm.mode.plan.f in bodies
    ensures RunsBody(w, EnvAt(w, bodies, n, RunContext(vm)), vm, bodies[vm.mode.plan.f])
    ensures Mem(VMStep(w, vm).stack, VMStep(w, vm).heap) == RunMem(w, vm)
  {
    hide VMStep, VMSteps, InFrame, OpsOk, Gentle, Sizes, Deep, Room, CallsAgree, SemOf, Tidy, Emitter.GenFunction,
         Compiled.Crosses, Source.LoopsOnly, CodeNames, RunMem;
    var vm0, c, m := VMStep(w, vm), RunContext(vm), RunMem(w, vm);
    var env, body, fn := EnvAt(w, bodies, n, c), bodies[vm.mode.plan.f], w.funcs[vm.mode.plan.f];
    RunStarts(w, bodies, n, vm, tall, wide);
    assert Top(vm0.ctxs) == c;
    assert Written(w, fn, body);
    ProgramAgrees(w, bodies, n, vm0, m, tall, wide);
    RoomHere(w, bodies, c, |vm0.ctxs|, n, tall, wide);
    MatchesAt(w, bodies, n, c);
    assert Mem(vm0.stack, vm0.heap) == m;
    ProgramLoose(w, bodies, c.func);
    assert Runs(w, env, vm0, Config(0, [], m));
  }

  /** The run of a program, with what the evaluator says of it. */
  ghost predicate Says(w: World, bodies: map<nat, Source.Stmt>, n: nat, vm: VM, o: Outcome)
    requires vm.mode.InHost? && vm.mode.plan.Run? && vm.mode.plan.f in bodies
  {
    Programs.Ends(EnvAt(w, bodies, n, RunContext(vm)), bodies[vm.mode.plan.f], RunMem(w, vm), o)
  }

  ghost predicate GivesUp(w: World, bodies: map<nat, Source.Stmt>, n: nat, vm: VM)
    requires vm.mode.InHost? && vm.mode.plan.Run? && vm.mode.plan.f in bodies
  {
    exists o :: Says(w, bodies, n, vm, o) && o.Failed? && o.e == TooDeep
  }

  /** The run ends with step `k`, and gives what `o` says: the value, or nil after an error, with both
      stacks as they were. */
  ghost predicate Gives(w: World, vm: VM, k: nat, o: Outcome)
    requires vm.mode.InHost? && vm.mode.plan.Run?
  {
    !o.Running? && Back(w, vm, k) && BackWith(vm, VMSteps(w, vm, k), if o.Returned? then o.v else Nil, o.m)
  }

  /** Unless the evaluator gives up, the engine comes back exactly if the evaluator comes to an outcome,
      and then with that. */
  lemma EngineIsEvaluator(w: World, bodies: map<nat, Source.Stmt>, n: nat, vm: VM, tall: nat, wide: nat)
    requires Setup(w, bodies, tall, wide) && Runnable(w, bodies, n, vm, tall, wide) && !GivesUp(w, bodies, n, vm)
    ensures (exists o :: Says(w, bodies, n, vm, o)) <==> (exists k: nat :: Back(w, vm, k))
    ensures forall o, k: nat :: Says(w, bodies, n, vm, o) && Back(w, vm, k) ==> Gives(w, vm, k, o)
  {
    hide VMStep, VMSteps, BackWith, RunMem, RunsBody, Programs.Ends, EnvAt, Setup, Runnable, Back;
    ProgramBody(w, bodies, n, vm, tall, wide);
    forall o | Says(w, bodies, n, vm, o) ensures exists k: nat :: Gives(w, vm, k, o) {
      var k := EngineRunsProgram(w, bodies, n, vm, o, tall, wide);
      assert Gives(w, vm, k, o);
    }
    forall k: nat | Back(w, vm, k) ensures exists o :: Says(w, bodies, n, vm, o) {
      var o := EngineComesBack(w, EnvAt(w, bodies, n, RunContext(vm)), vm, bodies[vm.mode.plan.f], k);
      assert Says(w, bodies, n, vm, o);
    }
    forall o, k: nat | Says(w, bodies, n, vm, o) && Back(w, vm, k)
      ensures Gives(w, vm, k, o)
    {
      var j: nat :| Gives(w, vm, j, o);
      OneBack(w, vm, j, k);
    }
  }
}
