/** From the program to the engine: a function that the engine runs comes to what the evaluator
    says, on the real stacks. What the calls it makes do is taken from the engine itself. */
module EngineRuns {
  import opened Bytecode
  import opened Heights
  import opened Machine
  import opened MachineSafe
  import opened ExprCorrect
  import Source
  import Meaning
  import Emitter
  import Compiled
  import Programs

  /** The running call, wherever it last made a call. */
  predicate SameCall(a: Context, b: Context) { a.(cpos := 0) == b.(cpos := 0) }

  /** The calls and runs are those of `vm0`. */
  ghost predicate SameFrames(vm0: VM, vm: VM) {
    && |vm0.ctxs| > 0 && |vm.ctxs| == |vm0.ctxs| && vm.hosts == vm0.hosts
    && vm.ctxs[..|vm.ctxs| - 1] == vm0.ctxs[..|vm0.ctxs| - 1] && SameCall(Top(vm.ctxs), Top(vm0.ctxs))
  }

  /** The topmost call of the engine is in configuration `d`. */
  ghost predicate InFrame(w: World, vm0: VM, vm: VM, d: Config) {
    && SameFrames(vm0, vm) && |d.m.stack| == Base(w, Top(vm0.ctxs))
    && vm.stack == d.m.stack + d.temps && vm.heap == d.m.heap && vm.mode == InScript(d.pc)
  }

  /** It has raised an error, with memory `m`; other calls may still lie above it. */
  ghost predicate ErrorIn(w: World, vm0: VM, vm: VM, e: Error, m: Mem) {
    && |vm0.ctxs| > 0 && vm.mode.Raised? && vm.mode.e == e && vm.hosts == vm0.hosts && |vm.ctxs| >= |vm0.ctxs|
    && vm.ctxs[..|vm0.ctxs| - 1] == vm0.ctxs[..|vm0.ctxs| - 1] && SameCall(vm.ctxs[|vm0.ctxs| - 1], Top(vm0.ctxs))
    && |m.stack| == Base(w, Top(vm0.ctxs)) <= |vm.stack| && vm.stack[..|m.stack|] == m.stack && vm.heap == m.heap
  }

  /** The environment has the engine's frame and operators, and for calls some meaning. */
  ghost predicate Matches(w: World, env: Env, c: Context) {
    env.fr == EnvOf(w, c).fr && env.sem.un == w.un(StrictOf(w, c)) && env.sem.bin == w.bin(StrictOf(w, c))
  }

  /** For `k` steps at least `n` native calls and runs are in progress: nothing ends of what was
      there. */
  ghost predicate Stays(w: World, vm: VM, k: nat, n: nat) {
    forall j: nat :: j <= k ==> |VMSteps(w, vm, j).hosts| >= n
  }

  lemma StaysOne(w: World, vm: VM, n: nat)
    requires |vm.hosts| >= n
    ensures Stays(w, vm, 0, n) && (|VMStep(w, vm).hosts| >= n ==> Stays(w, vm, 1, n))
  {
    hide VMStep;
    VMOne(w, vm);
    assert VMSteps(w, vm, 0) == vm;
  }

  lemma StaysThen(w: World, vm: VM, j: nat, k: nat, n: nat)
    requires Stays(w, vm, j, n) && Stays(w, VMSteps(w, vm, j), k, n)
    ensures Stays(w, vm, j + k, n)
  {
    hide VMSteps;
    forall i: nat | i <= j + k ensures |VMSteps(w, vm, i).hosts| >= n {
      if i > j { VMStepsAdd(w, vm, j, i - j); }
    }
  }

  /** From the call chunk at which configuration `d` stands the engine comes to where the environment
      says, while what was in progress goes on. */
  ghost predicate CallDone(w: World, env: Env, vm0: VM, vm: VM, d: Config)
    requires |vm0.ctxs| > 0
  {
    match Step(env, CodeOf(w, Top(vm0.ctxs).func), d)
    case Running(d1) => exists k: nat :: InFrame(w, vm0, VMSteps(w, vm, k), d1) && Stays(w, vm, k, |vm0.hosts|)
    case Failed(e, m) =>
      e == TooDeep || exists k: nat :: ErrorIn(w, vm0, VMSteps(w, vm, k), e, m) && Stays(w, vm, k, |vm0.hosts|)
    case Returned(_, _) => true
  }

  predicate AtCall(w: World, vm0: VM, d: Config)
    requires |vm0.ctxs| > 0
  {
    var code := CodeOf(w, Top(vm0.ctxs).func);
    0 <= d.pc < |code| && IsCall(code[d.pc]) && Need(code[d.pc]) <= |d.temps|
  }

  /** The call comes from `d0` to `d`. */
  ghost predicate Reached(env: Env, code: Code, d0: Config, d: Config) {
    exists j: nat :: Steps(env, code, d0, j) == Running(d)
  }

  /** What the calls mean that are made from `d0` on is what the engine does when it comes to them,
      unless the meaning gives up. */
  ghost predicate CallsAgree(w: World, env: Env, vm0: VM, d0: Config)
    requires |vm0.ctxs| > 0
  {
    forall vm, d :: InFrame(w, vm0, vm, d) && AtCall(w, vm0, d) && Reached(env, CodeOf(w, Top(vm0.ctxs).func), d0, d)
      ==> CallDone(w, env, vm0, vm, d)
  }

  /** Functions that make no calls agree with any meaning of calls. */
  lemma CallFreeAgrees(w: World, env: Env, vm0: VM, d0: Config)
    requires |vm0.ctxs| > 0
    requires forall i :: 0 <= i < |CodeOf(w, Top(vm0.ctxs).func)| ==> !IsCall(CodeOf(w, Top(vm0.ctxs).func)[i])
    ensures CallsAgree(w, env, vm0, d0)
  {
    hide InFrame, CallDone;
  }

  /** The value stack has room for the call. */
  ghost predicate Room(w: World, c: Context) {
    forall i: nat :: i <= |CodeOf(w, c.func)| ==> Base(w, c) + H(CodeOf(w, c.func), i) <= MAX_VALUES
  }

  /** What is supposed of the call that runs. Of the other functions of the world nothing is. */
  ghost predicate Runs(w: World, env: Env, vm0: VM, d0: Config) {
    |vm0.ctxs| > 0 && OpsOk(w) && Loose(CodeOf(w, Top(vm0.ctxs).func)) && Matches(w, env, Top(vm0.ctxs))
        && Room(w, Top(vm0.ctxs)) && CallsAgree(w, env, vm0, d0)
  }

  /** The call has as many temporaries as were counted. */
  predicate Counts(w: World, vm0: VM, d: Config)
    requires |vm0.ctxs| > 0
  {
    Level(CodeOf(w, Top(vm0.ctxs).func), d.pc, |d.temps|)
  }

  lemma {:induction false} VMStepsAdd(w: World, vm: VM, j: nat, k: nat)
    ensures VMSteps(w, vm, j + k) == VMSteps(w, VMSteps(w, vm, j), k)
    decreases j
  {
    hide VMStep;
    if j > 0 { VMStepsAdd(w, VMStep(w, vm), j - 1, k); }
  }

  lemma VMOne(w: World, vm: VM)
    ensures VMSteps(w, vm, 1) == VMStep(w, vm)
  {
    hide VMStep;
    assert VMSteps(w, VMStep(w, vm), 0) == VMStep(w, vm);
  }

  // ----- one chunk -----

  /** Calls apart, a chunk does not depend on what calls mean. */
  lemma SameLocal(env: Env, env': Env, code: Code, d: Config)
    requires env.fr == env'.fr && env.sem.un == env'.sem.un && env.sem.bin == env'.sem.bin
    requires 0 <= d.pc < |code| && !IsCall(code[d.pc])
    ensures Step(env, code, d) == Step(env', code, d)
  {
    hide PlainAll, Assign, Plain, Jump, ForEach, ReadSlot;
  }

  lemma FrameBase(w: World, vm0: VM, vm: VM, d: Config)
    requires InFrame(w, vm0, vm, d)
    ensures |vm.ctxs| > 0 && Base(w, Top(vm.ctxs)) == Base(w, Top(vm0.ctxs)) && Top(vm.ctxs).func == Top(vm0.ctxs).func
    ensures EnvOf(w, Top(vm.ctxs)) == EnvOf(w, Top(vm0.ctxs))
    ensures vm.stack[..Base(w, Top(vm.ctxs))] == d.m.stack && vm.stack[Base(w, Top(vm.ctxs))..] == d.temps
  {
  }

  /** A chunk that is no call and no return. */
  lemma LocalChunk(w: World, env: Env, vm0: VM, vm: VM, d0: Config, d: Config)
    requires Runs(w, env, vm0, d0) && InFrame(w, vm0, vm, d)
    requires var code := CodeOf(w, Top(vm0.ctxs).func);
             Counts(w, vm0, d) && d.pc < |code| && !IsCall(code[d.pc]) && !code[d.pc].RETURN?
    ensures var code := CodeOf(w, Top(vm0.ctxs).func);
            match Step(env, code, d)
            case Running(d1) => InFrame(w, vm0, VMStep(w, vm), d1) && Counts(w, vm0, d1)
            case Failed(e, m) => ErrorIn(w, vm0, VMStep(w, vm), e, m)
            case Returned(_, _) => false
  {
    hide H, Step, Loose, CallsAgree, SameFrames, Local, OpsOk;
    var c := Top(vm0.ctxs);
    var code := CodeOf(w, c.func);
    FrameBase(w, vm0, vm, d);
    StepLevel(env, code, d);
    SameLocal(env, EnvOf(w, c), code, d);
    StepKeepsSize(w, c, code, d);
    NotReturned(env, code, d);
    LocalDoes(w, vm, d);
    if Step(env, code, d).Running? {
      LevelExact(code, d.pc, |d.temps|);
      NotAtError(env, code, d);
    }
    LocalFrame(w, vm0, vm, d, Step(env, code, d));
  }

  lemma LocalDoes(w: World, vm: VM, d: Config)
    requires |vm.ctxs| > 0 && vm.mode == InScript(d.pc)
    requires var c := Top(vm.ctxs);
             Base(w, c) <= |vm.stack| && d == Config(d.pc, vm.stack[Base(w, c)..], Mem(vm.stack[..Base(w, c)], vm.heap))
             && 0 <= d.pc < |CodeOf(w, c.func)| && !IsCall(CodeOf(w, c.func)[d.pc]) && !CodeOf(w, c.func)[d.pc].RETURN?
             && Need(CodeOf(w, c.func)[d.pc]) <= |d.temps|
    ensures VMStep(w, vm) == Local(w, vm, d.pc)
    ensures Local(w, vm, d.pc) ==
            match Step(EnvOf(w, Top(vm.ctxs)), CodeOf(w, Top(vm.ctxs).func), d)
            case Running(d1) =>
              if |d1.m.stack + d1.temps| > MAX_VALUES then Machine.Raise(vm, ValueOverflow, d.pc)
              else vm.(stack := d1.m.stack + d1.temps, heap := d1.m.heap, mode := InScript(d1.pc))
            case Returned(_, _) => Machine.Raise(vm, BadTarget, d.pc)
            case Failed(e, m) => Machine.Raise(vm.(stack := m.stack + d.temps, heap := m.heap), e, d.pc)
  {
    hide Step;
  }

  lemma LocalFrame(w: World, vm0: VM, vm: VM, d: Config, o: Outcome)
    requires InFrame(w, vm0, vm, d) && Room(w, Top(vm0.ctxs))
    requires match o
             case Running(d1) =>
               var code := CodeOf(w, Top(vm0.ctxs).func);
               |d1.m.stack| == |d.m.stack| && 0 <= d1.pc <= |code| && 0 <= d.pc <= |code|
               && |d.temps| == H(code, d.pc) && (|d1.temps| == H(code, d1.pc) || |d1.temps| <= |d.temps|)
             case Failed(_, m) => |m.stack| == |d.m.stack|
             case Returned(_, _) => false
    ensures match o
            case Running(d1) =>
              |d1.m.stack + d1.temps| <= MAX_VALUES
              && InFrame(w, vm0, vm.(stack := d1.m.stack + d1.temps, heap := d1.m.heap, mode := InScript(d1.pc)), d1)
            case Failed(e, m) => ErrorIn(w, vm0, Machine.Raise(vm.(stack := m.stack + d.temps, heap := m.heap), e,
                d.pc), e, m)
            case Returned(_, _) => false
  {
    hide H;
    var code := CodeOf(w, Top(vm0.ctxs).func);
    if o.Running? {
      assert Base(w, Top(vm0.ctxs)) + H(code, o.c.pc) <= MAX_VALUES;
      assert Base(w, Top(vm0.ctxs)) + H(code, d.pc) <= MAX_VALUES;
    }
  }

  // ----- a whole call -----

  lemma CallChunk(w: World, env: Env, vm0: VM, vm: VM, d0: Config, d: Config) returns (n: nat)
    requires Runs(w, env, vm0, d0) && InFrame(w, vm0, vm, d)
    requires var code := CodeOf(w, Top(vm0.ctxs).func);
             Counts(w, vm0, d) && d.pc < |code| && IsCall(code[d.pc]) && Reached(env, code, d0, d)
    ensures var code := CodeOf(w, Top(vm0.ctxs).func);
            match Step(env, code, d)
            case Running(d1) =>
              InFrame(w, vm0, VMSteps(w, vm, n), d1) && Counts(w, vm0, d1) && n > 0 && Stays(w, vm, n, |vm0.hosts|)
            case Failed(e, m) =>
              e == TooDeep || (ErrorIn(w, vm0, VMSteps(w, vm, n), e, m) && Stays(w, vm, n, |vm0.hosts|))
            case Returned(_, _) => false
  {
    hide H, Step, Loose, InFrame, ErrorIn, VMSteps, Reached, OpsOk, Stays;
    var code := CodeOf(w, Top(vm0.ctxs).func);
    StepLevel(env, code, d);
    NotReturned(env, code, d);
    assert CallDone(w, env, vm0, vm, d);
    n := 0;
    match Step(env, code, d)
    case Running(d1) =>
      var k: nat :| InFrame(w, vm0, VMSteps(w, vm, k), d1) && Stays(w, vm, k, |vm0.hosts|);
      n := k;
      CallTakesSteps(w, env, vm0, vm, d, n);
    case Failed(e, m) =>
      if e != TooDeep {
        var k: nat :| ErrorIn(w, vm0, VMSteps(w, vm, k), e, m) && Stays(w, vm, k, |vm0.hosts|);
        n := k;
      }
  }

  lemma CallTakesSteps(w: World, env: Env, vm0: VM, vm: VM, d: Config, n: nat)
    requires |vm0.ctxs| > 0 && InFrame(w, vm0, vm, d)
    requires var code := CodeOf(w, Top(vm0.ctxs).func);
             0 <= d.pc < |code| && IsCall(code[d.pc]) && Step(env, code, d).Running?
             && InFrame(w, vm0, VMSteps(w, vm, n), Step(env, code, d).c)
    ensures n > 0
  {
    assert Step(env, CodeOf(w, Top(vm0.ctxs).func), d).c.pc == d.pc + 1;
    assert VMSteps(w, vm, 0) == vm;
  }

  lemma FrameHosts(w: World, vm0: VM, vm: VM, d: Config)
    requires InFrame(w, vm0, vm, d)
    ensures vm.hosts == vm0.hosts
  {
  }

  lemma ErrorHosts(w: World, vm0: VM, vm: VM, e: Error, m: Mem)
    requires ErrorIn(w, vm0, vm, e, m)
    ensures vm.hosts == vm0.hosts
  {
  }

  /** The engine behind the last chunk. */
  lemma EndChunk(w: World, vm0: VM, vm: VM, d: Config)
    requires InFrame(w, vm0, vm, d)
    requires d.pc == |CodeOf(w, Top(vm0.ctxs).func)|
    ensures ErrorIn(w, vm0, VMStep(w, vm), BadTarget, d.m)
  {
    hide CallsAgree, H;
    FrameBase(w, vm0, vm, d);
  }

  /** As far as the code runs, the engine runs: to the same configuration, or the same error; or
      to the return chunk with the same value. */
  lemma {:induction false} RunFrame(w: World, env: Env, vm0: VM, vm: VM, d0: Config, d: Config, k: nat)
    returns (n: nat, last: Config)
    requires |vm0.ctxs| > 0 && Runs(w, env, vm0, d0) && InFrame(w, vm0, vm, d) && Counts(w, vm0, d)
    requires Reached(env, CodeOf(w, Top(vm0.ctxs).func), d0, d)
    ensures var code := CodeOf(w, Top(vm0.ctxs).func);
            match Steps(env, code, d, k)
            case Running(d1) => InFrame(w, vm0, VMSteps(w, vm, n), d1) && n >= k
            case Failed(e, m) => e == TooDeep || ErrorIn(w, vm0, VMSteps(w, vm, n), e, m)
            case Returned(v, m) =>
              InFrame(w, vm0, VMSteps(w, vm, n), last) && 0 <= last.pc < |code| && code[last.pc].RETURN?
              && |last.temps| > 0 && Step(env, code, last) == Returned(v, m)
    ensures var o := Steps(env, CodeOf(w, Top(vm0.ctxs).func), d, k);
            Stays(w, vm, n, |vm0.hosts|) || (o.Failed? && o.e == TooDeep)
    decreases k
  {
    hide InFrame, ErrorIn, VMStep, Step, H, Runs, Counts, Reached, Stays;
    var code := CodeOf(w, Top(vm0.ctxs).func);
    n, last := 0, d;
    CountsInside(w, vm0, d);
    FrameHosts(w, vm0, vm, d);
    StaysOne(w, vm, |vm0.hosts|);
    if k > 0 {
      var n1 := 1;
      VMOne(w, vm);
      if d.pc == |code| {
        EndChunk(w, vm0, vm, d);
        EndStep(env, code, d);
        ErrorHosts(w, vm0, VMStep(w, vm), BadTarget, d.m);
        n := 1;
      } else if code[d.pc].RETURN? {
        ReturnStep(w, env, vm0, d0, d);
      } else {
        var o := Step(env, code, d);
        if IsCall(code[d.pc]) {
          n1 := CallChunk(w, env, vm0, vm, d0, d);
        } else {
          LocalChunk(w, env, vm0, vm, d0, d);
          if o.Running? { FrameHosts(w, vm0, VMStep(w, vm), o.c); }
          if o.Failed? { ErrorHosts(w, vm0, VMStep(w, vm), o.e, o.m); }
        }
        n := n1;
        if o.Running? {
          ReachedNext(env, code, d0, d);
          n, last := RunFrame(w, env, vm0, VMSteps(w, vm, n1), d0, o.c, k - 1);
          VMStepsAdd(w, vm, n1, n);
          if Stays(w, VMSteps(w, vm, n1), n, |vm0.hosts|) { StaysThen(w, vm, n1, n, |vm0.hosts|); }
          n := n1 + n;
        }
      }
    }
  }

  lemma ReachedNext(env: Env, code: Code, d0: Config, d: Config)
    requires Reached(env, code, d0, d) && Step(env, code, d).Running?
    ensures Reached(env, code, d0, Step(env, code, d).c)
  {
    hide Step;
    var j: nat :| Steps(env, code, d0, j) == Running(d);
    StepsAdd(env, code, d0, j, 1);
    assert Steps(env, code, d, 1) == Step(env, code, d) by { One(env, code, d); }
    assert Steps(env, code, d0, j + 1) == Running(Step(env, code, d).c);
  }

  lemma ReachedFirst(env: Env, code: Code, d0: Config)
    ensures Reached(env, code, d0, d0)
  {
    assert Steps(env, code, d0, 0) == Running(d0);
  }

  lemma CountsInside(w: World, vm0: VM, d: Config)
    requires |vm0.ctxs| > 0 && Counts(w, vm0, d)
    ensures 0 <= d.pc <= |CodeOf(w, Top(vm0.ctxs).func)|
  {
    hide H;
  }

  lemma EndStep(env: Env, code: Code, d: Config)
    requires d.pc == |code|
    ensures Step(env, code, d) == Failed(BadTarget, d.m)
  {
  }

  lemma ReturnStep(w: World, env: Env, vm0: VM, d0: Config, d: Config)
    requires Runs(w, env, vm0, d0) && Counts(w, vm0, d)
    requires d.pc < |CodeOf(w, Top(vm0.ctxs).func)| && CodeOf(w, Top(vm0.ctxs).func)[d.pc].RETURN?
    ensures |d.temps| > 0 && Step(env, CodeOf(w, Top(vm0.ctxs).func), d).Returned?
  {
    hide H, Loose, CallsAgree, Room, Plain, OpsOk;
    StepLevel(env, CodeOf(w, Top(vm0.ctxs).func), d);
  }

  // ----- a run from outside -----

  /** Both stacks are as they were before the run, apart from what it has assigned, and the
      built-in function goes on with `v`. */
  ghost predicate BackWith(vm: VM, vm': VM, v: Value, m: Mem)
    requires vm.mode.InHost? && vm.mode.plan.Run?
  {
    && vm'.ctxs == vm.ctxs && vm'.hosts == vm.hosts && |vm.stack| <= |m.stack| && vm'.stack == m.stack[..|vm.stack|]
    && vm'.heap == m.heap && vm'.mode == InHost(vm.mode.plan.next(v, Mem(vm'.stack, vm'.heap)))
  }

  /** The run that the built-in function asks for ends with step `k`. */
  ghost predicate Back(w: World, vm: VM, k: nat) {
    && k > 0 && |VMSteps(w, vm, k).hosts| <= |vm.hosts|
    && forall j: nat :: 0 < j < k ==> |VMSteps(w, vm, j).hosts| > |vm.hosts|
  }

  /** It ends once. */
  lemma OneBack(w: World, vm: VM, j: nat, k: nat)
    requires Back(w, vm, j) && Back(w, vm, k)
    ensures j == k
  {
    hide VMSteps;
  }

  /** It has not ended while the function goes on. */
  lemma BackAfter(w: World, vm: VM, n: nat)
    requires Stays(w, VMStep(w, vm), n, |vm.hosts| + 1)
    ensures forall j: nat :: 0 < j <= n + 1 ==> |VMSteps(w, vm, j).hosts| > |vm.hosts|
  {
    hide VMStep;
    forall j: nat | 0 < j <= n + 1 ensures |VMSteps(w, vm, j).hosts| > |vm.hosts| {
      assert VMSteps(w, vm, j) == VMSteps(w, VMStep(w, vm), j - 1);
    }
  }

  lemma ReturnsOutside(w: World, env: Env, vm: VM, vm0: VM, u: VM, last: Config, v: Value, m: Mem)
    requires vm.mode.InHost? && vm.mode.plan.Run? && |vm0.ctxs| == |vm.ctxs| + 1 && vm0.ctxs[..|vm.ctxs|] == vm.ctxs
    requires vm0.hosts == vm.hosts + [Entered(|vm.ctxs|, |vm.stack|, vm.mode.plan.pass, vm.mode.plan.next)]
    requires Top(vm0.ctxs).ret.External? && Top(vm0.ctxs).pars == |vm.stack| <= Base(w, Top(vm0.ctxs))
    requires Matches(w, env, Top(vm0.ctxs)) && InFrame(w, vm0, u, last)
    requires var code := CodeOf(w, Top(vm0.ctxs).func);
             0 <= last.pc < |code| && code[last.pc].RETURN? && |last.temps| > 0
                 && Step(env, code, last) == Returned(v, m)
    ensures BackWith(vm, VMStep(w, u), v, m)
  {
    hide Plain;
    FrameBase(w, vm0, u, last);
    var n := |u.ctxs| - 1;
    assert u.ctxs[..n] == vm.ctxs;
    assert u.stack[|u.stack| - 1] == last.temps[|last.temps| - 1];
    assert m == last.m;
    assert VMStep(w, u) == Leave(w, u);
    assert vm0.hosts[..|vm0.hosts| - 1] == vm.hosts;
    assert u.stack[..|vm.stack|] == m.stack[..|vm.stack|];
  }

  lemma FailsInside(w: World, vm: VM, vm0: VM, u: VM, e: Error, m: Mem)
    requires vm.mode.InHost? && vm.mode.plan.Run? && |vm0.ctxs| == |vm.ctxs| + 1 && vm0.ctxs[..|vm.ctxs|] == vm.ctxs
    requires vm0.hosts == vm.hosts + [Entered(|vm.ctxs|, |vm.stack|, false, vm.mode.plan.next)]
    requires Top(vm0.ctxs).pars == |vm.stack| <= Base(w, Top(vm0.ctxs)) && ErrorIn(w, vm0, u, e, m)
    ensures BackWith(vm, VMStep(w, u), Nil, m)
  {
    var n := |vm.ctxs|;
    assert u.ctxs[..n] == vm.ctxs;
    assert vm0.hosts[..|vm0.hosts| - 1] == vm.hosts;
    assert u.stack[..|vm.stack|] == m.stack[..|vm.stack|];
  }

  /** The whole way: when a built-in function runs a compiled function, and there is room for it,
      the engine comes to the result the evaluator comes to, or to nil where the evaluator comes
      to an error, with the memory as the evaluator leaves it and both stacks as they were. */
  lemma EngineRunsFunction(w: World, env: Env, vm: VM, body: Source.Stmt, o: Outcome) returns (n: nat)
    requires RunsBody(w, env, vm, body) && Programs.Ends(env, body, Mem(VMStep(w, vm).stack, VMStep(w, vm).heap), o)
    ensures o.Running? || (o.Failed? && o.e == TooDeep)
            || (BackWith(vm, VMSteps(w, vm, n), if o.Returned? then o.v else Nil, o.m) && Back(w, vm, n))
  {
    hide VMStep, Step, InFrame, ErrorIn, Runs, H, Emitter.GenFunction, Programs.Ends, Compiled.Crosses,
         Source.LoopsOnly, Counts, BackWith, Reached, Stays;
    var vm0 := VMStep(w, vm);
    BegunFrame(w, vm);
    FrameStarts(w, vm0);
    var code, d0 := CodeOf(w, Top(vm0.ctxs).func), Config(0, [], Mem(vm0.stack, vm0.heap));
    MeansStops(w, env, vm, body, o);
    var k: nat :| Steps(env, code, d0, k) == o;
    ReachedFirst(env, code, d0);
    var n1, last := RunFrame(w, env, vm0, vm0, d0, d0, k);
    var u := VMSteps(w, vm0, n1);
    if o.Returned? {
      MatchesRuns(w, env, vm0, d0);
      ReturnsOutside(w, env, vm, vm0, u, last, o.v, o.m);
    } else if o.Failed? && o.e != TooDeep {
      FailsInside(w, vm, vm0, u, o.e, o.m);
    }
    n := 1 + (n1 + 1);
    VMStepsAdd(w, vm, 1, n1 + 1);
    VMOne(w, vm);
    VMStepsAdd(w, vm0, n1, 1);
    VMOne(w, u);
    if !o.Running? && !(o.Failed? && o.e == TooDeep) {
      BackAfter(w, vm, n1);
      assert |VMSteps(w, vm, n).hosts| <= |vm.hosts| by { BackHosts(vm, VMSteps(w, vm, n)); }
    }
  }

  lemma BackHosts(vm: VM, vm': VM)
    requires vm.mode.InHost? && vm.mode.plan.Run?
    ensures (exists v, m :: BackWith(vm, vm', v, m)) ==> vm'.hosts == vm.hosts
  {
  }

  /** A built-in function runs the function compiled from `body`. */
  ghost predicate RunsBody(w: World, env: Env, vm: VM, body: Source.Stmt) {
    && vm.mode.InHost? && vm.mode.plan.Run? && !vm.mode.plan.pass
    && Source.LoopsOnly(body, false) && !Compiled.Crosses(env.fr.strict, env.fr.returnRef, body)
    && var vm0 := VMStep(w, vm);
       vm0.mode == InScript(0) && |vm0.hosts| == |vm.hosts| + 1 && |vm0.ctxs| > 0
       && Runs(w, env, vm0, Config(0, [], Mem(vm0.stack, vm0.heap)))
       && CodeOf(w, Top(vm0.ctxs).func) == Emitter.GenFunction(env.fr.strict, env.fr.returnRef, body).code
  }

  lemma MeansStops(w: World, env: Env, vm: VM, body: Source.Stmt, o: Outcome)
    requires RunsBody(w, env, vm, body)
    ensures var vm0 := VMStep(w, vm);
            Stops(env, CodeOf(w, Top(vm0.ctxs).func), Config(0, [], Mem(vm0.stack, vm0.heap)), o)
            <==> Programs.Ends(env, body, Mem(vm0.stack, vm0.heap), o)
  {
    hide VMStep, Step, Runs, Emitter.GenFunction, Meaning.ComesTo, Compiled.Crosses, Source.LoopsOnly, Meaning.FoldS,
         Emitter.FinalReturn, Stops;
    var vm0 := VMStep(w, vm);
    Compiled.CompiledMeaning(env, body, Mem(vm0.stack, vm0.heap), o);
  }

  /** The other way round: a run that ends has an outcome of the evaluator. */
  lemma EngineComesBack(w: World, env: Env, vm: VM, body: Source.Stmt, k: nat) returns (o: Outcome)
    requires RunsBody(w, env, vm, body) && Back(w, vm, k)
    ensures !o.Running? && Programs.Ends(env, body, Mem(VMStep(w, vm).stack, VMStep(w, vm).heap), o)
  {
    hide VMStep, VMSteps, Step, InFrame, ErrorIn, Runs, H, Emitter.GenFunction, Programs.Ends, Compiled.Crosses,
         Source.LoopsOnly, Counts, Reached, Stays;
    var vm0 := VMStep(w, vm);
    BegunFrame(w, vm);
    FrameStarts(w, vm0);
    var code, d0 := CodeOf(w, Top(vm0.ctxs).func), Config(0, [], Mem(vm0.stack, vm0.heap));
    ReachedFirst(env, code, d0);
    o := Steps(env, code, d0, k);
    var n, last := RunFrame(w, env, vm0, vm0, d0, d0, k);
    if o.Running? {
      BackAfter(w, vm, n);
    } else {
      MeansStops(w, env, vm, body, o);
    }
  }

  lemma MatchesRuns(w: World, env: Env, vm0: VM, d0: Config)
    requires Runs(w, env, vm0, d0)
    ensures |vm0.ctxs| > 0 && Matches(w, env, Top(vm0.ctxs))
  {
  }

  /** A run that has begun: its context stands above those that were there. */
  lemma BegunFrame(w: World, vm: VM)
    requires vm.mode.InHost? && vm.mode.plan.Run?
    requires VMStep(w, vm).mode == InScript(0) && |VMStep(w, vm).hosts| == |vm.hosts| + 1
    ensures var vm0, p := VMStep(w, vm), vm.mode.plan;
            vm0.hosts == vm.hosts + [Entered(|vm.ctxs|, |vm.stack|, p.pass, p.next)]
            && |vm0.ctxs| == |vm.ctxs| + 1 && vm0.ctxs[..|vm.ctxs|] == vm.ctxs
            && Top(vm0.ctxs).ret.External? && Top(vm0.ctxs).pars == |vm.stack| <= Base(w, Top(vm0.ctxs))
            && |vm0.stack| == Base(w, Top(vm0.ctxs))
  {
    hide WriteAll;
    var m, p := WriteAll(Mem(vm.stack, vm.heap), vm.mode.plan.writes), vm.mode.plan;
    assert |m.stack| == |vm.stack|;
  }

  /** At its first chunk the function has no temporaries. */
  lemma FrameStarts(w: World, vm0: VM)
    requires vm0.mode == InScript(0) && |vm0.ctxs| > 0 && |vm0.stack| == Base(w, Top(vm0.ctxs))
    ensures InFrame(w, vm0, vm0, Config(0, [], Mem(vm0.stack, vm0.heap)))
    ensures Counts(w, vm0, Config(0, [], Mem(vm0.stack, vm0.heap)))
  {
    hide H;
    HEnds(CodeOf(w, Top(vm0.ctxs).func));
    assert vm0.stack + [] == vm0.stack;
  }
}
