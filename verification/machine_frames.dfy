/** Calls are framed: whatever happens during a call, when it returns its caller goes on behind
    the call with the height that was counted there. Runs from outside are neutral: however they
    end, they leave both stacks as they found them. */
module MachineFrames {
  import opened Bytecode
  import opened Heights
  import opened Machine
  import opened MachineSafe

  // ----- above a call -----

  /** Something runs above the contexts `below`: the call `c0`, and what it started. `outside` are
      the native calls that were in progress when it began. */
  ghost predicate Over(vm: VM, below: seq<Context>, c0: Context, outside: seq<Host>) {
    var d := |below|;
    && |vm.ctxs| > d && vm.ctxs[..d] == below && vm.ctxs[d].(cpos := 0) == c0.(cpos := 0)
    && |outside| % 2 == 1 && outside <= vm.hosts
    && outside[|outside| - 1].Entered? && outside[|outside| - 1].outer <= d
    && (forall j :: |outside| <= j < |vm.hosts| && j % 2 == 0 ==> vm.hosts[j].Entered? && vm.hosts[j].outer > d)
    && (vm.mode.InScript? || vm.mode.InHost? || vm.mode.Raised?)
  }

  /** The topmost call is at a return chunk. */
  ghost predicate AtReturn(w: World, vm: VM) {
    && vm.mode.InScript? && |vm.ctxs| > 0 && Base(w, Top(vm.ctxs)) < |vm.stack| && VMStep(w, vm) == Leave(w, vm)
    && var code := CodeOf(w, Top(vm.ctxs).func);
       0 <= vm.mode.pc < |code| && code[vm.mode.pc].RETURN?
  }

  /** The step at which it ends: its own return, or an error that nothing above has stopped. */
  ghost predicate Ends(w: World, vm: VM, below: seq<Context>, outside: seq<Host>) {
    || (vm.mode.Raised? && vm.hosts == outside)
    || (AtReturn(w, vm) && |vm.ctxs| == |below| + 1)
  }

  lemma OverCall(w: World, vm: VM, f: nat, ret: nat, pars: nat, n: nat, hasObject: bool, pc: int,
                 below: seq<Context>, c0: Context, outside: seq<Host>)
    requires |vm.ctxs| > 0 && pars + n <= |vm.stack| && |vm.hosts| % 2 == 1
    requires Over(vm, below, c0, outside)
    ensures Over(Call(w, vm, f, ret, pars, n, hasObject, pc), below, c0, outside)
  {
    var d := |below|;
    var vm' := Call(w, vm, f, ret, pars, n, hasObject, pc);
    var ctxs := vm.ctxs[|vm.ctxs| - 1 := Top(vm.ctxs).(cpos := pc)];
    assert ctxs[..d] == below;
    assert vm'.ctxs[..d] == below;
    assert outside <= vm'.hosts;
  }

  lemma OverLocal(w: World, vm: VM, pc: int, below: seq<Context>, c0: Context, outside: seq<Host>)
    requires |vm.ctxs| > 0 && Base(w, Top(vm.ctxs)) <= |vm.stack|
    requires Over(vm, below, c0, outside)
    ensures Over(Local(w, vm, pc), below, c0, outside)
  {
    hide Step;
  }

  lemma OverLeave(w: World, vm: VM, pc: int, below: seq<Context>, c0: Context, outside: seq<Host>)
    requires WorldOk(w) && vm.mode == InScript(pc) && Inv(w, vm) && Over(vm, below, c0, outside)
    requires Base(w, Top(vm.ctxs)) < |vm.stack|
    ensures |vm.ctxs| == |below| + 1 || Over(Leave(w, vm), below, c0, outside)
  {
    hide Chain, HostsOk, WorldOk, Plain;
    var d, n := |below|, |vm.ctxs| - 1;
    LeaveKeeps(w, vm, pc);
    if n > d {
      var rest := vm.ctxs[..n];
      assert rest[..d] == below;
      if Top(vm.ctxs).ret.External? {
        ExternalIsLast(w, vm.ctxs, vm.hosts);
        assert outside <= vm.hosts[..|vm.hosts| - 1];
      }
    }
  }

  lemma OverScript(w: World, vm: VM, pc: int, below: seq<Context>, c0: Context, outside: seq<Host>)
    requires WorldOk(w) && vm.mode == InScript(pc) && Inv(w, vm) && Over(vm, below, c0, outside)
    ensures Over(ScriptStep(w, vm, pc), below, c0, outside) || Ends(w, vm, below, outside)
  {
    hide Chain, HostsOk, WorldOk, Local, Call, Leave;
    ScriptHolds(w, vm, pc);
    var c, n := Top(vm.ctxs), |vm.stack|;
    var code := CodeOf(w, c.func);
    if 0 <= pc < |code| && Base(w, c) <= n && Need(code[pc]) <= n - Base(w, c) {
      match code[pc]
      case RETURN => OverLeave(w, vm, pc, below, c0, outside);
      case FUNC(f, pars) => OverCall(w, vm, f, n - pars, n - pars, pars, c.hasObject, pc, below, c0, outside);
      case CALL(kind, f) =>
        var target := n - MAX_PAR - 1;
        match w.resolve(kind, f, vm.stack[target], Mem(vm.stack, vm.heap)) {
          case Found(g, hasObject) => OverCall(w, vm, g, target, target + 1, MAX_PAR, hasObject, pc, below, c0,
              outside);
          case _ =>
        }
      case _ => OverLocal(w, vm, pc, below, c0, outside);
    }
  }

  lemma OverHost(w: World, vm: VM, plan: Plan, below: seq<Context>, c0: Context, outside: seq<Host>)
    requires WorldOk(w) && vm.mode == InHost(plan) && Inv(w, vm) && Over(vm, below, c0, outside)
    ensures Over(HostStep(w, vm, plan), below, c0, outside)
  {
    hide Chain, HostsOk, WorldOk, WriteAll, H;
    var n := |vm.hosts| - 1;
    HostBase(w, vm);
    assert outside <= vm.hosts[..n];
  }

  lemma OverError(w: World, vm: VM, e: Error, pc: int, below: seq<Context>, c0: Context, outside: seq<Host>)
    requires WorldOk(w) && vm.mode == Raised(e, pc) && Inv(w, vm) && Over(vm, below, c0, outside)
    requires |vm.hosts| > |outside|
    ensures Over(ErrorStep(w, vm, e, pc), below, c0, outside)
  {
    hide Chain, WorldOk, H, HostsOk;
    var n, d := |vm.hosts| - 1, |below|;
    var o := vm.hosts[n].outer;
    HostsLeave(w, vm.ctxs[..o + 1], vm.hosts);
    assert o > d;
    OverAfterError(w, vm, e, pc, below, c0, outside);
  }

  lemma OverAfterError(w: World, vm: VM, e: Error, pc: int, below: seq<Context>, c0: Context, outside: seq<Host>)
    requires vm.mode == Raised(e, pc) && Over(vm, below, c0, outside) && |vm.hosts| > |outside| && |vm.hosts| % 2 == 1
    requires var h := vm.hosts[|vm.hosts| - 1];
             h.Entered? && |below| < h.outer < |vm.ctxs| && vm.hosts[|vm.hosts| - 2].Calling?
    ensures Over(ErrorStep(w, vm, e, pc), below, c0, outside)
  {
    var n, d := |vm.hosts| - 1, |below|;
    assert outside <= vm.hosts[..n - 1];
    var vm' := ErrorStep(w, vm, e, pc);
    assert vm'.ctxs[..d] == below;
  }

  /** Every step above a call stays above it or ends it. */
  lemma OverStep(w: World, vm: VM, below: seq<Context>, c0: Context, outside: seq<Host>)
    requires WorldOk(w) && Inv(w, vm) && Over(vm, below, c0, outside)
    ensures Over(VMStep(w, vm), below, c0, outside) || Ends(w, vm, below, outside)
  {
    hide Inv, WorldOk, ScriptStep, HostStep, ErrorStep, Leave;
    match vm.mode
    case InScript(pc) => OverScript(w, vm, pc, below, c0, outside);
    case InHost(plan) => OverHost(w, vm, plan, below, c0, outside);
    case Raised(e, pc) =>
      if |vm.hosts| > |outside| {
        OverError(w, vm, e, pc, below, c0, outside);
      } else {
        assert vm.hosts == outside;
      }
    case _ =>
  }

  // ----- calls of script functions -----

  /** The caller goes on behind its call, nothing else runs any more or less, and the stack has
      the height counted for the next chunk. */
  ghost predicate Framed(w: World, vm: VM, vm': VM, pc: int) {
    && |vm.ctxs| > 0 && CallAt(w, Top(vm.ctxs), pc)
    && vm'.mode == InScript(pc + 1)
    && vm'.ctxs == vm.ctxs[|vm.ctxs| - 1 := Top(vm.ctxs).(cpos := pc)] && vm'.hosts == vm.hosts
    && |vm'.stack| == ResultSlot(w, Top(vm.ctxs), pc) + 1
    && |vm'.stack| == Base(w, Top(vm.ctxs)) + H(CodeOf(w, Top(vm.ctxs).func), pc + 1)
  }

  /** Behind every call of a script function, however deeply it calls and whatever built-in
      functions run below it, the caller is as it was; or an error has ended the run that the
      caller belongs to, too. */
  lemma CallFramed(w: World, vm: VM, pc: int, k: nat) returns (last: VM)
    requires WorldOk(w) && Inv(w, vm) && vm.mode == InScript(pc) && |vm.ctxs| > 0 && CallAt(w, Top(vm.ctxs), pc)
    requires var d, vm1 := |vm.ctxs|, VMStep(w, vm);
             |vm1.ctxs| == d + 1 && (forall j: nat :: j < k ==> |VMSteps(w, vm1, j).ctxs| > d)
                 && |VMSteps(w, vm1, k).ctxs| <= d
    ensures var vm' := VMSteps(w, VMStep(w, vm), k);
            |vm'.ctxs| < |vm.ctxs|
            || (Framed(w, vm, vm', pc) && k > 0 && last == VMSteps(w, VMStep(w, vm), k - 1)
                && HandsBack(w, vm, last, vm', pc))
  {
    hide Inv, WorldOk, VMStep, H, VMSteps;
    StepKeeps(w, vm);
    EnteredOver(w, vm, pc);
    var vm1, below := VMStep(w, vm), vm.ctxs[|vm.ctxs| - 1 := Top(vm.ctxs).(cpos := pc)];
    last := UntilReturn(w, vm1, below, Top(vm1.ctxs), vm.hosts, k);
    StepsKeep(w, vm1, k);
    var vm' := VMSteps(w, vm1, k);
    if |vm'.ctxs| == |vm.ctxs| {
      assert Top(below).cpos == pc;
      SlotOfCall(w, vm, vm1, pc);
      BackInCaller(w, vm, vm', pc);
    }
  }

  /** In its last step the function stands at a return chunk; its value goes into the slot, and the
      values below are as the function has left them. */
  ghost predicate HandsBack(w: World, vm: VM, last: VM, vm': VM, pc: int)
    requires |vm.ctxs| > 0 && CallAt(w, Top(vm.ctxs), pc)
  {
    var slot := ResultSlot(w, Top(vm.ctxs), pc);
    && AtReturn(w, last) && vm' == VMStep(w, last) && 0 <= slot <= |last.stack|
    && vm'.stack == last.stack[..slot] + [Result(w, last)] && vm'.heap == last.heap
  }

  /** The function called was told this slot. */
  lemma SlotOfCall(w: World, vm: VM, vm1: VM, pc: int)
    requires Inv(w, vm1) && vm1.mode.InScript? && |vm.ctxs| > 0 && CallAt(w, Top(vm.ctxs), pc)
    requires |vm1.ctxs| == |vm.ctxs| + 1 && vm1.ctxs[..|vm.ctxs|] == vm.ctxs[|vm.ctxs| - 1 := Top(vm.ctxs).(cpos := pc)]
    requires Top(vm1.ctxs).ret.Slot?
    ensures Top(vm1.ctxs).ret.at == ResultSlot(w, Top(vm.ctxs), pc)
  {
    hide H, HostsOk, Chain;
    ScriptHolds(w, vm1, vm1.mode.pc);
    TopParts(w, vm1.ctxs);
    assert vm1.ctxs[|vm1.ctxs| - 2] == vm1.ctxs[..|vm.ctxs|][|vm.ctxs| - 1];
  }

  lemma BackInCaller(w: World, vm: VM, vm': VM, pc: int)
    requires |vm.ctxs| > 0 && CallAt(w, Top(vm.ctxs), pc)
    requires vm'.mode == InScript(pc + 1) && vm'.ctxs == vm.ctxs[|vm.ctxs| - 1 := Top(vm.ctxs).(cpos := pc)]
             && vm'.hosts == vm.hosts && |vm'.stack| == ResultSlot(w, Top(vm.ctxs), pc) + 1
    ensures Framed(w, vm, vm', pc)
  {
    hide H;
    CallInside(w, Top(vm.ctxs), pc);
  }

  /** A script function was just called. */
  lemma EnteredOver(w: World, vm: VM, pc: int)
    requires WorldOk(w) && Inv(w, vm) && vm.mode == InScript(pc) && |vm.ctxs| > 0 && CallAt(w, Top(vm.ctxs), pc)
    requires |VMStep(w, vm).ctxs| == |vm.ctxs| + 1
    ensures var vm1, below := VMStep(w, vm), vm.ctxs[|vm.ctxs| - 1 := Top(vm.ctxs).(cpos := pc)];
            vm1.ctxs[..|vm.ctxs|] == below && vm1.hosts == vm.hosts && Top(vm1.ctxs).ret.Slot? && vm1.mode.InScript?
            && Over(vm1, below, Top(vm1.ctxs), vm.hosts) && vm.hosts[|vm.hosts| - 1].outer < |vm.ctxs|
  {
    hide Chain, HostsOk, H, WorldOk, Call, Local;
    ScriptHolds(w, vm, pc);
    OuterOrder(w, vm.ctxs, vm.hosts, |vm.hosts| - 1);
    var c, n := Top(vm.ctxs), |vm.stack|;
    match CodeOf(w, c.func)[pc]
    case FUNC(f, pars) =>
      if pars <= n { CallEnters(w, vm, f, n - pars, n - pars, pars, c.hasObject, pc); }
    case CALL(kind, f) =>
      if n > MAX_PAR {
        var target := n - MAX_PAR - 1;
        match w.resolve(kind, f, vm.stack[target], Mem(vm.stack, vm.heap)) {
          case Found(g, hasObject) => CallEnters(w, vm, g, target, target + 1, MAX_PAR, hasObject, pc);
          case _ =>
        }
      }
  }

  lemma CallEnters(w: World, vm: VM, f: nat, ret: nat, pars: nat, n: nat, hasObject: bool, pc: int)
    requires |vm.ctxs| > 0 && pars + n <= |vm.stack|
    ensures var vm1, below := Call(w, vm, f, ret, pars, n, hasObject, pc),
            vm.ctxs[|vm.ctxs| - 1 := Top(vm.ctxs).(cpos := pc)];
            |vm1.ctxs| == |vm.ctxs| + 1 ==>
              vm1.ctxs[..|vm.ctxs|] == below && vm1.hosts == vm.hosts && Top(vm1.ctxs).ret.Slot? && vm1.mode.InScript?
  {
  }

  /** How many parameters the call takes. */
  function ParsOf(x: Chunk): nat
    requires IsCall(x)
  {
    if x.FUNC? then x.pars else MAX_PAR
  }

  /** What a script function finds when it is entered: its parameters, converted, where its frame
      says; below them everything as it was; above them its variables, all nil. */
  ghost predicate HandedOver(w: World, vm: VM, vm1: VM, pars: nat)
    requires |vm.ctxs| > 0 && |vm1.ctxs| > 0
  {
    var n, c := |vm.stack|, Top(vm1.ctxs);
    && pars <= n && c.pars == pars && c.vars == n
    && |vm1.stack| == n + VarsOf(w, c.func) && vm1.stack[n..] == Nils(VarsOf(w, c.func))
    && vm1.stack[..pars] == vm.stack[..pars] && vm1.heap == vm.heap
    && var r := w.convert(StrictOf(w, Top(vm.ctxs)), c.func, vm.stack[pars..], Mem(vm.stack, vm.heap));
       r.Converted? && vm1.stack[pars..n] == if |r.args| == n - pars then r.args else vm.stack[pars..]
  }

  lemma CallHandsOver(w: World, vm: VM, pc: int)
    requires WorldOk(w) && Inv(w, vm) && vm.mode == InScript(pc) && |vm.ctxs| > 0 && CallAt(w, Top(vm.ctxs), pc)
    requires |VMStep(w, vm).ctxs| == |vm.ctxs| + 1
    ensures var k := ParsOf(CodeOf(w, Top(vm.ctxs).func)[pc]);
            k <= |vm.stack| && HandedOver(w, vm, VMStep(w, vm), |vm.stack| - k)
  {
    hide Chain, HostsOk, H, WorldOk, Call, Local, HandedOver;
    ScriptHolds(w, vm, pc);
    SlotAbove(w, Top(vm.ctxs), pc);
    var c, n := Top(vm.ctxs), |vm.stack|;
    match CodeOf(w, c.func)[pc]
    case FUNC(f, pars) => CallPrepares(w, vm, f, n - pars, n - pars, pars, c.hasObject, pc);
    case CALL(kind, f) =>
      var target := n - MAX_PAR - 1;
      match w.resolve(kind, f, vm.stack[target], Mem(vm.stack, vm.heap)) {
        case Found(g, hasObject) => CallPrepares(w, vm, g, target, target + 1, MAX_PAR, hasObject, pc);
        case _ =>
      }
  }

  lemma CallPrepares(w: World, vm: VM, f: nat, ret: nat, pars: nat, n: nat, hasObject: bool, pc: int)
    requires |vm.ctxs| > 0 && pars + n == |vm.stack|
    ensures var vm1 := Call(w, vm, f, ret, pars, n, hasObject, pc);
            |vm1.ctxs| == |vm.ctxs| + 1 ==> HandedOver(w, vm, vm1, pars)
  {
    assert vm.stack[pars..pars + n] == vm.stack[pars..];
    assert vm.stack[pars + n..] == [];
  }

  /** An error that has left the run above which the call was made goes further down. */
  ghost predicate Lost(vm: VM, d: nat, outside: seq<Host>) {
    && |vm.hosts| < |outside| && vm.hosts <= outside && (vm.mode.Raised? || vm.mode.Aborted?)
    && (forall j :: 0 <= j < |outside| && outside[j].Entered? ==> outside[j].outer < d)
  }

  lemma {:induction false} LostStays(w: World, vm: VM, d: nat, outside: seq<Host>, k: nat)
    requires WorldOk(w) && Inv(w, vm) && Lost(vm, d, outside) && |vm.ctxs| > d
    requires forall j: nat :: j < k ==> |VMSteps(w, vm, j).ctxs| > d
    ensures |VMSteps(w, vm, k).ctxs| != d
    decreases k
  {
    hide Inv, WorldOk, VMStep;
    if k > 0 {
      LostStep(w, vm, d, outside);
      StepKeeps(w, vm);
      Later(w, vm, d, k);
      var vm1 := VMStep(w, vm);
      if |vm1.ctxs| > d {
        LostStays(w, vm1, d, outside, k - 1);
      } else {
        OneMore(w, vm, d, k);
      }
    }
  }

  /** What holds of all steps holds of all steps but the first. */
  lemma Later(w: World, vm: VM, d: nat, k: nat)
    requires k > 0 && forall j: nat :: j < k ==> |VMSteps(w, vm, j).ctxs| > d
    ensures forall j: nat :: j < k - 1 ==> |VMSteps(w, VMStep(w, vm), j).ctxs| > d
    ensures VMSteps(w, vm, k) == VMSteps(w, VMStep(w, vm), k - 1)
  {
    hide VMStep;
    forall j: nat | j < k - 1 ensures |VMSteps(w, VMStep(w, vm), j).ctxs| > d {
      assert VMSteps(w, vm, j + 1) == VMSteps(w, VMStep(w, vm), j);
    }
  }

  lemma OneMore(w: World, vm: VM, d: nat, k: nat)
    requires k > 0 && |VMStep(w, vm).ctxs| <= d && forall j: nat :: j < k ==> |VMSteps(w, vm, j).ctxs| > d
    ensures k == 1 && VMSteps(w, vm, k) == VMStep(w, vm)
  {
    hide VMStep;
    assert VMSteps(w, VMStep(w, vm), 0) == VMStep(w, vm);
    assert VMSteps(w, vm, 1) == VMStep(w, vm);
  }

  lemma LostStep(w: World, vm: VM, d: nat, outside: seq<Host>)
    requires WorldOk(w) && Inv(w, vm) && Lost(vm, d, outside) && |vm.ctxs| > d
    ensures var vm1 := VMStep(w, vm);
            |vm1.ctxs| < d || (|vm1.ctxs| > d && Lost(vm1, d, outside))
  {
    hide Chain, HostsOk, WorldOk;
    if vm.mode.Raised? {
      var n := |vm.hosts| - 1;
      assert vm.hosts[n] == outside[n] && vm.hosts[n].outer < d;
      var below := vm.hosts[..n];
      assert below <= outside;
      if n > 0 { assert below[..n - 1] <= outside; }
    }
  }

  /** The value of call `c0` goes into its slot. */
  ghost predicate Handed(w: World, c0: Context, last: VM, vm': VM)
    requires c0.ret.Slot?
  {
    && AtReturn(w, last) && vm' == VMStep(w, last) && c0.ret.at <= |last.stack|
    && vm'.stack == last.stack[..c0.ret.at] + [Result(w, last)] && vm'.heap == last.heap
  }

  lemma {:induction false} UntilReturn(w: World, vm: VM, below: seq<Context>, c0: Context, outside: seq<Host>, k: nat)
    returns (last: VM)
    requires WorldOk(w) && Inv(w, vm) && Over(vm, below, c0, outside) && c0.ret.Slot? && |below| > 0
    requires outside[|outside| - 1].outer < |below|
    requires (forall j: nat :: j < k ==> |VMSteps(w, vm, j).ctxs| > |below|) && |VMSteps(w, vm, k).ctxs| <= |below|
    ensures var vm' := VMSteps(w, vm, k);
            |vm'.ctxs| < |below|
            || (vm'.ctxs == below && vm'.hosts == outside && vm'.mode == InScript(Top(below).cpos + 1)
                && k > 0 && last == VMSteps(w, vm, k - 1) && Handed(w, c0, last, vm'))
    decreases k
  {
    hide Inv, WorldOk, VMStep, Over, Ends;
    OverHigh(vm, below, c0, outside);
    assert k > 0;
    OverStep(w, vm, below, c0, outside);
    StepKeeps(w, vm);
    Later(w, vm, |below|, k);
    var vm1 := VMStep(w, vm);
    last := vm;
    if Over(vm1, below, c0, outside) {
      last := UntilReturn(w, vm1, below, c0, outside, k - 1);
      if k > 1 { Later(w, vm, |below|, k - 1); }
    } else {
      EndOfCall(w, vm, below, c0, outside);
      if |vm1.ctxs| <= |below| {
        OneMore(w, vm, |below|, k);
      } else {
        LostStays(w, vm1, |below|, outside, k - 1);
      }
    }
  }

  lemma OverHigh(vm: VM, below: seq<Context>, c0: Context, outside: seq<Host>)
    requires Over(vm, below, c0, outside)
    ensures |vm.ctxs| > |below|
  {
  }

  lemma EndOfCall(w: World, vm: VM, below: seq<Context>, c0: Context, outside: seq<Host>)
    requires WorldOk(w) && Inv(w, vm) && Over(vm, below, c0, outside) && Ends(w, vm, below, outside) && c0.ret.Slot?
             && |below| > 0
    requires outside[|outside| - 1].outer < |below|
    ensures var vm1 := VMStep(w, vm);
            || |vm1.ctxs| < |below|
            || (vm1.ctxs == below && vm1.hosts == outside && vm1.mode == InScript(Top(below).cpos + 1)
                && Handed(w, c0, vm, vm1))
            || (|vm1.ctxs| > |below| && Lost(vm1, |below|, outside))
  {
    hide Chain, WorldOk;
    var d := |below|;
    hide HostsOk;
    if vm.mode.Raised? {
      var n := |outside| - 1;
      var o := outside[n].outer;
      OutersBelow(w, vm.ctxs[..o + 1], outside);
      assert outside[..n] <= outside;
      if n > 0 { assert outside[..n][..n - 1] <= outside; }
    } else {
      LeaveKeeps(w, vm, vm.mode.pc);
      OnlyOutside(w, vm, below, c0, outside);
      assert vm.ctxs[..d] == below;
    }
  }

  lemma OutersBelow(w: World, ctxs: seq<Context>, hosts: seq<Host>)
    requires HostsOk(w, ctxs, hosts) && |hosts| % 2 == 1
    ensures forall j :: 0 <= j < |hosts| && hosts[j].Entered? ==> hosts[j].outer <= hosts[|hosts| - 1].outer
  {
    hide Chain, CallAt, ResultSlot;
    forall j | 0 <= j < |hosts| && j % 2 == 1 ensures hosts[j].Calling? {
      assert CalledAt(w, ctxs, hosts[j + 1 - 1], hosts[j + 1].outer);
    }
    forall j | 0 <= j < |hosts| && j % 2 == 0 ensures hosts[j].outer <= hosts[|hosts| - 1].outer {
      OuterOrder(w, ctxs, hosts, j);
    }
  }

  /** Nothing runs above the call itself. */
  lemma OnlyOutside(w: World, vm: VM, below: seq<Context>, c0: Context, outside: seq<Host>)
    requires Over(vm, below, c0, outside) && HostsOk(w, vm.ctxs, vm.hosts) && |vm.hosts| % 2 == 1
             && |vm.ctxs| == |below| + 1
    ensures vm.hosts == outside
  {
    var j := |vm.hosts| - 1;
    assert EnteredAt(vm.ctxs, vm.hosts[j]);
    if |vm.hosts| > |outside| {
      assert false;
    }
  }

  // ----- runs from outside -----

  /** A built-in function runs a script function whose errors it does not pass on. Whatever
      happens, the run ends with both stacks as they were, and the built-in function goes on. */
  lemma RunIsNeutral(w: World, vm: VM, k: nat)
    requires WorldOk(w) && Inv(w, vm) && vm.mode.InHost? && vm.mode.plan.Run? && !vm.mode.plan.pass
    requires var n, vm1 := |vm.hosts|, VMStep(w, vm);
             |vm1.hosts| == n + 1 && (forall j: nat :: j < k ==> |VMSteps(w, vm1, j).hosts| > n)
                 && |VMSteps(w, vm1, k).hosts| <= n
    ensures var vm' := VMSteps(w, VMStep(w, vm), k);
            vm'.hosts == vm.hosts && vm'.ctxs == vm.ctxs && |vm'.stack| == |vm.stack|
            && exists v :: vm'.mode == InHost(vm.mode.plan.next(v, Mem(vm'.stack, vm'.heap)))
  {
    hide Inv, WorldOk, VMStep, VMSteps;
    StepKeeps(w, vm);
    BegunOver(w, vm);
    var vm1 := VMStep(w, vm);
    UntilEnd(w, vm1, vm.ctxs, Top(vm1.ctxs), vm1.hosts, k);
    assert vm1.hosts[..|vm.hosts|] == vm.hosts;
  }

  lemma BegunOver(w: World, vm: VM)
    requires WorldOk(w) && Inv(w, vm) && vm.mode.InHost? && vm.mode.plan.Run? && |VMStep(w, vm).hosts| == |vm.hosts| + 1
    ensures var vm1, p := VMStep(w, vm), vm.mode.plan;
            vm1.hosts == vm.hosts + [Entered(|vm.ctxs|, |vm.stack|, p.pass, p.next)]
            && |vm1.ctxs| == |vm.ctxs| + 1 && vm1.ctxs[..|vm.ctxs|] == vm.ctxs
            && Top(vm1.ctxs).ret.External? && Top(vm1.ctxs).pars == |vm.stack|
            && Over(vm1, vm.ctxs, Top(vm1.ctxs), vm1.hosts)
  {
    hide Chain, HostsOk, H, WorldOk, WriteAll, CalledAt, Begin, PassOn;
    var m, p := WriteAll(Mem(vm.stack, vm.heap), vm.mode.plan.writes), vm.mode.plan;
    BeginEnters(w, vm.(stack := m.stack, heap := m.heap), p.f, p.hasObject, p.args, p.pass, p.next);
  }

  lemma BeginEnters(w: World, vm: VM, f: nat, hasObject: bool, args: seq<Value>, pass: bool, next: (Value, Mem) -> Plan)
    ensures var vm1 := Begin(w, vm, f, hasObject, args, pass, next);
            |vm1.hosts| == |vm.hosts| + 1 ==>
              vm1.hosts == vm.hosts + [Entered(|vm.ctxs|, |vm.stack|, pass, next)]
              && |vm1.ctxs| == |vm.ctxs| + 1 && vm1.ctxs[..|vm.ctxs|] == vm.ctxs && vm1.mode.InScript?
              && Top(vm1.ctxs).ret.External? && Top(vm1.ctxs).pars == |vm.stack|
  {
  }

  /** Exactly when such a run begins: there must be room for its parameters and variables and for
      its context. Otherwise the error is raised in the caller, though errors were not to be
      passed on. */
  lemma RunBegins(w: World, vm: VM)
    requires WorldOk(w) && Inv(w, vm) && vm.mode.InHost? && vm.mode.plan.Run?
    requires vm.mode.plan.f < |w.funcs| && w.funcs[vm.mode.plan.f].Script?
    ensures var vm1, p := VMStep(w, vm), vm.mode.plan;
            var fits := |vm.stack| + |p.args| + VarsOf(w, p.f) <= 1024 && |vm.ctxs| < 512;
            if fits then vm1.mode == InScript(0) && |vm1.hosts| == |vm.hosts| + 1
            else (vm1.mode.Raised? || vm1.mode.Aborted?) && (|vm.hosts| > 0 ==> |vm1.hosts| == |vm.hosts| - 1)
  {
    hide Chain, HostsOk, H, WorldOk, WriteAll, CalledAt;
    if |vm.hosts| > 0 { HostBase(w, vm); }
  }

  lemma {:induction false} UntilEnd(w: World, vm: VM, below: seq<Context>, c0: Context, outside: seq<Host>, k: nat)
    requires WorldOk(w) && Inv(w, vm) && Over(vm, below, c0, outside) && c0.ret.External?
    requires var h := outside[|outside| - 1];
             h.outer == |below| && h.height == c0.pars && !h.pass
    requires (forall j: nat :: j < k ==> |VMSteps(w, vm, j).hosts| >= |outside|)
             && |VMSteps(w, vm, k).hosts| < |outside|
    ensures var vm', n := VMSteps(w, vm, k), |outside| - 1;
            vm'.hosts == outside[..n] && vm'.ctxs == below && |vm'.stack| == c0.pars
            && exists v :: vm'.mode == InHost(outside[n].next(v, Mem(vm'.stack, vm'.heap)))
    decreases k
  {
    hide Inv, WorldOk, VMStep, Over, Ends;
    assert k > 0 by { OverHosts(vm, below, c0, outside); }
    OverStep(w, vm, below, c0, outside);
    StepKeeps(w, vm);
    LaterHosts(w, vm, |outside|, k);
    var vm1 := VMStep(w, vm);
    if Over(vm1, below, c0, outside) {
      UntilEnd(w, vm1, below, c0, outside, k - 1);
    } else {
      EndOfRun(w, vm, below, c0, outside);
      assert VMSteps(w, vm1, 0) == vm1;
      if k > 1 {
        assert false;
      }
    }
  }

  lemma OverHosts(vm: VM, below: seq<Context>, c0: Context, outside: seq<Host>)
    requires Over(vm, below, c0, outside)
    ensures |vm.hosts| >= |outside|
  {
  }

  lemma LaterHosts(w: World, vm: VM, n: nat, k: nat)
    requires k > 0 && forall j: nat :: j < k ==> |VMSteps(w, vm, j).hosts| >= n
    ensures forall j: nat :: j < k - 1 ==> |VMSteps(w, VMStep(w, vm), j).hosts| >= n
    ensures VMSteps(w, vm, k) == VMSteps(w, VMStep(w, vm), k - 1)
  {
    hide VMStep;
    forall j: nat | j < k - 1 ensures |VMSteps(w, VMStep(w, vm), j).hosts| >= n {
      assert VMSteps(w, vm, j + 1) == VMSteps(w, VMStep(w, vm), j);
    }
  }

  lemma EndOfRun(w: World, vm: VM, below: seq<Context>, c0: Context, outside: seq<Host>)
    requires WorldOk(w) && Inv(w, vm) && Over(vm, below, c0, outside) && Ends(w, vm, below, outside) && c0.ret.External?
    requires var h := outside[|outside| - 1];
             h.outer == |below| && h.height == c0.pars && !h.pass
    ensures var vm', n := VMStep(w, vm), |outside| - 1;
            vm'.hosts == outside[..n] && vm'.ctxs == below && |vm'.stack| == c0.pars
            && exists v :: vm'.mode == InHost(outside[n].next(v, Mem(vm'.stack, vm'.heap)))
  {
    hide Chain, WorldOk, Plain, H, Need;
    var d, n := |below|, |outside| - 1;
    var vm' := VMStep(w, vm);
    if vm.mode.Raised? {
      assert vm.ctxs[d].pars == c0.pars;
      assert vm'.mode == InHost(outside[n].next(Nil, Mem(vm'.stack, vm'.heap)));
    } else {
      hide HostsOk;
      LeaveKeeps(w, vm, vm.mode.pc);
      OnlyOutside(w, vm, below, c0, outside);
      assert vm.ctxs[..d] == below;
      assert vm'.mode == InHost(outside[n].next(Result(w, vm), Mem(vm'.stack, vm'.heap)));
    }
  }

  // ----- every reachable state -----

  /** Both stacks are within their bounds, and the stack holds what the chunk takes that is next and,
      unless that is an error chunk, has the height counted for it. */
  predicate SafeState(w: World, vm: VM) {
    && |vm.stack| <= 1024 && |vm.ctxs| <= 512
    && (vm.mode.InScript? ==>
          |vm.ctxs| > 0
          && var c, pc := Top(vm.ctxs), vm.mode.pc;
             var code := CodeOf(w, c.func);
             0 <= pc <= |code|
             && (pc < |code| ==> Need(code[pc]) <= |vm.stack| - Base(w, c))
             && ((pc < |code| && code[pc].ERR?) || |vm.stack| == Base(w, c) + H(code, pc)))
    && (vm.mode.Finished? ==> vm.ctxs == [] && vm.stack == [])
  }

  /** Whatever the game does, every state is safe. */
  lemma EngineIsSafe(w: World, plan: Plan, heap: map<Addr, Value>, k: nat)
    requires WorldOk(w)
    ensures SafeState(w, VMSteps(w, Start(plan, heap), k))
  {
    hide VMStep, VMSteps, H, WorldOk;
    StartOk(w, plan, heap);
    StepsKeep(w, Start(plan, heap), k);
    var vm := VMSteps(w, Start(plan, heap), k);
    if vm.mode.InScript? {
      var c := Top(vm.ctxs);
      CodeLoose(w, c.func);
      LevelExact(CodeOf(w, c.func), vm.mode.pc, |vm.stack| - Base(w, c));
    }
  }
}
