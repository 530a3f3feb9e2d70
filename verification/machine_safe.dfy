/** What every step of the engine keeps, through any nesting of script calls, built-in functions
    and runs from outside. */
module MachineSafe {
  import opened Bytecode
  import opened Emitter
  import opened Heights
  import opened Machine

  /** Operators leave the height of the stack alone. */
  ghost predicate OpsOk(w: World) {
    && (forall strict: nat, op, v, m :: |w.un(strict)(op, v, m).m.stack| == |m.stack|)
    && (forall strict: nat, op, a, b, m :: |w.bin(strict)(op, a, b, m).m.stack| == |m.stack|)
  }

  /** All script code takes only what it has pushed, as what the parser leaves does, with an error or
      without. */
  ghost predicate WorldOk(w: World) {
    OpsOk(w) && forall f :: 0 <= f < |w.funcs| && w.funcs[f].Script? ==> Loose(w.funcs[f].code)
  }

  lemma WorldOps(w: World)
    requires WorldOk(w)
    ensures OpsOk(w)
  {
  }

  // ----- the invariant -----

  predicate FrameOk(w: World, c: Context) {
    c.func < |w.funcs| && w.funcs[c.func].Script? && c.pars <= c.vars
  }

  predicate IsCall(x: Chunk) { x.FUNC? || x.CALL? }

  /** The call is at a call chunk. */
  predicate CallAt(w: World, c: Context, pc: int) {
    0 <= pc < |CodeOf(w, c.func)| && IsCall(CodeOf(w, c.func)[pc])
  }

  /** The slot for the result: on top of what the caller has pushed, without the parameters. */
  function ResultSlot(w: World, c: Context, pc: int): int
    requires CallAt(w, c, pc)
  {
    Base(w, c) + H(CodeOf(w, c.func), pc + 1) - 1
  }

  /** `d` was called by `c`, or by a built-in function that `c` called. */
  predicate Linked(w: World, c: Context, d: Context) {
    CallAt(w, c, c.cpos)
    && if d.ret.Slot? then d.ret.at == ResultSlot(w, c, c.cpos) && d.ret.at <= d.pars
       else d.pars == Base(w, c) + H(CodeOf(w, c.func), c.cpos)
  }

  predicate Chain(w: World, ctxs: seq<Context>) {
    && (forall i :: 0 <= i < |ctxs| ==> FrameOk(w, ctxs[i]))
    && (forall i :: 0 < i < |ctxs| ==> Linked(w, ctxs[i - 1], ctxs[i]))
    && (|ctxs| > 0 ==> ctxs[0].ret.External? && ctxs[0].pars == 0)
  }

  /** A built-in function that was called by the script below context `o`. */
  predicate CalledAt(w: World, ctxs: seq<Context>, h: Host, o: nat) {
    h.Calling? && 0 < o <= |ctxs| && ctxs[o - 1].cpos == h.pc && CallAt(w, ctxs[o - 1], h.pc)
    && h.slot == ResultSlot(w, ctxs[o - 1], h.pc)
  }

  predicate EnteredAt(ctxs: seq<Context>, h: Host) {
    h.Entered? && h.outer < |ctxs| && ctxs[h.outer].ret.External? && h.height == ctxs[h.outer].pars
  }

  /** Runs from outside and calls of built-in functions alternate; the contexts without a slot
      for their result are those of the runs from outside. */
  ghost predicate HostsOk(w: World, ctxs: seq<Context>, hosts: seq<Host>) {
    && (forall j :: 0 <= j < |hosts| && j % 2 == 0 ==> EnteredAt(ctxs, hosts[j]))
    && (forall j :: 0 < j < |hosts| && j % 2 == 0 ==> CalledAt(w, ctxs, hosts[j - 1], hosts[j].outer))
    && (forall i, j :: 0 <= i < j < |hosts| && i % 2 == 0 && j % 2 == 0 ==> hosts[i].outer < hosts[j].outer)
    && (forall i :: 0 <= i < |ctxs| && ctxs[i].ret.External?
          ==> exists j :: 0 <= j < |hosts| && j % 2 == 0 && hosts[j].outer == i)
    && (|hosts| == 0 <==> |ctxs| == 0)
    && (|hosts| > 0 ==> hosts[0].outer == 0)
  }

  ghost predicate Inv(w: World, vm: VM) {
    && |vm.stack| <= MAX_VALUES && |vm.ctxs| <= MAX_CONTEXTS
    && match vm.mode
       case InScript(pc) => ScriptInv(w, vm, pc)
       case InHost(_) => HostInv(w, vm)
       case Raised(_, _) => RaisedInv(w, vm)
       case Finished(_) => |vm.ctxs| == 0 && |vm.stack| == 0
       case Aborted(_) => true
  }

  ghost predicate ScriptInv(w: World, vm: VM, pc: int) {
    && Chain(w, vm.ctxs) && HostsOk(w, vm.ctxs, vm.hosts)
    && |vm.hosts| % 2 == 1
    && Level(CodeOf(w, Top(vm.ctxs).func), pc, |vm.stack| - Base(w, Top(vm.ctxs)))
  }

  ghost predicate HostInv(w: World, vm: VM) {
    && Chain(w, vm.ctxs)
    && if |vm.hosts| == 0 then |vm.ctxs| == 0 && |vm.stack| == 0
       else
         var n := |vm.hosts| - 1;
         && |vm.hosts| % 2 == 0
         && HostsOk(w, vm.ctxs, vm.hosts[..n])
         && CalledAt(w, vm.ctxs, vm.hosts[n], |vm.ctxs|)
         && |vm.stack| == Base(w, Top(vm.ctxs)) + H(CodeOf(w, Top(vm.ctxs).func), vm.hosts[n].pc)
  }

  /** While an error goes up, calls of runs it has left may still lie on top. */
  ghost predicate RaisedInv(w: World, vm: VM) {
    && |vm.hosts| % 2 == 1 && vm.hosts[|vm.hosts| - 1].Entered?
    && var o := vm.hosts[|vm.hosts| - 1].outer;
       o < |vm.ctxs| && Chain(w, vm.ctxs[..o + 1]) && HostsOk(w, vm.ctxs[..o + 1], vm.hosts)
       && vm.ctxs[o].pars <= |vm.stack|
  }

  // ----- parts of the stacks -----

  lemma ChainCut(w: World, ctxs: seq<Context>, n: nat)
    requires Chain(w, ctxs) && n <= |ctxs|
    ensures Chain(w, ctxs[..n])
  {
    var cut := ctxs[..n];
    forall i | 0 <= i < n ensures FrameOk(w, cut[i]) { assert cut[i] == ctxs[i]; }
    forall i | 0 < i < n ensures Linked(w, cut[i - 1], cut[i]) {
      assert cut[i] == ctxs[i] && cut[i - 1] == ctxs[i - 1];
    }
  }

  /** Where the topmost call stands does not matter to the calls below. */
  lemma ChainTop(w: World, ctxs: seq<Context>, pc: int)
    requires Chain(w, ctxs) && |ctxs| > 0
    ensures Chain(w, ctxs[|ctxs| - 1 := Top(ctxs).(cpos := pc)])
  {
    var n := |ctxs| - 1;
    var ctxs' := ctxs[n := Top(ctxs).(cpos := pc)];
    forall i | 0 <= i < |ctxs'| ensures FrameOk(w, ctxs'[i]) { assert FrameOk(w, ctxs[i]); }
    forall i | 0 < i < |ctxs'| ensures Linked(w, ctxs'[i - 1], ctxs'[i]) { assert Linked(w, ctxs[i - 1], ctxs[i]); }
  }

  lemma HostsCut(w: World, ctxs: seq<Context>, hosts: seq<Host>, n: nat)
    requires HostsOk(w, ctxs, hosts) && |hosts| % 2 == 1 && hosts[|hosts| - 1].outer < n <= |ctxs|
    ensures HostsOk(w, ctxs[..n], hosts)
  {
    hide Chain, CallAt, ResultSlot;
    var cut := ctxs[..n];
    forall j | 0 <= j < |hosts| && j % 2 == 0 ensures EnteredAt(cut, hosts[j]) {
      assert EnteredAt(ctxs, hosts[j]);
      OuterOrder(w, ctxs, hosts, j);
    }
    forall j | 0 < j < |hosts| && j % 2 == 0 ensures CalledAt(w, cut, hosts[j - 1], hosts[j].outer) {
      assert CalledAt(w, ctxs, hosts[j - 1], hosts[j].outer);
      OuterOrder(w, ctxs, hosts, j);
    }
    forall i | 0 <= i < |cut| && cut[i].ret.External?
        ensures exists j :: 0 <= j < |hosts| && j % 2 == 0 && hosts[j].outer == i {
      assert ctxs[i].ret.External?;
    }
  }

  lemma OuterOrder(w: World, ctxs: seq<Context>, hosts: seq<Host>, j: nat)
    requires HostsOk(w, ctxs, hosts) && |hosts| % 2 == 1 && j < |hosts| && j % 2 == 0
    ensures hosts[j].Entered? && hosts[|hosts| - 1].Entered? && hosts[j].outer <= hosts[|hosts| - 1].outer < |ctxs|
  {
    assert EnteredAt(ctxs, hosts[j]) && EnteredAt(ctxs, hosts[|hosts| - 1]);
  }

  lemma HostsTop(w: World, ctxs: seq<Context>, hosts: seq<Host>, pc: int)
    requires HostsOk(w, ctxs, hosts) && |hosts| % 2 == 1 && |ctxs| > 0
    ensures HostsOk(w, ctxs[|ctxs| - 1 := Top(ctxs).(cpos := pc)], hosts)
  {
    hide Chain, CallAt, ResultSlot;
    var ctxs' := ctxs[|ctxs| - 1 := Top(ctxs).(cpos := pc)];
    forall j | 0 <= j < |hosts| && j % 2 == 0 ensures EnteredAt(ctxs', hosts[j]) {
      assert EnteredAt(ctxs, hosts[j]);
    }
    forall j | 0 < j < |hosts| && j % 2 == 0 ensures CalledAt(w, ctxs', hosts[j - 1], hosts[j].outer) {
      assert CalledAt(w, ctxs, hosts[j - 1], hosts[j].outer);
      OuterOrder(w, ctxs, hosts, j);
    }
    forall i | 0 <= i < |ctxs'| && ctxs'[i].ret.External?
        ensures exists j :: 0 <= j < |hosts| && j % 2 == 0 && hosts[j].outer == i {
      assert ctxs[i].ret.External?;
    }
  }

  /** A call of a script function on top. */
  lemma HostsPush(w: World, ctxs: seq<Context>, hosts: seq<Host>, c: Context)
    requires HostsOk(w, ctxs, hosts) && |hosts| % 2 == 1 && c.ret.Slot?
    ensures HostsOk(w, ctxs + [c], hosts)
  {
    hide Chain, CallAt, ResultSlot;
    var ctxs' := ctxs + [c];
    forall j | 0 <= j < |hosts| && j % 2 == 0 ensures EnteredAt(ctxs', hosts[j]) {
      assert EnteredAt(ctxs, hosts[j]);
    }
    forall j | 0 < j < |hosts| && j % 2 == 0 ensures CalledAt(w, ctxs', hosts[j - 1], hosts[j].outer) {
      assert CalledAt(w, ctxs, hosts[j - 1], hosts[j].outer);
      OuterOrder(w, ctxs, hosts, j);
    }
    forall i | 0 <= i < |ctxs'| && ctxs'[i].ret.External?
        ensures exists j :: 0 <= j < |hosts| && j % 2 == 0 && hosts[j].outer == i {
      assert ctxs[i].ret.External?;
    }
  }

  /** A run from outside on top. */
  lemma HostsEnter(w: World, ctxs: seq<Context>, hosts: seq<Host>, c: Context, h: Host)
    requires if |hosts| == 0 then |ctxs| == 0
             else
               |hosts| % 2 == 0 && HostsOk(w, ctxs, hosts[..|hosts| - 1])
               && CalledAt(w, ctxs, hosts[|hosts| - 1], |ctxs|)
    requires c.ret.External? && h.Entered? && h.outer == |ctxs| && h.height == c.pars
    ensures HostsOk(w, ctxs + [c], hosts + [h])
  {
    hide Chain, CallAt, ResultSlot;
    var ctxs', hosts', n := ctxs + [c], hosts + [h], |hosts|;
    var before := hosts[..if n == 0 then 0 else n - 1];
    forall j | 0 <= j < |hosts'| && j % 2 == 0 ensures EnteredAt(ctxs', hosts'[j]) {
      if j < n { assert before[j] == hosts[j] && EnteredAt(ctxs, before[j]); }
    }
    forall j | 0 < j < |hosts'| && j % 2 == 0 ensures CalledAt(w, ctxs', hosts'[j - 1], hosts'[j].outer) {
      if j < n {
        assert before[j] == hosts[j] && before[j - 1] == hosts[j - 1];
        assert CalledAt(w, ctxs, before[j - 1], before[j].outer);
      }
    }
    forall i, j | 0 <= i < j < |hosts'| && i % 2 == 0 && j % 2 == 0 ensures hosts'[i].outer < hosts'[j].outer {
      assert before[i] == hosts[i] && EnteredAt(ctxs, before[i]);
      if j < n { assert before[j] == hosts[j]; }
    }
    forall i | 0 <= i < |ctxs'| && ctxs'[i].ret.External?
        ensures exists j :: 0 <= j < |hosts'| && j % 2 == 0 && hosts'[j].outer == i {
      if i < |ctxs| {
        var j :| 0 <= j < |before| && j % 2 == 0 && before[j].outer == i;
        assert hosts'[j].outer == i;
      } else {
        assert hosts'[n].outer == i;
      }
    }
  }

  /** The run from outside on top is taken away, with everything above its start. */
  lemma HostsLeave(w: World, ctxs: seq<Context>, hosts: seq<Host>)
    requires HostsOk(w, ctxs, hosts) && |hosts| % 2 == 1
    ensures hosts[|hosts| - 1].Entered?
    ensures var n := |hosts| - 1;
            var o := hosts[n].outer;
            o < |ctxs| && ctxs[o].ret.External?
            && if n == 0 then o == 0
               else o > 0 && HostsOk(w, ctxs[..o], hosts[..n - 1]) && CalledAt(w, ctxs[..o], hosts[n - 1], o)
                    && hosts[n - 1].Calling?
  {
    hide Chain, CallAt, ResultSlot;
    var n := |hosts| - 1;
    assert EnteredAt(ctxs, hosts[n]);
    var o := hosts[n].outer;
    if n > 0 {
      assert CalledAt(w, ctxs, hosts[n - 1], o);
      var ctxs', hosts' := ctxs[..o], hosts[..n - 1];
      forall j | 0 <= j < |hosts'| && j % 2 == 0 ensures EnteredAt(ctxs', hosts'[j]) {
        assert EnteredAt(ctxs, hosts[j]) && hosts[j].outer < o;
      }
      forall j | 0 < j < |hosts'| && j % 2 == 0 ensures CalledAt(w, ctxs', hosts'[j - 1], hosts'[j].outer) {
        assert CalledAt(w, ctxs, hosts[j - 1], hosts[j].outer) && hosts[j].outer < o;
      }
      forall i | 0 <= i < |ctxs'| && ctxs'[i].ret.External?
          ensures exists j :: 0 <= j < |hosts'| && j % 2 == 0 && hosts'[j].outer == i {
        assert ctxs[i].ret.External?;
        var j :| 0 <= j < |hosts| && j % 2 == 0 && hosts[j].outer == i;
        assert j < n - 1;
        assert hosts'[j].outer == i;
      }
    }
  }

  // ----- heights along the chain -----

  lemma CodeLoose(w: World, f: nat)
    requires WorldOk(w)
    ensures Loose(CodeOf(w, f))
  {
    if !(f < |w.funcs| && w.funcs[f].Script?) {
      assert CodeOf(w, f) == [];
    }
  }

  /** A call takes no more than is there: its result goes above the caller's variables. */
  lemma SlotAbove(w: World, c: Context, pc: int)
    requires WorldOk(w) && CallAt(w, c, pc)
    ensures var code := CodeOf(w, c.func);
            Base(w, c) <= ResultSlot(w, c, pc) && ResultSlot(w, c, pc) <= Base(w, c) + H(code, pc)
            && ResultSlot(w, c, pc) == Base(w, c) + H(code, pc) - Need(code[pc])
            && Delta(code[pc]) == 1 - Need(code[pc])
  {
    hide H, Loose;
    var code := CodeOf(w, c.func);
    CodeLoose(w, c.func);
    assert Suits(code, pc) by { ChunkSuits(code, pc); }
    HNext(code, pc);
  }

  lemma {:induction false} ParsBelow(w: World, ctxs: seq<Context>, i: nat, j: nat)
    requires WorldOk(w) && Chain(w, ctxs) && i <= j < |ctxs|
    ensures ctxs[i].pars <= Base(w, ctxs[j])
    decreases j
  {
    hide H, WorldOk;
    assert FrameOk(w, ctxs[j]);
    if i < j {
      ParsBelow(w, ctxs, i, j - 1);
      var c := ctxs[j - 1];
      assert Linked(w, c, ctxs[j]);
      SlotAbove(w, c, c.cpos);
    }
  }

  lemma CanRaise(w: World, vm: VM)
    requires WorldOk(w) && Chain(w, vm.ctxs) && HostsOk(w, vm.ctxs, vm.hosts) && |vm.hosts| % 2 == 1
    requires Base(w, Top(vm.ctxs)) <= |vm.stack|
    ensures RaisedInv(w, vm)
  {
    hide Chain, HostsOk;
    var n := |vm.hosts| - 1;
    OuterOrder(w, vm.ctxs, vm.hosts, n);
    var o := vm.hosts[n].outer;
    ChainCut(w, vm.ctxs, o + 1);
    HostsCut(w, vm.ctxs, vm.hosts, o + 1);
    ParsBelow(w, vm.ctxs, o, |vm.ctxs| - 1);
  }

  // ----- steps of a script -----

  lemma LocalKeeps(w: World, vm: VM, pc: int)
    requires WorldOk(w) && vm.mode == InScript(pc) && Inv(w, vm)
    requires |vm.ctxs| > 0
    requires var c := Top(vm.ctxs);
             pc < |CodeOf(w, c.func)| && !IsCall(CodeOf(w, c.func)[pc]) && !CodeOf(w, c.func)[pc].RETURN?
    requires Base(w, Top(vm.ctxs)) <= |vm.stack|
    ensures Inv(w, Local(w, vm, pc))
  {
    hide H, Step, Chain, HostsOk, Loose;
    var c := Top(vm.ctxs);
    var base, code := Base(w, c), CodeOf(w, c.func);
    var d := Config(pc, vm.stack[base..], Mem(vm.stack[..base], vm.heap));
    CodeLoose(w, c.func);
    StepLevel(EnvOf(w, c), code, d);
    StepKeepsSize(w, c, code, d);
    NotReturned(EnvOf(w, c), code, d);
    CanRaise(w, vm);
    var o := Step(EnvOf(w, c), code, d);
    if o.Failed? {
      CanRaise(w, vm.(stack := o.m.stack + vm.stack[base..], heap := o.m.heap));
    }
  }

  lemma NotReturned(env: Env, code: Code, c: Config)
    requires 0 <= c.pc < |code| && !code[c.pc].RETURN?
    ensures !Step(env, code, c).Returned?
  {
    hide ApplyUn, ApplyBin, ReadSlot, PlainAll, Assign, Plain, Taken, IsNil, Truthy;
  }

  /** The part of the stack below the temporaries keeps its height. */
  lemma StepKeepsSize(w: World, ctx: Context, code: Code, c: Config)
    requires OpsOk(w)
    ensures var o := Step(EnvOf(w, ctx), code, c);
            if o.Running? then |o.c.m.stack| == |c.m.stack| else |o.m.stack| == |c.m.stack|
  {
    hide Plain, Taken, IsNil, Truthy, Target;
  }

  /** Before a call: the chunk, and what it takes. */
  ghost predicate Ready(w: World, vm: VM, pc: int, x: Chunk) {
    && WorldOk(w) && vm.mode == InScript(pc) && Inv(w, vm) && |vm.ctxs| > 0
    && CallAt(w, Top(vm.ctxs), pc) && CodeOf(w, Top(vm.ctxs).func)[pc] == x
  }

  lemma CallKeeps(w: World, vm: VM, pc: int, f: nat, ret: nat, pars: nat, n: nat, hasObject: bool)
    requires vm.mode == InScript(pc) && |vm.ctxs| > 0 && CallAt(w, Top(vm.ctxs), pc)
    requires Ready(w, vm, pc, CodeOf(w, Top(vm.ctxs).func)[pc])
    requires pars + n == |vm.stack| && ret <= pars && ret == ResultSlot(w, Top(vm.ctxs), pc)
    ensures Inv(w, Call(w, vm, f, ret, pars, n, hasObject, pc))
  {
    hide H, Chain, HostsOk, WorldOk, ScriptInv;
    var c := Top(vm.ctxs);
    ScriptHolds(w, vm, pc);
    var ctxs := vm.ctxs[|vm.ctxs| - 1 := c.(cpos := pc)];
    ChainTop(w, vm.ctxs, pc);
    HostsTop(w, vm.ctxs, vm.hosts, pc);
    SlotAbove(w, c, pc);
    var vm1 := vm.(ctxs := ctxs);
    CanRaise(w, vm1);
    if f < |w.funcs| {
      var r := w.convert(StrictOf(w, c), f, vm.stack[pars..pars + n], Mem(vm.stack, vm.heap));
      if r.Converted? {
        var vm2 := if |r.args| == n then vm1.(stack := vm.stack[..pars] + r.args + vm.stack[pars + n..]) else vm1;
        assert |vm2.stack| == |vm.stack|;
        if w.funcs[f].Script? {
          EnterKeeps(w, vm2, f, Context(Slot(ret), pars, |vm.stack|, f, hasObject, 0), pc);
        } else {
          NativeKeeps(w, vm2, ret, pc, w.native(f, vm2.stack[pars..pars + n], Mem(vm2.stack, vm.heap)));
        }
      }
    }
  }

  lemma ScriptHolds(w: World, vm: VM, pc: int)
    requires ScriptInv(w, vm, pc)
    ensures Chain(w, vm.ctxs) && HostsOk(w, vm.ctxs, vm.hosts) && |vm.hosts| % 2 == 1 && |vm.ctxs| > 0
    ensures Level(CodeOf(w, Top(vm.ctxs).func), pc, |vm.stack| - Base(w, Top(vm.ctxs)))
  {
  }

  lemma HoldsScript(w: World, vm: VM, pc: int)
    requires Chain(w, vm.ctxs) && HostsOk(w, vm.ctxs, vm.hosts) && |vm.hosts| % 2 == 1 && |vm.ctxs| > 0
    requires Level(CodeOf(w, Top(vm.ctxs).func), pc, |vm.stack| - Base(w, Top(vm.ctxs)))
    ensures ScriptInv(w, vm, pc)
  {
  }

  lemma ChainPush(w: World, ctxs: seq<Context>, c: Context)
    requires Chain(w, ctxs) && FrameOk(w, c)
    requires if |ctxs| == 0 then c.ret.External? && c.pars == 0 else Linked(w, Top(ctxs), c)
    ensures Chain(w, ctxs + [c])
  {
    hide Linked, FrameOk;
    forall i | 0 < i < |ctxs + [c]| ensures Linked(w, (ctxs + [c])[i - 1], (ctxs + [c])[i]) {
      if i < |ctxs| { assert Linked(w, ctxs[i - 1], ctxs[i]); }
    }
  }

  lemma EnterKeeps(w: World, vm: VM, f: nat, c: Context, pc: int)
    requires WorldOk(w) && Chain(w, vm.ctxs) && HostsOk(w, vm.ctxs, vm.hosts) && |vm.hosts| % 2 == 1 && |vm.ctxs| > 0
    requires |vm.stack| <= MAX_VALUES && |vm.ctxs| <= MAX_CONTEXTS
    requires f < |w.funcs| && w.funcs[f].Script? && c.func == f && c.ret.Slot? && c.pars <= c.vars == |vm.stack|
    requires Linked(w, Top(vm.ctxs), c) && Base(w, Top(vm.ctxs)) <= |vm.stack|
    ensures Inv(w, Enter(w, vm, f, c, pc))
  {
    hide H, Chain, HostsOk, WorldOk, ScriptInv, Linked;
    CanRaise(w, vm);
    var vars := VarsOf(w, f);
    if |vm.stack| + vars <= MAX_VALUES {
      var vm1 := vm.(stack := vm.stack + Nils(vars));
      CanRaise(w, vm1);
      if |vm.ctxs| < MAX_CONTEXTS {
        ChainPush(w, vm.ctxs, c);
        HostsPush(w, vm.ctxs, vm.hosts, c);
        HEnds(CodeOf(w, f));
        HoldsScript(w, vm1.(ctxs := vm.ctxs + [c], mode := InScript(0)), 0);
      }
    }
  }

  lemma NativeKeeps(w: World, vm: VM, ret: nat, pc: int, plan: Plan)
    requires Chain(w, vm.ctxs) && HostsOk(w, vm.ctxs, vm.hosts) && |vm.hosts| % 2 == 1 && |vm.ctxs| > 0
    requires CallAt(w, Top(vm.ctxs), pc) && Top(vm.ctxs).cpos == pc && ret == ResultSlot(w, Top(vm.ctxs), pc)
    requires |vm.stack| == Base(w, Top(vm.ctxs)) + H(CodeOf(w, Top(vm.ctxs).func), pc)
    ensures HostInv(w, vm.(hosts := vm.hosts + [Calling(ret, pc)], mode := InHost(plan)))
  {
    hide H, Chain, HostsOk, CallAt;
    var hosts := vm.hosts + [Calling(ret, pc)];
    assert hosts[..|hosts| - 1] == vm.hosts;
  }

  /** A return: the value goes into its slot, and the caller goes on with the height counted
      behind its call; or a run from outside comes to its end. */
  lemma LeaveKeeps(w: World, vm: VM, pc: int)
    requires WorldOk(w) && vm.mode == InScript(pc) && Inv(w, vm) && |vm.ctxs| > 0
    requires Base(w, Top(vm.ctxs)) < |vm.stack|
    ensures Inv(w, Leave(w, vm)) && !Leave(w, vm).mode.Raised?
  {
    hide H, Chain, HostsOk, WorldOk, RaisedInv, ScriptInv, CallAt, Plain;
    ScriptHolds(w, vm, pc);
    var c, n := Top(vm.ctxs), |vm.ctxs| - 1;
    var rest := vm.ctxs[..n];
    ChainCut(w, vm.ctxs, n);
    TopParts(w, vm.ctxs);
    ParsBelow(w, vm.ctxs, n, n);
    match c.ret
    case Slot(at) =>
      var d := Top(rest);
      SlotAbove(w, d, d.cpos);
      SlotNotOuter(w, vm.ctxs, vm.hosts);
      HostsCut(w, vm.ctxs, vm.hosts, n);
      CallInside(w, d, d.cpos);
      HoldsScript(w, Leave(w, vm), d.cpos + 1);
    case External =>
      ExternalIsLast(w, vm.ctxs, vm.hosts);
      HostsLeave(w, vm.ctxs, vm.hosts);
      LeftHost(w, vm.ctxs, vm.hosts, Leave(w, vm));
  }

  lemma CallInside(w: World, c: Context, pc: int)
    requires CallAt(w, c, pc)
    ensures 0 <= pc && pc + 1 <= |CodeOf(w, c.func)|
    ensures ResultSlot(w, c, pc) + 1 == Base(w, c) + H(CodeOf(w, c.func), pc + 1)
  {
  }

  lemma TopParts(w: World, ctxs: seq<Context>)
    requires Chain(w, ctxs) && |ctxs| > 0
    ensures |ctxs| > 1 ==> Linked(w, ctxs[|ctxs| - 2], Top(ctxs))
    ensures Top(ctxs).ret.Slot? ==> |ctxs| > 1
    ensures Top(ctxs).ret.External? && |ctxs| == 1 ==> Top(ctxs).pars == 0
    ensures Top(ctxs).pars <= Base(w, Top(ctxs))
  {
    assert FrameOk(w, Top(ctxs));
    if |ctxs| > 1 { assert Linked(w, ctxs[|ctxs| - 2], Top(ctxs)); }
  }

  lemma SlotNotOuter(w: World, ctxs: seq<Context>, hosts: seq<Host>)
    requires HostsOk(w, ctxs, hosts) && |hosts| % 2 == 1 && |ctxs| > 0 && Top(ctxs).ret.Slot?
    ensures hosts[|hosts| - 1].Entered? && hosts[|hosts| - 1].outer < |ctxs| - 1
  {
    assert EnteredAt(ctxs, hosts[|hosts| - 1]);
  }

  lemma ExternalIsLast(w: World, ctxs: seq<Context>, hosts: seq<Host>)
    requires HostsOk(w, ctxs, hosts) && |hosts| % 2 == 1 && |ctxs| > 0 && Top(ctxs).ret.External?
    ensures hosts[|hosts| - 1].Entered? && hosts[|hosts| - 1].outer == |ctxs| - 1
    ensures hosts[|hosts| - 1].height == Top(ctxs).pars
  {
    var n := |hosts| - 1;
    assert EnteredAt(ctxs, hosts[n]);
    var j :| 0 <= j < |hosts| && j % 2 == 0 && hosts[j].outer == |ctxs| - 1;
    if j != n { assert false; }
  }

  /** Back in the built-in function, both stacks as they were. */
  lemma LeftHost(w: World, ctxs: seq<Context>, hosts: seq<Host>, vm: VM)
    requires HostsOk(w, ctxs, hosts) && Chain(w, ctxs) && |hosts| % 2 == 1 && hosts[|hosts| - 1].Entered?
    requires var o := hosts[|hosts| - 1].outer;
             o < |ctxs| && vm.ctxs == ctxs[..o] && vm.hosts == hosts[..|hosts| - 1] && |vm.stack| == ctxs[o].pars
    requires vm.mode.InHost?
    ensures HostInv(w, vm)
  {
    hide H, HostsOk;
    HostsLeave(w, ctxs, hosts);
    var n, o := |hosts| - 1, hosts[|hosts| - 1].outer;
    ChainCut(w, ctxs, o);
    if n > 0 {
      assert Linked(w, ctxs[o - 1], ctxs[o]);
      assert vm.hosts[..n - 1] == hosts[..n - 1];
    }
  }

  // ----- steps of a built-in function, and errors -----

  lemma PassOnKeeps(w: World, vm: VM, e: Error, ctxs: seq<Context>)
    requires WorldOk(w) && Chain(w, ctxs) && |vm.stack| <= MAX_VALUES && |vm.ctxs| <= MAX_CONTEXTS
    requires |ctxs| <= |vm.ctxs| && vm.ctxs[..|ctxs|] == ctxs
    requires |vm.hosts| > 0 ==>
               |vm.hosts| % 2 == 0 && HostsOk(w, ctxs, vm.hosts[..|vm.hosts| - 1])
               && CalledAt(w, ctxs, vm.hosts[|vm.hosts| - 1], |ctxs|) && Base(w, Top(ctxs)) <= |vm.stack|
    ensures Inv(w, PassOn(vm, e))
  {
    hide H, Chain, HostsOk, CallAt, ResultSlot, WorldOk;
    if |vm.hosts| > 0 {
      var hosts := vm.hosts[..|vm.hosts| - 1];
      OuterOrder(w, ctxs, hosts, |hosts| - 1);
      var o := hosts[|hosts| - 1].outer;
      ChainCut(w, ctxs, o + 1);
      HostsCut(w, ctxs, hosts, o + 1);
      ParsBelow(w, ctxs, o, |ctxs| - 1);
      assert vm.ctxs[..o + 1] == ctxs[..o + 1];
    }
  }

  lemma HostBase(w: World, vm: VM)
    requires WorldOk(w) && HostInv(w, vm) && |vm.hosts| > 0
    ensures |vm.hosts| % 2 == 0 && HostsOk(w, vm.ctxs, vm.hosts[..|vm.hosts| - 1])
    ensures CalledAt(w, vm.ctxs, vm.hosts[|vm.hosts| - 1], |vm.ctxs|)
    ensures var c, h := Top(vm.ctxs), vm.hosts[|vm.hosts| - 1];
            CallAt(w, c, h.pc) && c.cpos == h.pc && h.slot == ResultSlot(w, c, h.pc)
            && Base(w, c) <= h.slot <= |vm.stack| && |vm.stack| == Base(w, c) + H(CodeOf(w, c.func), h.pc)
  {
    hide Chain, HostsOk, H;
    SlotAbove(w, Top(vm.ctxs), vm.hosts[|vm.hosts| - 1].pc);
  }

  lemma HostKeeps(w: World, vm: VM, plan: Plan)
    requires WorldOk(w) && vm.mode == InHost(plan) && Inv(w, vm)
    ensures Inv(w, HostStep(w, vm, plan))
  {
    hide Chain, HostsOk, H, CallAt, WorldOk, WriteAll, HostInv, CalledAt;
    var m := WriteAll(Mem(vm.stack, vm.heap), plan.writes);
    var vm1 := vm.(stack := m.stack, heap := m.heap);
    HostSame(w, vm, vm1);
    match plan
    case Fail(e, _) => FailKeeps(w, vm1, e);
    case Run(f, hasObject, args, pass, _, next) =>
      if f < |w.funcs| && w.funcs[f].Script? {
        BeginKeeps(w, vm1, f, hasObject, args, pass, next);
      } else {
        HostSame(w, vm, vm1.(mode := InHost(next(Nil, m))));
      }
    case Done(v, _) =>
      if |vm.hosts| > 0 { DoneKeeps(w, vm1, v); }
  }

  lemma HostSame(w: World, vm: VM, vm1: VM)
    requires HostInv(w, vm) && vm1.ctxs == vm.ctxs && vm1.hosts == vm.hosts && |vm1.stack| == |vm.stack|
    ensures HostInv(w, vm1)
  {
  }

  lemma FailKeeps(w: World, vm: VM, e: Error)
    requires WorldOk(w) && HostInv(w, vm) && |vm.stack| <= MAX_VALUES && |vm.ctxs| <= MAX_CONTEXTS
    ensures Inv(w, PassOn(vm, e))
  {
    hide Chain, HostsOk, H, CallAt, WorldOk, CalledAt;
    if |vm.hosts| > 0 { HostBase(w, vm); }
    assert vm.ctxs[..|vm.ctxs|] == vm.ctxs;
    PassOnKeeps(w, vm, e, vm.ctxs);
  }

  /** An error while a run from outside is set up goes to the script that called the built-in
      function. */
  lemma SetUpFails(w: World, vm: VM, vm1: VM, e: Error)
    requires WorldOk(w) && HostInv(w, vm) && vm1.ctxs == vm.ctxs && vm1.hosts == vm.hosts
    requires |vm.stack| <= |vm1.stack| <= MAX_VALUES && |vm.ctxs| <= MAX_CONTEXTS
    ensures Inv(w, PassOn(vm1, e))
  {
    hide Chain, HostsOk, H, CallAt, WorldOk, CalledAt;
    if |vm.hosts| > 0 { HostBase(w, vm); }
    assert vm1.ctxs[..|vm.ctxs|] == vm.ctxs;
    PassOnKeeps(w, vm1, e, vm.ctxs);
  }

  lemma BeginKeeps(w: World, vm: VM, f: nat, hasObject: bool, args: seq<Value>, pass: bool, next: (Value, Mem) -> Plan)
    requires WorldOk(w) && HostInv(w, vm) && |vm.stack| <= MAX_VALUES && |vm.ctxs| <= MAX_CONTEXTS
    requires f < |w.funcs| && w.funcs[f].Script?
    ensures Inv(w, Begin(w, vm, f, hasObject, args, pass, next))
  {
    hide Chain, HostsOk, H, CallAt, WorldOk, HostInv, PassOn, ScriptInv;
    var n, vars := |vm.stack|, VarsOf(w, f);
    if n + |args| > MAX_VALUES {
      SetUpFails(w, vm, vm.(stack := vm.stack + args[..if n < MAX_VALUES then MAX_VALUES - n else 0]), ValueOverflow);
    } else if n + |args| + vars > MAX_VALUES {
      SetUpFails(w, vm, vm.(stack := vm.stack + args), ValueOverflow);
    } else if |vm.ctxs| >= MAX_CONTEXTS {
      SetUpFails(w, vm, vm.(stack := vm.stack + args + Nils(vars)), ContextOverflow);
    } else {
      var c := Context(External, n, n + |args|, f, hasObject, 0);
      EnterOutside(w, vm, c);
      HostsEnter(w, vm.ctxs, vm.hosts, c, Entered(|vm.ctxs|, n, pass, next));
      HEnds(CodeOf(w, f));
      HoldsScript(w, Begin(w, vm, f, hasObject, args, pass, next), 0);
    }
  }

  lemma EnterOutside(w: World, vm: VM, c: Context)
    requires WorldOk(w) && HostInv(w, vm) && FrameOk(w, c) && c.ret.External? && c.pars == |vm.stack|
    ensures Chain(w, vm.ctxs + [c])
    ensures if |vm.hosts| == 0 then |vm.ctxs| == 0
            else |vm.hosts| % 2 == 0 && HostsOk(w, vm.ctxs, vm.hosts[..|vm.hosts| - 1])
                 && CalledAt(w, vm.ctxs, vm.hosts[|vm.hosts| - 1], |vm.ctxs|)
  {
    hide Chain, HostsOk, H;
    ChainPush(w, vm.ctxs, c);
  }

  lemma DoneKeeps(w: World, vm: VM, v: Value)
    requires WorldOk(w) && HostInv(w, vm) && |vm.stack| <= MAX_VALUES && |vm.ctxs| <= MAX_CONTEXTS && |vm.hosts| > 0
    ensures var h := vm.hosts[|vm.hosts| - 1];
            var vm2 := vm.(hosts := vm.hosts[..|vm.hosts| - 1]);
            h.Calling?
            && Inv(w, if h.slot >= |vm.stack| && |vm.stack| >= MAX_VALUES then Raise(vm2, ValueOverflow, h.pc)
                      else if h.slot >= |vm.stack| then vm2.(stack := vm.stack + [v], mode := InScript(h.pc + 1))
                      else vm2.(stack := vm.stack[..h.slot] + [v], mode := InScript(h.pc + 1)))
  {
    hide Chain, HostsOk, H, CallAt, WorldOk, ScriptInv, RaisedInv, ResultSlot;
    HostBase(w, vm);
    var n := |vm.hosts| - 1;
    var h, c := vm.hosts[n], Top(vm.ctxs);
    var vm2 := vm.(hosts := vm.hosts[..n]);
    CallInside(w, c, h.pc);
    SlotAbove(w, c, h.pc);
    if h.slot >= |vm.stack| && |vm.stack| >= MAX_VALUES {
      CanRaise(w, Raise(vm2, ValueOverflow, h.pc));
    } else if h.slot >= |vm.stack| {
      HoldsScript(w, vm2.(stack := vm.stack + [v], mode := InScript(h.pc + 1)), h.pc + 1);
    } else {
      HoldsScript(w, vm2.(stack := vm.stack[..h.slot] + [v], mode := InScript(h.pc + 1)), h.pc + 1);
    }
  }

  lemma ErrorKeeps(w: World, vm: VM, e: Error, pc: int)
    requires WorldOk(w) && vm.mode == Raised(e, pc) && Inv(w, vm)
    ensures Inv(w, ErrorStep(w, vm, e, pc))
  {
    hide Chain, HostsOk, H, WorldOk, PassOn;
    var n := |vm.hosts| - 1;
    var h, below := vm.hosts[n], vm.hosts[..n];
    var o := h.outer;
    var ctxs := vm.ctxs[..o + 1];
    assert vm.ctxs[..o] == ctxs[..o];
    if h.pass {
      HostsLeave(w, ctxs, vm.hosts);
      var vm1 := vm.(ctxs := vm.ctxs[o := vm.ctxs[o].(cpos := pc)], hosts := below);
      assert vm1.ctxs[..o] == ctxs[..o];
      ChainCut(w, ctxs, o);
      if n > 0 {
        assert below[..n - 1] == vm.hosts[..n - 1];
        BaseBelow(w, ctxs);
      }
      PassOnKeeps(w, vm1, e, ctxs[..o]);
    } else {
      LeftHost(w, ctxs, vm.hosts, ErrorStep(w, vm, e, pc));
    }
  }

  lemma BaseBelow(w: World, ctxs: seq<Context>)
    requires WorldOk(w) && Chain(w, ctxs) && |ctxs| > 1
    ensures Base(w, ctxs[|ctxs| - 2]) <= Top(ctxs).pars
  {
    hide H, WorldOk;
    var c := ctxs[|ctxs| - 2];
    assert Linked(w, c, Top(ctxs));
    SlotAbove(w, c, c.cpos);
  }

  // ----- every step -----

  lemma ScriptKeeps(w: World, vm: VM, pc: int)
    requires WorldOk(w) && vm.mode == InScript(pc) && Inv(w, vm)
    ensures Inv(w, ScriptStep(w, vm, pc))
  {
    hide Chain, HostsOk, H, WorldOk, Local, Call, Leave, CallAt, ResultSlot, RaisedInv, ScriptInv, Loose;
    ScriptHolds(w, vm, pc);
    var c := Top(vm.ctxs);
    CodeLoose(w, c.func);
    var code, n := CodeOf(w, c.func), |vm.stack|;
    LevelExact(code, pc, n - Base(w, c));
    CanRaiseAny(w, vm);
    if pc < |code| {
      match code[pc]
      case RETURN => LeaveKeeps(w, vm, pc);
      case FUNC(f, pars) =>
        IsCallAt(w, c, pc);
        SlotAbove(w, c, pc);
        CallKeeps(w, vm, pc, f, n - pars, n - pars, pars, c.hasObject);
      case CALL(kind, f) =>
        IsCallAt(w, c, pc);
        SlotAbove(w, c, pc);
        CallInside(w, c, pc);
        var target := n - MAX_PAR - 1;
        match w.resolve(kind, f, vm.stack[target], Mem(vm.stack, vm.heap)) {
          case Found(g, hasObject) => CallKeeps(w, vm, pc, g, target, target + 1, MAX_PAR, hasObject);
          case Nobody => HoldsScript(w, vm.(stack := vm.stack[..target] + [Nil], mode := InScript(pc + 1)), pc + 1);
          case NotFound(e) =>
        }
      case _ => LocalKeeps(w, vm, pc);
    }
  }

  lemma IsCallAt(w: World, c: Context, pc: int)
    requires 0 <= pc < |CodeOf(w, c.func)| && IsCall(CodeOf(w, c.func)[pc])
    ensures CallAt(w, c, pc)
  {
  }

  lemma CanRaiseAny(w: World, vm: VM)
    requires WorldOk(w) && Chain(w, vm.ctxs) && HostsOk(w, vm.ctxs, vm.hosts) && |vm.hosts| % 2 == 1
    requires Base(w, Top(vm.ctxs)) <= |vm.stack|
    ensures forall e, pc :: RaisedInv(w, Raise(vm, e, pc))
  {
    hide Chain, HostsOk, WorldOk;
    forall e, pc ensures RaisedInv(w, Raise(vm, e, pc)) {
      CanRaise(w, Raise(vm, e, pc));
    }
  }

  lemma StepKeeps(w: World, vm: VM)
    requires WorldOk(w) && Inv(w, vm)
    ensures Inv(w, VMStep(w, vm))
  {
    hide Chain, HostsOk, WorldOk, ScriptStep, HostStep, ErrorStep, ScriptInv, HostInv, RaisedInv;
    match vm.mode
    case InScript(pc) => ScriptKeeps(w, vm, pc);
    case InHost(plan) => HostKeeps(w, vm, plan);
    case Raised(e, pc) => ErrorKeeps(w, vm, e, pc);
    case _ =>
  }

  lemma {:induction false} StepsKeep(w: World, vm: VM, k: nat)
    requires WorldOk(w) && Inv(w, vm)
    ensures Inv(w, VMSteps(w, vm, k))
    decreases k
  {
    hide Inv, WorldOk, VMStep;
    if k > 0 {
      StepKeeps(w, vm);
      StepsKeep(w, VMStep(w, vm), k - 1);
    }
  }

  lemma StartOk(w: World, plan: Plan, heap: map<Addr, Value>)
    ensures Inv(w, Start(plan, heap))
  {
  }
}
