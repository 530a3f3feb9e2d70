/** Single steps of the whole engine, told one by one: how much room there is, what a call gets, where
    values and errors go. */
module EngineFacts {
  import opened Bytecode
  import opened Heights
  import opened Machine

  /** The chunk that is next in a running script function, with the values of the call above `Base`. */
  predicate Next(w: World, vm: VM, pc: int, x: Chunk) {
    && vm.mode == InScript(pc) && |vm.ctxs| > 0 && Base(w, Top(vm.ctxs)) <= |vm.stack|
    && 0 <= pc < |CodeOf(w, Top(vm.ctxs).func)| && CodeOf(w, Top(vm.ctxs).func)[pc] == x
    && Need(x) <= |vm.stack| - Base(w, Top(vm.ctxs))
  }

  lemma PushStep(w: World, vm: VM, pc: int, x: Chunk, v: Value)
    requires Next(w, vm, pc, x) && !x.FUNC? && !x.CALL? && !x.RETURN?
    requires var c := Top(vm.ctxs);
             var d := Config(pc, vm.stack[Base(w, c)..], Mem(vm.stack[..Base(w, c)], vm.heap));
             Step(EnvOf(w, c), CodeOf(w, c.func), d) == Running(Config(pc + 1, d.temps + [v], d.m))
    ensures VMStep(w, vm) ==
            if |vm.stack| < MAX_VALUES then vm.(stack := vm.stack + [v], mode := InScript(pc + 1))
            else vm.(mode := Raised(ValueOverflow, pc))
  {
    hide Step;
    var base := Base(w, Top(vm.ctxs));
    assert vm.stack[..base] + (vm.stack[base..] + [v]) == vm.stack + [v];
  }

  /** There is room for 1024 values and no more. */
  lemma RoomForValues(w: World, vm: VM, pc: int)
    requires Next(w, vm, pc, NIL)
    ensures |vm.stack| < 1024 ==> VMStep(w, vm) == vm.(stack := vm.stack + [Nil], mode := InScript(pc + 1))
    ensures |vm.stack| >= 1024 ==> VMStep(w, vm) == vm.(mode := Raised(ValueOverflow, pc))
  {
    PushStep(w, vm, pc, NIL, Nil) by { hide H; }
  }

  /** Parameters and variables are those of the running call; its locals are there if it has an object. */
  lemma SlotsOfCall(w: World, vm: VM, pc: int, kind: SlotKind, i: nat)
    requires Next(w, vm, pc, SLOT(kind, i, false)) && |vm.stack| < 1024
    ensures var c := Top(vm.ctxs);
            var pushed := (v: Value) => vm.(stack := vm.stack + [v], mode := InScript(pc + 1));
            match kind
            case ParN => c.pars + i < Base(w, c) ==> VMStep(w, vm) == pushed(vm.stack[c.pars + i])
            case VarN => c.vars + i < Base(w, c) ==> VMStep(w, vm) == pushed(vm.stack[c.vars + i])
            case LocalN =>
              VMStep(w, vm) ==
              if !c.hasObject then vm.(mode := Raised(NoObject, pc))
              else pushed(if LocalAt(i) in vm.heap then vm.heap[LocalAt(i)] else Nil)
            case GlobalN => VMStep(w, vm) == pushed(if GlobalAt(i) in vm.heap then vm.heap[GlobalAt(i)] else Nil)
  {
    var c := Top(vm.ctxs);
    var base := Base(w, c);
    assert vm.stack[..base] + vm.stack[base..] == vm.stack;
    var m := Mem(vm.stack[..base], vm.heap);
    var a := match kind
      case ParN => StackAt(c.pars + i)
      case VarN => StackAt(c.vars + i)
      case LocalN => LocalAt(i)
      case GlobalN => GlobalAt(i);
    if kind != LocalN || c.hasObject { PushStep(w, vm, pc, SLOT(kind, i, false), Load(m, a)); }
  }

  /** A direct call of a script function whose parameters could be converted: it needs room for its variables and
      for one more call, of which there are 512; it has the object of the caller. */
  lemma DirectCall(w: World, vm: VM, pc: int, f: nat, pars: nat, args: seq<Value>)
    requires Next(w, vm, pc, FUNC(f, pars)) && f < |w.funcs| && w.funcs[f].Script? && |args| == pars <= |vm.stack|
    requires var c := Top(vm.ctxs);
             w.convert(StrictOf(w, c), f, vm.stack[|vm.stack| - pars..], Mem(vm.stack, vm.heap)) == Converted(args)
    ensures var n, vars, vm1 := |vm.stack|, w.funcs[f].vars, VMStep(w, vm);
            if n + vars > 1024 then vm1.mode == Raised(ValueOverflow, pc)
            else if |vm.ctxs| >= 512 then vm1.mode == Raised(ContextOverflow, pc)
            else
              && vm1.mode == InScript(0) && vm1.stack == vm.stack[..n - pars] + args + Nils(vars)
              && vm1.heap == vm.heap && vm1.hosts == vm.hosts && |vm1.ctxs| == |vm.ctxs| + 1
              && Top(vm1.ctxs) == Context(Slot(n - pars), n - pars, n, f, Top(vm.ctxs).hasObject, 0)
              && vm1.ctxs[|vm.ctxs| - 1] == Top(vm.ctxs).(cpos := pc)
  {
    hide Step, Nils;
    var n := |vm.stack|;
    assert vm.stack[n - pars..n] == vm.stack[n - pars..] && vm.stack[n..] == [];
  }

  /** A call with a target: the function that is found gets the object it is found for; where nobody need
      be found, the call gives nil. */
  lemma ObjectCall(w: World, vm: VM, pc: int, kind: CallKind, f: nat)
    requires Next(w, vm, pc, CALL(kind, f))
    ensures var t := |vm.stack| - 11;
            t >= 0
            && match w.resolve(kind, f, vm.stack[t], Mem(vm.stack, vm.heap))
               case Found(g, hasObject) =>
                 var vm1 := VMStep(w, vm);
                 g < |w.funcs| && w.funcs[g].Script? && vm1.mode == InScript(0) && |vm1.ctxs| == |vm.ctxs| + 1 ==>
                   Top(vm1.ctxs) == Context(Slot(t), t + 1, |vm.stack|, g, hasObject, 0)
               case Nobody => VMStep(w, vm) == vm.(stack := vm.stack[..t] + [Nil], mode := InScript(pc + 1))
               case NotFound(e) => VMStep(w, vm) == vm.(mode := Raised(e, pc))
  {
    hide Step;
  }

  /** A built-in function gets the converted parameters. */
  lemma NativeCall(w: World, vm: VM, pc: int, f: nat, pars: nat, args: seq<Value>)
    requires Next(w, vm, pc, FUNC(f, pars)) && f < |w.funcs| && w.funcs[f].Native? && |args| == pars <= |vm.stack|
    requires var c := Top(vm.ctxs);
             w.convert(StrictOf(w, c), f, vm.stack[|vm.stack| - pars..], Mem(vm.stack, vm.heap)) == Converted(args)
    ensures var at, vm1 := |vm.stack| - pars, VMStep(w, vm);
            vm1.stack == vm.stack[..at] + args && vm1.heap == vm.heap && vm1.hosts == vm.hosts + [Calling(at, pc)]
            && vm1.mode == InHost(w.native(f, args, Mem(vm1.stack, vm.heap)))
  {
    hide Step;
    var n := |vm.stack|;
    assert vm.stack[n - pars..n] == vm.stack[n - pars..] && vm.stack[n..] == [];
    assert (vm.stack[..n - pars] + args + [])[n - pars..n] == args;
  }

  /** Its result takes the place of the parameters, and the script goes on behind the call; its error is an
      error of the call. */
  lemma NativeEnds(w: World, vm: VM, v: Value, e: Error, slot: nat, pc: int)
    requires |vm.hosts| > 0 && vm.hosts[|vm.hosts| - 1] == Calling(slot, pc) && slot < |vm.stack|
    ensures vm.mode == InHost(Done(v, [])) ==>
              VMStep(w, vm) == vm.(stack := vm.stack[..slot] + [v], hosts := vm.hosts[..|vm.hosts| - 1],
                                   mode := InScript(pc + 1))
    ensures vm.mode == InHost(Fail(e, [])) ==>
              VMStep(w, vm) == vm.(hosts := vm.hosts[..|vm.hosts| - 1], mode := Raised(e, pc))
  {
  }

  predicate Untouched(writes: seq<Assignment>, a: Addr) { forall j :: 0 <= j < |writes| ==> writes[j].at != a }

  /** Write `i` is the last one to this slot. */
  predicate LastOne(writes: seq<Assignment>, i: nat, a: Addr) {
    i < |writes| && writes[i].at == a && Untouched(writes[i + 1..], a)
  }

  /** What a built-in function writes is written before anything else it does: a slot has the last value
      written to it, or is as it was. */
  lemma WritesFirst(w: World, vm: VM, a: Addr)
    requires vm.mode.InHost? && (a.StackAt? ==> a.n < |vm.stack|)
    ensures var p := vm.mode.plan;
            var m := WriteAll(Mem(vm.stack, vm.heap), p.writes);
            && VMStep(w, vm) == VMStep(w, vm.(stack := m.stack, heap := m.heap, mode := InHost(p.(writes := []))))
            && (forall i: nat :: LastOne(p.writes, i, a) ==> Load(m, a) == p.writes[i].v)
            && (Untouched(p.writes, a) ==> Load(m, a) == Load(Mem(vm.stack, vm.heap), a))
  {
    hide LastOne, Untouched, Load;
    LastWritten(Mem(vm.stack, vm.heap), vm.mode.plan.writes, a);
    WithoutWrites(w, vm);
    hide VMStep, WriteAll;
  }

  lemma WithoutWrites(w: World, vm: VM)
    requires vm.mode.InHost?
    ensures var p := vm.mode.plan;
            var m := WriteAll(Mem(vm.stack, vm.heap), p.writes);
            VMStep(w, vm) == VMStep(w, vm.(stack := m.stack, heap := m.heap, mode := InHost(p.(writes := []))))
  {
    var m := WriteAll(Mem(vm.stack, vm.heap), vm.mode.plan.writes);
    assert WriteAll(m, []) == m;
    hide WriteAll, Begin, PassOn;
  }

  lemma {:induction false} LastWritten(m: Mem, writes: seq<Assignment>, a: Addr)
    requires a.StackAt? ==> a.n < |m.stack|
    ensures forall i: nat :: LastOne(writes, i, a) ==> Load(WriteAll(m, writes), a) == writes[i].v
    ensures Untouched(writes, a) ==> Load(WriteAll(m, writes), a) == Load(m, a)
    decreases |writes|
  {
    if |writes| > 0 {
      var m1 := Write(m, writes[0].at, writes[0].v);
      LastWritten(m1, writes[1..], a);
      forall i: nat | LastOne(writes, i, a) ensures Load(WriteAll(m, writes), a) == writes[i].v {
        if i > 0 {
          assert writes[1..][i..] == writes[i + 1..];
          assert LastOne(writes[1..], i - 1, a);
        }
      }
    }
  }

  /** A built-in function that runs a script function: it has the object the plan names, and its parameters
      and variables are its own. What is no script function gives nil. */
  lemma RunStarts(w: World, vm: VM, f: nat, hasObject: bool, args: seq<Value>, pass: bool, next: (Value, Mem) -> Plan)
    requires vm.mode == InHost(Run(f, hasObject, args, pass, [], next))
    ensures f >= |w.funcs| || w.funcs[f].Native? ==>
              VMStep(w, vm) == vm.(mode := InHost(next(Nil, Mem(vm.stack, vm.heap))))
    ensures f < |w.funcs| && w.funcs[f].Script? && |vm.stack| + |args| + w.funcs[f].vars <= 1024 && |vm.ctxs| < 512 ==>
              var n := |vm.stack|;
              VMStep(w, vm) == vm.(stack := vm.stack + args + Nils(w.funcs[f].vars),
                                   ctxs := vm.ctxs + [Context(External, n, n + |args|, f, hasObject, 0)],
                                   hosts := vm.hosts + [Entered(|vm.ctxs|, n, pass, next)], mode := InScript(0))
  {
    hide Nils;
  }

  /** An error in a run whose errors are not passed on: all its calls and values go, and the built-in function
      goes on with nil. One that is passed on becomes an error of the built-in function, so of the call the
      script below made; without one it leaves the engine. */
  lemma ErrorGoes(w: World, vm: VM, e: Error, pc: int, outer: nat, height: nat, pass: bool, next: (Value, Mem) -> Plan)
    requires vm.mode == Raised(e, pc) && |vm.hosts| > 0
    requires vm.hosts[|vm.hosts| - 1] == Entered(outer, height, pass, next)
    requires outer < |vm.ctxs| && vm.ctxs[outer].pars <= |vm.stack|
    ensures var below, vm1 := vm.hosts[..|vm.hosts| - 1], VMStep(w, vm);
            if !pass then
              var stack := vm.stack[..vm.ctxs[outer].pars];
              vm1 == vm.(stack := stack, ctxs := vm.ctxs[..outer], hosts := below,
                         mode := InHost(next(Nil, Mem(stack, vm.heap))))
            else if |below| > 0 && below[|below| - 1].Calling? then
              vm1.mode == Raised(e, below[|below| - 1].pc) && vm1.hosts == below[..|below| - 1]
            else vm1.mode == Aborted(e)
  {
  }
}
