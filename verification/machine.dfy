/** The whole engine: one value stack and one context stack for all running calls, script
    functions that call each other, and built-in functions that run scripts again. */
module Machine {
  import opened Bytecode
  import opened Heights

  const MAX_VALUES: nat := 1024
  const MAX_CONTEXTS: nat := 512

  // ----- functions -----

  datatype Func =
    | Script(vars: nat, code: Code, strict: nat, returnRef: bool)
    | Native

  datatype Assignment = Assignment(at: Addr, v: Value)

  /** What a built-in function does: it writes to the memory it can reach, runs script functions
      and goes on with their results, and comes to a value or an error. With `pass`, errors of
      the function it runs are passed on to it, and it passes them on. */
  datatype Plan =
    | Done(v: Value, writes: seq<Assignment>)
    | Fail(e: Error, writes: seq<Assignment>)
    | Run(f: nat, hasObject: bool, args: seq<Value>, pass: bool, writes: seq<Assignment>, next: (Value, Mem) -> Plan)

  /** The function an object call finds. */
  datatype Resolved = Found(f: nat, hasObject: bool) | Nobody | NotFound(e: Error)

  /** Parameters after conversion to the types the function declares. */
  datatype Converted = Converted(args: seq<Value>) | Misfit(e: Error)

  /** Operators and conversions of parameters depend on the strictness of the function that is
      running, which is their first argument. */
  datatype World = World(
    funcs: seq<Func>,
    un: nat -> (UnOp, Value, Mem) -> OpResult,
    bin: nat -> (BinOp, Value, Value, Mem) -> OpResult,
    native: (nat, seq<Value>, Mem) -> Plan,
    resolve: (CallKind, nat, Value, Mem) -> Resolved,
    convert: (nat, nat, seq<Value>, Mem) -> Converted)

  // ----- state -----

  /** Where the result of a call goes: into a slot of the value stack, or out of the engine. */
  datatype Return = External | Slot(at: nat)

  /** A running script function: its parameters and variables start at these slots; `cpos` is the
      chunk at which it last made a call. */
  datatype Context = Context(ret: Return, pars: nat, vars: nat, func: nat, hasObject: bool, cpos: int)

  /** The native calls in progress: a built-in function called by the script above it, and the
      script it runs, with the context stack and value stack as high as they were. */
  datatype Host =
    | Calling(slot: nat, pc: int)
    | Entered(outer: nat, height: nat, pass: bool, next: (Value, Mem) -> Plan)

  datatype Mode =
    | InScript(pc: int)
    | InHost(plan: Plan)
    | Raised(e: Error, pc: int)
    | Finished(v: Value)
    | Aborted(e: Error)

  datatype VM = VM(stack: seq<Value>, heap: map<Addr, Value>, ctxs: seq<Context>, hosts: seq<Host>, mode: Mode)

  function CodeOf(w: World, f: nat): Code {
    if f < |w.funcs| && w.funcs[f].Script? then w.funcs[f].code else []
  }

  function VarsOf(w: World, f: nat): nat {
    if f < |w.funcs| && w.funcs[f].Script? then w.funcs[f].vars else 0
  }

  /** Where the temporaries of a call start. */
  function Base(w: World, c: Context): nat { c.vars + VarsOf(w, c.func) }

  function Top(s: seq<Context>): Context
    requires |s| > 0
  {
    s[|s| - 1]
  }

  // ----- one step of a script -----

  function StrictOf(w: World, c: Context): nat {
    if c.func < |w.funcs| && w.funcs[c.func].Script? then w.funcs[c.func].strict else 0
  }

  function EnvOf(w: World, c: Context): Env {
    var strict := StrictOf(w, c);
    var ref := c.func < |w.funcs| && w.funcs[c.func].Script? && w.funcs[c.func].returnRef;
    Env(Sem(w.un(strict), w.bin(strict), (f, vs, m) => Throw(BadTarget, m), (k, f, t, vs, m) => Throw(BadTarget, m)),
        Frame(c.pars, c.vars, c.hasObject, strict, ref))
  }

  function Raise(vm: VM, e: Error, pc: int): VM { vm.(mode := Raised(e, pc)) }

  /** A chunk that is neither a call nor a return. */
  function Local(w: World, vm: VM, pc: int): VM
    requires |vm.ctxs| > 0 && Base(w, Top(vm.ctxs)) <= |vm.stack|
  {
    var c := Top(vm.ctxs);
    var base := Base(w, c);
    match Step(EnvOf(w, c), CodeOf(w, c.func), Config(pc, vm.stack[base..], Mem(vm.stack[..base], vm.heap)))
    case Running(d) =>
      if |d.m.stack + d.temps| > MAX_VALUES then Raise(vm, ValueOverflow, pc)
      else vm.(stack := d.m.stack + d.temps, heap := d.m.heap, mode := InScript(d.pc))
    case Returned(_, _) => Raise(vm, BadTarget, pc)
    case Failed(e, m) => Raise(vm.(stack := m.stack + vm.stack[base..], heap := m.heap), e, pc)
  }

  /** Calls function `f` with the `n` values at `pars`; its result goes to slot `ret`. */
  function Call(w: World, vm: VM, f: nat, ret: nat, pars: nat, n: nat, hasObject: bool, pc: int): VM
    requires |vm.ctxs| > 0 && pars + n <= |vm.stack|
  {
    var vm1 := vm.(ctxs := vm.ctxs[|vm.ctxs| - 1 := Top(vm.ctxs).(cpos := pc)]);
    if f >= |w.funcs| then Raise(vm1, BadTarget, pc)
    else
      match w.convert(StrictOf(w, Top(vm.ctxs)), f, vm.stack[pars..pars + n], Mem(vm.stack, vm.heap))
      case Misfit(e) => Raise(vm1, e, pc)
      case Converted(args) =>
        var vm2 := if |args| == n then vm1.(stack := vm.stack[..pars] + args + vm.stack[pars + n..]) else vm1;
        match w.funcs[f]
        case Native => vm2.(hosts := vm.hosts + [Calling(ret, pc)],
                            mode := InHost(w.native(f, vm2.stack[pars..pars + n], Mem(vm2.stack, vm.heap))))
        case Script(vars, _, _, _) => Enter(w, vm2, f, Context(Slot(ret), pars, |vm.stack|, f, hasObject, 0), pc)
  }

  /** Makes room for the variables and enters the function. */
  function Enter(w: World, vm: VM, f: nat, c: Context, pc: int): VM {
    var vars := VarsOf(w, f);
    if |vm.stack| + vars > MAX_VALUES then Raise(vm, ValueOverflow, pc)
    else
      var vm1 := vm.(stack := vm.stack + Nils(vars));
      if |vm.ctxs| >= MAX_CONTEXTS then Raise(vm1, ContextOverflow, pc)
      else vm1.(ctxs := vm.ctxs + [c], mode := InScript(0))
  }

  /** The result of the topmost call. */
  function Result(w: World, vm: VM): Value
    requires |vm.ctxs| > 0 && Base(w, Top(vm.ctxs)) < |vm.stack|
  {
    var v := vm.stack[|vm.stack| - 1];
    if EnvOf(w, Top(vm.ctxs)).fr.returnRef then v else Plain(Mem(vm.stack[..Base(w, Top(vm.ctxs))], vm.heap), v)
  }

  function Leave(w: World, vm: VM): VM
    requires |vm.ctxs| > 0 && Base(w, Top(vm.ctxs)) < |vm.stack|
  {
    var c, v, rest := Top(vm.ctxs), Result(w, vm), vm.ctxs[..|vm.ctxs| - 1];
    match c.ret
    case Slot(at) =>
      if at >= |vm.stack| || |rest| == 0 then Raise(vm, BadTarget, 0)
      else vm.(stack := vm.stack[..at] + [v], ctxs := rest, mode := InScript(Top(rest).cpos + 1))
    case External =>
      if c.pars > |vm.stack| || |vm.hosts| == 0 then Raise(vm, BadTarget, 0)
      else
        var vm1 := vm.(stack := vm.stack[..c.pars], ctxs := rest, hosts := vm.hosts[..|vm.hosts| - 1]);
        var h := vm.hosts[|vm.hosts| - 1];
        if h.Entered? then vm1.(mode := InHost(h.next(v, Mem(vm1.stack, vm.heap)))) else Raise(vm, BadTarget, 0)
  }

  function ScriptStep(w: World, vm: VM, pc: int): VM {
    if |vm.ctxs| == 0 || |vm.stack| < Base(w, Top(vm.ctxs)) then Raise(vm, Underflow, pc)
    else
      var c := Top(vm.ctxs);
      var code, n := CodeOf(w, c.func), |vm.stack|;
      if !(0 <= pc < |code|) then Raise(vm, BadTarget, pc)
      else if Need(code[pc]) > n - Base(w, c) then Raise(vm, Underflow, pc)
      else
        match code[pc]
        case RETURN => Leave(w, vm)
        case FUNC(f, pars) => Call(w, vm, f, n - pars, n - pars, pars, c.hasObject, pc)
        case CALL(kind, f) =>
          var target := n - MAX_PAR - 1;
          (match w.resolve(kind, f, vm.stack[target], Mem(vm.stack, vm.heap))
           case Found(g, hasObject) => Call(w, vm, g, target, target + 1, MAX_PAR, hasObject, pc)
           case Nobody => vm.(stack := vm.stack[..target] + [Nil], mode := InScript(pc + 1))
           case NotFound(e) => Raise(vm, e, pc))
        case _ => Local(w, vm, pc)
  }

  // ----- one step of a built-in function -----

  function WriteAll(m: Mem, writes: seq<Assignment>): (r: Mem)
    ensures |r.stack| == |m.stack|
    decreases |writes|
  {
    if |writes| == 0 then m else WriteAll(Write(m, writes[0].at, writes[0].v), writes[1..])
  }

  /** An error leaves the built-in function and goes to the script that called it. */
  function PassOn(vm: VM, e: Error): VM {
    if |vm.hosts| == 0 then vm.(mode := Aborted(e))
    else
      var h := vm.hosts[|vm.hosts| - 1];
      vm.(hosts := vm.hosts[..|vm.hosts| - 1], mode := if h.Calling? then Raised(e, h.pc) else Aborted(e))
  }

  /** Runs a script function from outside: parameters, variables and a context of its own. */
  function Begin(w: World, vm: VM, f: nat, hasObject: bool, args: seq<Value>, pass: bool,
                 next: (Value, Mem) -> Plan): VM {
    if |vm.stack| + |args| > MAX_VALUES then
      PassOn(vm.(stack := vm.stack + args[..if |vm.stack| < MAX_VALUES then MAX_VALUES - |vm.stack| else 0]),
          ValueOverflow)
    else
      var n := |vm.stack|;
      var vm1 := vm.(stack := vm.stack + args);
      var vars := VarsOf(w, f);
      if |vm1.stack| + vars > MAX_VALUES then PassOn(vm1, ValueOverflow)
      else
        var vm2 := vm1.(stack := vm1.stack + Nils(vars));
        if |vm.ctxs| >= MAX_CONTEXTS then PassOn(vm2, ContextOverflow)
        else
          vm2.(ctxs := vm.ctxs + [Context(External, n, n + |args|, f, hasObject, 0)],
               hosts := vm.hosts + [Entered(|vm.ctxs|, n, pass, next)], mode := InScript(0))
  }

  function HostStep(w: World, vm: VM, plan: Plan): VM {
    var m := WriteAll(Mem(vm.stack, vm.heap), plan.writes);
    var vm1 := vm.(stack := m.stack, heap := m.heap);
    match plan
    case Fail(e, _) => PassOn(vm1, e)
    case Run(f, hasObject, args, pass, _, next) =>
      if f < |w.funcs| && w.funcs[f].Script? then Begin(w, vm1, f, hasObject, args, pass, next)
      else vm1.(mode := InHost(next(Nil, m)))
    case Done(v, _) =>
      if |vm.hosts| == 0 then vm1.(mode := Finished(v))
      else
        var h := vm.hosts[|vm.hosts| - 1];
        var vm2 := vm1.(hosts := vm.hosts[..|vm.hosts| - 1]);
        if h.Entered? then vm1.(mode := Aborted(BadTarget))
        else if h.slot >= |m.stack| && |m.stack| >= MAX_VALUES then Raise(vm2, ValueOverflow, h.pc)
        else if h.slot >= |m.stack| then vm2.(stack := m.stack + [v], mode := InScript(h.pc + 1))
        else vm2.(stack := m.stack[..h.slot] + [v], mode := InScript(h.pc + 1))
  }

  // ----- errors -----

  /** The innermost run from outside either passes the error on, leaving its calls and values, or
      takes both stacks back to where they were and comes to nil. */
  function ErrorStep(w: World, vm: VM, e: Error, pc: int): VM {
    if |vm.hosts| == 0 then vm.(mode := Aborted(e))
    else
      var h := vm.hosts[|vm.hosts| - 1];
      var below := vm.hosts[..|vm.hosts| - 1];
      if h.Calling? || h.outer >= |vm.ctxs| then vm.(mode := Aborted(e))
      else
        var vm1 := vm.(ctxs := vm.ctxs[h.outer := vm.ctxs[h.outer].(cpos := pc)], hosts := below);
        if h.pass then PassOn(vm1, e)
        else
          var until := vm.ctxs[h.outer].pars;
          var stack := if until <= |vm.stack| then vm.stack[..until] else vm.stack;
          vm1.(stack := stack, ctxs := vm.ctxs[..h.outer], mode := InHost(h.next(Nil, Mem(stack, vm.heap))))
  }

  function VMStep(w: World, vm: VM): VM {
    match vm.mode
    case InScript(pc) => ScriptStep(w, vm, pc)
    case InHost(plan) => HostStep(w, vm, plan)
    case Raised(e, pc) => ErrorStep(w, vm, e, pc)
    case _ => vm
  }

  function VMSteps(w: World, vm: VM, k: nat): VM
    decreases k
  {
    if k == 0 then vm else VMSteps(w, VMStep(w, vm), k - 1)
  }

  /** Nothing runs yet; the game is about to do `plan`. */
  function Start(plan: Plan, heap: map<Addr, Value>): VM { VM([], heap, [], [], InHost(plan)) }
}
