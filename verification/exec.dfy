/** The engine at work: value stack and context stack are arrays, pushed and popped in place, and
    one chunk after the other is carried out as the machine says. Above its top the value stack
    holds nothing but nil, so pushing nils is moving the top. */
module Execution {
  import opened Bytecode
  import opened Machine
  import opened MachineSafe
  import opened Heights

  // ----- what a chunk does to the whole stack -----

  /** The memory below the temporaries. */
  function Below(w: World, vm: VM): Mem
    requires |vm.ctxs| > 0 && Base(w, Top(vm.ctxs)) <= |vm.stack|
  {
    Mem(vm.stack[..Base(w, Top(vm.ctxs))], vm.heap)
  }

  function Next(vm: VM, stack: seq<Value>, heap: map<Addr, Value>, pc: int): VM {
    vm.(stack := stack, heap := heap, mode := InScript(pc))
  }

  /** The top `n` values are replaced by the result of an operator. */
  function Replace(w: World, vm: VM, n: nat, r: OpResult, pc: int): VM
    requires |vm.ctxs| > 0 && Base(w, Top(vm.ctxs)) + n <= |vm.stack|
  {
    var base := Base(w, Top(vm.ctxs));
    match r
    case Ok(v, m) => Next(vm, m.stack + vm.stack[base..|vm.stack| - n] + [v], m.heap, pc + 1)
    case Throw(e, m) => Raise(vm.(stack := m.stack + vm.stack[base..], heap := m.heap), e, pc)
  }

  /** A chunk about to be carried out, with what it takes on the stack. */
  ghost predicate At(w: World, vm: VM, pc: int, x: Chunk) {
    && |vm.ctxs| > 0 && Base(w, Top(vm.ctxs)) <= |vm.stack| <= MAX_VALUES
    && 0 <= pc < |CodeOf(w, Top(vm.ctxs).func)| && CodeOf(w, Top(vm.ctxs).func)[pc] == x
    && Need(x) <= |vm.stack| - Base(w, Top(vm.ctxs))
  }

  predicate Pushes(x: Chunk) { x.NIL? || x.INT? || x.BOOL? || x.STRING? || x.C4ID? || x.SLOT? }

  /** The value a chunk pushes. */
  function Pushed(fr: Frame, m: Mem, x: Chunk): OpResult
    requires Pushes(x)
  {
    match x
    case NIL => Ok(Nil, m)
    case INT(i) => Ok(Int(Wrap32(i)), m)
    case BOOL(b) => Ok(Bool(b), m)
    case STRING(s) => Ok(Str(s), m)
    case C4ID(i) => Ok(if i == 0 then Nil else Id(i), m)
    case SLOT(kind, i, asRef) => ReadSlot(fr, kind, i, asRef, m)
  }

  lemma PushDoes(w: World, vm: VM, pc: int, x: Chunk)
    requires At(w, vm, pc, x) && Pushes(x)
    ensures Local(w, vm, pc) ==
            match Pushed(EnvOf(w, Top(vm.ctxs)).fr, Below(w, vm), x)
            case Ok(v, _) =>
              if |vm.stack| < MAX_VALUES then Next(vm, vm.stack + [v], vm.heap, pc + 1)
                  else Raise(vm, ValueOverflow, pc)
            case Throw(e, _) => Raise(vm, e, pc)
  {
    var base := Base(w, Top(vm.ctxs));
    var r := Pushed(EnvOf(w, Top(vm.ctxs)).fr, Below(w, vm), x);
    assert vm.stack[base..][..|vm.stack| - base] == vm.stack[base..];
    assert vm.stack[..base] + vm.stack[base..] == vm.stack;
    if r.Ok? {
      assert vm.stack[..base] + (vm.stack[base..] + [r.v]) == vm.stack + [r.v];
    }
  }

  lemma UnaryDoes(w: World, vm: VM, pc: int, op: UnOp)
    requires At(w, vm, pc, UN(op)) && OpsOk(w)
    ensures Local(w, vm, pc) == Replace(w, vm, 1, ApplyUn(EnvOf(w, Top(vm.ctxs)), op, vm.stack[|vm.stack| - 1],
            Below(w, vm)), pc)
  {
    hide ApplyUn;
    var base, n := Base(w, Top(vm.ctxs)), |vm.stack|;
    var temps, env := vm.stack[base..], EnvOf(w, Top(vm.ctxs));
    UnaryKeepsSize(w, Top(vm.ctxs), op, vm.stack[n - 1], Below(w, vm));
    var r := ApplyUn(env, op, vm.stack[n - 1], Below(w, vm));
    assert temps[..|temps| - 1] == vm.stack[base..n - 1];
    if r.Ok? {
      assert r.m.stack + (temps[..|temps| - 1] + [r.v]) == r.m.stack + vm.stack[base..n - 1] + [r.v];
    }
  }

  lemma UnaryKeepsSize(w: World, c: Context, op: UnOp, v: Value, m: Mem)
    requires OpsOk(w)
    ensures |ApplyUn(EnvOf(w, c), op, v, m).m.stack| == |m.stack|
  {
  }

  lemma BinaryDoes(w: World, vm: VM, pc: int, op: BinOp)
    requires At(w, vm, pc, BIN(op)) && OpsOk(w)
    ensures Local(w, vm, pc) == Replace(w, vm, 2, ApplyBin(EnvOf(w, Top(vm.ctxs)), op, vm.stack[|vm.stack| - 2],
                                                           vm.stack[|vm.stack| - 1], Below(w, vm)), pc)
  {
    hide ApplyBin;
    var base, n := Base(w, Top(vm.ctxs)), |vm.stack|;
    var temps, env := vm.stack[base..], EnvOf(w, Top(vm.ctxs));
    BinaryKeepsSize(w, Top(vm.ctxs), op, vm.stack[n - 2], vm.stack[n - 1], Below(w, vm));
    var r := ApplyBin(env, op, vm.stack[n - 2], vm.stack[n - 1], Below(w, vm));
    assert temps[..|temps| - 2] == vm.stack[base..n - 2];
    if r.Ok? {
      assert r.m.stack + (temps[..|temps| - 2] + [r.v]) == r.m.stack + vm.stack[base..n - 2] + [r.v];
    }
  }

  lemma BinaryKeepsSize(w: World, c: Context, op: BinOp, a: Value, b: Value, m: Mem)
    requires OpsOk(w)
    ensures |ApplyBin(EnvOf(w, c), op, a, b, m).m.stack| == |m.stack|
  {
    hide Assign, Plain;
    AssignKeepsSize(m);
  }

  lemma StackDoes(w: World, vm: VM, pc: int, n: int)
    requires At(w, vm, pc, STACK(n))
    ensures Local(w, vm, pc) ==
            if n < 0 then Next(vm, vm.stack[..|vm.stack| + n], vm.heap, pc + 1)
            else if |vm.stack| + n <= MAX_VALUES then Next(vm, vm.stack + Nils(n), vm.heap, pc + 1)
            else Raise(vm, ValueOverflow, pc)
  {
    var base := Base(w, Top(vm.ctxs));
    var temps := vm.stack[base..];
    if n < 0 {
      assert vm.stack[..base] + temps[..|temps| + n] == vm.stack[..|vm.stack| + n];
    } else {
      assert vm.stack[..base] + (temps + Nils(n)) == vm.stack + Nils(n);
    }
  }

  lemma ArrayDoes(w: World, vm: VM, pc: int, size: nat)
    requires At(w, vm, pc, ARRAY(size))
    ensures var k := |vm.stack| - size;
            var v := Array(PlainAll(Below(w, vm), vm.stack[k..]));
            Local(w, vm, pc) ==
            if k < MAX_VALUES then Next(vm, vm.stack[..k] + [v], vm.heap, pc + 1) else Raise(vm, ValueOverflow, pc)
  {
    hide Plain;
    var base, k := Base(w, Top(vm.ctxs)), |vm.stack| - size;
    var temps := vm.stack[base..];
    assert temps[|temps| - size..] == vm.stack[k..];
    var v := Array(PlainAll(Below(w, vm), vm.stack[k..]));
    assert vm.stack[..base] + (temps[..|temps| - size] + [v]) == vm.stack[..k] + [v];
  }

  /** The value on top goes into a variable. */
  lemma VarDoes(w: World, vm: VM, pc: int, v: nat)
    requires At(w, vm, pc, IVARN(v))
    ensures var base, n := Base(w, Top(vm.ctxs)), |vm.stack|;
            var m := Assign(Below(w, vm), SlotAddr(EnvOf(w, Top(vm.ctxs)).fr, VarN, v), vm.stack[n - 1]);
            |m.stack| == base && Local(w, vm, pc) == Next(vm, m.stack + vm.stack[base..n - 1], m.heap, pc + 1)
  {
    hide Assign;
    var base := Base(w, Top(vm.ctxs));
    var temps := vm.stack[base..];
    AssignKeepsSize(Below(w, vm));
    assert temps[..|temps| - 1] == vm.stack[base..|vm.stack| - 1];
  }

  lemma JumpDoes(w: World, vm: VM, pc: int, kind: JumpKind, off: int)
    requires At(w, vm, pc, JMP(kind, off))
    ensures var n := |vm.stack|;
            Local(w, vm, pc) ==
            if kind == Always then Next(vm, vm.stack, vm.heap, pc + off)
            else
              var top, m := vm.stack[n - 1], Below(w, vm);
              var stack := if Taken(kind, m, top) then
                             (if kind == Cond then vm.stack[..n - 1]
                              else if kind == IfNil then vm.stack[..n - 1] + [Plain(m, top)] else vm.stack)
                           else if PassedDelta(kind) < 0 then vm.stack[..n - 1] else vm.stack;
              Next(vm, stack, vm.heap, if Taken(kind, m, top) then pc + off else pc + 1)
  {
    hide Plain, Taken, Step, Jump, EnvOf, CodeOf, Base, PassedDelta;
    var base := Base(w, Top(vm.ctxs));
    var c := Config(pc, vm.stack[base..], Below(w, vm));
    JumpStep(EnvOf(w, Top(vm.ctxs)), CodeOf(w, Top(vm.ctxs).func), c, kind, off);
    assert vm.stack[..base] + vm.stack[base..] == vm.stack;
    JumpStack(vm.stack[..base], c, kind, off);
    var d := Jump(kind, off, c).c;
    assert Local(w, vm, pc) == Next(vm, vm.stack[..base] + d.temps, vm.heap, d.pc);
  }

  lemma JumpStep(env: Env, code: Code, c: Config, kind: JumpKind, off: int)
    requires 0 <= c.pc < |code| && code[c.pc] == JMP(kind, off)
    ensures Step(env, code, c) == Jump(kind, off, c)
  {
  }

  lemma JumpStack(below: seq<Value>, c: Config, kind: JumpKind, off: int)
    requires kind != Always ==> |c.temps| > 0
    ensures Jump(kind, off, c).Running? && Jump(kind, off, c).c.m == c.m
    ensures var o, s := Jump(kind, off, c), below + c.temps;
            var n := |s|;
            o.Running? && o.c.m == c.m
            && if kind == Always then o.c.pc == c.pc + off && o.c.temps == c.temps
               else
                 var top := s[n - 1];
                 o.c.pc == (if Taken(kind, c.m, top) then c.pc + off else c.pc + 1)
                 && below + o.c.temps ==
                    if Taken(kind, c.m, top) then
                      (if kind == Cond then s[..n - 1] else if kind == IfNil then s[..n - 1] + [Plain(c.m, top)] else s)
                    else if PassedDelta(kind) < 0 then s[..n - 1] else s
  {
    hide Plain, Taken;
    if kind != Always {
      var s, k := below + c.temps, |c.temps| - 1;
      assert s[..|s| - 1] == below + c.temps[..k];
    }
  }

  /** The next element of the array goes into the variable; the position is counted up. */
  lemma ForEachDoes(w: World, vm: VM, pc: int, v: nat)
    requires At(w, vm, pc, FOREACH(v))
    ensures var base, n, m := Base(w, Top(vm.ctxs)), |vm.stack|, Below(w, vm);
            var i := Position(vm.stack[n - 1]);
            var arr := if i == 0 then Plain(m, vm.stack[n - 2]) else vm.stack[n - 2];
            Local(w, vm, pc) ==
            if !arr.Array? then Raise(vm, NotAnArray, pc)
            else if i >= |arr.items| then Next(vm, vm.stack[..n - 2] + [arr, vm.stack[n - 1]], vm.heap, pc + 1)
            else
              var m1 := Assign(m, SlotAddr(EnvOf(w, Top(vm.ctxs)).fr, VarN, v), arr.items[i]);
              Next(vm, m1.stack + vm.stack[base..n - 2] + [arr, Int(i + 1)], m1.heap, pc + 2)
  {
    hide Plain, Assign, Position, Step;
    EachStep(EnvOf(w, Top(vm.ctxs)), CodeOf(w, Top(vm.ctxs).func),
        Config(pc, vm.stack[Base(w, Top(vm.ctxs))..], Below(w, vm)), v);
    var base, n, m := Base(w, Top(vm.ctxs)), |vm.stack|, Below(w, vm);
    var temps := vm.stack[base..];
    var i := Position(vm.stack[n - 1]);
    var arr := if i == 0 then Plain(m, vm.stack[n - 2]) else vm.stack[n - 2];
    AssignKeepsSize(m);
    assert temps[..|temps| - 2] == vm.stack[base..n - 2];
    assert vm.stack[..base] + temps == vm.stack;
    if arr.Array? {
      if i >= |arr.items| {
        assert vm.stack[..base] + (temps[..|temps| - 2] + [arr] + [vm.stack[n - 1]])
            == vm.stack[..n - 2] + [arr, vm.stack[n - 1]];
      } else {
        var m1 := Assign(m, SlotAddr(EnvOf(w, Top(vm.ctxs)).fr, VarN, v), arr.items[i]);
        assert m1.stack + (temps[..|temps| - 2] + [arr] + [Int(i + 1)])
            == m1.stack + vm.stack[base..n - 2] + [arr, Int(i + 1)];
      }
    }
  }

  lemma EachStep(env: Env, code: Code, c: Config, v: nat)
    requires 0 <= c.pc < |code| && code[c.pc] == FOREACH(v)
    ensures Step(env, code, c) == ForEach(env.fr, v, c)
  {
  }

  lemma MarkDoes(w: World, vm: VM, pc: int, x: Chunk)
    requires At(w, vm, pc, x) && (x.ERR? || x.EOFN?)
    ensures Local(w, vm, pc) == Raise(vm, if x.ERR? then SyntaxError else NoReturn, pc)
  {
    var base := Base(w, Top(vm.ctxs));
    assert vm.stack[..base] + vm.stack[base..] == vm.stack;
  }

  lemma AssignKeepsSize(m: Mem)
    ensures forall a, v :: |Assign(m, a, v).stack| == |m.stack|
  {
    hide Target, Plain;
  }

  class Exec {
    const values: array<Value>
    const contexts: array<Context>
    /** The top of each stack, or -1. */
    var curVal: int
    var curCtx: int
    var heap: map<Addr, Value>
    /** The engine's own nesting: built-in functions and the runs from outside. */
    var hosts: seq<Host>
    var mode: Mode

    predicate Valid()
      reads this, values
    {
      && values.Length == MAX_VALUES && contexts.Length == MAX_CONTEXTS
      && -1 <= curVal < MAX_VALUES && -1 <= curCtx < MAX_CONTEXTS
      && forall i :: curVal < i < MAX_VALUES ==> values[i] == Nil
    }

    function Stack(): seq<Value>
      requires Valid()
      reads this, values
    {
      values[..curVal + 1]
    }

    function Ctxs(): seq<Context>
      requires Valid()
      reads this, values, contexts
    {
      contexts[..curCtx + 1]
    }

    /** The state of the machine. */
    function Model(): VM
      requires Valid()
      reads this, values, contexts
    {
      VM(Stack(), heap, Ctxs(), hosts, mode)
    }

    constructor (plan: Plan, heap: map<Addr, Value>)
      ensures Valid() && Model() == Start(plan, heap)
      ensures fresh(values) && fresh(contexts)
    {
      values := new Value[MAX_VALUES](_ => Nil);
      contexts := new Context[MAX_CONTEXTS](_ => Context(External, 0, 0, 0, false, 0));
      curVal, curCtx := -1, -1;
      this.heap := heap;
      hosts, mode := [], InHost(plan);
    }

    // ----- the value stack -----

    method PushValue(v: Value) returns (ok: bool)
      requires Valid()
      modifies this`curVal, values
      ensures Valid() && ok == (|old(Stack())| < MAX_VALUES)
      ensures Stack() == if ok then old(Stack()) + [v] else old(Stack())
      ensures Ctxs() == old(Ctxs())
    {
      ok := curVal + 1 < MAX_VALUES;
      if ok {
        curVal := curVal + 1;
        values[curVal] := v;
      }
    }

    /** Only the top moves: the slots above it are nil already. */
    method PushNullVals(n: nat) returns (ok: bool)
      requires Valid()
      modifies this`curVal
      ensures Valid() && ok == (|old(Stack())| + n <= MAX_VALUES)
      ensures Stack() == if ok then old(Stack()) + Nils(n) else old(Stack())
    {
      ok := curVal + 1 + n <= MAX_VALUES;
      if ok {
        curVal := curVal + n;
      }
    }

    method PopValues(n: nat)
      requires Valid() && n <= curVal + 1
      modifies this`curVal, values
      ensures Valid() && Stack() == old(Stack())[..|old(Stack())| - n]
      ensures Ctxs() == old(Ctxs())
    {
      var left := n;
      while left > 0
        invariant Valid() && 0 <= left <= n && curVal == old(curVal) - (n - left)
        invariant values[..curVal + 1] == old(values[..])[..curVal + 1]
        invariant curCtx == old(curCtx)
      {
        values[curVal] := Nil;
        curVal := curVal - 1;
        left := left - 1;
      }
      assert old(Stack())[..curVal + 1] == old(values[..])[..curVal + 1];
      assert Stack() == old(values[..])[..curVal + 1];
    }

    /** Pops everything from slot `until` on. */
    method PopValuesUntil(until: nat)
      requires Valid()
      modifies this`curVal, values
      ensures Valid() && Ctxs() == old(Ctxs())
      ensures Stack() == if until < |old(Stack())| then old(Stack())[..until] else old(Stack())
    {
      while curVal >= until
        invariant Valid() && curVal <= old(curVal) && (curVal < old(curVal) ==> curVal + 1 >= until)
        invariant values[..curVal + 1] == old(values[..])[..curVal + 1]
      {
        values[curVal] := Nil;
        curVal := curVal - 1;
      }
    }

    method SetTop(v: Value)
      requires Valid() && curVal >= 0
      modifies values
      ensures Valid() && Stack() == old(Stack())[..curVal] + [v] && Ctxs() == old(Ctxs())
    {
      values[curVal] := v;
    }

    /** Memory as an operator left it: the slots below the temporaries, and what lies outside the
        value stack. */
    method SetMemory(m: Mem)
      requires Valid() && |m.stack| <= curVal + 1
      modifies this`heap, values
      ensures Valid() && heap == m.heap && Stack() == m.stack + old(Stack())[|m.stack|..] && Ctxs() == old(Ctxs())
    {
      for i := 0 to |m.stack|
        invariant Valid()
        invariant values[..i] == m.stack[..i]
        invariant values[i..] == old(values[..])[i..]
      {
        values[i] := m.stack[i];
      }
      heap := m.heap;
      assert values[..|m.stack|] == m.stack;
      assert values[..curVal + 1] == values[..|m.stack|] + values[|m.stack|..][..curVal + 1 - |m.stack|];
    }

    // ----- the context stack -----

    method PushContext(c: Context) returns (ok: bool)
      requires Valid()
      modifies this`curCtx, contexts
      ensures Valid() && ok == (|old(Ctxs())| < MAX_CONTEXTS)
      ensures Ctxs() == (if ok then old(Ctxs()) + [c] else old(Ctxs())) && Stack() == old(Stack())
    {
      ok := curCtx + 1 < MAX_CONTEXTS;
      if ok {
        curCtx := curCtx + 1;
        contexts[curCtx] := c;
      }
    }

    method PopContext()
      requires Valid() && curCtx >= 0
      modifies this`curCtx
      ensures Valid() && Ctxs() == old(Ctxs())[..|old(Ctxs())| - 1] && Stack() == old(Stack())
    {
      curCtx := curCtx - 1;
    }

    method SavePosition(i: nat, pc: int)
      requires Valid() && i <= curCtx
      modifies contexts
      ensures Valid() && Ctxs() == old(Ctxs())[i := old(Ctxs())[i].(cpos := pc)] && Stack() == old(Stack())
    {
      contexts[i] := contexts[i].(cpos := pc);
    }

    // ----- chunks -----

    method Raise(e: Error, pc: int)
      requires Valid()
      modifies this`mode
      ensures Valid() && Model() == Machine.Raise(old(Model()), e, pc)
    {
      mode := Raised(e, pc);
    }

    method Continue(pc: int)
      requires Valid()
      modifies this`mode
      ensures Valid() && Model() == old(Model()).(mode := InScript(pc))
    {
      mode := InScript(pc);
    }

    method Push(v: Value, pc: int)
      requires Valid()
      modifies this, values
      ensures Valid()
      ensures Model() == if |old(Stack())| < MAX_VALUES then Next(old(Model()), old(Stack()) + [v], old(heap), pc + 1)
                         else Machine.Raise(old(Model()), ValueOverflow, pc)
    {
      var ok := PushValue(v);
      if ok { Continue(pc + 1); } else { Raise(ValueOverflow, pc); }
    }

    method ReplaceTop(n: nat, v: Value)
      requires Valid() && 1 <= n <= curVal + 1
      modifies this`curVal, values
      ensures Valid() && Stack() == old(Stack())[..|old(Stack())| - n] + [v] && Ctxs() == old(Ctxs())
    {
      if n > 1 { PopValues(n - 1); }
      SetTop(v);
    }

    method SetTwo(a: Value, b: Value)
      requires Valid() && curVal >= 1
      modifies values
      ensures Valid() && Stack() == old(Stack())[..|old(Stack())| - 2] + [a, b] && Ctxs() == old(Ctxs())
    {
      values[curVal - 1] := a;
      values[curVal] := b;
    }

    /** The result of an operator takes the place of its operands. */
    method Operate(w: World, n: nat, r: OpResult, pc: int)
      requires Valid() && curCtx >= 0 && 1 <= n && Base(w, contexts[curCtx]) + n <= curVal + 1
      requires |r.m.stack| == Base(w, contexts[curCtx])
      modifies this, values
      ensures Valid() && old(|Model().ctxs| > 0 && Base(w, Top(Model().ctxs)) + n <= |Model().stack|)
      ensures Model() == Replace(w, old(Model()), n, r, pc)
    {
      ghost var vm := Model();
      var base := Base(w, contexts[curCtx]);
      assert Top(vm.ctxs) == contexts[curCtx];
      SetMemory(r.m);
      assert Stack() == r.m.stack + vm.stack[base..];
      match r
      case Throw(e, _) => Raise(e, pc);
      case Ok(v, _) =>
        ghost var s := Stack();
        assert s[..|s| - n] == r.m.stack + vm.stack[base..|vm.stack| - n];
        ReplaceTop(n, v);
        Continue(pc + 1);
    }

    /** A chunk that is about to be carried out: it finds on the stack what it takes. */
    ghost predicate Runs(w: World, pc: int, x: Chunk)
      reads this, values, contexts
    {
      Valid() && OpsOk(w) && At(w, Model(), pc, x) && curCtx >= 0 && Top(Model().ctxs) == contexts[curCtx]
    }

    method RunOperator(w: World, pc: int, x: Chunk)
      requires Runs(w, pc, x) && (x.UN? || x.BIN?)
      modifies this, values
      ensures Valid() && old(|Model().ctxs| > 0 && Base(w, Top(Model().ctxs)) <= |Model().stack|)
      ensures Model() == Local(w, old(Model()), pc)
    {
      hide OpsOk, Local, ApplyUn, ApplyBin;
      var c := contexts[curCtx];
      var m := Mem(values[..Base(w, c)], heap);
      assert m == Below(w, Model());
      match x {
        case UN(op) =>
          UnaryDoes(w, Model(), pc, op);
          UnaryKeepsSize(w, c, op, values[curVal], m);
          Operate(w, 1, ApplyUn(EnvOf(w, c), op, values[curVal], m), pc);
        case BIN(op) =>
          BinaryDoes(w, Model(), pc, op);
          BinaryKeepsSize(w, c, op, values[curVal - 1], values[curVal], m);
          Operate(w, 2, ApplyBin(EnvOf(w, c), op, values[curVal - 1], values[curVal], m), pc);
      }
    }

    method RunJump(w: World, pc: int, kind: JumpKind, off: int)
      requires Runs(w, pc, JMP(kind, off))
      modifies this, values
      ensures Valid() && old(|Model().ctxs| > 0 && Base(w, Top(Model().ctxs)) <= |Model().stack|)
      ensures Model() == Local(w, old(Model()), pc)
    {
      hide OpsOk, Local, Plain, Taken;
      JumpDoes(w, Model(), pc, kind, off);
      if kind == Always {
        Continue(pc + off);
      } else {
        var m := Mem(values[..Base(w, contexts[curCtx])], heap);
        assert m == Below(w, Model());
        var top := values[curVal];
        if Taken(kind, m, top) {
          if kind == Cond {
            PopValues(1);
          } else if kind == IfNil {
            SetTop(Plain(m, top));
          }
          Continue(pc + off);
        } else {
          if PassedDelta(kind) < 0 { PopValues(1); }
          Continue(pc + 1);
        }
      }
    }

    method RunForEach(w: World, pc: int, v: nat)
      requires Runs(w, pc, FOREACH(v))
      modifies this, values
      ensures Valid() && old(|Model().ctxs| > 0 && Base(w, Top(Model().ctxs)) <= |Model().stack|)
      ensures Model() == Local(w, old(Model()), pc)
    {
      hide OpsOk, Local, Plain, Assign;
      ghost var vm := Model();
      ForEachDoes(w, vm, pc, v);
      var c := contexts[curCtx];
      var base := Base(w, c);
      var m := Mem(values[..base], heap);
      assert m == Below(w, vm);
      var counter := values[curVal];
      var i := Position(counter);
      var arr := if i == 0 then Plain(m, values[curVal - 1]) else values[curVal - 1];
      if !arr.Array? {
        Raise(NotAnArray, pc);
      } else if i >= |arr.items| {
        SetTwo(arr, counter);
        Continue(pc + 1);
      } else {
        AssignKeepsSize(m);
        NextElement(Assign(m, SlotAddr(EnvOf(w, c).fr, VarN, v), arr.items[i]), arr, i, pc);
      }
    }

    /** The variable has its new value; array and position lie on top again. */
    method NextElement(m: Mem, arr: Value, i: nat, pc: int)
      requires Valid() && |m.stack| + 2 <= curVal + 1
      modifies this, values
      ensures Valid() && |m.stack| + 2 <= old(|Stack()|)
      ensures Model() == Next(old(Model()), m.stack + old(Stack())[|m.stack|..old(|Stack()|) - 2] + [arr, Int(i + 1)],
              m.heap, pc + 2)
    {
      ghost var s0 := Stack();
      SetMemory(m);
      ghost var s := Stack();
      assert s[..|s| - 2] == m.stack + s0[|m.stack|..|s0| - 2];
      SetTwo(arr, Int(i + 1));
      Continue(pc + 2);
    }

    method RunPush(w: World, pc: int, x: Chunk)
      requires Runs(w, pc, x) && Pushes(x)
      modifies this, values
      ensures Valid() && old(|Model().ctxs| > 0 && Base(w, Top(Model().ctxs)) <= |Model().stack|)
      ensures Model() == Local(w, old(Model()), pc)
    {
      hide OpsOk, Local;
      PushDoes(w, Model(), pc, x);
      var c := contexts[curCtx];
      var m := Mem(values[..Base(w, c)], heap);
      assert m == Below(w, Model());
      match Pushed(EnvOf(w, c).fr, m, x)
      case Ok(v, _) => Push(v, pc);
      case Throw(e, _) => Raise(e, pc);
    }

    method RunArray(w: World, pc: int, size: nat)
      requires Runs(w, pc, ARRAY(size))
      modifies this, values
      ensures Valid() && old(|Model().ctxs| > 0 && Base(w, Top(Model().ctxs)) <= |Model().stack|)
      ensures Model() == Local(w, old(Model()), pc)
    {
      hide OpsOk, Local, Plain;
      ghost var vm := Model();
      ArrayDoes(w, vm, pc, size);
      var m := Mem(values[..Base(w, contexts[curCtx])], heap);
      assert m == Below(w, vm);
      var items := PlainAll(m, values[curVal + 1 - size..curVal + 1]);
      assert values[curVal + 1 - size..curVal + 1] == vm.stack[|vm.stack| - size..];
      PopValues(size);
      Push(Array(items), pc);
    }

    method RunVariable(w: World, pc: int, v: nat)
      requires Runs(w, pc, IVARN(v))
      modifies this, values
      ensures Valid() && old(|Model().ctxs| > 0 && Base(w, Top(Model().ctxs)) <= |Model().stack|)
      ensures Model() == Local(w, old(Model()), pc)
    {
      hide OpsOk, Local, Assign;
      ghost var vm := Model();
      VarDoes(w, vm, pc, v);
      var c := contexts[curCtx];
      var base := Base(w, c);
      var m := Mem(values[..base], heap);
      assert m == Below(w, vm);
      var m1 := Assign(m, SlotAddr(EnvOf(w, c).fr, VarN, v), values[curVal]);
      SetMemory(m1);
      PopValues(1);
      assert Stack() == m1.stack + vm.stack[base..|vm.stack| - 1];
      Continue(pc + 1);
    }

    /** Any chunk that is neither a call nor a return. */
    method RunChunk(w: World, pc: int, x: Chunk)
      requires Runs(w, pc, x) && !IsCall(x) && !x.RETURN?
      modifies this, values
      ensures Valid() && old(|Model().ctxs| > 0 && Base(w, Top(Model().ctxs)) <= |Model().stack|)
      ensures Model() == Local(w, old(Model()), pc)
    {
      hide OpsOk, Local;
      if Pushes(x) {
        RunPush(w, pc, x);
      } else {
        match x
        case UN(_) => RunOperator(w, pc, x);
        case BIN(_) => RunOperator(w, pc, x);
        case JMP(kind, off) => RunJump(w, pc, kind, off);
        case FOREACH(v) => RunForEach(w, pc, v);
        case ARRAY(size) => RunArray(w, pc, size);
        case IVARN(v) => RunVariable(w, pc, v);
        case STACK(n) =>
          StackDoes(w, Model(), pc, n);
          if n < 0 {
            PopValues(-n);
            Continue(pc + 1);
          } else {
            var ok := PushNullVals(n);
            if ok { Continue(pc + 1); } else { Raise(ValueOverflow, pc); }
          }
        case ERR =>
          MarkDoes(w, Model(), pc, x);
          Raise(SyntaxError, pc);
        case EOFN =>
          MarkDoes(w, Model(), pc, x);
          Raise(NoReturn, pc);
      }
    }

    // ----- calls and returns -----

    method ReturnFrom(w: World)
      requires Valid() && curCtx >= 0 && Base(w, contexts[curCtx]) <= curVal
      modifies this, values, contexts
      ensures Valid() && old(|Model().ctxs| > 0 && Base(w, Top(Model().ctxs)) < |Model().stack|)
      ensures Model() == Leave(w, old(Model()))
    {
      hide Plain;
      ghost var vm := Model();
      var c := contexts[curCtx];
      assert Top(vm.ctxs) == c;
      var v := values[curVal];
      if !EnvOf(w, c).fr.returnRef {
        v := Plain(Mem(values[..Base(w, c)], heap), v);
        assert values[..Base(w, c)] == vm.stack[..Base(w, c)];
      }
      assert v == Result(w, vm);
      match c.ret
      case Slot(at) => ReturnToSlot(at, v);
      case External => ReturnOutside(c.pars, v);
    }

    /** The result goes into its slot; everything above it goes. */
    method ReturnToSlot(at: nat, v: Value)
      requires Valid() && curCtx >= 0
      modifies this, values, contexts
      ensures Valid()
      ensures var vm := old(Model());
              var rest := vm.ctxs[..|vm.ctxs| - 1];
              Model() == if at >= |vm.stack| || |rest| == 0 then Machine.Raise(vm, BadTarget, 0)
                         else vm.(stack := vm.stack[..at] + [v], ctxs := rest, mode := InScript(Top(rest).cpos + 1))
    {
      ghost var vm := Model();
      if at > curVal || curCtx == 0 {
        Raise(BadTarget, 0);
      } else {
        values[at] := v;
        PopContext();
        PopValuesUntil(at + 1);
        assert Stack() == vm.stack[..at] + [v];
        Continue(contexts[curCtx].cpos + 1);
      }
    }

    /** The run from outside is over; its parameters go, too. */
    method ReturnOutside(pars: nat, v: Value)
      requires Valid() && curCtx >= 0
      modifies this, values, contexts
      ensures Valid()
      ensures var vm := old(Model());
              var vm1 := vm.(stack := if pars <= |vm.stack| then vm.stack[..pars] else vm.stack,
                  ctxs := vm.ctxs[..|vm.ctxs| - 1],
                             hosts := vm.hosts[..if |vm.hosts| > 0 then |vm.hosts| - 1 else 0]);
              Model() == if pars > |vm.stack| || |vm.hosts| == 0 then Machine.Raise(vm, BadTarget, 0)
                         else
                           var h := vm.hosts[|vm.hosts| - 1];
                           if h.Entered? then vm1.(mode := InHost(h.next(v, Mem(vm1.stack, vm.heap))))
                           else Machine.Raise(vm, BadTarget, 0)
    {
      ghost var vm := Model();
      if pars > curVal + 1 || |hosts| == 0 || !hosts[|hosts| - 1].Entered? {
        Raise(BadTarget, 0);
      } else {
        var h := hosts[|hosts| - 1];
        PopValuesUntil(pars);
        PopContext();
        assert Stack() == vm.stack[..pars];
        hosts := hosts[..|hosts| - 1];
        mode := InHost(h.next(v, Mem(values[..curVal + 1], heap)));
      }
    }

    method EnterFunction(w: World, f: nat, c: Context, pc: int)
      requires Valid()
      modifies this, values, contexts
      ensures Valid() && Model() == Enter(w, old(Model()), f, c, pc)
    {
      var ok := PushNullVals(VarsOf(w, f));
      if !ok {
        Raise(ValueOverflow, pc);
      } else {
        ok := PushContext(c);
        if ok { Continue(0); } else { Raise(ContextOverflow, pc); }
      }
    }

    method CallFunction(w: World, f: nat, ret: nat, pars: nat, n: nat, hasObject: bool, pc: int)
      requires Valid() && curCtx >= 0 && pars + n <= curVal + 1
      modifies this, values, contexts
      ensures Valid() && old(|Model().ctxs| > 0 && pars + n <= |Model().stack|)
      ensures Model() == Call(w, old(Model()), f, ret, pars, n, hasObject, pc)
    {
      hide Enter;
      ghost var vm := Model();
      SavePosition(curCtx, pc);
      if f >= |w.funcs| {
        Raise(BadTarget, pc);
      } else {
        assert values[pars..pars + n] == vm.stack[pars..pars + n];
        match w.convert(StrictOf(w, contexts[curCtx]), f, values[pars..pars + n], Mem(values[..curVal + 1], heap)) {
          case Misfit(e) => Raise(e, pc);
          case Converted(args) =>
            if |args| == n { SetParameters(pars, args); }
            StartFunction(w, f, ret, pars, n, hasObject, pc);
        }
      }
    }

    /** With the parameters in place: a script function gets a context, a built-in one is run. */
    method StartFunction(w: World, f: nat, ret: nat, pars: nat, n: nat, hasObject: bool, pc: int)
      requires Valid() && f < |w.funcs| && pars + n <= curVal + 1
      modifies this, values, contexts
      ensures Valid() && pars + n <= old(|Stack()|)
      ensures var vm := old(Model());
              Model() == match w.funcs[f]
                         case Native => vm.(hosts := vm.hosts + [Calling(ret, pc)],
                                            mode := InHost(w.native(f, vm.stack[pars..pars + n],
                                                Mem(vm.stack, vm.heap))))
                         case Script(_, _, _, _) => Enter(w, vm, f,
                             Context(Slot(ret), pars, |vm.stack|, f, hasObject, 0), pc)
    {
      hide Enter;
      match w.funcs[f]
      case Native =>
        assert values[pars..pars + n] == Stack()[pars..pars + n];
        hosts := hosts + [Calling(ret, pc)];
        mode := InHost(w.native(f, values[pars..pars + n], Mem(values[..curVal + 1], heap)));
      case Script(_, _, _, _) =>
        EnterFunction(w, f, Context(Slot(ret), pars, curVal + 1, f, hasObject, 0), pc);
    }

    /** The parameters are converted where they lie. */
    method SetParameters(pars: nat, args: seq<Value>)
      requires Valid() && pars + |args| <= curVal + 1
      modifies values
      ensures Valid() && Stack() == old(Stack())[..pars] + args + old(Stack())[pars + |args|..]
      ensures Ctxs() == old(Ctxs())
    {
      for i := 0 to |args|
        invariant Valid()
        invariant forall j :: 0 <= j < i ==> values[pars + j] == args[j]
        invariant forall j :: 0 <= j < MAX_VALUES && (j < pars || pars + i <= j) ==> values[j] == old(values[j])
      {
        values[pars + i] := args[i];
      }
    }

    // ----- the engine's own nesting -----

    /** An error leaves a built-in function. */
    method LeaveNative(e: Error)
      requires Valid()
      modifies this`mode, this`hosts
      ensures Valid() && Model() == PassOn(old(Model()), e)
    {
      if |hosts| == 0 {
        mode := Aborted(e);
      } else {
        var h := hosts[|hosts| - 1];
        hosts := hosts[..|hosts| - 1];
        mode := if h.Calling? then Raised(e, h.pc) else Aborted(e);
      }
    }

    /** One parameter after the other, until there is no room. */
    method PushParameters(args: seq<Value>) returns (ok: bool)
      requires Valid()
      modifies this`curVal, values
      ensures Valid() && Ctxs() == old(Ctxs()) && ok == (|old(Stack())| + |args| <= MAX_VALUES)
      ensures Stack() == old(Stack()) + if ok then args else args[..MAX_VALUES - |old(Stack())|]
    {
      for i := 0 to |args|
        invariant Valid() && Ctxs() == old(Ctxs()) && Stack() == old(Stack()) + args[..i]
      {
        ok := PushValue(args[i]);
        if !ok { return; }
        assert old(Stack()) + args[..i] + [args[i]] == old(Stack()) + args[..i + 1];
      }
      ok := true;
      assert args[..|args|] == args;
    }

    /** Runs a script function from outside: pushes parameters, variables and a context. */
    method BeginRun(w: World, f: nat, hasObject: bool, args: seq<Value>, pass: bool, next: (Value, Mem) -> Plan)
      requires Valid()
      modifies this, values, contexts
      ensures Valid() && Model() == Begin(w, old(Model()), f, hasObject, args, pass, next)
    {
      hide PassOn;
      var pars := curVal + 1;
      var ok := PushParameters(args);
      if ok {
        OpenRun(w, f, hasObject, pars, pass, next);
      } else {
        LeaveNative(ValueOverflow);
      }
    }

    /** The parameters, from slot `pars` on, are there. */
    method OpenRun(w: World, f: nat, hasObject: bool, pars: nat, pass: bool, next: (Value, Mem) -> Plan)
      requires Valid()
      modifies this, values, contexts
      ensures Valid()
      ensures var vm, vars := old(Model()), VarsOf(w, f);
              var vm1 := vm.(stack := vm.stack + Nils(vars));
              Model() == if |vm.stack| + vars > MAX_VALUES then PassOn(vm, ValueOverflow)
                         else if |vm.ctxs| >= MAX_CONTEXTS then PassOn(vm1, ContextOverflow)
                         else vm1.(ctxs := vm.ctxs + [Context(External, pars, |vm.stack|, f, hasObject, 0)],
                                   hosts := vm.hosts + [Entered(|vm.ctxs|, pars, pass, next)], mode := InScript(0))
    {
      hide PassOn;
      var vars, outer := curVal + 1, curCtx + 1;
      var ok := PushNullVals(VarsOf(w, f));
      if !ok {
        LeaveNative(ValueOverflow);
      } else {
        ok := PushContext(Context(External, pars, vars, f, hasObject, 0));
        if ok {
          hosts := hosts + [Entered(outer, pars, pass, next)];
          mode := InScript(0);
        } else {
          LeaveNative(ContextOverflow);
        }
      }
    }

    /** The built-in function is done: its result takes the place of its parameters. */
    method EndNative(v: Value)
      requires Valid()
      modifies this, values, contexts
      ensures Valid()
      ensures var vm := old(Model());
              Model() == if |vm.hosts| == 0 then vm.(mode := Finished(v))
                         else
                           var h := vm.hosts[|vm.hosts| - 1];
                           var vm2 := vm.(hosts := vm.hosts[..|vm.hosts| - 1]);
                           if h.Entered? then vm.(mode := Aborted(BadTarget))
                           else if h.slot >= |vm.stack| && |vm.stack| >= MAX_VALUES
                               then Machine.Raise(vm2, ValueOverflow, h.pc)
                           else if h.slot >= |vm.stack| then vm2.(stack := vm.stack + [v], mode := InScript(h.pc + 1))
                           else vm2.(stack := vm.stack[..h.slot] + [v], mode := InScript(h.pc + 1))
    {
      ghost var vm := Model();
      if |hosts| == 0 {
        mode := Finished(v);
      } else if hosts[|hosts| - 1].Entered? {
        mode := Aborted(BadTarget);
      } else {
        var h := hosts[|hosts| - 1];
        hosts := hosts[..|hosts| - 1];
        if h.slot > curVal {
          Push(v, h.pc);
        } else {
          values[h.slot] := v;
          PopValuesUntil(h.slot + 1);
          assert Stack() == vm.stack[..h.slot] + [v];
          Continue(h.pc + 1);
        }
      }
    }

    method RunNative(w: World, plan: Plan)
      requires Valid()
      modifies this, values, contexts
      ensures Valid() && Model() == HostStep(w, old(Model()), plan)
    {
      hide WriteAll, PassOn, Begin;
      var m := WriteAll(Mem(values[..curVal + 1], heap), plan.writes);
      SetMemory(m);
      assert Stack() == m.stack;
      match plan
      case Done(v, _) => EndNative(v);
      case Fail(e, _) => LeaveNative(e);
      case Run(f, hasObject, args, pass, _, next) =>
        if f < |w.funcs| && w.funcs[f].Script? {
          BeginRun(w, f, hasObject, args, pass, next);
        } else {
          mode := InHost(next(Nil, m));
        }
    }

    /** Takes away all calls from context `outer` on, and all values from its parameters on. */
    method Unwind(outer: nat)
      requires Valid() && outer <= curCtx
      modifies this`curVal, this`curCtx, values
      ensures Valid() && Ctxs() == old(Ctxs())[..outer]
      ensures var until := old(Ctxs())[outer].pars;
              Stack() == if until <= |old(Stack())| then old(Stack())[..until] else old(Stack())
    {
      var until := 0;
      while curCtx >= outer
        invariant Valid() && outer - 1 <= curCtx <= old(curCtx)
        invariant Ctxs() == old(Ctxs())[..curCtx + 1] && Stack() == old(Stack())
        invariant curCtx < outer ==> until == old(Ctxs())[outer].pars
      {
        until := contexts[curCtx].pars;
        PopContext();
      }
      PopValuesUntil(until);
    }

    /** An error has reached the innermost run from outside: it is passed on, or all calls and
        values of the run are taken away. */
    method HandleError(w: World, e: Error, pc: int)
      requires Valid()
      modifies this, values, contexts
      ensures Valid() && Model() == ErrorStep(w, old(Model()), e, pc)
    {
      hide PassOn;
      if |hosts| == 0 || hosts[|hosts| - 1].Calling? || hosts[|hosts| - 1].outer > curCtx {
        mode := Aborted(e);
      } else {
        var h := hosts[|hosts| - 1];
        hosts := hosts[..|hosts| - 1];
        SavePosition(h.outer, pc);
        assert Ctxs()[..h.outer] == old(Ctxs())[..h.outer];
        if h.pass {
          LeaveNative(e);
        } else {
          EndRun(h.outer, h.next);
        }
      }
    }

    /** The run comes to nil. */
    method EndRun(outer: nat, next: (Value, Mem) -> Plan)
      requires Valid() && outer <= curCtx
      modifies this`curVal, this`curCtx, this`mode, values
      ensures Valid() && outer < old(|Ctxs()|)
      ensures var until, s := old(Ctxs())[outer].pars, old(Stack());
              var stack := if until <= |s| then s[..until] else s;
              Model() == old(Model()).(stack := stack, ctxs := old(Ctxs())[..outer],
                  mode := InHost(next(Nil, Mem(stack, heap))))
    {
      Unwind(outer);
      mode := InHost(next(Nil, Mem(values[..curVal + 1], heap)));
    }

    // ----- everything -----

    method RunScript(w: World, pc: int)
      requires Valid() && OpsOk(w) && mode == InScript(pc)
      modifies this, values, contexts
      ensures Valid() && Model() == ScriptStep(w, old(Model()), pc)
    {
      hide Local, Call, Leave, OpsOk;
      ghost var vm := Model();
      if curCtx < 0 || curVal + 1 < Base(w, contexts[curCtx]) {
        Raise(Underflow, pc);
      } else {
        var c := contexts[curCtx];
        assert Top(vm.ctxs) == c;
        var code := CodeOf(w, c.func);
        if !(0 <= pc < |code|) {
          Raise(BadTarget, pc);
        } else if Need(code[pc]) > curVal + 1 - Base(w, c) {
          Raise(Underflow, pc);
        } else {
          match code[pc] {
            case RETURN => ReturnFrom(w);
            case FUNC(f, pars) => CallFunction(w, f, curVal + 1 - pars, curVal + 1 - pars, pars, c.hasObject, pc);
            case CALL(kind, f) => CallObject(w, kind, f, pc);
            case _ => RunChunk(w, pc, code[pc]);
          }
        }
      }
    }

    /** A call with a target below its ten parameters. */
    method CallObject(w: World, kind: CallKind, f: nat, pc: int)
      requires Valid() && curCtx >= 0 && MAX_PAR + 1 <= curVal + 1
      modifies this, values, contexts
      ensures Valid() && old(|Model().ctxs| > 0 && MAX_PAR + 1 <= |Model().stack|)
      ensures var vm := old(Model());
              var target := |vm.stack| - MAX_PAR - 1;
              Model() == match w.resolve(kind, f, vm.stack[target], Mem(vm.stack, vm.heap))
                         case Found(g, hasObject) => Call(w, vm, g, target, target + 1, MAX_PAR, hasObject, pc)
                         case Nobody => vm.(stack := vm.stack[..target] + [Nil], mode := InScript(pc + 1))
                         case NotFound(e) => Machine.Raise(vm, e, pc)
    {
      hide Call;
      ghost var vm := Model();
      var target := curVal - MAX_PAR;
      match w.resolve(kind, f, values[target], Mem(values[..curVal + 1], heap))
      case Found(g, hasObject) => CallFunction(w, g, target, target + 1, MAX_PAR, hasObject, pc);
      case NotFound(e) => Raise(e, pc);
      case Nobody =>
        PopValuesUntil(target + 1);
        values[target] := Nil;
        assert Stack() == vm.stack[..target] + [Nil];
        Continue(pc + 1);
    }

    /** One step after the other; never more than 1024 values or 512 calls, and nothing but nil
        above the top. */
    method RunFor(w: World, k: nat)
      requires Valid() && WorldOk(w) && Inv(w, Model())
      modifies this, values, contexts
      ensures Valid() && Model() == VMSteps(w, old(Model()), k) && Inv(w, Model())
    {
      hide WorldOk, OpsOk, ScriptStep, HostStep, ErrorStep, Inv;
      ghost var vm := Model();
      WorldOps(w);
      var left := k;
      while left > 0
        invariant Valid() && Inv(w, Model()) && VMSteps(w, Model(), left) == VMSteps(w, vm, k)
      {
        StepKeeps(w, Model());
        match mode {
          case InScript(pc) => RunScript(w, pc);
          case InHost(plan) => RunNative(w, plan);
          case Raised(e, pc) => HandleError(w, e, pc);
          case _ =>
        }
        left := left - 1;
      }
    }
  }
}
