/** The compiler at work: its code buffer, jump flag, stack height and loop stack are changed step
    by step, and come out as the trace of the chunks says. */
module CompilerState {
  import opened Bytecode
  import opened Source
  import opened Compile
  import opened Emitter
  import opened EmitterPlain
  import opened EmitterStmt
  import opened EmitterCalmStmt
  import Compiled
  import Meaning
  import StmtCorrect

  // ----- places of jumps -----

  /** A `break` or `continue` that waits for the end of its loop: where its jump stands. */
  datatype LoopControl = LoopControl(isBreak: bool, pos: nat)

  /** The controls of a loop, newest first, and the height of the stack in its body. */
  datatype Loop = Loop(stackSize: int, controls: seq<LoopControl>)

  function Place(t: Trace, i: nat): nat {
    if i < |t.pos| && t.pos[i] >= 0 then t.pos[i] else 0
  }

  function Places(t: Trace, cs: seq<Control>): (r: seq<LoopControl>)
    ensures |r| == |cs|
    ensures forall i :: 0 <= i < |r| ==> r[i] == LoopControl(cs[i].isBreak, Place(t, cs[i].at))
  {
    seq(|cs|, i requires 0 <= i < |cs| => LoopControl(cs[i].isBreak, Place(t, cs[i].at)))
  }

  /** New controls belong to the innermost loop. */
  function WithControls(loops: seq<Loop>, cs: seq<LoopControl>): seq<Loop> {
    if |loops| == 0 then loops else [loops[0].(controls := cs + loops[0].controls)] + loops[1..]
  }

  lemma WithNone(loops: seq<Loop>)
    ensures WithControls(loops, []) == loops
  {
    if |loops| > 0 { assert [] + loops[0].controls == loops[0].controls; }
  }

  lemma WithBoth(loops: seq<Loop>, a: seq<LoopControl>, b: seq<LoopControl>)
    ensures WithControls(WithControls(loops, a), b) == WithControls(loops, b + a)
  {
    if |loops| > 0 { assert b + (a + loops[0].controls) == b + a + loops[0].controls; }
  }

  lemma PlacesBoth(t: Trace, a: seq<Control>, b: seq<Control>)
    ensures Places(t, b) + Places(t, a) == Places(t, b + a)
  {
  }

  lemma PlacesKept(t: Trace, t': Trace, cs: seq<Control>)
    requires t.pos <= t'.pos && forall c :: c in cs ==> c.at < |t.pos|
    ensures Places(t', cs) == Places(t, cs)
  {
    forall i | 0 <= i < |cs| ensures Place(t', cs[i].at) == Place(t, cs[i].at) {
      assert cs[i] in cs;
      assert t'.pos[cs[i].at] == t.pos[cs[i].at];
    }
  }

  /** The jump asked for as chunk `g` stands at `op`. */
  ghost predicate Waiting(t: Trace, g: nat, op: nat) {
    g < |t.plain| && t.plain[g].JMP? && |t.pos| == |t.plain| + 1 && t.pos[g] == op
  }

  lemma WaitNew(strict: nat, t: Trace, kind: JumpKind)
    requires Placed(t)
    ensures Placed(Put(strict, t, JMP(kind, 0))) && Waiting(Put(strict, t, JMP(kind, 0)), |t.plain|, |t.code|)
  {
    hide Put;
    PutPlaced(strict, t, JMP(kind, 0));
    var t' := Put(strict, t, JMP(kind, 0));
    assert t'.pos[|t.plain|] == t.pos[|t.plain|];
  }

  lemma WaitKept(t0: Trace, t: Trace, code: Code, up: int, g: nat, op: nat)
    requires Waiting(t0, g, op) && Wrote(t0, t, code, up)
    ensures Waiting(t, g, op)
  {
    assert t.plain[g] == t0.plain[g];
    assert t.pos[g] == t0.pos[g];
  }

  lemma ControlWaits(t: Trace, c: Control)
    requires Placed(t) && c.at < |t.plain| && t.plain[c.at].JMP?
    ensures Waiting(t, c.at, Place(t, c.at)) && |t.pos| == |t.plain| + 1
  {
  }

  lemma StillPlaced(t0: Trace, t: Trace, code: Code, up: int)
    requires Wrote(t0, t, code, up)
    ensures Placed(t)
  {
  }

  lemma WaitStands(t: Trace, g: nat, op: nat)
    requires Placed(t) && Waiting(t, g, op)
    ensures IsJump(t, g) && op < |t.code| && t.code[op].JMP?
  {
  }

  // ----- chunks one after the other -----

  lemma {:induction false} PutAllAppend(strict: nat, t: Trace, xs: Code, x: Chunk)
    ensures PutAll(strict, t, xs + [x]) == Put(strict, PutAll(strict, t, xs), x)
    decreases |xs|
  {
    hide Put;
    if |xs| == 0 {
      assert (xs + [x])[1..] == [];
    } else {
      assert (xs + [x])[1..] == xs[1..] + [x];
      PutAllAppend(strict, Put(strict, t, xs[0]), xs[1..], x);
    }
  }

  lemma PutAllOne(strict: nat, t: Trace, x: Chunk)
    ensures PutAll(strict, t, [x]) == Put(strict, t, x) && PutAll(strict, t, []) == t
  {
    hide Put;
    PutAllAppend(strict, t, [], x);
    assert [] + [x] == [x];
  }

  lemma PutAllNobody(strict: nat, t: Trace, n: nat)
    ensures PutAll(strict, t, Balance(n, 0) + [STACK(-1), STACK(1)])
            == Put(strict, Put(strict, PutAll(strict, t, Balance(n, 0)), STACK(-1)), STACK(1))
  {
    hide Put;
    var b := Balance(n, 0);
    PutAllAppend(strict, t, b, STACK(-1));
    PutAllAppend(strict, t, b + [STACK(-1)], STACK(1));
    assert b + [STACK(-1)] + [STACK(1)] == b + [STACK(-1), STACK(1)];
  }

  // ----- what later chunks leave alone -----

  lemma PlacedEnd(t: Trace)
    requires Placed(t)
    ensures |t.pos| == |t.plain| + 1 && t.pos[|t.plain|] == |t.code|
  {
  }

  lemma HereKeeps(t: Trace)
    requires Placed(t)
    ensures Placed(Here(t)) && Here(t).plain == t.plain && Here(t).pos == t.pos && Here(t).code == t.code
    ensures |t.pos| == |t.plain| + 1 && t.pos[|t.plain|] == |t.code|
  {
    HerePlaced(t);
  }

  lemma WroteKeepsPlace(t0: Trace, t: Trace, code: Code, up: int, i: nat)
    requires Wrote(t0, t, code, up) && i < |t0.pos|
    ensures i < |t.pos| == |t.plain| + 1 && t.pos[i] == t0.pos[i] && |t0.plain| <= |t.plain|
  {
  }

  lemma StillWaiting(t: Trace, t': Trace, g: nat, op: nat)
    requires Waiting(t, g, op) && g < |t'.plain| && t'.plain[g].JMP? && |t'.pos| == |t'.plain| + 1 && t.pos <= t'.pos
    ensures Waiting(t', g, op)
  {
    assert t'.pos[g] == t.pos[g];
  }

  /** The controls of a statement written before still stand where they stood. */
  lemma EarlierControls(strict: nat, ref: bool, t: Trace, s: Stmt, t': Trace)
    requires Placed(t) && GenS(strict, ref, t, s).t.pos <= t'.pos
    ensures var w := GenS(strict, ref, t, s); Places(t', w.controls) == Places(w.t, w.controls)
  {
    hide GenS, CodeS, ControlsOf, Placed;
    var w := GenS(strict, ref, t, s);
    ControlsAreJumps(strict, ref, t, s);
    GenSWrites(strict, ref, t, s);
    PlacedEnd(w.t);
    PlacesKept(w.t, t', w.controls);
  }

  /** The jump out is the last chunk of a condition. */
  lemma CondLast(strict: nat, t: Trace, c: Expr)
    requires Placed(t)
    ensures |NoRef(GenE(strict, t, c)).plain| == |Put(strict, NoRef(GenE(strict, t, c)), JMP(Cond, 0)).plain| - 1
    ensures |t.plain| <= |NoRef(GenE(strict, t, c)).plain|
  {
    hide Put, NoRef, GenE, CodeE;
    GenCondWrites(strict, t, c);
  }

  lemma StepKeeps(t0: Trace, t: Trace, start: nat, jumpOut: nat)
    requires start < |t0.plain| && |t0.pos| == |t0.plain| + 1 && t0.pos <= t.pos
    ensures start < |t.pos| && t.pos[start] == t0.pos[start]
  {
  }

  lemma StepWrote(t1: Trace, t2: Trace, t: Trace, code: Code, n: nat, jumpBody: nat, incrementor: int)
    requires Placed(t1) && t2 == Here(t1) && Wrote(t2, t, code, 0)
    requires Waiting(t1, n, jumpBody) && |t1.plain| == n + 1 && incrementor == |t1.code|
    ensures Waiting(t, n, jumpBody) && n + 1 <= |t.plain| && t.pos[n + 1] == incrementor
    ensures Placed(t) && t1.plain <= t.plain && t1.pos <= t.pos
  {
    assert t.plain[n] == t1.plain[n] && t.pos[n] == t1.pos[n];
  }

  lemma SamePlaces(t: Trace, t': Trace, cs: seq<Control>)
    requires t.pos == t'.pos
    ensures Places(t', cs) == Places(t, cs)
  {
    assert Places(t', cs) == Places(t, cs);
  }

  lemma ElseWaits(strict: nat, t: Trace, g: nat, op: nat)
    requires Placed(t) && Waiting(t, g, op)
    ensures var t' := Put(strict, t, JMP(Always, 0));
            Placed(t') && Waiting(t', g, op) && Waiting(t', |t.plain|, |t.code|)
            && var t2 := RedirectHere(t', g);
               Waiting(t2, |t.plain|, |t.code|) && t.pos <= t2.pos && t2.height == t.height
  {
    hide Put, RedirectHere;
    WaitNew(strict, t, Always);
    PutPlaced(strict, t, JMP(Always, 0));
    var t' := Put(strict, t, JMP(Always, 0));
    assert t'.plain[g] == t.plain[g] && t'.pos[g] == t.pos[g];
    RedirectHerePlaced(t', g);
  }

  lemma {:induction false} SimpleControls(strict: nat, ref: bool, t: Trace, s: Stmt)
    requires Simple(s)
    ensures GenS(strict, ref, t, s).controls == []
    decreases s
  {
    hide Put, NoRef, GenE;
    if s.SSeq? {
      SimpleControls(strict, ref, t, s.first);
      SimpleControls(strict, ref, GenS(strict, ref, t, s.first).t, s.second);
    }
  }

  class Compiler {
    const strict: nat
    const returnRef: bool
    var code: Code
    var jump: bool
    var height: int
    var loops: seq<Loop>
    ghost var t: Trace

    /** The fields are those of the trace. */
    ghost predicate Agrees()
      reads this
    {
      code == t.code && jump == t.jump && height == t.height
    }

    /** And the trace knows where its chunks stand. */
    ghost predicate Valid()
      reads this
    {
      Agrees() && Placed(t)
    }

    constructor (strict: nat, returnRef: bool)
      ensures Valid() && t == EMPTY && loops == []
      ensures this.strict == strict && this.returnRef == returnRef
    {
      this.strict := strict;
      this.returnRef := returnRef;
      code, jump, height, loops := [], false, 0, [];
      t := EMPTY;
    }

    // ----- chunks and jumps -----

    method AddBCC(x: Chunk)
      requires Agrees()
      modifies this
      ensures Agrees() && t == Put(strict, old(t), x) && loops == old(loops)
    {
      height := height + Delta(x);
      var c := x;
      if (c == INT(0) || c == BOOL(false)) && strict < 3 {
        c := STACK(1);
      }
      t := Put(strict, t, x);
      if !jump && c.STACK? && |code| > 0 && code[|code| - 1].STACK? && (c.n <= 0 || code[|code| - 1].n >= 0) {
        var sum := code[|code| - 1].n + c.n;
        if sum == 0 {
          code := code[..|code| - 1];
        } else {
          code := code[|code| - 1 := STACK(sum)];
        }
      } else {
        code := code + [c];
        jump := false;
      }
    }

    method SetNoRef()
      requires Agrees()
      modifies this
      ensures Agrees() && t == NoRef(old(t)) && loops == old(loops)
    {
      t := NoRef(t);
      if |code| > 0 {
        var last := code[|code| - 1];
        match last
        case SLOT(kind, i, _) => code := code[|code| - 1 := SLOT(kind, i, false)];
        case UN(DynVar(_)) => code := code[|code| - 1 := UN(DynVar(false))];
        case UN(DynPar(_)) => code := code[|code| - 1 := UN(DynPar(false))];
        case _ =>
      }
    }

    method JumpHere() returns (pos: nat)
      requires Agrees()
      modifies this
      ensures Agrees() && t == Here(old(t)) && loops == old(loops) && pos == |code|
    {
      jump := true;
      t := Here(t);
      pos := |code|;
    }

    method SetJumpHere(op: nat, ghost g: nat)
      requires Valid() && Waiting(t, g, op)
      modifies this
      ensures Valid() && t == RedirectHere(old(t), g) && loops == old(loops) && t.pos == old(t).pos
    {
      WaitStands(t, g, op);
      RedirectHerePlaced(t, g);
      t := RedirectHere(t, g);
      code := code[op := JMP(code[op].jkind, |code| - op)];
      jump := true;
    }

    method SetJump(op: nat, where: nat, ghost g: nat, ghost w: nat)
      requires Valid() && Waiting(t, g, op) && w <= |t.plain| && t.pos[w] == where
      modifies this
      ensures Valid() && t == Redirect(old(t), g, w) && loops == old(loops) && t.pos == old(t).pos
    {
      WaitStands(t, g, op);
      RedirectPlaced(t, g, w);
      t := Redirect(t, g, w);
      code := code[op := JMP(code[op].jkind, where - op)];
    }

    method AddJump(where: nat, ghost w: nat)
      requires Valid() && w <= |t.plain| && t.pos[w] == where
      modifies this
      ensures Valid() && t == PutBack(old(t), w) && loops == old(loops)
    {
      PutBackPlaced(t, w);
      ghost var t' := PutBack(t, w);
      AddBCC(JMP(Always, where - |code|));
      t := t';
    }

    // ----- loops -----

    method PushLoop()
      requires Agrees()
      modifies this
      ensures Agrees() && t == old(t) && loops == [Loop(height, [])] + old(loops)
    {
      loops := [Loop(height, [])] + loops;
    }

    method AddLoopControl(isBreak: bool)
      requires Agrees() && |loops| > 0
      modifies this
      ensures Agrees() && t == old(t) && loops == WithControls(old(loops), [LoopControl(isBreak, |code|)])
    {
      loops := [loops[0].(controls := [LoopControl(isBreak, |code|)] + loops[0].controls)] + loops[1..];
    }

    /** The jump back, and where everything that leaves the loop or ends a round leads. */
    method PopLoop(back: nat, ghost w: nat, hasExit: bool, exit: nat, ghost g: nat, ghost cs: seq<Control>)
      requires Valid() && w <= |t.plain| && t.pos[w] == back
      requires hasExit ==> Waiting(t, g, exit)
      requires |loops| > 0 && loops[0].controls == Places(t, cs)
      requires forall c :: c in cs ==> c.at < |t.plain| && t.plain[c.at].JMP?
      modifies this
      ensures Valid() && t == EndLoop(Written(old(t), cs), w, if hasExit then [g] else [])
      ensures loops == old(loops)[1..]
    {
      hide Redirect, RedirectHere, Placed, PutBack, Resolve;
      PlacedEnd(t);
      PutBackPlaced(t, w);
      ghost var t0 := t;
      AddJump(back, w);
      PlacedEnd(t);
      if hasExit {
        StillWaiting(t0, t, g, exit);
        RedirectHerePlaced(t, g);
        SetJumpHere(exit, g);
      }
      PlacesKept(t0, t, cs);
      SetControls(back, w, cs);
      loops := loops[1..];
    }

    method SetControls(back: nat, ghost w: nat, ghost cs: seq<Control>)
      requires Valid() && w <= |t.plain| && t.pos[w] == back
      requires |loops| > 0 && loops[0].controls == Places(t, cs)
      requires forall c :: c in cs ==> c.at < |t.plain| && t.plain[c.at].JMP?
      modifies this
      ensures Valid() && t == Resolve(old(t), cs, w) && loops == old(loops)
    {
      hide Redirect, RedirectHere, Placed;
      ghost var todo := cs;
      var rest := loops[0].controls;
      while |rest| > 0
        invariant Valid() && loops == old(loops)
        invariant rest == Places(t, todo) && t.pos == old(t).pos && |t.plain| == |old(t).plain|
        invariant forall c :: c in todo ==> c.at < |t.plain| && t.plain[c.at].JMP?
        invariant Resolve(t, todo, w) == Resolve(old(t), cs, w)
        decreases |rest|
      {
        ghost var c, before := todo[0], t;
        assert c in todo && forall d :: d in todo[1..] ==> d in todo;
        ControlWaits(t, c);
        if rest[0].isBreak {
          RedirectHerePlaced(t, c.at);
          SetJumpHere(rest[0].pos, c.at);
        } else {
          RedirectPlaced(t, c.at, w);
          SetJump(rest[0].pos, back, c.at, w);
        }
        SamePlaces(before, t, todo[1..]);
        assert Places(before, todo)[1..] == Places(before, todo[1..]);
        rest, todo := rest[1..], todo[1..];
      }
    }

    // ----- expressions -----

    /** Writes an expression. */
    method ParseExpression(e: Expr)
      requires Valid()
      modifies this
      ensures Valid() && t == GenE(strict, old(t), e) && loops == old(loops)
      decreases e, 3
    {
      hide Put, NoRef, RedirectHere, PutAll, GenArgs, CodeE, Placed, CodeCall, CodeMethod;
      GenEWrites(strict, t, e);
      match e
      case EConst(c) => AddBCC(RawConst(c));
      case ESlot(kind, i) => AddBCC(SLOT(kind, i, true));
      case EUnary(op, arg) => ParsePrefix(op, arg, e);
      case EBinary(op, l, r) => ParseBinary(l, !Modifies(op), r, BinChunk(op, strict), e);
      case ELogic(op, l, r) =>
        if ShortCircuit(op, strict) {
          ParseShort(l, r, LogicJump(op), e);
        } else {
          ParseBinary(l, true, r, LogicChunk(op), e);
        }
      case ENilAssign(l, r) => ParseNilAssign(l, r, e);
      case ECall(callee, args) => ParseCall(callee, args, e);
      case EMethod(how, target, args) =>
        ParseExpression(target);
        ParseMethod(how, args, e);
    }

    method ParsePrefix(op: Unary, arg: Expr, ghost e: Expr)
      requires Valid() && arg < e
      modifies this
      ensures Agrees() && loops == old(loops)
      ensures t == var t1 := GenE(strict, old(t), arg);
                   if op == PrePlus then t1
                   else if op == PreNeg && EndsInInt(t1.code) then Negate(t1)
                   else Put(strict, NoRefIf(t1, !KeepsRef(op)), UN(UnaryChunk(op, false)))
      decreases e, 0
    {
      hide Put, NoRef, CodeE, Placed, GenE;
      ParseExpression(arg);
      if op != PrePlus {
        if op == PreNeg && |code| > 0 && code[|code| - 1].INT? {
          t := Negate(t);
          code := code[|code| - 1 := INT(-code[|code| - 1].x)];
        } else {
          if !KeepsRef(op) { SetNoRef(); }
          AddBCC(UN(UnaryChunk(op, false)));
        }
      }
    }

    method ParseValue(e: Expr, valueOnly: bool)
      requires Valid()
      modifies this
      ensures Valid() && t == NoRefIf(GenE(strict, old(t), e), valueOnly) && loops == old(loops)
      decreases e, 4
    {
      hide NoRef, CodeE, Placed, GenE;
      GenValueWrites(strict, t, e, valueOnly);
      ParseExpression(e);
      if valueOnly { SetNoRef(); }
    }

    method ParseBinary(l: Expr, lv: bool, r: Expr, op: BinOp, ghost e: Expr)
      requires Valid() && l < e && r < e
      modifies this
      ensures Agrees() && loops == old(loops)
      ensures t == Put(strict, NoRef(GenE(strict, NoRefIf(GenE(strict, old(t), l), lv), r)), BIN(op))
      decreases e, 0
    {
      hide Put, NoRef, Placed, GenE;
      ParseValue(l, lv);
      ParseValue(r, true);
      AddBCC(BIN(op));
    }

    /** A jump over the second operand. */
    method ParseShort(l: Expr, r: Expr, kind: JumpKind, ghost e: Expr)
      requires Valid() && l < e && r < e
      modifies this
      ensures Valid() && loops == old(loops)
      ensures t == var t1 := NoRef(GenE(strict, old(t), l));
                   RedirectHere(GenE(strict, Put(strict, t1, JMP(kind, 0)), r), |t1.plain|)
      decreases e, 0
    {
      hide Put, NoRef, Placed, GenE, RedirectHere, CodeE;
      ParseValue(l, true);
      var cond := |code|;
      ghost var g := |t.plain|;
      WaitNew(strict, t, kind);
      AddBCC(JMP(kind, 0));
      ghost var t2 := t;
      ParseExpression(r);
      GenEWrites(strict, t2, r);
      WaitKept(t2, t, CodeE(strict, r, false), 1, g, cond);
      SetJumpHere(cond, g);
    }

    method ParseNilAssign(l: Expr, r: Expr, ghost e: Expr)
      requires Valid() && l < e && r < e
      modifies this
      ensures Valid() && loops == old(loops)
      ensures t == var t1 := GenE(strict, old(t), l);
                   RedirectHere(Put(strict, GenE(strict, Put(strict, t1, JMP(IfSet, 0)), r), BIN(Set)), |t1.plain|)
      decreases e, 0
    {
      hide Put, NoRef, Placed, GenE, RedirectHere, CodeE;
      ParseExpression(l);
      var cond := |code|;
      ghost var g := |t.plain|;
      WaitNew(strict, t, IfSet);
      AddBCC(JMP(IfSet, 0));
      ghost var t2 := t;
      ParseExpression(r);
      GenEWrites(strict, t2, r);
      PutWrote(strict, t2, t, CodeE(strict, r, false), 1, BIN(Set));
      AddBCC(BIN(Set));
      WaitKept(t2, t, CodeE(strict, r, false) + [Converted(strict, BIN(Set))], 0, g, cond);
      StillPlaced(t2, t, CodeE(strict, r, false) + [Converted(strict, BIN(Set))], 0);
      SetJumpHere(cond, g);
    }

    /** Parameters or array elements one after the other. */
    method ParseArgs(args: Args, ghost e: Expr) returns (size: nat)
      requires Valid() && args < e
      modifies this
      ensures Valid() && t == GenArgs(strict, old(t), args) && size == Count(args) && loops == old(loops)
      decreases e, 0
    {
      hide Placed, GenE, NoRef;
      var rest := args;
      size := 0;
      while rest.Arg?
        invariant Valid() && loops == old(loops) && rest < e
        invariant GenArgs(strict, t, rest) == GenArgs(strict, old(t), args) && size + Count(rest) == Count(args)
        decreases rest
      {
        ParseValue(rest.e, !rest.keepRef);
        size := size + 1;
        rest := rest.rest;
      }
    }

    /** Parameters, brought to the number the callee takes. */
    method ParseParams(args: Args, want: nat, ghost e: Expr)
      requires Valid() && args < e
      modifies this
      ensures Agrees() && loops == old(loops)
      ensures t == PutAll(strict, GenArgs(strict, old(t), args), Balance(Count(args), want))
      decreases e, 1
    {
      hide Placed, GenArgs, Put;
      var size := ParseArgs(args, e);
      PutAllOne(strict, t, STACK(want - size));
      if size != want {
        AddBCC(STACK(want - size));
      }
    }

    method ParseCall(callee: Callee, args: Args, ghost e: Expr)
      requires Valid() && args < e
      modifies this
      ensures Agrees() && loops == old(loops)
      ensures t == PutAll(strict, GenArgs(strict, PutAll(strict, old(t), CodeBefore(callee)), args),
              CodeCall(callee, Count(args)))
      decreases e, 2
    {
      hide Placed, GenArgs, Put, PutAll;
      ghost var n := Count(args);
      PutPlaced(strict, t, STACK(1));
      PutAllOne(strict, t, STACK(1));
      if callee.Global? || callee.NoGlobal? {
        AddBCC(STACK(1));
      }
      ghost var t1 := GenArgs(strict, t, args);
      match callee
      case Function(f, pars) =>
        ParseParams(args, pars, e);
        AddBCC(FUNC(f, pars));
        PutAllAppend(strict, t1, Balance(n, pars), FUNC(f, pars));
      case Global(f) =>
        ParseParams(args, MAX_PAR, e);
        AddBCC(CALL(CallGlobal, f));
        PutAllAppend(strict, t1, Balance(n, MAX_PAR), CALL(CallGlobal, f));
      case NoInherited =>
        ParseParams(args, 0, e);
        AddBCC(STACK(1));
        PutAllAppend(strict, t1, Balance(n, 0), STACK(1));
      case NoGlobal =>
        ParseParams(args, 0, e);
        PutAllNobody(strict, t1, n);
        AddBCC(STACK(-1));
        AddBCC(STACK(1));
      case NewArray =>
        var size := ParseArgs(args, e);
        AddBCC(ARRAY(size));
        PutAllOne(strict, t1, ARRAY(n));
    }

    /** The call of a method, whose target has been written. */
    method ParseMethod(how: Method, args: Args, ghost e: Expr)
      requires Valid() && args < e
      modifies this
      ensures Agrees() && loops == old(loops)
      ensures t == PutAll(strict, GenArgs(strict, old(t), args), CodeMethod(how, Count(args)))
      decreases e, 2
    {
      hide Placed, GenArgs, Put, PutAll;
      ghost var n, t1 := Count(args), GenArgs(strict, t, args);
      match how
      case Named(failSafe, f) =>
        ParseParams(args, MAX_PAR, e);
        AddBCC(CALL(MethodKind(failSafe), f));
        PutAllAppend(strict, t1, Balance(n, MAX_PAR), CALL(MethodKind(failSafe), f));
      case Unknown =>
        ParseParams(args, 0, e);
        PutAllNobody(strict, t1, n);
        AddBCC(STACK(-1));
        AddBCC(STACK(1));
    }

    // ----- statements -----

    /** Inside a loop, the stack is as high as when the loop was entered. */
    ghost predicate Level()
      reads this
    {
      |loops| > 0 ==> loops[0].stackSize == height
    }

    method ParseStatement(s: Stmt)
      requires Valid() && Level() && LoopsOnly(s, |loops| > 0)
      modifies this
      ensures Valid() && height == old(height)
      ensures var w := GenS(strict, returnRef, old(t), s);
              t == w.t && loops == WithControls(old(loops), Places(t, w.controls))
      decreases s, 5
    {
      hide Put, NoRef, Placed, GenE, CodeE, CodeS, ControlsOf, RedirectHere, EndLoop, GenTest, GenInc, Here;
      GenSWrites(strict, returnRef, t, s);
      WithNone(loops);
      match s
      case SEmpty =>
      case SExpr(e, valueOnly) =>
        ParseValue(e, valueOnly);
        AddBCC(STACK(-1));
      case SVar(v, e) =>
        ParseValue(e, true);
        AddBCC(IVARN(v));
      case SSeq(a, b) => ParseSeq(a, b, s);
      case SIf(c, thn) => ParseIf(c, thn, s);
      case SIfElse(c, thn, els) => ParseIfElse(c, thn, els, s);
      case SWhile(c, body) => ParseWhile(c, body, s);
      case SFor(start, c, inc, body) => ParseFor(start, c, inc, body, s);
      case SForEach(v, e, body) => ParseForEach(v, e, body, s);
      case SBreak => ParseControl(true);
      case SContinue => ParseControl(false);
      case SReturn(e) =>
        ParseValue(e, !returnRef);
        AddBCC(RETURN);
      case SReturnNil =>
        AddBCC(NIL);
        AddBCC(RETURN);
    }

    method ParseControl(isBreak: bool)
      requires Valid() && Level() && |loops| > 0
      modifies this
      ensures Agrees() && t == Put(strict, old(t), JMP(Always, 0))
      ensures loops == WithControls(old(loops), Places(t, [Control(isBreak, |old(t).plain|)]))
    {
      hide Put;
      if loops[0].stackSize != height {
        // values are left over here only between the parts of an expression
        assert false;
      }
      AddLoopControl(isBreak);
      ghost var t0 := t;
      WaitNew(strict, t0, Always);
      AddBCC(JMP(Always, 0));
      assert Place(t, |t0.plain|) == |t0.code|;
      assert Places(t, [Control(isBreak, |t0.plain|)]) == [LoopControl(isBreak, |t0.code|)];
    }

    method ParseSeq(a: Stmt, b: Stmt, ghost s: Stmt)
      requires Valid() && Level() && LoopsOnly(a, |loops| > 0) && LoopsOnly(b, |loops| > 0) && a < s && b < s
      modifies this
      ensures Agrees()
      ensures var w1 := GenS(strict, returnRef, old(t), a);
              var w2 := GenS(strict, returnRef, w1.t, b);
              t == w2.t && loops == WithControls(old(loops), Places(t, w2.controls + w1.controls))
      decreases s, 0
    {
      hide Placed, GenS, CodeS, ControlsOf;
      ghost var t0, loops0 := t, loops;
      ParseStatement(a);
      ghost var w1 := GenS(strict, returnRef, t0, a);
      ParseStatement(b);
      ghost var w2 := GenS(strict, returnRef, w1.t, b);
      GenSWrites(strict, returnRef, w1.t, b);
      EarlierControls(strict, returnRef, t0, a, w2.t);
      PlacesBoth(t, w1.controls, w2.controls);
      WithBoth(loops0, Places(t, w1.controls), Places(t, w2.controls));
    }

    /** A condition and the jump behind it, which waits. */
    method ParseCondition(c: Expr) returns (cond: nat)
      requires Valid()
      modifies this
      ensures Valid() && loops == old(loops) && height == old(height)
      ensures var t1 := NoRef(GenE(strict, old(t), c));
              t == Put(strict, t1, JMP(Cond, 0)) && Waiting(t, |t1.plain|, cond)
              && Wrote(old(t), t, CodeE(strict, c, true) + [JMP(Cond, 0)], 0)
      decreases c, 5
    {
      hide Put, NoRef, Placed, GenE, CodeE;
      GenCondWrites(strict, t, c);
      ParseValue(c, true);
      cond := |code|;
      WaitNew(strict, t, Cond);
      AddBCC(JMP(Cond, 0));
    }

    method ParseIf(c: Expr, thn: Stmt, ghost s: Stmt)
      requires Valid() && Level() && LoopsOnly(thn, |loops| > 0) && c < s && thn < s
      modifies this
      ensures Agrees()
      ensures var t1 := NoRef(GenE(strict, old(t), c));
              var w := GenS(strict, returnRef, Put(strict, t1, JMP(Cond, 0)), thn);
              t == RedirectHere(w.t, |t1.plain|) && loops == WithControls(old(loops), Places(t, w.controls))
      decreases s, 0
    {
      hide Placed, GenS, CodeS, ControlsOf, Put, NoRef, GenE, CodeE, RedirectHere;
      ghost var g := |NoRef(GenE(strict, t, c)).plain|;
      var cond := ParseCondition(c);
      ghost var t1 := t;
      ParseStatement(thn);
      ghost var w := GenS(strict, returnRef, t1, thn);
      GenSWrites(strict, returnRef, t1, thn);
      WaitKept(t1, t, CodeS(strict, thn, returnRef, Pending), 0, g, cond);
      SetJumpHere(cond, g);
      SamePlaces(w.t, t, w.controls);
    }

    method ParseIfElse(c: Expr, thn: Stmt, els: Stmt, ghost s: Stmt)
      requires Valid() && Level() && LoopsOnly(thn, |loops| > 0) && LoopsOnly(els, |loops| > 0) && c < s && thn < s
               && els < s
      modifies this
      ensures Agrees()
      ensures var t1 := NoRef(GenE(strict, old(t), c));
              var w1 := GenS(strict, returnRef, Put(strict, t1, JMP(Cond, 0)), thn);
              var t2 := RedirectHere(Put(strict, w1.t, JMP(Always, 0)), |t1.plain|);
              var w2 := GenS(strict, returnRef, t2, els);
              t == RedirectHere(w2.t, |w1.t.plain|)
              && loops == WithControls(old(loops), Places(t, w2.controls + w1.controls))
      decreases s, 1
    {
      hide Placed, GenS, CodeS, ControlsOf, Put, NoRef, GenE, CodeE, RedirectHere;
      ghost var g, loops0 := |NoRef(GenE(strict, t, c)).plain|, loops;
      var cond := ParseCondition(c);
      ghost var t1 := t;
      ParseStatement(thn);
      ghost var w1 := GenS(strict, returnRef, t1, thn);
      GenSWrites(strict, returnRef, t1, thn);
      WaitKept(t1, t, CodeS(strict, thn, returnRef, Pending), 0, g, cond);
      ghost var cs := ParseElse(els, cond, g, s);
      EarlierControls(strict, returnRef, t1, thn, t);
      PlacesBoth(t, w1.controls, cs);
      WithBoth(loops0, Places(t, w1.controls), Places(t, cs));
    }

    /** The jump over the `else` branch, and the branch, to which the jump at `cond` leads. */
    method ParseElse(els: Stmt, cond: nat, ghost g: nat, ghost s: Stmt) returns (ghost cs: seq<Control>)
      requires Valid() && Level() && LoopsOnly(els, |loops| > 0) && els < s && Waiting(t, g, cond)
      modifies this
      ensures Agrees()
      ensures var t2 := RedirectHere(Put(strict, old(t), JMP(Always, 0)), g);
              var w2 := GenS(strict, returnRef, t2, els);
              t == RedirectHere(w2.t, |old(t).plain|) && cs == w2.controls
              && loops == WithControls(old(loops), Places(t, cs))
      ensures old(t).pos <= t.pos
      decreases s, 0
    {
      hide Placed, GenS, CodeS, ControlsOf, Put, RedirectHere;
      var over := |code|;
      ghost var h := |t.plain|;
      ElseWaits(strict, t, g, cond);
      AddBCC(JMP(Always, 0));
      SetJumpHere(cond, g);
      ghost var t2 := t;
      ParseStatement(els);
      ghost var w2 := GenS(strict, returnRef, t2, els);
      GenSWrites(strict, returnRef, t2, els);
      WaitKept(t2, t, CodeS(strict, els, returnRef, Pending), 0, h, over);
      SetJumpHere(over, h);
      SamePlaces(w2.t, t, w2.controls);
      cs := w2.controls;
    }

    method ParseWhile(c: Expr, body: Stmt, ghost s: Stmt)
      requires Valid() && LoopsOnly(body, true) && c < s && body < s
      modifies this
      ensures Agrees() && loops == old(loops)
      ensures var t1 := NoRef(GenE(strict, Here(old(t)), c));
              var w := GenS(strict, returnRef, Put(strict, t1, JMP(Cond, 0)), body);
              t == EndLoop(w, |old(t).plain|, [|t1.plain|])
      decreases s, 1
    {
      hide Placed, GenS, CodeS, ControlsOf, Put, NoRef, GenE, CodeE, EndLoop, Here;
      ghost var t0 := t;
      HereKeeps(t0);
      var start := JumpHere();
      ghost var g := |NoRef(GenE(strict, t, c)).plain|;
      var cond := ParseCondition(c);
      WroteKeepsPlace(Here(t0), t, CodeE(strict, c, true) + [JMP(Cond, 0)], 0, |t0.plain|);
      ParseLoop(body, start, |t0.plain|, true, cond, g, s);
    }

    /** The body of a loop and its end. */
    method ParseLoop(body: Stmt, back: nat, ghost w: nat, hasExit: bool, exit: nat, ghost g: nat, ghost s: Stmt)
      requires Valid() && LoopsOnly(body, true) && body < s
      requires w <= |t.plain| && t.pos[w] == back
      requires hasExit ==> Waiting(t, g, exit)
      modifies this
      ensures Valid() && loops == old(loops)
      ensures t == EndLoop(GenS(strict, returnRef, old(t), body), w, if hasExit then [g] else [])
      decreases s, 0
    {
      hide Placed, GenS, CodeS, ControlsOf, EndLoop;
      ghost var t1, loops0 := t, loops;
      PlacedEnd(t);
      PushLoop();
      ParseStatement(body);
      ghost var written := GenS(strict, returnRef, t1, body);
      GenSWrites(strict, returnRef, t1, body);
      ControlsAreJumps(strict, returnRef, t1, body);
      WroteKeepsPlace(t1, t, CodeS(strict, body, returnRef, Pending), 0, w);
      if hasExit { WaitKept(t1, t, CodeS(strict, body, returnRef, Pending), 0, g, exit); }
      assert loops[0].controls == Places(t, written.controls) + [] == Places(t, written.controls);
      assert loops[1..] == loops0;
      PopLoop(back, w, hasExit, exit, g, written.controls);
    }

    method ParseForEach(v: nat, e: Expr, body: Stmt, ghost s: Stmt)
      requires Valid() && LoopsOnly(body, true) && e < s && body < s
      modifies this
      ensures Agrees() && loops == old(loops)
      ensures var t1 := Put(strict, GenE(strict, old(t), e), INT(0));
              var t2 := Put(strict, Put(strict, t1, FOREACH(v)), JMP(Always, 0));
              t == Put(strict, EndLoop(GenS(strict, returnRef, t2, body), |t1.plain|, [|t1.plain| + 1]), STACK(-2))
      decreases s, 1
    {
      hide Placed, GenS, Put, GenE, EndLoop;
      ParseExpression(e);
      PutPlaced(strict, t, INT(0));
      AddBCC(INT(0));
      var start := |code|;
      ghost var w := |t.plain|;
      PlacedEnd(t);
      PutPlaced(strict, t, FOREACH(v));
      AddBCC(FOREACH(v));
      var cond := |code|;
      WaitNew(strict, t, Always);
      PutPlaced(strict, t, JMP(Always, 0));
      AddBCC(JMP(Always, 0));
      ParseLoop(body, start, w, true, cond, w + 1, s);
      AddBCC(STACK(-2));
    }

    method ParseFor(start: Stmt, c: OptExpr, inc: OptExpr, body: Stmt, ghost s: Stmt)
      requires Valid() && Level() && Simple(start) && LoopsOnly(body, true) && start < s && c < s && inc < s && body < s
      modifies this
      ensures Agrees() && loops == old(loops)
      ensures var t0 := GenS(strict, returnRef, old(t), start).t;
              var t1 := GenTest(strict, t0, c);
              var t2 := GenInc(strict, t1, inc, c.Some?, |t0.plain|);
              var t3 := if inc.Some? then RedirectHere(Here(t2), |t1.plain|) else Here(t2);
              var back := if inc.Some? then |t1.plain| + 1 else if c.Some? then |t0.plain| else |t2.plain|;
              t == EndLoop(GenS(strict, returnRef, t3, body), back, if c.Some? then [|t1.plain| - 1] else [])
      decreases s, 3
    {
      hide Placed, GenS, CodeS, ControlsOf, EndLoop, GenTest, GenInc, RedirectHere, Here;
      StmtCorrect.SimpleLoopsOnly(start, |loops| > 0);
      SimpleControls(strict, returnRef, t, start);
      WithNone(loops);
      ParseStatement(start);
      ParseRounds(c, inc, body, s);
    }

    /** The condition of a `for` loop, if any, and the jump out. */
    method ParseTest(c: OptExpr, ghost s: Stmt) returns (condition: nat, jumpOut: nat)
      requires Valid() && c < s
      modifies this
      ensures Valid() && loops == old(loops) && t == GenTest(strict, old(t), c)
      ensures c.Some? ==>
                |old(t).plain| < |t.plain| && t.pos[|old(t).plain|] == condition
                && Waiting(t, |t.plain| - 1, jumpOut)
      decreases s, 1
    {
      hide Placed, Put, NoRef, GenE, CodeE, Here;
      condition, jumpOut := 0, 0;
      if c.Some? {
        ghost var t0 := t;
        HereKeeps(t);
        condition := JumpHere();
        ghost var g := |NoRef(GenE(strict, t, c.e)).plain|;
        jumpOut := ParseCondition(c.e);
        WroteKeepsPlace(Here(t0), t, CodeE(strict, c.e, true) + [JMP(Cond, 0)], 0, |t0.plain|);
        CondLast(strict, Here(t0), c.e);
      }
    }

    /** A `for` loop from its condition on. */
    method ParseRounds(c: OptExpr, inc: OptExpr, body: Stmt, ghost s: Stmt)
      requires Valid() && LoopsOnly(body, true) && c < s && inc < s && body < s
      modifies this
      ensures Agrees() && loops == old(loops)
      ensures var t0 := old(t);
              var t1 := GenTest(strict, t0, c);
              var t2 := GenInc(strict, t1, inc, c.Some?, |t0.plain|);
              var t3 := if inc.Some? then RedirectHere(Here(t2), |t1.plain|) else Here(t2);
              var back := if inc.Some? then |t1.plain| + 1 else if c.Some? then |t0.plain| else |t2.plain|;
              t == EndLoop(GenS(strict, returnRef, t3, body), back, if c.Some? then [|t1.plain| - 1] else [])
      decreases s, 2
    {
      hide Placed, GenS, EndLoop, Put, NoRef, GenE, CodeE, RedirectHere, Here, GenTest;
      ghost var start := |t.plain|;
      var condition, jumpOut := ParseTest(c, s);
      ghost var n := |t.plain|;
      if inc.Some? {
        var incrementor := ParseIncrement(inc.e, c.Some?, condition, start, jumpOut, s);
        ParseLoop(body, incrementor, n + 1, c.Some?, jumpOut, if c.Some? then n - 1 else 0, s);
      } else {
        HereKeeps(t);
        ghost var t1 := t;
        var bodyStart := JumpHere();
        if c.Some? {
          StillWaiting(t1, t, n - 1, jumpOut);
          ParseLoop(body, condition, start, true, jumpOut, n - 1, s);
        } else {
          ParseLoop(body, bodyStart, n, false, 0, 0, s);
        }
      }
    }

    /** The increment of a `for` loop, and the way over it into the body. */
    method ParseIncrement(e: Expr, cond: bool, condition: nat, ghost start: nat, ghost jumpOut: nat, ghost s: Stmt)
      returns (incrementor: nat)
      requires Valid() && e < s
      requires cond ==> start < |t.plain| && t.pos[start] == condition && Waiting(t, |t.plain| - 1, jumpOut)
      modifies this
      ensures Valid() && loops == old(loops)
      ensures t == RedirectHere(Here(GenInc(strict, old(t), Some(e), cond, start)), |old(t).plain|)
      ensures |old(t).plain| + 1 <= |t.plain| && t.pos[|old(t).plain| + 1] == incrementor
      ensures cond ==> Waiting(t, |old(t).plain| - 1, jumpOut)
      decreases s, 1
    {
      hide Placed, Put, NoRef, GenE, CodeE, RedirectHere, Here, PutBack;
      ghost var t0, n := t, |t.plain|;
      PlacedEnd(t);
      var jumpBody: nat;
      jumpBody, incrementor := ParseStep(e, s);
      PlacedEnd(t);
      if cond {
        PutBackPlaced(t, start);
        StepKeeps(t0, t, start, jumpOut);
        AddJump(condition, start);
      }
      ghost var t2 := t;
      PlacedEnd(t2);
      HereKeeps(t2);
      var _ := JumpHere();
      StillWaiting(t2, t, n, jumpBody);
      RedirectHerePlaced(t, n);
      SetJumpHere(jumpBody, n);
      if cond { StillWaiting(t0, t, n - 1, jumpOut); }
    }

    /** The increment alone, behind a jump that waits. */
    method ParseStep(e: Expr, ghost s: Stmt) returns (jumpBody: nat, incrementor: nat)
      requires Valid() && e < s
      modifies this
      ensures Valid() && loops == old(loops)
      ensures t == Put(strict, NoRef(GenE(strict, Here(Put(strict, old(t), JMP(Always, 0))), e)), STACK(-1))
      ensures Waiting(t, |old(t).plain|, jumpBody)
      ensures |old(t).plain| + 1 <= |t.plain| && t.pos[|old(t).plain| + 1] == incrementor
      ensures old(t).plain <= t.plain && old(t).pos <= t.pos
      decreases s, 0
    {
      hide Placed, Put, NoRef, GenE, CodeE, Here;
      jumpBody := |code|;
      ghost var n := |t.plain|;
      WaitNew(strict, t, Always);
      PutPlaced(strict, t, JMP(Always, 0));
      AddBCC(JMP(Always, 0));
      HereKeeps(t);
      ghost var t1 := t;
      incrementor := JumpHere();
      ghost var t2 := t;
      ParseValue(e, true);
      GenValueWrites(strict, t2, e, true);
      PutWrote(strict, t2, t, CodeE(strict, e, true), 1, STACK(-1));
      AddBCC(STACK(-1));
      StepWrote(t1, t2, t, CodeE(strict, e, true) + [STACK(-1)], n, jumpBody, incrementor);
    }

    // ----- functions -----

    /** Writes the body, a return where none was just written, and the end mark. */
    method ParseFunction(body: Stmt)
      requires Valid() && t == EMPTY && loops == [] && LoopsOnly(body, false)
      modifies this
      ensures Agrees() && t == GenFunction(strict, returnRef, body)
    {
      hide Put, GenS;
      ParseStatement(body);
      if !(|code| > 0 && code[|code| - 1].RETURN?) || jump {
        AddBCC(NIL);
        AddBCC(RETURN);
      }
      AddBCC(EOFN);
    }
  }

  /** Compiles one function. The code does what the program says, in every environment and from
      every memory, unless the program calls missing functions or negates what is no number. */
  method CompileFunction(strict: nat, returnRef: bool, body: Stmt) returns (code: Code)
    requires LoopsOnly(body, false)
    ensures code == GenFunction(strict, returnRef, body).code
    ensures CalmS(body) && Meaning.CleanS(strict, body) ==> Compiled.Faithful(strict, returnRef, body, code)
  {
    hide GenFunction, CalmS, Meaning.CleanS, Compiled.Faithful;
    var c := new Compiler(strict, returnRef);
    c.ParseFunction(body);
    code := c.code;
    if CalmS(body) && Meaning.CleanS(strict, body) {
      Compiled.CleanFaithful(strict, returnRef, body);
    }
  }
}
