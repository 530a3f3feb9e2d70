/** The number of values on the stack is known while compiling: whenever a chunk is reached, on
    whatever way, the stack is as high as it was counted, and holds what the chunk takes. */
module Heights {
  import opened Bytecode
  import opened Source
  import opened Compile
  import opened Emitter
  import opened EmitterPlain
  import opened EmitterStmt
  import opened Peephole
  import opened Compiled
  import opened Meaning

  // ----- counting -----

  /** The height before chunk `i`. */
  function H(code: Code, i: nat): int
    requires i <= |code|
  {
    Total(code[..i])
  }

  lemma {:induction false} TotalAdd(a: Code, b: Code)
    ensures Total(a + b) == Total(a) + Total(b)
    decreases |a|
  {
    hide Delta;
    if |a| == 0 {
      assert a + b == b;
    } else {
      assert (a + b)[1..] == a[1..] + b;
      TotalAdd(a[1..], b);
    }
  }

  lemma TotalOne(x: Chunk)
    ensures Total([x]) == Delta(x) && Total([]) == 0
  {
    hide Delta;
    assert [x][1..] == [];
  }

  lemma HNext(code: Code, i: nat)
    requires i < |code|
    ensures H(code, i + 1) == H(code, i) + Delta(code[i])
  {
    assert code[..i + 1] == code[..i] + [code[i]];
    TotalAdd(code[..i], [code[i]]);
    TotalOne(code[i]);
  }

  lemma HPart(pre: Code, part: Code, suf: Code, i: nat)
    requires i <= |part|
    ensures H(pre + part + suf, |pre| + i) == Total(pre) + H(part, i)
  {
    hide Total;
    assert (pre + part + suf)[..|pre| + i] == pre + part[..i];
    TotalAdd(pre, part[..i]);
  }

  lemma HEnds(code: Code)
    ensures H(code, 0) == 0 && H(code, |code|) == Total(code)
  {
    assert code[..|code|] == code;
  }

  /** The values a chunk takes from the stack or looks at. */
  function Need(c: Chunk): int {
    match c
    case UN(_) => 1
    case BIN(_) => 2
    case FUNC(_, pars) => pars
    case CALL(_, _) => MAX_PAR + 1
    case ARRAY(size) => size
    case STACK(n) => -n
    case IVARN(_) => 1
    case JMP(kind, _) => if kind == Always then 0 else 1
    case FOREACH(_) => 2
    case RETURN => 1
    case _ => 0
  }

  /** Chunk `i` finds what it takes, when `lo` values lie below the code's own; where it jumps
      to, the height is the one it jumps with. Jumps out of the code, which stands at `at`, lead
      to one of `outs`, with the height the code began with. */
  ghost predicate Fits(code: Code, lo: int, at: int, outs: set<int>, i: nat)
    requires i < |code|
  {
    && Need(code[i]) <= lo + H(code, i)
    && (code[i].JMP? ==>
          var k, after := i + code[i].off, H(code, i) + TakenDelta(code[i].jkind);
          (0 <= k <= |code| && H(code, k) == after) || (at + k in outs && after == 0))
    && (code[i].FOREACH? ==> i + 1 < |code| && code[i + 1].JMP? && code[i + 1].jkind == Always)
  }

  ghost predicate Even(code: Code, lo: int, at: int, outs: set<int>) {
    forall i: nat :: i < |code| ==> Fits(code, lo, at, outs, i)
  }

  /** Every chunk finds what it takes. */
  ghost predicate Fed(code: Code) { forall i: nat :: i < |code| ==> Need(code[i]) <= H(code, i) }

  /** So it is for chunk `i` of code that an error has cut off: what it jumps to has the height it
      jumps with, or is an error chunk, at which the height does not matter any more. */
  ghost predicate Suits(code: Code, i: nat)
    requires i < |code|
  {
    && Need(code[i]) <= H(code, i)
    && (code[i].JMP? ==>
          var k := i + code[i].off;
          0 <= k <= |code|
          && ((k < |code| && code[k].ERR?) || H(code, k) == H(code, i) + TakenDelta(code[i].jkind)))
    && (code[i].FOREACH? ==> i + 1 < |code| && code[i + 1].JMP? && code[i + 1].jkind == Always)
  }

  ghost predicate Loose(code: Code) { forall i: nat :: i < |code| ==> Suits(code, i) }

  // ----- pieces of code -----

  /** The same chunk inside more code. */
  lemma Lift(pre: Code, part: Code, suf: Code, lo: int, at: int, outs: set<int>, i: nat)
    requires i < |part| && Fits(part, lo + Total(pre), at + |pre|, if Total(pre) == 0 then outs else {}, i)
    ensures Fits(pre + part + suf, lo, at, outs, |pre| + i)
  {
    hide Delta, Total, H, Need, TakenDelta;
    HPart(pre, part, suf, i);
    if part[i].JMP? && 0 <= i + part[i].off <= |part| {
      HPart(pre, part, suf, i + part[i].off);
    }
  }

  /** One piece after the other. */
  lemma Join(a: Code, b: Code, lo: int, at: int, outs: set<int>)
    requires Even(a, lo, at, outs) && Even(b, lo + Total(a), at + |a|, if Total(a) == 0 then outs else {})
    ensures Even(a + b, lo, at, outs) && Total(a + b) == Total(a) + Total(b)
  {
    hide Delta, Total, H, Fits;
    TotalAdd(a, b);
    assert Total([]) == 0 by { TotalOne(NIL); }
    forall i: nat | i < |a + b| ensures Fits(a + b, lo, at, outs, i) {
      if i < |a| {
        assert [] + a + b == a + b;
        Lift([], a, b, lo, at, outs, i);
      } else {
        assert a + b + [] == a + b;
        Lift(a, b, [], lo, at, outs, i - |a|);
      }
    }
  }

  lemma Widen(code: Code, lo: int, at: int, at': int, outs: set<int>)
    requires Even(code, lo, at, {})
    ensures Even(code, lo, at', outs)
  {
    forall i: nat | i < |code| ensures Fits(code, lo, at', outs, i) {
      assert Fits(code, lo, at, {}, i);
    }
  }

  /** One chunk that does not jump. */
  lemma Single(x: Chunk, lo: int, at: int, outs: set<int>)
    requires !x.JMP? && !x.FOREACH? && Need(x) <= lo
    ensures Even([x], lo, at, outs) && Total([x]) == Delta(x)
  {
    TotalOne(x);
    HEnds([x]);
  }

  /** A jump from an even place to one of `outs`. */
  lemma JumpOut(off: int, lo: int, at: int, outs: set<int>)
    requires (at + off in outs || off == 0) && lo >= 0
    ensures Even([JMP(Always, off)], lo, at, outs) && Total([JMP(Always, off)]) == 0
  {
    hide H, Total;
    var code := [JMP(Always, off)];
    TotalOne(JMP(Always, off));
    HEnds(code);
    assert Fits(code, lo, at, outs, 0);
  }

  /** Jumps that stayed inside after all. */
  lemma Close(code: Code, lo: int, at: int, outs: set<int>, outs': set<int>)
    requires Even(code, lo, at, outs)
    requires forall o :: o in outs ==> o in outs' || (at <= o <= at + |code| && H(code, o - at) == 0)
    ensures Even(code, lo, at, outs')
  {
    hide H;
    forall i: nat | i < |code| ensures Fits(code, lo, at, outs', i) {
      assert Fits(code, lo, at, outs, i);
    }
  }

  /** A jump over `x`. */
  lemma Over(a: Code, kind: JumpKind, x: Code, lo: int, at: int)
    requires Even(a, lo, at, {}) && Even(x, lo + Total(a) + PassedDelta(kind), at, {})
    requires TakenDelta(kind) == PassedDelta(kind) + Total(x) && lo + Total(a) >= 1
    ensures var code := a + [JMP(kind, |x| + 1)] + x;
            Even(code, lo, at, {}) && Total(code) == Total(a) + PassedDelta(kind) + Total(x)
  {
    hide Delta, Total, H;
    var j := JMP(kind, |x| + 1);
    var code := a + [j] + x;
    assert Total([j]) == PassedDelta(kind) by { TotalOne(j); DeltaJump(kind, |x| + 1); }
    TotalAdd(a, [j]);
    TotalAdd(a + [j], x);
    assert Total([]) == 0 by { TotalOne(NIL); }
    Widen(x, lo + Total(a) + PassedDelta(kind), at, at + |a| + 1, if Total(a + [j]) == 0 then {} else {});
    forall i: nat | i < |code| ensures Fits(code, lo, at, {}, i) {
      if i < |a| {
        assert [] + a + ([j] + x) == code;
        Lift([], a, [j] + x, lo, at, {}, i);
      } else if i > |a| {
        assert a + [j] + x + [] == code;
        Lift(a + [j], x, [], lo, at, {}, i - |a| - 1);
      } else {
        HPart(a, [j], x, 0);
        HEnds([j]);
        HEnds(code);
        assert code[|a|] == j;
      }
    }
  }

  lemma DeltaJump(kind: JumpKind, off: int)
    ensures Delta(JMP(kind, off)) == PassedDelta(kind)
  {
  }

  // ----- expressions -----

  lemma {:induction false} ExprEven(strict: nat, e: Expr, valueOnly: bool, lo: int, at: int)
    requires lo >= 0
    ensures Even(CodeE(strict, e, valueOnly), lo, at, {}) && Total(CodeE(strict, e, valueOnly)) == 1
    decreases e, 1
  {
    hide Even, Total, CodeArgs, CodeBefore, CodeCall, CodeMethod;
    match e
    case EConst(c) => Single(ConstCode(strict, c), lo, at, {});
    case ESlot(kind, i) => Single(SLOT(kind, i, !valueOnly), lo, at, {});
    case EUnary(_, _) => UnaryEven(strict, e, valueOnly, lo, at);
    case EBinary(op, l, r) =>
      PairEven(strict, e, l, !Modifies(op), r, BinChunk(op, strict), lo, at);
    case ELogic(op, l, r) =>
      if ShortCircuit(op, strict) {
        ExprEven(strict, l, true, lo, at);
        ExprEven(strict, r, valueOnly, lo, at);
        Over(CodeE(strict, l, true), LogicJump(op), CodeE(strict, r, valueOnly), lo, at);
      } else {
        PairEven(strict, e, l, true, r, LogicChunk(op), lo, at);
      }
    case ENilAssign(l, r) =>
      ExprEven(strict, l, false, lo, at);
      ExprEven(strict, r, false, lo + 1, at);
      Single(BIN(Set), lo + 2, at + |CodeE(strict, r, false)|, {});
      Join(CodeE(strict, r, false), [BIN(Set)], lo + 1, at, {});
      Over(CodeE(strict, l, false), IfSet, CodeE(strict, r, false) + [BIN(Set)], lo, at);
    case ECall(callee, args) => CallEven(strict, e, lo, at);
    case EMethod(how, target, args) => MethodEven(strict, e, lo, at);
  }

  lemma PairEven(strict: nat, e: Expr, l: Expr, lv: bool, r: Expr, op: BinOp, lo: int, at: int)
    requires lo >= 0 && l < e && r < e
    ensures var code := CodeE(strict, l, lv) + CodeE(strict, r, true) + [BIN(op)];
            Even(code, lo, at, {}) && Total(code) == 1
    decreases e, 0
  {
    hide Even, Total, CodeE;
    var a, b := CodeE(strict, l, lv), CodeE(strict, r, true);
    ExprEven(strict, l, lv, lo, at);
    ExprEven(strict, r, true, lo + 1, at + |a|);
    Join(a, b, lo, at, {});
    Single(BIN(op), lo + 2, at + |a + b|, {});
    Join(a + b, [BIN(op)], lo, at, {});
  }

  lemma UnaryEven(strict: nat, e: Expr, valueOnly: bool, lo: int, at: int)
    requires e.EUnary? && lo >= 0
    ensures Even(CodeE(strict, e, valueOnly), lo, at, {}) && Total(CodeE(strict, e, valueOnly)) == 1
    decreases e, 0
  {
    hide Even, Total;
    if e.uop == PrePlus {
      ExprEven(strict, e.arg, valueOnly, lo, at);
    } else if e.uop == PreNeg && EndsInInt(CodeE(strict, e.arg, false)) {
      ExprEven(strict, e.arg, false, lo, at);
      NegateEven(CodeE(strict, e.arg, false), lo, at);
    } else {
      var a := CodeE(strict, e.arg, !KeepsRef(e.uop));
      var op := UnaryChunk(e.uop, valueOnly);
      ExprEven(strict, e.arg, !KeepsRef(e.uop), lo, at);
      Single(UN(op), lo + 1, at + |a|, {});
      Join(a, [UN(op)], lo, at, {});
    }
  }

  /** Another number at the end changes nothing. */
  lemma NegateEven(code: Code, lo: int, at: int)
    requires Even(code, lo, at, {}) && EndsInInt(code)
    ensures Even(NegateLast(code), lo, at, {}) && Total(NegateLast(code)) == Total(code)
  {
    hide Delta, Total, H;
    var n := |code| - 1;
    var code' := NegateLast(code);
    SameHeights(code, code');
    forall i: nat | i < |code'| ensures Fits(code', lo, at, {}, i) {
      assert Fits(code, lo, at, {}, i);
    }
    HEnds(code);
    HEnds(code');
  }

  lemma SameHeights(code: Code, code': Code)
    requires EndsInInt(code) && code' == NegateLast(code)
    ensures forall i: nat :: i <= |code| ==> H(code', i) == H(code, i)
  {
    hide Total;
    var n := |code| - 1;
    forall i: nat | i <= |code| ensures H(code', i) == H(code, i) {
      if i <= n {
        assert code'[..i] == code[..i];
      } else {
        assert code'[..n] == code[..n];
        HNext(code, n);
        HNext(code', n);
      }
    }
  }

  lemma {:induction false} ArgsEven(strict: nat, a: Args, lo: int, at: int)
    requires lo >= 0
    ensures Even(CodeArgs(strict, a), lo, at, {}) && Total(CodeArgs(strict, a)) == Count(a)
    decreases a
  {
    hide Even, Total, CodeE;
    match a
    case NoArgs => NoneEven(lo, at, {});
    case Arg(e, keepRef, rest) =>
      var c := CodeE(strict, e, !keepRef);
      ExprEven(strict, e, !keepRef, lo, at);
      ArgsEven(strict, rest, lo + 1, at + |c|);
      Join(c, CodeArgs(strict, rest), lo, at, {});
  }

  lemma NoneEven(lo: int, at: int, outs: set<int>)
    ensures Even([], lo, at, outs) && Total([]) == 0
  {
  }

  lemma BalanceEven(have: nat, want: nat, lo: int, at: int)
    requires lo >= 0
    ensures Even(Balance(have, want), lo + have, at, {}) && Total(Balance(have, want)) == want - have
  {
    hide Even, Total;
    NoneEven(lo + have, at, {});
    Single(STACK(want - have), if have > want then have - want else 0, at, {});
    if have != want { Higher([STACK(want - have)], if have > want then have - want else 0, lo + have, at); }
  }

  lemma Higher(code: Code, lo: int, lo': int, at: int)
    requires Even(code, lo, at, {}) && lo <= lo'
    ensures Even(code, lo', at, {})
  {
    forall i: nat | i < |code| ensures Fits(code, lo', at, {}, i) {
      assert Fits(code, lo, at, {}, i);
    }
  }

  /** Parameters brought to their number, then the chunk that takes them. */
  lemma CallEnds(have: nat, want: nat, x: Chunk, lo: int, at: int)
    requires lo >= 0 && !x.JMP? && !x.FOREACH? && Need(x) <= lo + want
    ensures var c := Balance(have, want) + [x];
            Even(c, lo + have, at, {}) && Total(c) == want - have + Delta(x)
  {
    hide Even, Total, Balance;
    BalanceEven(have, want, lo, at);
    Single(x, lo + want, at + |Balance(have, want)|, {});
    Join(Balance(have, want), [x], lo + have, at, {});
  }

  lemma NobodyEven(have: nat, lo: int, at: int)
    requires lo >= 1
    ensures var c := Balance(have, 0) + [STACK(-1), STACK(1)];
            Even(c, lo + have, at, {}) && Total(c) + have == 0
  {
    hide Even, Total, Balance;
    var b := Balance(have, 0);
    CallEnds(have, 0, STACK(-1), lo, at);
    Single(STACK(1), lo - 1, at + |b + [STACK(-1)]|, {});
    Join(b + [STACK(-1)], [STACK(1)], lo + have, at, {});
    assert b + [STACK(-1)] + [STACK(1)] == b + [STACK(-1), STACK(1)];
  }

  lemma CallEven(strict: nat, e: Expr, lo: int, at: int)
    requires e.ECall? && lo >= 0
    ensures Even(CodeE(strict, e, false), lo, at, {}) && Total(CodeE(strict, e, false)) == 1
    ensures CodeE(strict, e, true) == CodeE(strict, e, false)
    decreases e, 0
  {
    hide Even, Total, CodeArgs, Balance;
    var n := Count(e.args);
    var before := CodeBefore(e.callee);
    var args := CodeArgs(strict, e.args);
    var k := if e.callee.Global? || e.callee.NoGlobal? then 1 else 0;
    NoneEven(lo, at, {});
    Single(STACK(1), lo, at, {});
    ArgsEven(strict, e.args, lo + k, at + |before|);
    Join(before, args, lo, at, {});
    var end := at + |before + args|;
    match e.callee {
      case Function(f, pars) => CallEnds(n, pars, FUNC(f, pars), lo, end);
      case Global(f) => CallEnds(n, MAX_PAR, CALL(CallGlobal, f), lo + 1, end);
      case NoInherited => CallEnds(n, 0, STACK(1), lo, end);
      case NoGlobal => NobodyEven(n, lo + 1, end);
      case NewArray => Single(ARRAY(n), lo + n, end, {});
    }
    Join(before + args, CodeCall(e.callee, n), lo, at, {});
  }

  lemma MethodEven(strict: nat, e: Expr, lo: int, at: int)
    requires e.EMethod? && lo >= 0
    ensures Even(CodeE(strict, e, false), lo, at, {}) && Total(CodeE(strict, e, false)) == 1
    ensures CodeE(strict, e, true) == CodeE(strict, e, false)
    decreases e, 0
  {
    hide Even, Total, CodeArgs, Balance;
    var n := Count(e.args);
    var target := CodeE(strict, e.target, false);
    var args := CodeArgs(strict, e.args);
    ExprEven(strict, e.target, false, lo, at);
    ArgsEven(strict, e.args, lo + 1, at + |target|);
    Join(target, args, lo, at, {});
    var end := at + |target + args|;
    match e.how {
      case Named(failSafe, f) => CallEnds(n, MAX_PAR, CALL(MethodKind(failSafe), f), lo + 1, end);
      case Unknown => NobodyEven(n, lo + 1, end);
    }
    Join(target + args, CodeMethod(e.how, n), lo, at, {});
  }

  // ----- statements -----

  /** A condition and the jump behind it. */
  lemma CondEven(strict: nat, c: Expr, off: int, lo: int, at: int, outs: set<int>)
    requires lo >= 0 && at + |CodeE(strict, c, true)| + off in outs
    ensures var code := CodeE(strict, c, true) + [JMP(Cond, off)];
            Even(code, lo, at, outs) && Total(code) == 0
  {
    hide CodeE, H, Total, Delta;
    var a, j := CodeE(strict, c, true), JMP(Cond, off);
    var code := a + [j];
    ExprEven(strict, c, true, lo, at);
    Widen(a, lo, at, at, outs);
    TotalAdd(a, [j]);
    TotalOne(j);
    assert Delta(j) == -1 by { DeltaJump(Cond, off); }
    forall i: nat | i < |code| ensures Fits(code, lo, at, outs, i) {
      if i < |a| {
        assert [] + a + [j] == code;
        Lift([], a, [j], lo, at, outs, i);
      } else {
        assert a + [j] + [] == code;
        HPart(a, [j], [], 0);
        HEnds([j]);
      }
    }
  }

  /** An expression and a chunk that takes its value. */
  lemma TakenEven(strict: nat, e: Expr, valueOnly: bool, x: Chunk, lo: int, at: int, outs: set<int>)
    requires lo >= 0 && !x.JMP? && !x.FOREACH? && Need(x) <= 1 && Delta(x) == -1
    ensures var code := CodeE(strict, e, valueOnly) + [x];
            Even(code, lo, at, outs) && Total(code) == 0
  {
    hide Even, CodeE, Total, Delta;
    var a := CodeE(strict, e, valueOnly);
    ExprEven(strict, e, valueOnly, lo, at);
    Single(x, lo + 1, at + |a|, {});
    Join(a, [x], lo, at, {});
    Widen(a + [x], lo, at, at, outs);
  }

  /** Two pieces that each leave the stack as it was. */
  lemma Both(a: Code, b: Code, lo: int, at: int, outs: set<int>)
    requires Even(a, lo, at, outs) && Total(a) == 0
    requires Even(b, lo, at + |a|, outs) && Total(b) == 0
    ensures Even(a + b, lo, at, outs) && Total(a + b) == 0
  {
    hide Even, Total;
    Join(a, b, lo, at, outs);
  }

  /** A piece that stands on its own may jump to its own ends. */
  lemma CloseEnds(code: Code, lo: int, at: int, outs: set<int>)
    requires Even(code, lo, at, outs + {at, at + |code|}) && Total(code) == 0
    ensures Even(code, lo, at, outs)
  {
    hide Even, Total;
    HEnds(code);
    Close(code, lo, at, outs + {at, at + |code|}, outs);
  }

  lemma More(code: Code, lo: int, at: int, outs: set<int>, outs': set<int>)
    requires Even(code, lo, at, outs) && outs <= outs'
    ensures Even(code, lo, at, outs')
  {
    hide H;
    Close(code, lo, at, outs, outs');
  }

  /** Where `break` and `continue` lead, when the code stands at `at`. */
  function Outs(at: int, ctl: Ctl): set<int> {
    match ctl
    case Pending => {}
    case To(brk, cont) => {at + brk, at + cont}
  }

  lemma LaterOuts(at: int, ctl: Ctl, d: nat)
    ensures Outs(at + d, Later(ctl, d)) == Outs(at, ctl)
  {
  }

  lemma {:induction false} StmtEven(strict: nat, s: Stmt, ref: bool, ctl: Ctl, lo: int, at: int)
    requires lo >= 0
    ensures Even(CodeS(strict, s, ref, ctl), lo, at, Outs(at, ctl)) && Total(CodeS(strict, s, ref, ctl)) == 0
    decreases s, 2
  {
    hide Even, Total, CodeE, CodeS, Outs, IfCode, IfElseCode, LoopCode, CodeBody;
    match s
    case SSeq(a, b) =>
      OpenSeq(strict, s, ref, ctl);
      var first := CodeS(strict, a, ref, ctl);
      StmtEven(strict, a, ref, ctl, lo, at);
      StmtEven(strict, b, ref, Later(ctl, |first|), lo, at + |first|);
      LaterOuts(at, ctl, |first|);
      Both(first, CodeS(strict, b, ref, Later(ctl, |first|)), lo, at, Outs(at, ctl));
    case SIf(c, t) =>
      OpenIf(strict, s, ref, ctl);
      var n := |CodeE(strict, c, true)| + 1;
      StmtEven(strict, t, ref, Later(ctl, n), lo, at + n);
      LaterOuts(at, ctl, n);
      IfEven(strict, c, CodeS(strict, t, ref, Later(ctl, n)), lo, at, Outs(at, ctl));
    case SIfElse(c, t, e) =>
      OpenIfElse(strict, s, ref, ctl);
      var n := |CodeE(strict, c, true)| + 1;
      var thn := CodeS(strict, t, ref, Later(ctl, n));
      StmtEven(strict, t, ref, Later(ctl, n), lo, at + n);
      LaterOuts(at, ctl, n);
      var k := n + |thn| + 1;
      StmtEven(strict, e, ref, Later(ctl, k), lo, at + k);
      LaterOuts(at, ctl, k);
      ElseEven(strict, c, thn, CodeS(strict, e, ref, Later(ctl, k)), lo, at, Outs(at, ctl));
    case SWhile(c, body) =>
      OpenLoops(strict, s, ref, ctl);
      BodyEven(strict, s, ref, Some(c), NoExpr, body, lo, at, Outs(at, ctl));
    case SFor(start, c, inc, body) =>
      OpenLoops(strict, s, ref, ctl);
      var first := CodeS(strict, start, ref, Pending);
      StmtEven(strict, start, ref, Pending, lo, at);
      NoOuts(first, lo, at, Outs(at, ctl));
      BodyEven(strict, s, ref, c, inc, body, lo, at + |first|, Outs(at, ctl));
      Both(first, LoopCode(strict, c, inc, CodeBody(strict, c, inc, body, ref)), lo, at, Outs(at, ctl));
    case SForEach(v, e, body) =>
      OpenLoops(strict, s, ref, ctl);
      var n := |CodeS(strict, body, ref, Pending)|;
      var to := To(n + 1, -2);
      var b := CodeS(strict, body, ref, to);
      SameLength(strict, body, ref, Pending, to);
      EachBody(strict, s, ref, e, body, lo, at);
      EachEven(strict, v, e, b, lo, at, Outs(at, ctl));
    case _ => LeafEven(strict, s, ref, ctl, lo, at);
  }

  lemma NoOuts(code: Code, lo: int, at: int, outs: set<int>)
    requires Even(code, lo, at, Outs(at, Pending))
    ensures Even(code, lo, at, outs)
  {
    Widen(code, lo, at, at, outs);
  }

  lemma LeafEven(strict: nat, s: Stmt, ref: bool, ctl: Ctl, lo: int, at: int)
    requires lo >= 0 && !Branches(s) && !s.SWhile? && !s.SFor? && !s.SForEach?
    ensures Even(CodeS(strict, s, ref, ctl), lo, at, Outs(at, ctl)) && Total(CodeS(strict, s, ref, ctl)) == 0
  {
    hide Even, Total, CodeE;
    match s
    case SEmpty => NoneEven(lo, at, Outs(at, ctl));
    case SExpr(e, valueOnly) => TakenEven(strict, e, valueOnly, STACK(-1), lo, at, Outs(at, ctl));
    case SVar(v, e) => TakenEven(strict, e, true, IVARN(v), lo, at, Outs(at, ctl));
    case SReturn(e) => TakenEven(strict, e, !ref, RETURN, lo, at, Outs(at, ctl));
    case SBreak => JumpOut(if ctl.To? then ctl.brk else 0, lo, at, Outs(at, ctl));
    case SContinue => JumpOut(if ctl.To? then ctl.cont else 0, lo, at, Outs(at, ctl));
    case SReturnNil =>
      TakenEven(strict, EConst(CNil), true, RETURN, lo, at, Outs(at, ctl));
      assert CodeE(strict, EConst(CNil), true) == [NIL] by { NilCode(strict); }
      assert [NIL] + [RETURN] == [NIL, RETURN];
  }

  lemma NilCode(strict: nat)
    ensures CodeE(strict, EConst(CNil), true) == [NIL]
  {
  }

  lemma IfEven(strict: nat, c: Expr, thn: Code, lo: int, at: int, outs: set<int>)
    requires lo >= 0 && Even(thn, lo, at + |CodeE(strict, c, true)| + 1, outs) && Total(thn) == 0
    ensures var code := IfCode(CodeE(strict, c, true), thn);
            Even(code, lo, at, outs) && Total(code) == 0
  {
    hide Even, Total, CodeE;
    var test := CodeE(strict, c, true);
    var code := IfCode(test, thn);
    var ends := outs + {at, at + |code|};
    CondEven(strict, c, |thn| + 1, lo, at, ends);
    More(thn, lo, at + |test| + 1, outs, ends);
    Both(test + [JMP(Cond, |thn| + 1)], thn, lo, at, ends);
    CloseEnds(code, lo, at, outs);
  }

  lemma ElseEven(strict: nat, c: Expr, thn: Code, els: Code, lo: int, at: int, outs: set<int>)
    requires var n := |CodeE(strict, c, true)| + 1;
             lo >= 0 && Even(thn, lo, at + n, outs) && Total(thn) == 0
             && Even(els, lo, at + n + |thn| + 1, outs) && Total(els) == 0
    ensures var code := IfElseCode(CodeE(strict, c, true), thn, els);
            Even(code, lo, at, outs) && Total(code) == 0
  {
    hide Even, Total, CodeE, H;
    var test := CodeE(strict, c, true);
    var code := IfElseCode(test, thn, els);
    var n := |test| + 1;
    var ends := outs + {at, at + |code|};
    var all := ends + {at + n + |thn| + 1};
    var head := test + [JMP(Cond, |thn| + 2)];
    var over := [JMP(Always, |els| + 1)];
    CondEven(strict, c, |thn| + 2, lo, at, all);
    More(thn, lo, at + n, outs, all);
    Both(head, thn, lo, at, all);
    JumpOut(|els| + 1, lo, at + n + |thn|, all);
    Both(head + thn, over, lo, at, all);
    More(els, lo, at + n + |thn| + 1, outs, all);
    Both(head + thn + over, els, lo, at, all);
    MiddleHeight(head + thn + over, els);
    Close(code, lo, at, all, ends);
    CloseEnds(code, lo, at, outs);
  }

  lemma MiddleHeight(a: Code, b: Code)
    ensures H(a + b, |a|) == Total(a)
  {
    assert (a + b)[..|a|] == a;
  }

  /** What leads out of a loop's body leads to the loop's ends. */
  lemma BodyEven(strict: nat, s: Stmt, ref: bool, c: OptExpr, inc: OptExpr, body: Stmt, lo: int, at: int,
                 outs: set<int>)
    requires lo >= 0 && body < s
    ensures var code := LoopCode(strict, c, inc, CodeBody(strict, c, inc, body, ref));
            Even(code, lo, at, outs) && Total(code) == 0
    decreases s, 1
  {
    hide Even, Total, CodeE, CodeS, CodeTest, CodeInc;
    var len := |CodeS(strict, body, ref, Pending)|;
    var ctl := BodyCtl(strict, c, inc, len);
    SameLength(strict, body, ref, Pending, ctl);
    var start := BodyStart(strict, c, inc);
    StmtEven(strict, body, ref, ctl, lo, at + start);
    LoopEven(strict, c, inc, CodeS(strict, body, ref, ctl), lo, at, outs);
  }

  lemma LoopEven(strict: nat, c: OptExpr, inc: OptExpr, body: Code, lo: int, at: int, outs: set<int>)
    requires lo >= 0 && Total(body) == 0
    requires var start := BodyStart(strict, c, inc);
             Even(body, lo, at + start, Outs(at + start, BodyCtl(strict, c, inc, |body|)))
    ensures var code := LoopCode(strict, c, inc, body);
            Even(code, lo, at, outs) && Total(code) == 0
  {
    hide Even, Total, CodeE, CodeTest, CodeInc, H;
    var n := TestLen(strict, c);
    var step := CodeInc(strict, inc, n);
    var test := CodeTest(strict, c, |step| + |body| + 1);
    var start, end := BodyStart(strict, c, inc), RoundEnd(strict, c, inc);
    var back := [JMP(Always, end - start - |body|)];
    var code := LoopCode(strict, c, inc, body);
    var ends := outs + {at, at + |code|};
    var all := ends + {at + end, at + start};
    TestLength(strict, c, |step| + |body| + 1);
    TestEven(strict, c, |step| + |body| + 1, lo, at, all);
    IncEven(strict, inc, n, lo, at + n, all);
    Both(test, step, lo, at, all);
    More(body, lo, at + start, Outs(at + start, BodyCtl(strict, c, inc, |body|)), all);
    Both(test + step, body, lo, at, all);
    JumpOut(end - start - |body|, lo, at + start + |body|, all);
    Both(test + step + body, back, lo, at, all);
    RoundEndHeight(strict, c, inc, test, step, body + back, lo);
    assert code == test + step + (body + back);
    MiddleHeight(test + step, body + back);
    HEnds(code);
    Close(code, lo, at, all, ends);
    CloseEnds(code, lo, at, outs);
  }

  lemma RoundEndHeight(strict: nat, c: OptExpr, inc: OptExpr, test: Code, step: Code, rest: Code, lo: int)
    requires test == CodeTest(strict, c, |step| + |rest|) && step == CodeInc(strict, inc, TestLen(strict, c))
             && Total(test) == 0
    ensures |test| == TestLen(strict, c) && |test| + |step| == BodyStart(strict, c, inc)
    ensures RoundEnd(strict, c, inc) <= |test + step + rest|
    ensures H(test + step + rest, RoundEnd(strict, c, inc)) == 0
  {
    hide Total, CodeE;
    var code := test + step + rest;
    TestLength(strict, c, |step| + |rest|);
    assert H(code, 0) == 0 by { HEnds(code); }
    if inc.Some? {
      HPart(test, step, rest, 0);
      HEnds(step);
      HPart(test, step, rest, 1);
      HNext(step, 0);
    }
  }

  lemma TestLength(strict: nat, c: OptExpr, rest: nat)
    ensures |CodeTest(strict, c, rest)| == TestLen(strict, c)
  {
    hide CodeE;
  }

  lemma TestEven(strict: nat, c: OptExpr, rest: nat, lo: int, at: int, outs: set<int>)
    requires lo >= 0 && at + TestLen(strict, c) + rest in outs
    ensures var code := CodeTest(strict, c, rest);
            |code| == TestLen(strict, c) && Even(code, lo, at, outs) && Total(code) == 0
  {
    hide Even, Total, CodeE;
    match c
    case NoExpr => NoneEven(lo, at, outs);
    case Some(e) => CondEven(strict, e, rest + 1, lo, at, outs);
  }

  lemma IncEven(strict: nat, inc: OptExpr, test: nat, lo: int, at: int, outs: set<int>)
    requires lo >= 0 && at - test in outs && at + |CodeInc(strict, inc, test)| in outs
    ensures var code := CodeInc(strict, inc, test);
            Even(code, lo, at, outs) && Total(code) == 0
  {
    hide Even, Total, CodeE;
    match inc
    case NoExpr => NoneEven(lo, at, outs);
    case Some(e) =>
      var step := CodeE(strict, e, true) + [STACK(-1)];
      var n := if test == 0 then |step| + 1 else |step| + 2;
      JumpOut(n, lo, at, outs);
      TakenEven(strict, e, true, STACK(-1), lo, at + 1, outs);
      Both([JMP(Always, n)], step, lo, at, outs);
      if test != 0 {
        JumpOut(-(test + |step| + 1), lo, at + 1 + |step|, outs);
        Both([JMP(Always, n)] + step, [JMP(Always, -(test + |step| + 1))], lo, at, outs);
      }
  }

  lemma EachBody(strict: nat, s: Stmt, ref: bool, e: Expr, body: Stmt, lo: int, at: int)
    requires lo >= 0 && body < s
    ensures var n := |CodeS(strict, body, ref, Pending)|;
            var b := CodeS(strict, body, ref, To(n + 1, -2));
            var start := at + |CodeE(strict, e, false)| + 3;
            Even(b, lo + 2, start, {start + n + 1, start - 2}) && Total(b) == 0
    decreases s, 1
  {
    hide Even, Total, CodeE, CodeS;
    var n := |CodeS(strict, body, ref, Pending)|;
    StmtEven(strict, body, ref, To(n + 1, -2), lo + 2, at + |CodeE(strict, e, false)| + 3);
  }

  lemma EachEven(strict: nat, v: nat, e: Expr, b: Code, lo: int, at: int, outs: set<int>)
    requires lo >= 0 && Total(b) == 0
    requires var start := at + |CodeE(strict, e, false)| + 3;
             Even(b, lo + 2, start, {start + |b| + 1, start - 2})
    ensures var code := CodeE(strict, e, false) + [ConstCode(strict, CInt(0))]
                        + [FOREACH(v), JMP(Always, |b| + 2)] + b + [JMP(Always, -(|b| + 2)), STACK(-2)];
            Even(code, lo, at, outs) && Total(code) == 0
  {
    hide Even, Total, CodeE;
    var ce, zero := CodeE(strict, e, false), ConstCode(strict, CInt(0));
    var two := ce + [zero];
    var each := [FOREACH(v), JMP(Always, |b| + 2)];
    var back := [JMP(Always, -(|b| + 2))];
    ExprEven(strict, e, false, lo, at);
    Single(zero, lo + 1, at + |ce|, {});
    Join(ce, [zero], lo, at, {});
    var from := at + |two|;
    RoundsEven(v, b, lo + 2, from);
    var rounds := each + b + back;
    Join(two, rounds, lo, at, {});
    Single(STACK(-2), lo + 2, at + |two + rounds|, {});
    Join(two + rounds, [STACK(-2)], lo, at, {});
    Widen(two + rounds + [STACK(-2)], lo, at, at, outs);
    assert two + rounds + [STACK(-2)] == two + each + b + [JMP(Always, -(|b| + 2)), STACK(-2)];
  }

  lemma RoundsEven(v: nat, b: Code, lo: int, at: int)
    requires lo >= 2 && Total(b) == 0 && Even(b, lo, at + 2, {at + |b| + 3, at})
    ensures var code := [FOREACH(v), JMP(Always, |b| + 2)] + b + [JMP(Always, -(|b| + 2))];
            Even(code, lo, at, {}) && Total(code) == 0
  {
    hide Even, Total;
    var ends := {at + |b| + 3, at};
    var each := [FOREACH(v), JMP(Always, |b| + 2)];
    var back := [JMP(Always, -(|b| + 2))];
    FirstEven(v, |b| + 2, lo, at, ends);
    Both(each, b, lo, at, ends);
    JumpOut(-(|b| + 2), lo, at + 2 + |b|, ends);
    Both(each + b, back, lo, at, ends);
    assert {} + {at, at + |each + b + back|} == ends;
    CloseEnds(each + b + back, lo, at, {});
  }

  lemma FirstEven(v: nat, off: int, lo: int, at: int, outs: set<int>)
    requires lo >= 2 && at + 1 + off in outs
    ensures var code := [FOREACH(v), JMP(Always, off)];
            Even(code, lo, at, outs) && Total(code) == 0
  {
    hide H, Total;
    var code := [FOREACH(v), JMP(Always, off)];
    assert [FOREACH(v)] + [JMP(Always, off)] == code;
    TotalAdd([FOREACH(v)], [JMP(Always, off)]);
    TotalOne(FOREACH(v));
    TotalOne(JMP(Always, off));
    HEnds(code);
    HNext(code, 0);
    assert Fits(code, lo, at, outs, 0) && Fits(code, lo, at, outs, 1);
  }

  /** The whole function: nothing leads out of it, and every chunk finds what it takes. */
  lemma FunctionEven(strict: nat, body: Stmt, ref: bool, endReturn: bool)
    ensures Even(FunctionCode(strict, body, ref, endReturn), 0, 0, {})
  {
    hide Even, Total, CodeS;
    var b := CodeS(strict, body, ref, Pending);
    StmtEven(strict, body, ref, Pending, 0, 0);
    var tail := if endReturn then [NIL, RETURN] else [];
    NoneEven(0, |b|, {});
    LeafEven(strict, SReturnNil, ref, Pending, 0, |b|);
    assert CodeS(strict, SReturnNil, ref, Pending) == [NIL, RETURN] by { NilReturnCode(strict, ref); }
    Both(b, tail, 0, 0, {});
    Single(EOFN, 0, |b + tail|, {});
    Both(b + tail, [EOFN], 0, 0, {});
  }

  lemma NilReturnCode(strict: nat, ref: bool)
    ensures CodeS(strict, SReturnNil, ref, Pending) == [NIL, RETURN]
  {
  }

  /** The number the compiler keeps is this height, before and behind every expression and every
      statement it writes. */
  lemma HeightIsCounted(strict: nat, ref: bool, t: Trace, e: Expr, s: Stmt)
    requires Placed(t) && t.height == Total(t.plain)
    ensures GenE(strict, t, e).height == Total(GenE(strict, t, e).plain)
    ensures GenS(strict, ref, t, s).t.height == Total(GenS(strict, ref, t, s).t.plain)
  {
    hide GenE, GenS, CodeE, CodeS, Total, Even, Placed, ControlsOf;
    GenEWrites(strict, t, e);
    ExprEven(strict, e, false, 0, 0);
    TotalAdd(t.plain, CodeE(strict, e, false));
    GenSWrites(strict, ref, t, s);
    StmtEven(strict, s, ref, Pending, 0, 0);
    TotalAdd(t.plain, CodeS(strict, s, ref, Pending));
  }

  // ----- the code after joining -----

  lemma StackTotal(a: Code)
    requires AllStack(a)
    ensures Total(a) == Eff(a).up - Eff(a).down
    decreases |a|
  {
    if |a| > 0 {
      var b, x := a[..|a| - 1], a[|a| - 1];
      assert a == b + [x];
      StackTotal(b);
      TotalAdd(b, [x]);
      TotalOne(x);
    }
  }

  /** No stack chunk of a run pops more than the run as a whole. */
  lemma {:induction false} RunNeeds(a: Code, i: nat)
    requires AllStack(a) && i < |a|
    ensures Need(a[i]) <= Eff(a).down + H(a, i)
    decreases |a|
  {
    var b, x := a[..|a| - 1], a[|a| - 1];
    assert a[..i] == b[..i];
    if i < |a| - 1 {
      RunNeeds(b, i);
    } else {
      assert b[..i] == b;
      StackTotal(b);
    }
  }

  /** A run takes no more than its chunks do. */
  lemma {:induction false} NeedsOfRun(a: Code, lo: int)
    requires AllStack(a) && lo >= 0 && forall i: nat :: i < |a| ==> Need(a[i]) <= lo + H(a, i)
    ensures Eff(a).down <= lo
    decreases |a|
  {
    if |a| > 0 {
      var b, x := a[..|a| - 1], a[|a| - 1];
      forall i: nat | i < |b| ensures Need(b[i]) <= lo + H(b, i) {
        assert a[..i] == b[..i] && a[i] == b[i];
      }
      NeedsOfRun(b, lo);
      StackTotal(b);
      assert H(a, |b|) == Total(b) && Need(x) <= lo + H(a, |b|);
    }
  }

  /** At every border the joined code has the height of the unjoined one. */
  lemma {:induction false} SameHeight(plain: Code, marks: set<nat>, code: Code, pos: seq<int>, i: nat)
    requires Joined(plain, marks, code, pos) && i <= |plain| && Border(plain, marks, i)
    ensures 0 <= pos[i] <= |code| && H(code, pos[i]) == H(plain, i)
    decreases i
  {
    hide H, Total, Delta, Eff;
    if i == 0 {
      HEnds(plain);
      HEnds(code);
    } else {
      var a := Start(plain, marks, i - 1);
      SameHeight(plain, marks, code, pos, a);
      if plain[i - 1].STACK? {
        assert SameRun(plain, marks, code, pos, i - 1);
        StretchHeight(plain, a, i);
        StretchHeight(code, pos[a], pos[i]);
        StackTotal(plain[a..i]);
        StackTotal(code[pos[a]..pos[i]]);
      } else {
        assert a == i - 1;
        assert SameChunk(plain, marks, code, pos, i - 1);
        HNext(plain, i - 1);
        HNext(code, pos[i - 1]);
        assert Delta(code[pos[i - 1]]) == Delta(plain[i - 1]) by { SameDelta(plain[i - 1], code[pos[i - 1]]); }
      }
    }
  }

  lemma SameDelta(x: Chunk, y: Chunk)
    requires x == y || (x.JMP? && y.JMP? && x.jkind == y.jkind)
    ensures Delta(x) == Delta(y) && Need(x) == Need(y)
  {
  }

  lemma StretchHeight(code: Code, a: nat, b: nat)
    requires a <= b <= |code|
    ensures H(code, b) == H(code, a) + Total(code[a..b])
  {
    assert code[..b] == code[..a] + code[a..b];
    TotalAdd(code[..a], code[a..b]);
  }

  /** The height never falls below the ground. */
  lemma {:induction false} NeverBelow(code: Code, i: nat)
    requires Fed(code) && i <= |code|
    ensures H(code, i) >= 0
    decreases i
  {
    hide H, Total;
    if i == 0 {
      HEnds(code);
    } else {
      NeverBelow(code, i - 1);
      HNext(code, i - 1);
      assert Need(code[i - 1]) <= H(code, i - 1);
    }
  }

  /** A chunk that is no stack chunk has the height it was asked for with, and so has the place it
      jumps to. */
  lemma JoinedOther(plain: Code, marks: set<nat>, code: Code, pos: seq<int>, q: nat) returns (j: nat)
    requires Joined(plain, marks, code, pos) && q < |code| && !code[q].STACK?
    ensures j < |plain| && !plain[j].STACK? && pos[j] == q && SameChunk(plain, marks, code, pos, j)
    ensures H(code, q) == H(plain, j) && Need(code[q]) == Need(plain[j])
    ensures plain[j].JMP? ==>
              var k, w := q + code[q].off, j + plain[j].off;
              0 <= w <= |plain| && k == pos[w] && 0 <= k <= |code| && H(code, k) == H(plain, w)
    ensures plain[j].FOREACH? && j + 1 < |plain| && plain[j + 1].JMP? ==>
              q + 1 < |code| && code[q + 1].JMP? && code[q + 1].jkind == plain[j + 1].jkind
  {
    hide H, Delta, Start, SameRun;
    j := AskedFor(plain, marks, code, pos, q, 0);
    SameHeight(plain, marks, code, pos, j);
    SameDelta(plain[j], code[q]);
    if plain[j].JMP? {
      SameHeight(plain, marks, code, pos, j + plain[j].off);
    }
    if plain[j].FOREACH? && j + 1 < |plain| && plain[j + 1].JMP? {
      assert SameChunk(plain, marks, code, pos, j + 1);
    }
  }

  lemma JoinedOtherFits(plain: Code, marks: set<nat>, code: Code, pos: seq<int>, q: nat)
    requires Joined(plain, marks, code, pos) && Even(plain, 0, 0, {}) && q < |code| && !code[q].STACK?
    ensures Fits(code, 0, 0, {}, q)
  {
    hide H, Delta, Start, SameRun, Joined;
    var j := JoinedOther(plain, marks, code, pos, q);
    assert Fits(plain, 0, 0, {}, j);
  }

  lemma EvenFed(code: Code)
    requires Even(code, 0, 0, {})
    ensures Fed(code)
  {
    hide H;
    forall i: nat | i < |code| ensures Need(code[i]) <= H(code, i) { assert Fits(code, 0, 0, {}, i); }
  }

  lemma {:induction false} JoinedStackFits(plain: Code, marks: set<nat>, code: Code, pos: seq<int>, q: nat, i: nat)
    requires Joined(plain, marks, code, pos) && Fed(plain) && q < |code| && code[q].STACK?
    requires i <= |plain| && Border(plain, marks, i) && pos[i] <= q
    ensures Need(code[q]) <= H(code, q)
    decreases |plain| - i
  {
    hide H, Delta, Start, SameRun, Fed, Eff, Need;
    if plain[i].STACK? {
      var b := Stop(plain, marks, i);
      RunEnds(plain, marks, code, pos, i);
      if q < pos[b] {
        SameHeight(plain, marks, code, pos, i);
        RunFits(plain, i, b);
        InRunFits(code, pos[i], pos[b], q);
      } else {
        JoinedStackFits(plain, marks, code, pos, q, b);
      }
    } else {
      assert SameChunk(plain, marks, code, pos, i);
      JoinedStackFits(plain, marks, code, pos, q, i + 1);
    }
  }

  lemma RunEnds(plain: Code, marks: set<nat>, code: Code, pos: seq<int>, i: nat)
    requires Joined(plain, marks, code, pos) && i < |plain| && plain[i].STACK? && Border(plain, marks, i)
    ensures var b := Stop(plain, marks, i);
            0 <= pos[i] <= pos[b] <= |code| && AllStack(plain[i..b]) && AllStack(code[pos[i]..pos[b]])
            && Eff(plain[i..b]) == Eff(code[pos[i]..pos[b]])
  {
    var b := Stop(plain, marks, i);
    RunIsStacks(plain, marks, i, b - 1);
    assert SameRun(plain, marks, code, pos, b - 1);
  }

  lemma RunFits(plain: Code, i: nat, b: nat)
    requires Fed(plain) && i <= b <= |plain| && AllStack(plain[i..b])
    ensures Eff(plain[i..b]).down <= H(plain, i)
  {
    hide H, Eff, Total;
    var run := plain[i..b];
    NeverBelow(plain, i);
    forall k: nat | k < |run| ensures Need(run[k]) <= H(plain, i) + H(run, k) {
      assert Need(plain[i + k]) <= H(plain, i + k);
      StretchHeight(plain, i, i + k);
      assert plain[i..i + k] == run[..k];
      assert H(run, k) == Total(run[..k]) by { HIsTotal(run, k); }
    }
    NeedsOfRun(run, H(plain, i));
  }

  lemma HIsTotal(code: Code, i: nat)
    requires i <= |code|
    ensures H(code, i) == Total(code[..i])
  {
  }

  lemma InRunFits(code: Code, a: nat, b: nat, q: nat)
    requires a <= q < b <= |code| && AllStack(code[a..b]) && Eff(code[a..b]).down <= H(code, a)
    ensures Need(code[q]) <= H(code, q)
  {
    hide H, Eff, Total;
    var run := code[a..b];
    RunNeeds(run, q - a);
    StretchHeight(code, a, q);
    assert code[a..q] == run[..q - a];
    HIsTotal(run, q - a);
    assert code[q] == run[q - a];
  }

  /** Joining keeps everything even. */
  lemma JoinedEven(plain: Code, marks: set<nat>, code: Code, pos: seq<int>)
    requires Joined(plain, marks, code, pos) && Even(plain, 0, 0, {})
    ensures Even(code, 0, 0, {})
  {
    hide SameChunk, SameRun, H;
    forall q: nat | q < |code| ensures Fits(code, 0, 0, {}, q) {
      if code[q].STACK? {
        EvenFed(plain);
        JoinedStackFits(plain, marks, code, pos, q, 0);
      } else {
        JoinedOtherFits(plain, marks, code, pos, q);
      }
    }
  }

  // ----- running -----

  /** Before every step the stack is as high as was counted for the chunk that is next. */
  ghost predicate Counted(code: Code, c: Config) {
    0 <= c.pc <= |code| && |c.temps| == H(code, c.pc)
  }

  lemma StepCounted(env: Env, code: Code, c: Config)
    requires Even(code, 0, 0, {}) && Counted(code, c) && c.pc < |code|
    ensures Need(code[c.pc]) <= |c.temps|
    ensures Step(env, code, c).Running? ==> Counted(code, Step(env, code, c).c)
  {
    hide H, Total, Even;
    assert Fits(code, 0, 0, {}, c.pc) by { ChunkFits(code, c.pc); }
    HNext(code, c.pc);
    if Step(env, code, c).Running? {
      StepHeight(env, code, c);
      if code[c.pc].FOREACH? { HNext(code, c.pc + 1); }
    }
  }

  lemma ChunkFits(code: Code, i: nat)
    requires Even(code, 0, 0, {}) && i < |code|
    ensures Fits(code, 0, 0, {}, i)
  {
  }

  /** Even code is a special case. */
  lemma EvenLoose(code: Code)
    requires Even(code, 0, 0, {})
    ensures Loose(code)
  {
    hide H;
    forall i: nat | i < |code| ensures Suits(code, i) { ChunkFits(code, i); }
  }

  lemma LooseFed(code: Code)
    requires Loose(code)
    ensures Fed(code)
  {
    hide H;
    forall i: nat | i < |code| ensures Need(code[i]) <= H(code, i) { assert Suits(code, i); }
  }

  /** `n` values are on the stack when chunk `pc` is next: as many as were counted, except at an error
      chunk. */
  predicate Level(code: Code, pc: int, n: int) {
    0 <= pc <= |code| && (n == H(code, pc) || (pc < |code| && code[pc].ERR? && n >= 0))
  }

  /** At every other chunk the height is exact, and the chunk finds what it takes. */
  lemma LevelExact(code: Code, pc: int, n: int)
    requires Loose(code) && Level(code, pc, n)
    ensures n >= 0 && (pc < |code| ==> Need(code[pc]) <= n && (!code[pc].ERR? ==> n == H(code, pc)))
  {
    hide H;
    LooseFed(code);
    NeverBelow(code, pc);
    if pc < |code| { assert Suits(code, pc); }
  }

  /** So it stays, step by step; and where the height is not the one counted, it is not higher than
      before. */
  lemma StepLevel(env: Env, code: Code, c: Config)
    requires Loose(code) && Level(code, c.pc, |c.temps|) && c.pc < |code|
    ensures Need(code[c.pc]) <= |c.temps|
    ensures Step(env, code, c).Running? ==>
              var d := Step(env, code, c).c;
              Level(code, d.pc, |d.temps|) && (|d.temps| == H(code, d.pc) || |d.temps| <= |c.temps|)
  {
    hide H, Total, Loose;
    LevelExact(code, c.pc, |c.temps|);
    assert Suits(code, c.pc) by { ChunkSuits(code, c.pc); }
    HNext(code, c.pc);
    if Step(env, code, c).Running? {
      NotAtError(env, code, c);
      StepHeight(env, code, c);
      if code[c.pc].FOREACH? { HNext(code, c.pc + 1); }
    }
  }

  lemma NotAtError(env: Env, code: Code, c: Config)
    requires 0 <= c.pc < |code| && Step(env, code, c).Running?
    ensures !code[c.pc].ERR?
  {
  }

  lemma ChunkSuits(code: Code, i: nat)
    requires Loose(code) && i < |code|
    ensures Suits(code, i)
  {
  }

  lemma {:induction false} StepsLevel(env: Env, code: Code, c: Config, k: nat)
    requires Loose(code) && Level(code, c.pc, |c.temps|)
    ensures Steps(env, code, c, k).Running? ==>
              var d := Steps(env, code, c, k).c; Level(code, d.pc, |d.temps|)
    decreases k
  {
    hide Step, Loose, H;
    if k > 0 && Step(env, code, c).Running? {
      assert c.pc < |code| by { InsideToStep(env, code, c); }
      StepLevel(env, code, c);
      StepsLevel(env, code, Step(env, code, c).c, k - 1);
    }
  }

  /** What one step does to the height. */
  lemma StepHeight(env: Env, code: Code, c: Config)
    requires 0 <= c.pc < |code| && Need(code[c.pc]) <= |c.temps| && Step(env, code, c).Running?
    ensures var x, d := code[c.pc], Step(env, code, c).c;
            if x.JMP? then (d.pc == c.pc + x.off && |d.temps| == |c.temps| + TakenDelta(x.jkind))
                           || (d.pc == c.pc + 1 && |d.temps| == |c.temps| + Delta(x))
            else |d.temps| == |c.temps| + Delta(x) && (d.pc == c.pc + 1 || (x.FOREACH? && d.pc == c.pc + 2))
  {
    hide Step, Delta, Need;
    match code[c.pc]
    case JMP(kind, off) => JumpHeight(env, code, c, kind, off);
    case FOREACH(v) => ForEachHeight(env, code, c, v);
    case _ => OtherHeight(env, code, c);
  }

  lemma JumpHeight(env: Env, code: Code, c: Config, kind: JumpKind, off: int)
    requires 0 <= c.pc < |code| && code[c.pc] == JMP(kind, off) && Need(code[c.pc]) <= |c.temps|
    ensures var d := Step(env, code, c);
            d.Running? && ((d.c.pc == c.pc + off && |d.c.temps| == |c.temps| + TakenDelta(kind))
                           || (d.c.pc == c.pc + 1 && |d.c.temps| == |c.temps| + Delta(code[c.pc])))
  {
    hide Plain, Taken;
  }

  lemma ForEachHeight(env: Env, code: Code, c: Config, v: nat)
    requires 0 <= c.pc < |code| && code[c.pc] == FOREACH(v) && Step(env, code, c).Running?
    ensures var d := Step(env, code, c).c;
            |d.temps| == |c.temps| + Delta(code[c.pc]) && (d.pc == c.pc + 1 || d.pc == c.pc + 2)
  {
    hide Plain, Assign, Position;
  }

  lemma OtherHeight(env: Env, code: Code, c: Config)
    requires 0 <= c.pc < |code| && !code[c.pc].JMP? && !code[c.pc].FOREACH? && Need(code[c.pc]) <= |c.temps|
    requires Step(env, code, c).Running?
    ensures var d := Step(env, code, c).c; |d.temps| == |c.temps| + Delta(code[c.pc]) && d.pc == c.pc + 1
  {
    var x := code[c.pc];
    if x.UN? || x.BIN? || x.FUNC? || x.CALL? || x.ARRAY? {
      TakerHeight(env, code, c);
    } else {
      hide ReadSlot, Assign, Plain, Jump, ForEach, Finish;
      AllFinished(c);
    }
  }

  /** Chunks that take values and leave one. */
  lemma TakerHeight(env: Env, code: Code, c: Config)
    requires 0 <= c.pc < |code| && Need(code[c.pc]) <= |c.temps| && Step(env, code, c).Running?
    requires var x := code[c.pc]; x.UN? || x.BIN? || x.FUNC? || x.CALL? || x.ARRAY?
    ensures var d := Step(env, code, c).c; |d.temps| == |c.temps| + Delta(code[c.pc]) && d.pc == c.pc + 1
  {
    hide ApplyUn, ApplyBin, PlainAll, Finish;
    AllFinished(c);
  }

  lemma AllFinished(c: Config)
    ensures forall n: nat, r: OpResult :: n <= |c.temps| && Finish(c, n, r).Running? ==>
            Finished(c, n, Finish(c, n, r).c)
  {
    hide Finish;
    forall n: nat, r: OpResult | n <= |c.temps| && Finish(c, n, r).Running?
      ensures Finished(c, n, Finish(c, n, r).c)
    {
      FinishHeight(c, n, r);
    }
  }

  predicate Finished(c: Config, n: nat, d: Config) { |d.temps| == |c.temps| - n + 1 && d.pc == c.pc + 1 }

  lemma FinishHeight(c: Config, n: nat, r: OpResult)
    requires n <= |c.temps| && Finish(c, n, r).Running?
    ensures Finished(c, n, Finish(c, n, r).c)
  {
  }

  lemma {:induction false} StepsCounted(env: Env, code: Code, c: Config, k: nat)
    requires Even(code, 0, 0, {}) && Counted(code, c)
    ensures Steps(env, code, c, k).Running? ==> Counted(code, Steps(env, code, c, k).c)
    decreases k
  {
    hide Step, Even, H;
    if k > 0 && Step(env, code, c).Running? {
      assert c.pc < |code| by { InsideToStep(env, code, c); }
      StepCounted(env, code, c);
      StepsCounted(env, code, Step(env, code, c).c, k - 1);
    }
  }

  lemma InsideToStep(env: Env, code: Code, c: Config)
    requires Step(env, code, c).Running?
    ensures 0 <= c.pc < |code|
  {
  }

  /** The finished code of every function is even, so that it fits into the engine. */
  lemma CompiledEven(strict: nat, ref: bool, body: Stmt)
    requires !Crosses(strict, ref, body)
    ensures Even(GenFunction(strict, ref, body).code, 0, 0, {})
  {
    hide GenFunction, FunctionCode, FinalReturn, Joined, Even;
    var t := GenFunction(strict, ref, body);
    FunctionWritten(strict, ref, body);
    FunctionEven(strict, body, ref, FinalReturn(strict, ref, body));
    JoinedEven(t.plain, t.marks, t.code, t.pos);
  }

  /** Every run of every function keeps the height that was counted: when a chunk is reached,
      the stack has the height counted for it and holds what the chunk takes. Nothing is ever
      popped that the call has not pushed. */
  lemma HeightsKept(env: Env, body: Stmt, m: Mem, k: nat)
    requires !Crosses(env.fr.strict, env.fr.returnRef, body)
    ensures var code := GenFunction(env.fr.strict, env.fr.returnRef, body).code;
            var o := Steps(env, code, Config(0, [], m), k);
            o.Running? ==> 0 <= o.c.pc < |code| && |o.c.temps| == H(code, o.c.pc) && Need(code[o.c.pc]) <= |o.c.temps|
  {
    hide GenFunction, FunctionCode, FinalReturn, Joined, Even, Step, H;
    var strict, ref := env.fr.strict, env.fr.returnRef;
    var t := GenFunction(strict, ref, body);
    CompiledEven(strict, ref, body);
    HEnds(t.code);
    ControlStaysInside(env, body, m, k);
    StepsCounted(env, t.code, Config(0, [], m), k);
    var o := Steps(env, t.code, Config(0, [], m), k);
    if o.Running? { ChunkFits(t.code, o.c.pc); }
  }
}
