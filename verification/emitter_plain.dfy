/** What the compiler asks for: for every expression and statement, exactly the unjoined code,
    with all jumps in place. */
module EmitterPlain {
  import opened Bytecode
  import opened Source
  import opened Compile
  import opened Peephole
  import opened Emitter

  predicate Kin(a: Chunk, b: Chunk) {
    if a.JMP? then b.JMP? && a.jkind == b.jkind else a == b
  }

  /** Every chunk that is no stack chunk is in the code, at its place and in order. */
  ghost predicate Placed(t: Trace) {
    && |t.pos| == |t.plain| + 1
    && t.pos[0] == 0 && t.pos[|t.plain|] == |t.code|
    && (t.jump <==> |t.plain| in t.marks)
    && (forall i :: i in t.marks ==> i <= |t.plain|)
    && (forall i :: 0 <= i < |t.plain| && !t.plain[i].STACK?
          ==> 0 <= t.pos[i] < |t.code| && t.pos[i + 1] == t.pos[i] + 1 && Kin(t.plain[i], t.code[t.pos[i]]))
    && (forall i, j :: 0 <= i < j <= |t.plain| && !t.plain[i].STACK? ==> t.pos[i] < t.pos[j])
  }

  /** The last chunk of the code is the last one asked for. */
  ghost predicate Aligned(t: Trace) {
    |t.plain| > 0 && |t.code| > 0
    && if Last(t.plain).STACK? then Last(t.code).STACK? else Kin(Last(t.plain), Last(t.code))
  }

  lemma PutPlaced(strict: nat, t: Trace, x: Chunk)
    requires Placed(t)
    ensures var t' := Put(strict, t, x);
            Placed(t') && t'.plain == t.plain + [Converted(strict, x)] && t'.height == t.height + Delta(x)
            && t'.marks == t.marks && t.pos <= t'.pos
    ensures !Converted(strict, x).STACK? || Converted(strict, x).n > 0 ==> Aligned(Put(strict, t, x))
  {
    var c := Converted(strict, x);
    if !t.jump && Joins(t.code, c) { PutJoined(strict, t, x); } else { PutAppended(strict, t, x); }
  }

  lemma PutAppended(strict: nat, t: Trace, x: Chunk)
    requires Placed(t) && (t.jump || !Joins(t.code, Converted(strict, x)))
    ensures Placed(Put(strict, t, x)) && Aligned(Put(strict, t, x))
  {
    hide Start, OpenRun;
    var t' := Put(strict, t, x);
    forall i, j | 0 <= i < j <= |t'.plain| && !t'.plain[i].STACK? ensures t'.pos[i] < t'.pos[j] {
      if j == |t'.plain| && i < |t.plain| { assert t.pos[i] < t.pos[|t.plain|]; }
    }
  }

  lemma PutJoined(strict: nat, t: Trace, x: Chunk)
    requires Placed(t) && !t.jump && Joins(t.code, Converted(strict, x))
    ensures Placed(Put(strict, t, x)) && (Converted(strict, x).n > 0 ==> Aligned(Put(strict, t, x)))
  {
    hide Start, OpenRun;
    var t' := Put(strict, t, x);
    forall i | 0 <= i < |t.plain| && !t.plain[i].STACK?
      ensures t.pos[i] < |t.code| - 1 <= |t'.code| && t'.code[t.pos[i]] == t.code[t.pos[i]]
    {
      assert t.pos[i] < t.pos[|t.plain|];
      assert Kin(t.plain[i], t.code[t.pos[i]]);
    }
    forall i, j | 0 <= i < j <= |t'.plain| && !t'.plain[i].STACK? ensures t'.pos[i] < t'.pos[j] {
      assert t'.plain[i] == t.plain[i];
    }
  }

  lemma PutBackPlaced(t: Trace, w: nat)
    requires Placed(t) && w <= |t.plain|
    ensures Placed(PutBack(t, w)) && PutBack(t, w).plain == t.plain + [JMP(Always, w - |t.plain|)]
            && t.pos <= PutBack(t, w).pos
  {
  }

  lemma HerePlaced(t: Trace)
    requires Placed(t)
    ensures Placed(Here(t))
  {
  }

  lemma RedirectPlaced(t: Trace, g: nat, w: nat)
    requires Placed(t) && g < |t.plain| && t.plain[g].JMP? && w <= |t.plain|
    ensures var t' := Redirect(t, g, w);
            Placed(t') && t'.plain == t.plain[g := JMP(t.plain[g].jkind, w - g)]
            && t' == t.(code := t'.code, plain := t'.plain)
            && t'.code == t.code[t.pos[g] := JMP(t.plain[g].jkind, t.pos[w] - t.pos[g])]
            && (Aligned(t) ==> Aligned(t'))
  {
    assert IsJump(t, g);
    var t' := Redirect(t, g, w);
    forall i | 0 <= i < |t'.plain| && !t'.plain[i].STACK? ensures Kin(t'.plain[i], t'.code[t'.pos[i]]) {
      if i < g { assert t.pos[i] < t.pos[g]; } else if g < i { assert t.pos[g] < t.pos[i]; }
    }
  }

  lemma RedirectHerePlaced(t: Trace, g: nat)
    requires Placed(t) && g < |t.plain| && t.plain[g].JMP?
    ensures var t' := RedirectHere(t, g);
            Placed(t') && t'.plain == t.plain[g := JMP(t.plain[g].jkind, |t.plain| - g)]
            && t'.marks == t.marks + {|t.plain|} && t'.height == t.height && t'.crossed == t.crossed && t'.pos == t.pos
            && (Aligned(t) ==> Aligned(t'))
  {
    HerePlaced(t);
    RedirectPlaced(Here(t), g, |t.plain|);
  }

  /** Where the code ends with the chunk asked for last, changing that chunk in the code is
      changing it as it was asked for. */
  lemma NoRefPlaced(t: Trace)
    requires Placed(t) && Aligned(t)
    ensures Placed(NoRef(t)) && Aligned(NoRef(t))
    ensures NoRef(t).plain == LastToValue(t.plain)
  {
    var t' := NoRef(t);
    var n := |t.plain| - 1;
    forall i | 0 <= i < |t'.plain| && !t'.plain[i].STACK?
      ensures Kin(t'.plain[i], t'.code[t'.pos[i]])
    {
      assert t.pos[i] < t.pos[n + 1];
      if i < n && !t.plain[n].STACK? { assert t.pos[i] < t.pos[n]; }
      if t.pos[i] == |t.code| - 1 { assert Kin(t.plain[i], Last(t.code)); }
    }
  }

  lemma LastPlace(t: Trace)
    requires Placed(t) && |t.plain| > 0 && !Last(t.plain).STACK?
    ensures t.pos[|t.plain| - 1] == |t.code| - 1
  {
  }

  // ----- pieces of code written one after the other -----

  /** From `t0` to `t` exactly `code` was asked for, and the stack grew by `up`. */
  ghost predicate Wrote(t0: Trace, t: Trace, code: Code, up: int) {
    Placed(t) && t.plain == t0.plain + code && t.height == t0.height + up && t0.marks <= t.marks
    && t0.pos <= t.pos
  }

  lemma ThenWrote(t0: Trace, t1: Trace, t2: Trace, a: Code, b: Code, up1: int, up2: int)
    requires Wrote(t0, t1, a, up1) && Wrote(t1, t2, b, up2)
    ensures Wrote(t0, t2, a + b, up1 + up2)
  {
    assert t0.plain + a + b == t0.plain + (a + b);
  }

  lemma PutWrote(strict: nat, t0: Trace, t: Trace, code: Code, up: int, x: Chunk)
    requires Wrote(t0, t, code, up)
    ensures Wrote(t0, Put(strict, t, x), code + [Converted(strict, x)], up + Delta(x))
    ensures !Converted(strict, x).STACK? || Converted(strict, x).n > 0 ==> Aligned(Put(strict, t, x))
  {
    hide Put, Delta;
    PutPlaced(strict, t, x);
    assert t0.plain + code + [Converted(strict, x)] == t0.plain + (code + [Converted(strict, x)]);
  }

  lemma NoRefWrote(t0: Trace, t: Trace, code: Code, up: int)
    requires Wrote(t0, t, code, up) && Aligned(t) && |code| > 0
    ensures Wrote(t0, NoRef(t), LastToValue(code), up) && Aligned(NoRef(t))
  {
    NoRefPlaced(t);
    assert LastToValue(t0.plain + code) == t0.plain + LastToValue(code);
  }

  lemma RedirectHereWrote(t0: Trace, t: Trace, code: Code, up: int, i: nat)
    requires Wrote(t0, t, code, up) && i < |code| && code[i].JMP?
    ensures Wrote(t0, RedirectHere(t, |t0.plain| + i), code[i := JMP(code[i].jkind, |code| - i)], up)
    ensures Aligned(t) ==> Aligned(RedirectHere(t, |t0.plain| + i))
  {
    hide RedirectHere;
    RedirectHerePlaced(t, |t0.plain| + i);
    assert (t0.plain + code)[|t0.plain| + i := JMP(code[i].jkind, |code| - i)]
      == t0.plain + code[i := JMP(code[i].jkind, |code| - i)];
  }

  lemma HereWrote(t0: Trace, t: Trace, code: Code, up: int)
    requires Wrote(t0, t, code, up)
    ensures Wrote(t0, Here(t), code, up)
  {
    HerePlaced(t);
  }

  lemma SelfWrote(t: Trace)
    requires Placed(t)
    ensures Wrote(t, t, [], 0)
  {
    assert t.plain + [] == t.plain;
  }

  // ----- expressions -----

  /** Asking only for the value is changing the last chunk. */
  lemma {:induction false} ValueCode(strict: nat, e: Expr)
    ensures CodeE(strict, e, true) == LastToValue(CodeE(strict, e, false))
    ensures EndsInValue(CodeE(strict, e, false))
    decreases e, 1
  {
    hide CodeArgs, CodeCall, CodeMethod, CodeBefore;
    match e
    case EUnary(_, _) => ValueUnary(strict, e);
    case ELogic(_, _, _) => ValueLogic(strict, e);
    case ECall(callee, args) =>
      ValueCall(CodeBefore(callee) + CodeArgs(strict, args), callee, Unknown, Count(args));
    case EMethod(how, target, args) =>
      ValueCall(CodeE(strict, target, false) + CodeArgs(strict, args), NoInherited, how, Count(args));
    case _ =>
  }

  predicate EndsInValue(code: Code) {
    |code| > 0 && !Last(code).JMP? && (Last(code).STACK? ==> Last(code).n > 0)
  }

  lemma ValueUnary(strict: nat, e: Expr)
    requires e.EUnary?
    ensures CodeE(strict, e, true) == LastToValue(CodeE(strict, e, false))
    ensures EndsInValue(CodeE(strict, e, false))
    decreases e, 0
  {
    hide CodeArgs, CodeCall, CodeMethod, CodeBefore;
    ValueCode(strict, e.arg);
  }

  lemma ValueLogic(strict: nat, e: Expr)
    requires e.ELogic?
    ensures CodeE(strict, e, true) == LastToValue(CodeE(strict, e, false))
    ensures EndsInValue(CodeE(strict, e, false))
    decreases e, 0
  {
    hide CodeArgs, CodeCall, CodeMethod, CodeBefore;
    if ShortCircuit(e.lop, strict) {
      ValueCode(strict, e.right);
      var second := CodeE(strict, e.right, false);
      var first := CodeE(strict, e.left, true) + [JMP(LogicJump(e.lop), |second| + 1)];
      assert LastToValue(first + second) == first + LastToValue(second);
    }
  }

  lemma ValueCall(before: Code, callee: Callee, how: Method, n: nat)
    ensures EndsInValue(before + CodeCall(callee, n))
            && LastToValue(before + CodeCall(callee, n)) == before + CodeCall(callee, n)
    ensures EndsInValue(before + CodeMethod(how, n))
            && LastToValue(before + CodeMethod(how, n)) == before + CodeMethod(how, n)
  {
    hide Balance;
    var a, b := CodeCall(callee, n), CodeMethod(how, n);
    ValueEnd(before, a);
    ValueEnd(before, b);
  }

  lemma ValueEnd(before: Code, code: Code)
    requires |code| > 0 && EndsInValue(code) && ToValue(Last(code)) == Last(code)
    ensures EndsInValue(before + code) && LastToValue(before + code) == before + code
  {
    assert Last(before + code) == Last(code);
  }

  lemma ConstWritten(strict: nat, c: Const)
    ensures Converted(strict, RawConst(c)) == ConstCode(strict, c) && Delta(RawConst(c)) == 1
  {
  }

  /** Writing an expression asks for exactly its unjoined code; one value more is on the stack. */
  lemma {:induction false} GenEWrites(strict: nat, t: Trace, e: Expr)
    requires Placed(t)
    ensures Wrote(t, GenE(strict, t, e), CodeE(strict, e, false), 1) && Aligned(GenE(strict, t, e))
    decreases e, 1
  {
    hide Put, NoRef, RedirectHere, CodeArgs, GenArgs, CodeCall, CodeMethod, Placed, Aligned;
    match e
    case EConst(c) =>
      SelfWrote(t);
      ConstWritten(strict, c);
      PutWrote(strict, t, t, [], 0, RawConst(c));
      assert [] + [ConstCode(strict, c)] == [ConstCode(strict, c)];
    case ESlot(kind, i) =>
      SelfWrote(t);
      PutWrote(strict, t, t, [], 0, SLOT(kind, i, true));
      assert [] + [SLOT(kind, i, true)] == [SLOT(kind, i, true)];
    case EUnary(_, _) => GenUnaryWrites(strict, t, e);
    case EBinary(op, l, r) => GenPairWrites(strict, t, e, l, !Modifies(op), r, BinChunk(op, strict));
    case ELogic(op, l, r) =>
      if ShortCircuit(op, strict) {
        GenShortWrites(strict, t, e, l, r, LogicJump(op));
      } else {
        GenPairWrites(strict, t, e, l, true, r, LogicChunk(op));
      }
    case ENilAssign(l, r) => GenNilAssignWrites(strict, t, e, l, r);
    case ECall(_, _) => GenCallWrites(strict, t, e);
    case EMethod(_, _, _) => GenMethodWrites(strict, t, e);
  }

  /** An expression of which only the value is wanted, or not. */
  lemma GenValueWrites(strict: nat, t: Trace, e: Expr, valueOnly: bool)
    requires Placed(t)
    ensures Wrote(t, NoRefIf(GenE(strict, t, e), valueOnly), CodeE(strict, e, valueOnly), 1)
    ensures Aligned(NoRefIf(GenE(strict, t, e), valueOnly))
    decreases e, 2
  {
    hide Put, NoRef, GenE, CodeE;
    GenEWrites(strict, t, e);
    ValueCode(strict, e);
    if valueOnly { NoRefWrote(t, GenE(strict, t, e), CodeE(strict, e, false), 1); }
  }

  lemma GenUnaryWrites(strict: nat, t: Trace, e: Expr)
    requires e.EUnary? && Placed(t)
    ensures Wrote(t, GenE(strict, t, e), CodeE(strict, e, false), 1) && Aligned(GenE(strict, t, e))
    decreases e, 0
  {
    hide Put, NoRef, CodeArgs, GenArgs, Aligned;
    var t1 := GenE(strict, t, e.arg);
    GenEWrites(strict, t, e.arg);
    if e.uop != PrePlus {
      ValueCode(strict, e.arg);
      if e.uop == PreNeg { SameEnd(t, t1, CodeE(strict, e.arg, false)); }
      if e.uop == PreNeg && EndsInInt(t1.code) {
        NegateWrote(t, t1, CodeE(strict, e.arg, false), 1);
      } else {
        var v := !KeepsRef(e.uop);
        if v { NoRefWrote(t, t1, CodeE(strict, e.arg, false), 1); }
        PutWrote(strict, t, NoRefIf(t1, v), CodeE(strict, e.arg, v), 1, UN(UnaryChunk(e.uop, false)));
      }
    }
  }

  lemma SameEnd(t0: Trace, t: Trace, code: Code)
    requires t.plain == t0.plain + code && |code| > 0 && Aligned(t)
    ensures EndsInInt(t.code) <==> EndsInInt(code)
    ensures EndsInInt(t.plain) <==> EndsInInt(code)
  {
    assert Last(t.plain) == Last(code);
  }

  lemma NegateWrote(t0: Trace, t: Trace, code: Code, up: int)
    requires Wrote(t0, t, code, up) && Aligned(t) && EndsInInt(t.code) && |code| > 0
    ensures EndsInInt(code) && Wrote(t0, Negate(t), NegateLast(code), up) && Aligned(Negate(t))
  {
    SameEnd(t0, t, code);
    LastPlace(t);
    assert NegateLast(t0.plain + code) == t0.plain + NegateLast(code);
    var t' := Negate(t);
    forall i | 0 <= i < |t'.plain| && !t'.plain[i].STACK? ensures Kin(t'.plain[i], t'.code[t'.pos[i]]) {
      if i < |t.plain| - 1 { assert t.pos[i] < t.pos[|t.plain| - 1]; }
    }
  }

  lemma GenPairWrites(strict: nat, t: Trace, e: Expr, l: Expr, lv: bool, r: Expr, op: BinOp)
    requires l < e && r < e && Placed(t)
    ensures var t' := Put(strict, NoRef(GenE(strict, NoRefIf(GenE(strict, t, l), lv), r)), BIN(op));
            Wrote(t, t', CodeE(strict, l, lv) + CodeE(strict, r, true) + [BIN(op)], 1) && Aligned(t')
    decreases e, 0
  {
    hide Put, NoRef, GenE, CodeE, Placed, Aligned;
    var t1 := NoRefIf(GenE(strict, t, l), lv);
    GenValueWrites(strict, t, l, lv);
    assert Placed(t1);
    var t2 := NoRefIf(GenE(strict, t1, r), true);
    GenValueWrites(strict, t1, r, true);
    ThenWrote(t, t1, t2, CodeE(strict, l, lv), CodeE(strict, r, true), 1, 1);
    PutWrote(strict, t, t2, CodeE(strict, l, lv) + CodeE(strict, r, true), 2, BIN(op));
  }

  lemma GenShortWrites(strict: nat, t: Trace, e: Expr, l: Expr, r: Expr, kind: JumpKind)
    requires l < e && r < e && Placed(t) && PassedDelta(kind) == -1
    ensures var t1 := NoRef(GenE(strict, t, l));
            var t' := RedirectHere(GenE(strict, Put(strict, t1, JMP(kind, 0)), r), |t1.plain|);
            var second := CodeE(strict, r, false);
            Wrote(t, t', CodeE(strict, l, true) + [JMP(kind, |second| + 1)] + second, 1) && Aligned(t')
    decreases e, 0
  {
    hide Put, NoRef, GenE, CodeE, RedirectHere, Placed, Aligned;
    var first, second := CodeE(strict, l, true), CodeE(strict, r, false);
    var t1 := NoRefIf(GenE(strict, t, l), true);
    GenValueWrites(strict, t, l, true);
    var t2 := Put(strict, t1, JMP(kind, 0));
    PutWrote(strict, t, t1, first, 1, JMP(kind, 0));
    assert Placed(t2);
    var t3 := GenE(strict, t2, r);
    GenEWrites(strict, t2, r);
    ThenWrote(t, t2, t3, first + [JMP(kind, 0)], second, 0, 1);
    RedirectHereWrote(t, t3, first + [JMP(kind, 0)] + second, 1, |first|);
    assert (first + [JMP(kind, 0)] + second)[|first| := JMP(kind, |second| + 1)]
      == first + [JMP(kind, |second| + 1)] + second;
  }

  lemma GenNilAssignWrites(strict: nat, t: Trace, e: Expr, l: Expr, r: Expr)
    requires l < e && r < e && Placed(t)
    ensures var t1 := GenE(strict, t, l);
            var t2 := GenE(strict, Put(strict, t1, JMP(IfSet, 0)), r);
            var t' := RedirectHere(Put(strict, t2, BIN(Set)), |t1.plain|);
            var second := CodeE(strict, r, false) + [BIN(Set)];
            Wrote(t, t', CodeE(strict, l, false) + [JMP(IfSet, |second| + 1)] + second, 1) && Aligned(t')
    decreases e, 0
  {
    hide Put, GenE, CodeE, RedirectHere, Placed, Aligned;
    var first, second := CodeE(strict, l, false), CodeE(strict, r, false);
    var t1 := GenE(strict, t, l);
    GenEWrites(strict, t, l);
    var t2 := Put(strict, t1, JMP(IfSet, 0));
    PutWrote(strict, t, t1, first, 1, JMP(IfSet, 0));
    assert Placed(t2);
    var t3 := GenE(strict, t2, r);
    GenEWrites(strict, t2, r);
    ThenWrote(t, t2, t3, first + [JMP(IfSet, 0)], second, 1, 1);
    PutWrote(strict, t, t3, first + [JMP(IfSet, 0)] + second, 2, BIN(Set));
    RedirectHereWrote(t, Put(strict, t3, BIN(Set)), first + [JMP(IfSet, 0)] + second + [BIN(Set)], 1, |first|);
    assert (first + [JMP(IfSet, 0)] + second + [BIN(Set)])[|first| := JMP(IfSet, |second| + 2)]
      == first + [JMP(IfSet, |second| + 2)] + (second + [BIN(Set)]);
  }

  // ----- parameters and calls -----

  function Total(code: Code): int {
    if |code| == 0 then 0 else Delta(code[0]) + Total(code[1..])
  }

  predicate NoZeros(code: Code) { forall x :: x in code ==> x != INT(0) && x != BOOL(false) }

  lemma {:induction false} PutAllWrote(strict: nat, t0: Trace, t: Trace, code: Code, up: int, xs: Code)
    requires Wrote(t0, t, code, up) && NoZeros(xs)
    ensures Wrote(t0, PutAll(strict, t, xs), code + xs, up + Total(xs))
    ensures EndsInValue(xs) ==> Aligned(PutAll(strict, t, xs))
    decreases |xs|
  {
    hide Put, Delta, Placed;
    if |xs| == 0 {
      assert code + xs == code;
    } else {
      assert xs[0] in xs && forall x :: x in xs[1..] ==> x in xs;
      PutWrote(strict, t0, t, code, up, xs[0]);
      PutAllWrote(strict, t0, Put(strict, t, xs[0]), code + [xs[0]], up + Delta(xs[0]), xs[1..]);
      assert code + [xs[0]] + xs[1..] == code + xs;
    }
  }

  lemma {:induction false} GenArgsWrites(strict: nat, t: Trace, a: Args)
    requires Placed(t)
    ensures Wrote(t, GenArgs(strict, t, a), CodeArgs(strict, a), Count(a))
    decreases a
  {
    hide Put, GenE, CodeE, NoRefIf, Placed;
    match a
    case NoArgs => SelfWrote(t);
    case Arg(e, keepRef, rest) =>
      var t1 := NoRefIf(GenE(strict, t, e), !keepRef);
      GenValueWrites(strict, t, e, !keepRef);
      assert Placed(t1);
      GenArgsWrites(strict, t1, rest);
      ThenWrote(t, t1, GenArgs(strict, t1, rest), CodeE(strict, e, !keepRef), CodeArgs(strict, rest), 1, Count(rest));
  }

  lemma CallEnd(callee: Callee, have: nat)
    ensures var c := CodeCall(callee, have);
            NoZeros(c) && Total(CodeBefore(callee)) + have + Total(c) == 1 && EndsInValue(c)
    ensures NoZeros(CodeBefore(callee))
  {
    hide Total, NoZeros, Balance;
    SmallTotals(STACK(1));
    match callee
    case Function(f, pars) => CallTotal(have, pars, FUNC(f, pars));
    case Global(f) => CallTotal(have, MAX_PAR, CALL(CallGlobal, f));
    case NoInherited => CallTotal(have, 0, STACK(1));
    case NoGlobal => NobodyTotal(have);
    case NewArray => SmallTotals(ARRAY(have));
  }

  lemma MethodEnd(how: Method, have: nat)
    ensures var c := CodeMethod(how, have); NoZeros(c) && have + Total(c) == 0 && EndsInValue(c)
  {
    hide Total, NoZeros, Balance;
    match how
    case Named(failSafe, f) => CallTotal(have, MAX_PAR, CALL(MethodKind(failSafe), f));
    case Unknown => NobodyTotal(have);
  }

  lemma SmallTotals(x: Chunk)
    requires x != INT(0) && x != BOOL(false)
    ensures Total([]) == 0 && NoZeros([]) && Total([x]) == Delta(x) && NoZeros([x])
  {
  }

  /** Parameters brought to their number, then one chunk. */
  lemma CallTotal(have: nat, want: nat, x: Chunk)
    requires x != INT(0) && x != BOOL(false)
    ensures NoZeros(Balance(have, want) + [x]) && Total(Balance(have, want) + [x]) == want - have + Delta(x)
  {
    SmallTotals(x);
    if have == want {
      assert [] + [x] == [x];
    } else {
      assert (Balance(have, want) + [x])[1..] == [x];
    }
  }

  lemma NobodyTotal(have: nat)
    ensures var c := Balance(have, 0) + [STACK(-1), STACK(1)]; NoZeros(c) && have + Total(c) == 0
  {
    SmallTotals(STACK(1));
    var pair := [STACK(-1), STACK(1)];
    assert pair[1..] == [STACK(1)];
    assert Total(pair) == 0 && NoZeros(pair);
    if have == 0 {
      assert [] + pair == pair;
    } else {
      assert (Balance(have, 0) + pair)[1..] == pair;
    }
  }

  lemma GenCallWrites(strict: nat, t: Trace, e: Expr)
    requires e.ECall? && Placed(t)
    ensures Wrote(t, GenE(strict, t, e), CodeE(strict, e, false), 1) && Aligned(GenE(strict, t, e))
    decreases e, 0
  {
    hide Put, PutAll, CodeCall, CodeBefore, GenArgs, CodeArgs, Total, Placed, Aligned;
    var n := Count(e.args);
    CallEnd(e.callee, n);
    var t1 := PutAll(strict, t, CodeBefore(e.callee));
    SelfWrote(t);
    PutAllWrote(strict, t, t, [], 0, CodeBefore(e.callee));
    assert Placed(t1);
    assert [] + CodeBefore(e.callee) == CodeBefore(e.callee);
    var t2 := GenArgs(strict, t1, e.args);
    GenArgsWrites(strict, t1, e.args);
    ThenWrote(t, t1, t2, CodeBefore(e.callee), CodeArgs(strict, e.args), Total(CodeBefore(e.callee)), n);
    PutAllWrote(strict, t, t2, CodeBefore(e.callee) + CodeArgs(strict, e.args), Total(CodeBefore(e.callee)) + n,
                CodeCall(e.callee, n));
  }

  lemma GenMethodWrites(strict: nat, t: Trace, e: Expr)
    requires e.EMethod? && Placed(t)
    ensures Wrote(t, GenE(strict, t, e), CodeE(strict, e, false), 1) && Aligned(GenE(strict, t, e))
    decreases e, 0
  {
    hide Put, PutAll, CodeMethod, GenArgs, CodeArgs, Total, Placed, Aligned;
    var n := Count(e.args);
    MethodEnd(e.how, n);
    var t1 := GenE(strict, t, e.target);
    GenEWrites(strict, t, e.target);
    assert Placed(t1);
    var t2 := GenArgs(strict, t1, e.args);
    GenArgsWrites(strict, t1, e.args);
    ThenWrote(t, t1, t2, CodeE(strict, e.target, false), CodeArgs(strict, e.args), 1, n);
    PutAllWrote(strict, t, t2, CodeE(strict, e.target, false) + CodeArgs(strict, e.args), 1 + n, CodeMethod(e.how, n));
  }
}
