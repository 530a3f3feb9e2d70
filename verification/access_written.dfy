/** Where there are no accesses, both models of the compiler write the same code: the one that turns
    the last chunk into a value, and the one that knows from the tree what is a value. */
module AccessWritten {
  import A = Access
  import opened Bytecode
  import opened Source
  import opened Compile
  import opened Emitter
  import opened EmitterPlain
  import ClearText
  import Grammar
  import Text

  // ----- the same chunks -----

  /** The chunk of an operator of the table. */
  predicate IsOperator(strict: nat, id: Grammar.OpId, y: Chunk) {
    match Text.OperatorOf(id)
    case OfOne(u) => u != PrePlus && y == UN(UnaryChunk(u, false))
    case OfTwo(b) => y == BIN(BinChunk(b, strict))
    case Jumping(l) => l != LNil && y == BIN(LogicChunk(l))
    case NilSet => y == BIN(Set)
  }

  predicate IsSlot(kind: nat, y: SlotKind) {
    if kind == 0 then y == ParN else if kind == 1 then y == VarN else if kind == 2 then y == LocalN else y == GlobalN
  }

  predicate IsLogic(logic: nat, y: Logic) {
    if logic == 0 then y == LAnd else if logic == 1 then y == LOr else y == LNil
  }

  /** The same chunk in both models. */
  predicate Same(strict: nat, x: A.Chunk, y: Chunk) {
    match x
    case INT(n) => y == INT(n)
    case BOOL(b) => y == BOOL(b)
    case TEXT(s) => y == STRING(s) || y == C4ID(s)
    case NIL => y == NIL
    case SLOT(kind, i, ref) => y.SLOT? && IsSlot(kind, y.kind) && y.slot == i && y.asRef == ref
    case OPERATOR(id) => IsOperator(strict, id, y)
    case DYN(isVar, ref) => y == UN(if isVar then DynVar(ref) else DynPar(ref))
    case ARRAY(size) => y == ARRAY(size)
    case FUNC(f, pars) => y == FUNC(f, pars)
    case CALL(how, f) =>
      y == CALL(match how case Direct => CallObject case FailSafe => CallFailSafe case Global => CallGlobal, f)
    case STACK(n) => y == STACK(n)
    case JUMP(logic, off) => exists l :: IsLogic(logic, l) && y == JMP(LogicJump(l), off)
    case SETJUMP(off) => y == JMP(IfSet, off)
    case _ => false
  }

  ghost predicate SameAll(strict: nat, xs: A.Code, ys: Code) {
    |xs| == |ys| && forall i :: 0 <= i < |xs| ==> Same(strict, xs[i], ys[i])
  }

  ghost predicate Match(strict: nat, s: A.State, t: Trace) { SameAll(strict, s.code, t.code) && s.jump == t.jump }

  lemma PutMatch(strict: nat, s: A.State, t: Trace, x: A.Chunk, y: Chunk)
    requires Match(strict, s, t) && Same(strict, x, y)
    ensures Match(strict, A.Put(strict, s, x), Put(strict, t, y))
  {
    hide *;
    var c, d := A.Converted(strict, x), Converted(strict, y);
    MatchParts(strict, s, t);
    ConvertedSame(strict, x, y);
    JoinsSame(strict, s.code, t.code, c, d);
    AppendSame(strict, s.code, t.code, c, d);
    if A.Joins(s.code, c) { JoinedSame(strict, s.code, t.code, c.n); }
    PutParts(strict, t, y);
    PutPartsHere(strict, s, x);
    MatchParts(strict, A.Put(strict, s, x), Put(strict, t, y));
  }

  lemma MatchParts(strict: nat, s: A.State, t: Trace)
    ensures Match(strict, s, t) <==> SameAll(strict, s.code, t.code) && s.jump == t.jump
  {
    hide SameAll;
  }

  lemma PutPartsHere(strict: nat, s: A.State, x: A.Chunk)
    ensures var c, u := A.Converted(strict, x), A.Put(strict, s, x);
            !u.jump && (A.Joins(s.code, c) ==> |s.code| > 0 && A.Last(s.code).STACK? && c.STACK?)
            && u.code == if !s.jump && A.Joins(s.code, c) then
                           var sum := A.Last(s.code).n + c.n;
                           if sum == 0 then s.code[..|s.code| - 1] else s.code[|s.code| - 1 := A.STACK(sum)]
                         else s.code + [c]
  {
  }

  lemma PutParts(strict: nat, t: Trace, y: Chunk)
    ensures var d, u := Converted(strict, y), Put(strict, t, y);
            u.code == (if !t.jump && Joins(t.code, d) then JoinInto(t.code, d.n) else t.code + [d]) && !u.jump
  {
    hide OpenRun;
  }

  lemma JoinsSame(strict: nat, xs: A.Code, ys: Code, c: A.Chunk, d: Chunk)
    requires SameAll(strict, xs, ys) && Same(strict, c, d)
    ensures A.Joins(xs, c) == Joins(ys, d)
    ensures A.Joins(xs, c) ==> c.STACK? && d.STACK? && c.n == d.n && |xs| > 0 && |ys| > 0
    ensures A.Joins(xs, c) ==> A.Last(xs).STACK? && Last(ys).STACK? && A.Last(xs).n == Last(ys).n
  {
    if |xs| > 0 { StackSame(strict, A.Last(xs), Last(ys)); }
    StackSame(strict, c, d);
    hide Same;
  }

  lemma AppendSame(strict: nat, xs: A.Code, ys: Code, x: A.Chunk, y: Chunk)
    requires SameAll(strict, xs, ys) && Same(strict, x, y)
    ensures SameAll(strict, xs + [x], ys + [y])
  {
    hide Same;
  }

  lemma JoinedSame(strict: nat, xs: A.Code, ys: Code, n: int)
    requires SameAll(strict, xs, ys) && |xs| > 0 && A.Last(xs).STACK? && Last(ys).STACK? && A.Last(xs).n == Last(ys).n
    ensures var sum := A.Last(xs).n + n;
            SameAll(strict, if sum == 0 then xs[..|xs| - 1] else xs[|xs| - 1 := A.STACK(sum)], JoinInto(ys, n))
  {
    hide Same;
    SameStack(strict, A.Last(xs).n + n);
  }

  lemma ConvertedSame(strict: nat, x: A.Chunk, y: Chunk)
    requires Same(strict, x, y)
    ensures Same(strict, A.Converted(strict, x), Converted(strict, y))
  {
  }

  lemma StackSame(strict: nat, x: A.Chunk, y: Chunk)
    requires Same(strict, x, y)
    ensures x.STACK? == y.STACK? && (x.STACK? ==> x.n == y.n) && x.INT? == y.INT? && (x.INT? ==> x.x == y.x)
  {
  }

  lemma SameStack(strict: nat, n: int)
    ensures Same(strict, A.STACK(n), STACK(n))
  {
  }

  lemma {:induction false} PutAllMatch(strict: nat, s: A.State, t: Trace, xs: A.Code, ys: Code)
    requires Match(strict, s, t) && SameAll(strict, xs, ys)
    ensures Match(strict, A.PutAll(strict, s, xs), PutAll(strict, t, ys))
    decreases |xs|
  {
    hide A.Put, Put, Same, Match;
    if |xs| > 0 {
      PutMatch(strict, s, t, xs[0], ys[0]);
      PutAllMatch(strict, A.Put(strict, s, xs[0]), Put(strict, t, ys[0]), xs[1..], ys[1..]);
    }
  }

  lemma NegateMatch(strict: nat, s: A.State, t: Trace)
    requires Match(strict, s, t)
    ensures A.EndsInInt(s.code) == EndsInInt(t.code)
    ensures EndsInInt(t.code) ==> Match(strict, A.Negate(s), Negate(t))
  {
    if |s.code| > 0 { StackSame(strict, A.Last(s.code), Last(t.code)); }
  }

  /** The jump asked for as chunk `g` stands at `at` and is led here. */
  lemma LeadMatch(strict: nat, s: A.State, t: Trace, at: nat, g: nat)
    requires Match(strict, s, t) && Placed(t) && g < |t.plain| && t.plain[g].JMP? && g < |t.pos| && t.pos[g] == at
    ensures Match(strict, A.Lead(s, at), RedirectHere(t, g))
  {
    hide *;
    JumpIsThere(t, g);
    LedParts(t, g);
    MatchParts(strict, s, t);
    SameAt(strict, s.code, t.code, at);
    JumpSame(strict, s.code[at], t.code[at], |s.code| - at);
    LeadParts(s, at);
    var off := |s.code| - at;
    if s.code[at].JUMP? {
      UpdateSame(strict, s.code, t.code, at, A.JUMP(s.code[at].logic, off), JMP(t.code[at].jkind, off));
    } else {
      UpdateSame(strict, s.code, t.code, at, A.SETJUMP(off), JMP(t.code[at].jkind, off));
    }
    MatchParts(strict, A.Lead(s, at), RedirectHere(t, g));
  }

  lemma JumpIsThere(t: Trace, g: nat)
    requires Placed(t) && g < |t.plain| && t.plain[g].JMP?
    ensures IsJump(t, g) && |t.pos| == |t.plain| + 1 && 0 <= t.pos[g] < |t.code| && t.code[t.pos[g]].JMP?
    ensures t.pos[|t.plain|] == |t.code|
  {
  }

  lemma LedParts(t: Trace, g: nat)
    requires IsJump(t, g) && t.pos[|t.plain|] == |t.code|
    ensures var u, k := RedirectHere(t, g), t.pos[g];
            u.jump && 0 <= k < |t.code| && u.code == t.code[k := JMP(t.code[k].jkind, |t.code| - k)]
  {
  }

  lemma LeadParts(s: A.State, at: nat)
    requires at < |s.code|
    ensures A.Lead(s, at).jump
    ensures s.code[at].JUMP? ==> A.Lead(s, at).code == s.code[at := A.JUMP(s.code[at].logic, |s.code| - at)]
    ensures s.code[at].SETJUMP? ==> A.Lead(s, at).code == s.code[at := A.SETJUMP(|s.code| - at)]
  {
  }

  lemma SameAt(strict: nat, xs: A.Code, ys: Code, i: nat)
    requires SameAll(strict, xs, ys) && i < |ys|
    ensures |xs| == |ys| && Same(strict, xs[i], ys[i])
  {
  }

  lemma UpdateSame(strict: nat, xs: A.Code, ys: Code, at: nat, x: A.Chunk, y: Chunk)
    requires SameAll(strict, xs, ys) && Same(strict, x, y) && at < |xs|
    ensures SameAll(strict, xs[at := x], ys[at := y])
  {
    hide Same;
  }

  lemma LastPos(t: Trace)
    requires Placed(t)
    ensures |t.pos| == |t.plain| + 1 && t.pos[|t.plain|] == |t.code|
  {
  }

  lemma JumpSame(strict: nat, x: A.Chunk, y: Chunk, off: int)
    requires Same(strict, x, y)
    ensures x.JUMP? ==> y.JMP? && Same(strict, A.JUMP(x.logic, off), JMP(y.jkind, off))
    ensures x.SETJUMP? ==> y.JMP? && Same(strict, A.SETJUMP(off), JMP(y.jkind, off))
    ensures y.JMP? ==> x.JUMP? || x.SETJUMP?
  {
  }

  // ----- the same expressions -----

  /** `x` is the expression `e`, as one or the other model of the compiler has it. */
  predicate Reads(strict: nat, e: Expr, valueOnly: bool, x: A.Expr)
    decreases e
  {
    match e
    case EConst(c) => IsConst(c, x)
    case ESlot(kind, i) => x.Slot? && IsSlot(x.kind, kind) && x.slot == i && x.ref == !valueOnly
    case EUnary(op, arg) =>
      if op == VarOf || op == ParOf then
        x.Dyn? && x.isVar == (op == VarOf) && x.ref == !valueOnly && Reads(strict, arg, false, x.i)
      else
        && x.Operator? && Text.OperatorOf(x.id) == Text.OfOne(op) && One(x.operands)
        && Reads(strict, arg, if op == PrePlus then valueOnly else !KeepsRef(op), x.operands.last)
    case EBinary(op, l, r) =>
      && x.Operator? && Text.OperatorOf(x.id) == Text.OfTwo(op) && Two(x.operands)
      && Reads(strict, l, !Modifies(op), x.operands.init.last) && Reads(strict, r, true, x.operands.last)
    case ELogic(op, l, r) =>
      if ShortCircuit(op, strict) then
        x.Short? && IsLogic(x.logic, op) && Reads(strict, l, true, x.l) && Reads(strict, r, valueOnly, x.r)
      else
        && x.Operator? && Text.OperatorOf(x.id) == Text.Jumping(op) && Two(x.operands)
        && Reads(strict, l, true, x.operands.init.last) && Reads(strict, r, true, x.operands.last)
    case ENilAssign(l, r) => x.NilAssign? && Reads(strict, l, false, x.l) && Reads(strict, r, false, x.r)
    case ECall(callee, args) =>
      (match callee
       case Function(f, pars) => x.Call? && x.f == f && x.pars == pars && ReadsAll(strict, args, x.args)
       case Global(f) => x.GlobalCall? && x.f == f && ReadsAll(strict, args, x.args)
       case NoInherited => x.NoInherited? && ReadsAll(strict, args, x.args)
       case NoGlobal => x.GlobalNobody? && ReadsAll(strict, args, x.args)
       case NewArray => x.Array? && ReadsAll(strict, args, x.items))
    case EMethod(how, target, args) =>
      (match how
       case Named(failSafe, f) =>
         x.ObjectCall? && x.f == f && x.failSafe == failSafe && Reads(strict, target, false, x.target)
         && ReadsAll(strict, args, x.args)
       case Unknown => x.Nobody? && Reads(strict, target, false, x.target) && ReadsAll(strict, args, x.args))
  }

  predicate One(es: A.Exprs) { es.More? && es.init.NoExprs? }

  predicate Two(es: A.Exprs) { es.More? && One(es.init) }

  predicate IsConst(c: Const, x: A.Expr) {
    match c
    case CNil => x.Nil?
    case CInt(n) => x == A.Int(n)
    case CBool(b) => x == A.Bool(b)
    case CString(s) => x == A.Text(s)
    case CId(id) => x == A.Text(id)
  }

  predicate ReadsAll(strict: nat, a: Args, es: A.Exprs)
    decreases a, 1
  {
    ReadsFrom(strict, a, es, 0)
  }

  /** The parameters from number `i` on. */
  predicate ReadsFrom(strict: nat, a: Args, es: A.Exprs, i: nat)
    decreases a, 0
  {
    match a
    case NoArgs => i == A.Count(es)
    case Arg(e, keepRef, rest) =>
      i < A.Count(es) && Reads(strict, e, !keepRef, Item(es, i)) && ReadsFrom(strict, rest, es, i + 1)
  }

  function Item(es: A.Exprs, i: nat): A.Expr
    requires i < A.Count(es)
  {
    if i == A.Count(es) - 1 then es.last else Item(es.init, i)
  }

  function First(es: A.Exprs, i: nat): (r: A.Exprs)
    requires i <= A.Count(es)
    ensures A.Count(r) == i
  {
    if i == A.Count(es) then es else First(es.init, i)
  }

  lemma {:induction false} FirstNext(es: A.Exprs, i: nat)
    requires i < A.Count(es)
    ensures First(es, i + 1) == A.More(First(es, i), Item(es, i))
    decreases es
  {
    if i + 1 < A.Count(es) { FirstNext(es.init, i); }
  }

  lemma {:induction false} ReadsCount(strict: nat, a: Args, es: A.Exprs, i: nat)
    requires ReadsFrom(strict, a, es, i)
    ensures A.Count(es) == i + Count(a)
    decreases a
  {
    hide Reads;
    if a.Arg? { ReadsCount(strict, a.rest, es, i + 1); }
  }

  // ----- from references to values -----

  /** Nothing would be changed by asking for a value. */
  predicate IsValue(code: Code) { |code| > 0 && ToValue(Last(code)) == Last(code) }

  lemma AsValue(t: Trace, valueOnly: bool)
    requires IsValue(t.code)
    ensures NoRefIf(t, valueOnly).code == t.code && NoRefIf(t, valueOnly).jump == t.jump
  {
    assert t.code[|t.code| - 1 := Last(t.code)] == t.code;
  }

  /** What `Match` looks at. */
  lemma MatchLike(strict: nat, s: A.State, t: Trace, u: Trace)
    requires Match(strict, s, t) && u.code == t.code && u.jump == t.jump
    ensures Match(strict, s, u)
  {
  }

  lemma ValueMatch(strict: nat, s: A.State, t: Trace, valueOnly: bool)
    requires Match(strict, s, t) && IsValue(t.code)
    ensures Match(strict, s, NoRefIf(t, valueOnly))
  {
    AsValue(t, valueOnly);
    MatchLike(strict, s, t, NoRefIf(t, valueOnly));
  }

  lemma PutIsValue(strict: nat, t: Trace, y: Chunk)
    requires ToValue(y) == y && (Converted(strict, y).STACK? ==> Converted(strict, y).n > 0)
    ensures IsValue(Put(strict, t, y).code)
  {
  }

  /** A jump is led over what ends the code. */
  lemma LedValue(t: Trace, g: nat, valueOnly: bool)
    requires Placed(t) && Aligned(t) && g + 1 < |t.plain| && t.plain[g].JMP?
    ensures var u, v := RedirectHere(NoRefIf(t, valueOnly), g), NoRefIf(RedirectHere(t, g), valueOnly);
            u.code == v.code && u.jump == v.jump
    ensures NoRefIf(t, valueOnly).pos == t.pos
  {
    JumpInside(t, g);
    if valueOnly {
      LastPos(t);
      hide Placed, Aligned;
      ChangesApart(t, g);
    }
  }

  /** Filling in the jump and changing the last chunk are two places. */
  lemma ChangesApart(t: Trace, g: nat)
    requires IsJump(t, g) && t.pos[g] < |t.code| - 1 && t.pos[|t.plain|] == |t.code|
    ensures RedirectHere(NoRef(t), g).code == NoRef(RedirectHere(t, g)).code
    ensures RedirectHere(NoRef(t), g).jump == NoRef(RedirectHere(t, g)).jump
  {
    var k, n := t.pos[g], |t.code| - 1;
    var to := JMP(t.code[k].jkind, |t.code| - k);
    var last := ToValue(Last(t.code));
    SameLength(t, g);
    assert RedirectHere(t, g).code == t.code[k := to];
    if IsJump(Here(NoRef(t)), g) {
      assert RedirectHere(NoRef(t), g).code == t.code[n := last][k := to];
    }
  }

  lemma SameLength(t: Trace, g: nat)
    requires IsJump(t, g) && t.pos[g] < |t.code| - 1
    ensures IsJump(Here(t), g) && |NoRef(t).plain| == |t.plain| && IsJump(Here(NoRef(t)), g)
  {
  }

  lemma JumpInside(t: Trace, g: nat)
    requires Placed(t) && Aligned(t) && g + 1 < |t.plain| && t.plain[g].JMP?
    ensures IsJump(t, g) && t.pos[g] < |t.code| - 1
  {
    var n := |t.plain| - 1;
    if !t.plain[n].STACK? { LastPlace(t); assert t.pos[g] < t.pos[n]; }
  }

  // ----- the same code -----

  lemma {:induction false} MatchE(strict: nat, s: A.State, t: Trace, e: Expr, valueOnly: bool, x: A.Expr)
    requires Match(strict, s, t) && Placed(t) && Reads(strict, e, valueOnly, x)
    ensures Match(strict, A.Write(strict, s, x), NoRefIf(GenE(strict, t, e), valueOnly))
    decreases e, 2
  {
    hide Match, Placed, A.Put, Put, PutAll, A.PutAll, CodeE;
    match e
    case EConst(c) => ConstMatch(strict, s, t, c, valueOnly, x);
    case ESlot(kind, i) => SlotMatch(strict, s, t, kind, i, valueOnly, x);
    case EUnary(op, arg) => UnaryMatch(strict, s, t, e, valueOnly, x);
    case EBinary(op, l, r) =>
      PairMatch(strict, s, t, e, l, !Modifies(op), r, valueOnly, x, BIN(BinChunk(op, strict)));
    case ELogic(op, l, r) =>
      if ShortCircuit(op, strict) {
        ShortMatch(strict, s, t, e, valueOnly, x);
      } else {
        PairMatch(strict, s, t, e, l, true, r, valueOnly, x, BIN(LogicChunk(op)));
      }
    case ENilAssign(l, r) => NilAssignMatch(strict, s, t, e, valueOnly, x);
    case ECall(callee, args) => CallMatch(strict, s, t, e, valueOnly, x);
    case EMethod(how, target, args) => MethodMatch(strict, s, t, e, valueOnly, x);
  }

  lemma ConstMatch(strict: nat, s: A.State, t: Trace, c: Const, valueOnly: bool, x: A.Expr)
    requires Match(strict, s, t) && IsConst(c, x)
    ensures Match(strict, A.Write(strict, s, x), NoRefIf(GenE(strict, t, EConst(c)), valueOnly))
  {
    hide Match, A.Put, Put, IsValue;
    var y := match c case CNil => A.NIL case CInt(n) => A.INT(n) case CBool(b) => A.BOOL(b) case CString(i) => A.TEXT(i)
             case CId(i) => A.TEXT(i);
    PutMatch(strict, s, t, y, RawConst(c));
    PutIsValue(strict, t, RawConst(c));
    ValueMatch(strict, A.Put(strict, s, y), Put(strict, t, RawConst(c)), valueOnly);
  }

  lemma SlotMatch(strict: nat, s: A.State, t: Trace, kind: SlotKind, i: nat, valueOnly: bool, x: A.Expr)
    requires Match(strict, s, t) && x.Slot? && IsSlot(x.kind, kind) && x.slot == i && x.ref == !valueOnly
    ensures Match(strict, A.Write(strict, s, x), NoRefIf(GenE(strict, t, ESlot(kind, i)), valueOnly))
  {
    hide Match, A.Put;
    PutMatch(strict, s, t, A.SLOT(x.kind, i, !valueOnly), SLOT(kind, i, !valueOnly));
    var u := Put(strict, t, SLOT(kind, i, true));
    assert valueOnly ==> u.code[|u.code| - 1 := SLOT(kind, i, false)] == t.code + [SLOT(kind, i, false)];
    MatchLike(strict, A.Write(strict, s, x), Put(strict, t, SLOT(kind, i, !valueOnly)), NoRefIf(u, valueOnly));
  }

  lemma DynMatch(strict: nat, s: A.State, t: Trace, isVar: bool, valueOnly: bool)
    requires Match(strict, s, t)
    ensures Match(strict, A.Put(strict, s, A.DYN(isVar, !valueOnly)),
                NoRefIf(Put(strict, t, UN(if isVar then DynVar(true) else DynPar(true))), valueOnly))
  {
    hide Match, A.Put;
    var ref, y := UN(if isVar then DynVar(true) else DynPar(true)),
        UN(if isVar then DynVar(!valueOnly) else DynPar(!valueOnly));
    PutMatch(strict, s, t, A.DYN(isVar, !valueOnly), y);
    var u := Put(strict, t, ref);
    assert u.code[|u.code| - 1 := y] == t.code + [y];
    MatchLike(strict, A.Put(strict, s, A.DYN(isVar, !valueOnly)), Put(strict, t, y), NoRefIf(u, valueOnly));
  }

  lemma OneWritten(strict: nat, s: A.State, es: A.Exprs)
    requires One(es)
    ensures A.WriteAll(strict, s, es) == A.Write(strict, s, es.last)
  {
    hide A.Write;
    assert A.WriteAll(strict, s, A.NoExprs) == s;
  }

  lemma TwoWritten(strict: nat, s: A.State, es: A.Exprs)
    requires Two(es)
    ensures A.WriteAll(strict, s, es) == A.Write(strict, A.Write(strict, s, es.init.last), es.last)
  {
    OneWritten(strict, s, es.init);
  }

  lemma Ids(id: Grammar.OpId)
    ensures Text.OperatorOf(id) == Text.OfOne(PrePlus) <==> id == A.PLUS
    ensures Text.OperatorOf(id) == Text.OfOne(PreNeg) <==> id == A.MINUS
    ensures Text.OperatorOf(A.SET) == Text.NilSet
  {
  }

  lemma UnaryMatch(strict: nat, s: A.State, t: Trace, e: Expr, valueOnly: bool, x: A.Expr)
    requires Match(strict, s, t) && Placed(t) && e.EUnary? && Reads(strict, e, valueOnly, x)
    ensures Match(strict, A.Write(strict, s, x), NoRefIf(GenE(strict, t, e), valueOnly))
    decreases e, 1
  {
    hide Match, Placed, A.Put, Put, A.WriteAll, NoRef, Text.OperatorOf, IsValue;
    var t1 := GenE(strict, t, e.arg);
    if e.uop == VarOf || e.uop == ParOf {
      MatchE(strict, s, t, e.arg, false, x.i);
      DynMatch(strict, A.Write(strict, s, x.i), t1, x.isVar, valueOnly);
    } else {
      var ref := if e.uop == PrePlus then valueOnly else !KeepsRef(e.uop);
      MatchE(strict, s, t, e.arg, ref, x.operands.last);
      OneWritten(strict, s, x.operands);
      Ids(x.id);
      SignMatch(strict, A.WriteAll(strict, s, x.operands), t1, e.uop, ref, x.id, valueOnly);
    }
  }

  lemma SignMatch(strict: nat, s1: A.State, t1: Trace, op: Unary, ref: bool, id: Grammar.OpId, valueOnly: bool)
    requires Match(strict, s1, NoRefIf(t1, ref)) && op != VarOf && op != ParOf && Text.OperatorOf(id) == Text.OfOne(op)
    requires ref == if op == PrePlus then valueOnly else !KeepsRef(op)
    ensures var s2 := if id == A.PLUS then s1 else if id == A.MINUS && A.EndsInInt(s1.code) then A.Negate(s1)
                else A.Put(strict, s1, A.OPERATOR(id));
            var t2 := if op == PrePlus then t1 else if op == PreNeg && EndsInInt(t1.code) then Negate(t1)
                else Put(strict, NoRefIf(t1, !KeepsRef(op)), UN(UnaryChunk(op, false)));
            Match(strict, s2, NoRefIf(t2, valueOnly))
  {
    Ids(id);
    NegateMatch(strict, s1, NoRefIf(t1, ref));
    IntStays(t1, ref);
    if op == PrePlus {
    } else if op == PreNeg && EndsInInt(t1.code) {
      assert IsValue(Negate(t1).code);
      MatchLike(strict, A.Negate(s1), Negate(NoRefIf(t1, ref)), Negate(t1));
      ValueMatch(strict, A.Negate(s1), Negate(t1), valueOnly);
    } else {
      var y := UN(UnaryChunk(op, false));
      assert IsOperator(strict, id, y);
      PutMatch(strict, s1, NoRefIf(t1, ref), A.OPERATOR(id), y);
      PutIsValue(strict, NoRefIf(t1, ref), y);
      hide Match, A.Put, Put, NoRef, IsValue;
      ValueMatch(strict, A.Put(strict, s1, A.OPERATOR(id)), Put(strict, NoRefIf(t1, ref), y), valueOnly);
    }
  }

  lemma IntStays(t: Trace, ref: bool)
    ensures EndsInInt(NoRefIf(t, ref).code) == EndsInInt(t.code)
    ensures EndsInInt(t.code) ==> Negate(NoRefIf(t, ref)).code == Negate(t).code
                                  && Negate(NoRefIf(t, ref)).jump == Negate(t).jump
  {
    if EndsInInt(t.code) { assert t.code[|t.code| - 1 := Last(t.code)] == t.code; }
  }

  /** An operator with two operands. */
  lemma PairMatch(strict: nat, s: A.State, t: Trace, e: Expr, l: Expr, lv: bool, r: Expr, valueOnly: bool, x: A.Expr,
                  y: Chunk)
    requires Match(strict, s, t) && Placed(t) && l < e && r < e && x.Operator? && Two(x.operands)
    requires Reads(strict, l, lv, x.operands.init.last) && Reads(strict, r, true, x.operands.last)
    requires y.BIN? && IsOperator(strict, x.id, y) && !Text.OperatorOf(x.id).OfOne?
    ensures var t1 := NoRefIf(GenE(strict, t, l), lv);
            Match(strict, A.Write(strict, s, x), NoRefIf(Put(strict, NoRef(GenE(strict, t1, r)), y), valueOnly))
    decreases e, 1
  {
    hide Match, Placed, A.Put, Put, A.WriteAll, GenE, IsValue, Reads, IsOperator, NoRef, CodeE;
    var x1, x2 := x.operands.init.last, x.operands.last;
    var t1 := NoRefIf(GenE(strict, t, l), lv);
    MatchE(strict, s, t, l, lv, x1);
    GenValueWrites(strict, t, l, lv);
    MatchE(strict, A.Write(strict, s, x1), t1, r, true, x2);
    TwoWritten(strict, s, x.operands);
    Ids(x.id);
    var s2, t2 := A.WriteAll(strict, s, x.operands), NoRefIf(GenE(strict, t1, r), true);
    PutMatch(strict, s2, t2, A.OPERATOR(x.id), y);
    PutIsValue(strict, t2, y);
    ValueMatch(strict, A.Put(strict, s2, A.OPERATOR(x.id)), Put(strict, t2, y), valueOnly);
  }

  /** A jump and an operand behind it. */
  lemma JumpPlace(strict: nat, t1: Trace, kind: JumpKind, r: Expr)
    requires Placed(t1)
    ensures var g, t3 := |t1.plain|, GenE(strict, Put(strict, t1, JMP(kind, 0)), r);
            && Placed(Put(strict, t1, JMP(kind, 0))) && Placed(t3) && Aligned(t3) && g + 1 < |t3.plain|
            && t3.plain[g].JMP? && g < |t3.pos| && t3.pos[g] == |t1.code|
  {
    hide GenE, CodeE, Put, Placed, Aligned;
    PutPlaced(strict, t1, JMP(kind, 0));
    var t2 := Put(strict, t1, JMP(kind, 0));
    GenEWrites(strict, t2, r);
    CodeENonEmpty(strict, r, false);
    LastPos(t1);
    LastPos(t2);
  }

  lemma ShortMatch(strict: nat, s: A.State, t: Trace, e: Expr, valueOnly: bool, x: A.Expr)
    requires Match(strict, s, t) && Placed(t) && e.ELogic? && ShortCircuit(e.lop, strict)
             && Reads(strict, e, valueOnly, x)
    ensures Match(strict, A.Write(strict, s, x), NoRefIf(GenE(strict, t, e), valueOnly))
    decreases e, 1
  {
    hide Match, Placed, Aligned, A.Put, Put, NoRef, CodeE, RedirectHere, A.Lead, IsValue;
    var kind := LogicJump(e.lop);
    var s1, t1 := A.Write(strict, s, x.l), NoRefIf(GenE(strict, t, e.left), true);
    MatchE(strict, s, t, e.left, true, x.l);
    GenValueWrites(strict, t, e.left, true);
    assert Same(strict, A.JUMP(x.logic, 0), JMP(kind, 0));
    PutMatch(strict, s1, t1, A.JUMP(x.logic, 0), JMP(kind, 0));
    var s2, t2 := A.Put(strict, s1, A.JUMP(x.logic, 0)), Put(strict, t1, JMP(kind, 0));
    JumpPlace(strict, t1, kind, e.right);
    MatchE(strict, s2, t2, e.right, valueOnly, x.r);
    var s3, t3 := A.Write(strict, s2, x.r), GenE(strict, t2, e.right);
    LedMatch(strict, s1, s3, t1, t3, valueOnly);
  }

  lemma LedMatch(strict: nat, s1: A.State, s3: A.State, t1: Trace, t3: Trace, valueOnly: bool)
    requires Match(strict, s1, t1) && Match(strict, s3, NoRefIf(t3, valueOnly)) && Placed(t3) && Aligned(t3)
    requires |t1.plain| + 1 < |t3.plain| && t3.plain[|t1.plain|].JMP?
    requires |t1.plain| < |t3.pos| && t3.pos[|t1.plain|] == |t1.code|
    ensures Match(strict, A.Lead(s3, |s1.code|), NoRefIf(RedirectHere(t3, |t1.plain|), valueOnly))
  {
    hide Same, Placed, Aligned, RedirectHere, A.Lead;
    var g := |t1.plain|;
    LedValue(t3, g, valueOnly);
    NoRefPlaced(t3);
    ValueJump(t3, g, valueOnly);
    LeadMatch(strict, s3, NoRefIf(t3, valueOnly), |s1.code|, g);
    MatchLike(strict, A.Lead(s3, |s1.code|), RedirectHere(NoRefIf(t3, valueOnly), g),
        NoRefIf(RedirectHere(t3, g), valueOnly));
  }

  lemma ValueJump(t: Trace, g: nat, valueOnly: bool)
    requires g + 1 < |t.plain| && t.plain[g].JMP?
    ensures g < |NoRefIf(t, valueOnly).plain| && NoRefIf(t, valueOnly).plain[g].JMP?
  {
  }

  lemma NilAssignMatch(strict: nat, s: A.State, t: Trace, e: Expr, valueOnly: bool, x: A.Expr)
    requires Match(strict, s, t) && Placed(t) && e.ENilAssign? && Reads(strict, e, valueOnly, x)
    ensures Match(strict, A.Write(strict, s, x), NoRefIf(GenE(strict, t, e), valueOnly))
    decreases e, 1
  {
    hide Match, Placed, Aligned, A.Put, Put, NoRef, CodeE, RedirectHere, A.Lead, IsValue, Text.OperatorOf;
    var s1, t1 := A.Write(strict, s, x.l), GenE(strict, t, e.left);
    MatchE(strict, s, t, e.left, false, x.l);
    GenEWrites(strict, t, e.left);
    PutMatch(strict, s1, t1, A.SETJUMP(0), JMP(IfSet, 0));
    var s2, t2 := A.Put(strict, s1, A.SETJUMP(0)), Put(strict, t1, JMP(IfSet, 0));
    JumpPlace(strict, t1, IfSet, e.right);
    MatchE(strict, s2, t2, e.right, false, x.r);
    var s3, t3 := A.Write(strict, s2, x.r), GenE(strict, t2, e.right);
    Ids(A.SET);
    PutMatch(strict, s3, t3, A.OPERATOR(A.SET), BIN(Set));
    SetPlaced(strict, t3, |t1.plain|);
    var s4, t4 := A.Put(strict, s3, A.OPERATOR(A.SET)), Put(strict, t3, BIN(Set));
    PutIsValue(strict, t3, BIN(Set));
    ValueMatch(strict, s4, t4, valueOnly);
    LedMatch(strict, s1, s4, t1, t4, valueOnly);
  }

  lemma SetPlaced(strict: nat, t: Trace, g: nat)
    requires Placed(t) && g < |t.plain| && t.plain[g].JMP? && g < |t.pos|
    ensures var t' := Put(strict, t, BIN(Set));
            Placed(t') && Aligned(t') && g + 1 < |t'.plain| && t'.plain[g].JMP? && g < |t'.pos| && t'.pos[g] == t.pos[g]
  {
    hide Placed, Aligned;
    PutPlaced(strict, t, BIN(Set));
  }

  // ----- calls -----

  lemma {:induction false} ArgsMatch(strict: nat, s: A.State, t: Trace, a: Args, es: A.Exprs, i: nat)
    requires ReadsFrom(strict, a, es, i) && i <= A.Count(es) && Placed(t)
    requires Match(strict, A.WriteAll(strict, s, First(es, i)), t)
    ensures Match(strict, A.WriteAll(strict, s, es), GenArgs(strict, t, a)) && Placed(GenArgs(strict, t, a))
    decreases a, 0
  {
    hide Match, Placed, A.Write, GenE, NoRef, CodeE, Reads;
    match a
    case NoArgs =>
    case Arg(e, keepRef, rest) =>
      FirstNext(es, i);
      GenValueWrites(strict, t, e, !keepRef);
      MatchE(strict, A.WriteAll(strict, s, First(es, i)), t, e, !keepRef, Item(es, i));
      ArgsMatch(strict, s, NoRefIf(GenE(strict, t, e), !keepRef), rest, es, i + 1);
  }

  lemma AllArgsMatch(strict: nat, s: A.State, t: Trace, a: Args, es: A.Exprs)
    requires ReadsAll(strict, a, es) && Match(strict, s, t) && Placed(t)
    ensures Match(strict, A.WriteAll(strict, s, es), GenArgs(strict, t, a)) && A.Count(es) == Count(a)
    decreases a, 1
  {
    hide Match, Placed, A.Write, GenE, Reads, GenArgs;
    ReadsCount(strict, a, es, 0);
    NoneFirst(es);
    assert A.WriteAll(strict, s, First(es, 0)) == s;
    ArgsMatch(strict, s, t, a, es, 0);
  }

  lemma {:induction false} NoneFirst(es: A.Exprs)
    ensures First(es, 0) == A.NoExprs
    decreases es
  {
    if es.More? { NoneFirst(es.init); }
  }

  /** What stands behind the parameters, and leaves a value. */
  lemma {:induction false} EndIsValue(strict: nat, t: Trace, ys: Code)
    requires |ys| > 0 && ToValue(Last(ys)) == Last(ys)
    requires Converted(strict, Last(ys)).STACK? ==> Converted(strict, Last(ys)).n > 0
    ensures IsValue(PutAll(strict, t, ys).code)
    decreases |ys|
  {
    hide Put, IsValue;
    if |ys| == 1 {
      assert ys[1..] == [];
      PutIsValue(strict, t, ys[0]);
      assert PutAll(strict, Put(strict, t, ys[0]), []) == Put(strict, t, ys[0]);
    } else {
      EndIsValue(strict, Put(strict, t, ys[0]), ys[1..]);
    }
  }

  lemma EndMatch(strict: nat, s: A.State, t: Trace, xs: A.Code, ys: Code, valueOnly: bool)
    requires Match(strict, s, t) && SameAll(strict, xs, ys) && |ys| > 0 && ToValue(Last(ys)) == Last(ys)
    requires Converted(strict, Last(ys)).STACK? ==> Converted(strict, Last(ys)).n > 0
    ensures Match(strict, A.PutAll(strict, s, xs), NoRefIf(PutAll(strict, t, ys), valueOnly))
  {
    hide Match, A.PutAll, PutAll, IsValue;
    PutAllMatch(strict, s, t, xs, ys);
    EndIsValue(strict, t, ys);
    ValueMatch(strict, A.PutAll(strict, s, xs), PutAll(strict, t, ys), valueOnly);
  }

  /** What a call ends with is the same. */
  lemma AfterSame(strict: nat, x: A.Expr, callee: Callee, n: nat)
    requires match callee
             case Function(f, pars) => x.Call? && x.f == f && x.pars == pars
             case Global(f) => x.GlobalCall? && x.f == f
             case NoInherited => x.NoInherited?
             case NoGlobal => x.GlobalNobody?
             case NewArray => false
    requires A.Count(x.args) == n
    ensures SameAll(strict, A.After(x), CodeCall(callee, n))
  {
    match callee
    case Function(f, pars) => BalanceSame(strict, n, pars, [A.FUNC(f, pars)], [FUNC(f, pars)]);
    case Global(f) => BalanceSame(strict, n, 10, [A.CALL(A.Global, f)], [CALL(CallGlobal, f)]);
    case NoInherited => BalanceSame(strict, n, 0, [A.STACK(1)], [STACK(1)]);
    case NoGlobal => BalanceSame(strict, n, 0, [A.STACK(-1), A.STACK(1)], [STACK(-1), STACK(1)]);
  }

  lemma BalanceSame(strict: nat, have: nat, want: nat, xs: A.Code, ys: Code)
    requires SameAll(strict, xs, ys)
    ensures SameAll(strict, A.Balance(have, want) + xs, Balance(have, want) + ys)
  {
    SameStack(strict, want - have);
    hide Same;
  }

  lemma MethodSame(strict: nat, x: A.Expr, how: Method, n: nat)
    requires if how.Named? then x.ObjectCall? && x.f == how.mf && x.failSafe == how.failSafe else x.Nobody?
    requires A.Count(x.args) == n
    ensures SameAll(strict, A.After(x), CodeMethod(how, n))
  {
    match how
    case Named(failSafe, f) =>
      BalanceSame(strict, n, 10, [A.CALL(if failSafe then A.FailSafe else A.Direct, f)],
          [CALL(if failSafe then CallFailSafe else CallObject, f)]);
    case Unknown => BalanceSame(strict, n, 0, [A.STACK(-1), A.STACK(1)], [STACK(-1), STACK(1)]);
  }

  lemma CallEnds(strict: nat, callee: Callee, how: Method, n: nat)
    ensures forall ys :: ys == CodeCall(callee, n) || ys == CodeMethod(how, n) ==>
              |ys| > 0 && ToValue(Last(ys)) == Last(ys) && !Last(ys).INT? && !Last(ys).BOOL?
              && (Last(ys).STACK? ==> Last(ys).n > 0)
  {
  }

  lemma CallMatch(strict: nat, s: A.State, t: Trace, e: Expr, valueOnly: bool, x: A.Expr)
    requires Match(strict, s, t) && Placed(t) && e.ECall? && Reads(strict, e, valueOnly, x)
    ensures Match(strict, A.Write(strict, s, x), NoRefIf(GenE(strict, t, e), valueOnly))
    decreases e, 1
  {
    hide Match, Placed, A.Put, Put, A.WriteAll, A.PutAll, GenArgs, PutAll, CodeCall, ReadsAll, A.After, A.Balance;
    var callee, n := e.callee, Count(e.args);
    var t1 := PutAll(strict, t, CodeBefore(callee));
    CallEnds(strict, callee, Unknown, n);
    if callee.NewArray? {
      NothingBefore(strict, t);
      AllArgsMatch(strict, s, t, e.args, x.items);
      ArrayPut(strict, A.WriteAll(strict, s, x.items), n);
      EndMatch(strict, A.WriteAll(strict, s, x.items), GenArgs(strict, t, e.args), [A.ARRAY(n)], CodeCall(callee, n),
          valueOnly);
    } else {
      A.OpenCall(strict, s, x);
      BeforeMatch(strict, s, t, callee, x);
      AllArgsMatch(strict, A.Before(strict, s, x), t1, e.args, x.args);
      AfterSame(strict, x, callee, n);
      EndMatch(strict, A.WriteAll(strict, A.Before(strict, s, x), x.args), GenArgs(strict, t1, e.args), A.After(x),
          CodeCall(callee, n), valueOnly);
    }
  }

  lemma NothingBefore(strict: nat, t: Trace)
    ensures PutAll(strict, t, []) == t && CodeBefore(NewArray) == []
  {
  }

  lemma ArrayPut(strict: nat, s: A.State, n: nat)
    ensures A.PutAll(strict, s, [A.ARRAY(n)]) == A.Put(strict, s, A.ARRAY(n))
    ensures SameAll(strict, [A.ARRAY(n)], CodeCall(NewArray, n))
  {
    hide A.Put;
    assert [A.ARRAY(n)][1..] == [];
    assert A.PutAll(strict, A.Put(strict, s, A.ARRAY(n)), []) == A.Put(strict, s, A.ARRAY(n));
  }

  lemma BeforeMatch(strict: nat, s: A.State, t: Trace, callee: Callee, x: A.Expr)
    requires Match(strict, s, t) && Placed(t) && A.IsCall(x) && !x.ObjectCall? && !x.SpaceCall? && !x.Nobody?
    requires x.GlobalCall? || x.GlobalNobody? <==> callee.Global? || callee.NoGlobal?
    ensures Match(strict, A.Before(strict, s, x), PutAll(strict, t, CodeBefore(callee)))
    ensures Placed(PutAll(strict, t, CodeBefore(callee)))
  {
    hide Match, Placed, A.Put, Put;
    PutMatch(strict, s, t, A.STACK(1), STACK(1));
    PutPlaced(strict, t, STACK(1));
    assert [STACK(1)][1..] == [];
    assert PutAll(strict, Put(strict, t, STACK(1)), []) == Put(strict, t, STACK(1)) && PutAll(strict, t, []) == t;
  }

  lemma MethodMatch(strict: nat, s: A.State, t: Trace, e: Expr, valueOnly: bool, x: A.Expr)
    requires Match(strict, s, t) && Placed(t) && e.EMethod? && Reads(strict, e, valueOnly, x)
    ensures Match(strict, A.Write(strict, s, x), NoRefIf(GenE(strict, t, e), valueOnly))
    decreases e, 1
  {
    hide Match, Placed, A.Put, Put, A.WriteAll, A.PutAll, GenArgs, PutAll, CodeMethod, ReadsAll, A.After, A.Balance,
         CodeE;
    var how, n := e.how, Count(e.args);
    var s1, t1 := A.Write(strict, s, x.target), GenE(strict, t, e.target);
    CallEnds(strict, NewArray, how, n);
    MatchE(strict, s, t, e.target, false, x.target);
    GenEWrites(strict, t, e.target);
    A.OpenCall(strict, s, x);
    assert A.Before(strict, s, x) == s1;
    AllArgsMatch(strict, s1, t1, e.args, x.args);
    MethodSame(strict, x, how, n);
    EndMatch(strict, A.WriteAll(strict, s1, x.args), GenArgs(strict, t1, e.args), A.After(x), CodeMethod(how, n),
        valueOnly);
  }

  /** From the beginning of a function on, and behind any code on which both agree: the code of an expression
      without accesses is the same, chunk by chunk. */
  lemma SameCode(strict: nat, s: A.State, t: Trace, e: Expr, valueOnly: bool, x: A.Expr)
    requires Match(strict, s, t) && Placed(t) && Reads(strict, e, valueOnly, x)
    ensures SameAll(strict, A.Write(strict, s, x).code, NoRefIf(GenE(strict, t, e), valueOnly).code)
  {
    hide GenE, A.Write, Placed;
    MatchE(strict, s, t, e, valueOnly, x);
  }

  /** What accesses, maps and calls in a namespace add, of which the other model knows nothing. */
  lemma AccessesWritten(strict: nat, s: A.State, a: A.Expr, i: A.Expr, key: nat, ref: bool, size: nat, entries: A.Exprs)
    ensures A.Write(strict, s, A.Index(a, i, ref))
            == A.State(A.Write(strict, A.Write(strict, s, a), i).code + [A.ARRAYA(ref)], false)
    ensures A.Write(strict, s, A.Member(a, key, ref))
            == A.State(A.Write(strict, s, a).code + [A.MAPA(key, ref)], false)
    ensures A.Write(strict, s, A.Append(a)) == A.State(A.Write(strict, s, a).code + [A.APPEND], false)
    ensures A.Write(strict, s, A.Map(size, entries))
            == A.State(A.WriteAll(strict, s, entries).code + [A.MAP(size)], false)
  {
    OpenAccesses(strict, s, a, i, key, ref, size, entries);
    hide A.Write, A.WriteAll, A.Put;
    PutOther(strict, A.Write(strict, A.Write(strict, s, a), i), A.ARRAYA(ref));
    PutOther(strict, A.Write(strict, s, a), A.MAPA(key, ref));
    PutOther(strict, A.Write(strict, s, a), A.APPEND);
    PutOther(strict, A.WriteAll(strict, s, entries), A.MAP(size));
  }

  lemma OpenAccesses(strict: nat, s: A.State, a: A.Expr, i: A.Expr, key: nat, ref: bool, size: nat, entries: A.Exprs)
    ensures A.Write(strict, s, A.Index(a, i, ref))
            == A.Put(strict, A.Write(strict, A.Write(strict, s, a), i), A.ARRAYA(ref))
    ensures A.Write(strict, s, A.Member(a, key, ref)) == A.Put(strict, A.Write(strict, s, a), A.MAPA(key, ref))
    ensures A.Write(strict, s, A.Append(a)) == A.Put(strict, A.Write(strict, s, a), A.APPEND)
    ensures A.Write(strict, s, A.Map(size, entries)) == A.Put(strict, A.WriteAll(strict, s, entries), A.MAP(size))
  {
    hide A.WriteAll, A.Put;
  }

  lemma PutOther(strict: nat, s: A.State, x: A.Chunk)
    requires !x.INT? && !x.BOOL? && !x.STACK?
    ensures A.Put(strict, s, x) == A.State(s.code + [x], false)
  {
  }

  /** `target->Space::F(...)`: the namespace before and behind the parameters. */
  lemma SpaceCallWritten(strict: nat, s: A.State, space: nat, target: A.Expr, f: nat, args: A.Exprs)
    ensures var s1 := A.State(A.Write(strict, s, target).code + [A.CALLNS(space)], false);
            var s2, n := A.WriteAll(strict, s1, args), A.Count(args);
            var s3 := if n == 10 then s2 else A.Put(strict, s2, A.STACK(10 - n));
            A.Write(strict, s, A.SpaceCall(space, target, f, args))
            == A.State(s3.code + [A.CALLNS(space), A.CALL(A.Direct, f)], false)
  {
    hide *;
    var x := A.SpaceCall(space, target, f, args);
    var n: int := A.Count(args);
    var s1 := A.State(A.Write(strict, s, target).code + [A.CALLNS(space)], false);
    var s2 := A.WriteAll(strict, s1, args);
    SpaceOpened(strict, s, x);
    PutOther(strict, A.Write(strict, s, target), A.CALLNS(space));
    ClearText.AfterPut(strict, s2, x);
    var s3 := if n == 10 then s2 else A.Put(strict, s2, A.STACK(10 - n));
    PutOther(strict, s3, A.CALLNS(space));
    PutOther(strict, A.Put(strict, s3, A.CALLNS(space)), A.CALL(A.Direct, f));
    assert s3.code + [A.CALLNS(space)] + [A.CALL(A.Direct, f)] == s3.code + [A.CALLNS(space), A.CALL(A.Direct, f)];
  }

  lemma SpaceOpened(strict: nat, s: A.State, x: A.Expr)
    requires x.SpaceCall?
    ensures var s1 := A.Put(strict, A.Write(strict, s, x.target), A.CALLNS(x.space));
            A.Write(strict, s, x) == A.PutAll(strict, A.WriteAll(strict, s1, x.args), A.After(x))
  {
    hide A.Put, A.PutAll, A.WriteAll, A.After;
    A.OpenCall(strict, s, x);
  }
}
