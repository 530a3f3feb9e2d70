/** How functions end: when the end mark behind the code is reached, and when the compiler adds a
    final return, told from the text of the program. */
module FunctionEnd {
  import opened Bytecode
  import opened Source
  import opened Compile
  import opened ExprCorrect
  import opened StmtCorrect
  import opened Meaning
  import opened Peephole
  import opened Emitter
  import opened EmitterPlain
  import opened EmitterStmt
  import opened EmitterJoined
  import opened EmitterCalm
  import opened EmitterCalmStmt
  import opened Compiled

  // ----- coming to a place -----

  /** The run from `c` comes to the last chunk with memory `m`. */
  ghost predicate ComesToEnd(env: Env, code: Code, c: Config, m: Mem) {
    exists k: nat, d: Config :: Steps(env, code, c, k) == Running(d) && d.pc == |code| - 1 && d.m == m
  }

  /** Two codes that differ in their last chunk: an end mark, and an error. */
  predicate Twins(a: Code, b: Code) {
    |a| == |b| > 0 && a[..|a| - 1] == b[..|b| - 1] && a[|a| - 1] == EOFN && b[|b| - 1] == ERR
  }

  lemma TwinStep(env: Env, a: Code, b: Code, c: Config)
    requires Twins(a, b)
    ensures c.pc != |a| - 1 ==> Step(env, a, c) == Step(env, b, c)
    ensures c.pc == |a| - 1 ==> Step(env, a, c) == Failed(NoReturn, c.m) && Step(env, b, c) == Failed(SyntaxError, c.m)
  {
    hide ApplyUn, ApplyBin, ReadSlot, PlainAll, Assign, Plain, Jump, ForEach, ApplyStack, Finish;
    if 0 <= c.pc < |a| - 1 { assert a[c.pc] == a[..|a| - 1][c.pc] == b[c.pc]; }
  }

  /** As long as the one runs, the other does the same. */
  lemma {:induction false} TwinRuns(env: Env, a: Code, b: Code, c: Config, k: nat)
    requires Twins(a, b) && Steps(env, a, c, k).Running?
    ensures Steps(env, b, c, k) == Steps(env, a, c, k)
    decreases k
  {
    hide Step;
    TwinStep(env, a, b, c);
    if k > 0 { TwinRuns(env, a, b, Step(env, a, c).c, k - 1); }
  }

  /** Where the one stops, the other stops the same way, unless they came to their last chunk. */
  lemma {:induction false} TwinStops(env: Env, a: Code, b: Code, c: Config, k: nat)
    requires Twins(a, b) && !Steps(env, a, c, k).Running?
    ensures (exists m :: ComesToEnd(env, a, c, m)) || Steps(env, b, c, k) == Steps(env, a, c, k)
    decreases k
  {
    hide Step;
    TwinStep(env, a, b, c);
    if c.pc == |a| - 1 {
      assert Steps(env, a, c, 0) == Running(c);
      assert ComesToEnd(env, a, c, c.m);
    } else if k > 0 && Step(env, a, c).Running? {
      var d := Step(env, a, c).c;
      TwinStops(env, a, b, d, k - 1);
      if Steps(env, b, c, k) != Steps(env, a, c, k) {
        var m :| ComesToEnd(env, a, d, m);
        var j: nat, e: Config :| Steps(env, a, d, j) == Running(e) && e.pc == |a| - 1 && e.m == m;
        assert Steps(env, a, c, j + 1) == Running(e);
        assert ComesToEnd(env, a, c, m);
      }
    }
  }

  /** So coming to the end mark can be told from how the two stop. */
  lemma TwinsTell(env: Env, a: Code, b: Code, c: Config, m: Mem)
    requires Twins(a, b)
    ensures ComesToEnd(env, a, c, m)
            <==> Stops(env, a, c, Failed(NoReturn, m)) && Stops(env, b, c, Failed(SyntaxError, m))
  {
    hide Step;
    if ComesToEnd(env, a, c, m) { TellsStops(env, a, b, c, m); }
    if Stops(env, a, c, Failed(NoReturn, m)) && Stops(env, b, c, Failed(SyntaxError, m)) {
      var k: nat :| Steps(env, a, c, k) == Failed(NoReturn, m);
      TwinStops(env, a, b, c, k);
      if Steps(env, b, c, k) == Steps(env, a, c, k) {
        OneOutcome(env, b, c, Failed(SyntaxError, m), k);
      }
      var m' :| ComesToEnd(env, a, c, m');
      TellsStops(env, a, b, c, m');
      OneOutcome(env, a, c, Failed(NoReturn, m'), k);
    }
  }

  lemma TellsStops(env: Env, a: Code, b: Code, c: Config, m: Mem)
    requires Twins(a, b) && ComesToEnd(env, a, c, m)
    ensures Stops(env, a, c, Failed(NoReturn, m)) && Stops(env, b, c, Failed(SyntaxError, m))
  {
    hide Step;
    var k: nat, d: Config :| Steps(env, a, c, k) == Running(d) && d.pc == |a| - 1 && d.m == m;
    TwinRuns(env, a, b, c, k);
    TwinStep(env, a, b, d);
    One(env, a, d);
    One(env, b, d);
    Chain(env, a, c, k, 1);
    Chain(env, b, c, k, 1);
  }

  // ----- the end mark -----

  /** The body's unjoined code and one more chunk. */
  lemma RunToEnd(env: Env, body: Stmt, x: Chunk, m: Mem, fuel: nat) returns (k: nat)
    requires UnfoldedS(env.fr.strict, body) && LoopsOnly(body, false) && (x.EOFN? || x.ERR?)
    ensures var o := Steps(env, CodeS(env.fr.strict, body, env.fr.returnRef, Pending) + [x], Config(0, [], m), k);
            match Exec(env, fuel, body, m)
            case Normal(m1) => o == Failed(if x.EOFN? then NoReturn else SyntaxError, m1)
            case Return(v, m1) => o == Returned(v, m1)
            case SFault(e, m1) => o == Failed(e, m1)
            case OutOfFuel => k >= fuel && o.Running?
            case _ => false
  {
    hide Step, CodeE, CodeS, Exec, UnfoldedS, LoopsOnly;
    var bc := CodeS(env.fr.strict, body, env.fr.returnRef, Pending);
    var code := bc + [x];
    assert At(code, 0, bc + [x]);
    AtSplit(code, 0, bc, [x]);
    AnyLoop(body);
    SimpleIsPlain(env.fr.strict, body, env.fr.returnRef, Pending, To(0, 0));
    NoEscape(env, fuel, body, m);
    k := RunS(env, code, 0, body, To(0, 0), [], m, fuel);
    var r := Exec(env, fuel, body, m);
    if r.Normal? {
      var c1 := Config(|bc|, [], r.m);
      AtOne(code, |bc|, x);
      One(env, code, c1);
      LastFails(env, code, c1, x);
      Chain(env, code, Config(0, [], m), k, 1);
      k := k + 1;
    }
  }

  lemma LastFails(env: Env, code: Code, c: Config, x: Chunk)
    requires 0 <= c.pc < |code| && code[c.pc] == x && (x.EOFN? || x.ERR?)
    ensures Step(env, code, c) == Failed(if x.EOFN? then NoReturn else SyntaxError, c.m)
  {
  }

  /** In unjoined code the end mark is reached exactly when the body simply ends. */
  lemma PlainEnd(env: Env, body: Stmt, m0: Mem, m: Mem)
    requires UnfoldedS(env.fr.strict, body) && LoopsOnly(body, false)
    ensures var bc, c := CodeS(env.fr.strict, body, env.fr.returnRef, Pending), Config(0, [], m0);
            Stops(env, bc + [EOFN], c, Failed(NoReturn, m)) && Stops(env, bc + [ERR], c, Failed(SyntaxError, m))
            <==> exists fuel: nat :: Exec(env, fuel, body, m0) == Normal(m)
  {
    hide Step, CodeS, Exec, UnfoldedS, LoopsOnly;
    var bc, c := CodeS(env.fr.strict, body, env.fr.returnRef, Pending), Config(0, [], m0);
    if Stops(env, bc + [EOFN], c, Failed(NoReturn, m)) && Stops(env, bc + [ERR], c, Failed(SyntaxError, m)) {
      var n: nat :| Steps(env, bc + [EOFN], c, n) == Failed(NoReturn, m);
      var j := RunToEnd(env, body, EOFN, m0, n + 1);
      var k := RunToEnd(env, body, ERR, m0, n + 1);
      OneOutcome(env, bc + [EOFN], c, Failed(NoReturn, m), j);
      OneOutcome(env, bc + [ERR], c, Failed(SyntaxError, m), k);
      if Exec(env, n + 1, body, m0).OutOfFuel? {
        StepsAdd(env, bc + [EOFN], c, n, j - n);
      }
      assert Exec(env, n + 1, body, m0) == Normal(m);
    }
    if exists fuel: nat :: Exec(env, fuel, body, m0) == Normal(m) {
      var fuel: nat :| Exec(env, fuel, body, m0) == Normal(m);
      var j := RunToEnd(env, body, EOFN, m0, fuel);
      var k := RunToEnd(env, body, ERR, m0, fuel);
    }
  }

  /** Joined code and one more chunk behave like the unjoined code and that chunk. */
  lemma JoinedEnd(env: Env, body: Stmt, x: Chunk, m: Mem, o: Outcome)
    requires !Crosses(env.fr.strict, env.fr.returnRef, body) && (x.EOFN? || x.ERR?)
    ensures var t := GenS(env.fr.strict, env.fr.returnRef, EMPTY, body).t;
            Stops(env, t.code + [x], Config(0, [], m), o)
            <==> Stops(env, CodeS(env.fr.strict, body, env.fr.returnRef, Pending) + [x], Config(0, [], m), o)
  {
    hide Step, GenS, CodeS, ForEachJumps, Joined, Placed, Flat, Settled, ControlsOf;
    var strict, ref := env.fr.strict, env.fr.returnRef;
    var t := GenS(strict, ref, EMPTY, body).t;
    BodyWritten(strict, ref, body);
    var t' := Put(strict, t, x);
    PutOther(strict, t, x);
    JumpsJoin(t.plain, [x]);
    EmptySound();
    SoundPlaced(EMPTY);
    GenSWrites(strict, ref, EMPTY, body);
    assert EMPTY.plain + CodeS(strict, body, ref, Pending) == CodeS(strict, body, ref, Pending);
    SameBehaviour(env, t'.plain, t'.marks, t'.code, t'.pos, m, o);
  }

  /** Exactly when a call comes to the end mark: no final return was added, and the body simply
      ends. */
  lemma EndMarkReached(env: Env, body: Stmt, m0: Mem, m: Mem)
    requires LoopsOnly(body, false) && !Crosses(env.fr.strict, env.fr.returnRef, body)
    ensures var code := GenFunction(env.fr.strict, env.fr.returnRef, body).code;
            |code| > 0
            && (ComesToEnd(env, code, Config(0, [], m0), m)
                <==> !FinalReturn(env.fr.strict, env.fr.returnRef, body)
                     && exists fuel: nat :: Exec(env, fuel, FoldS(env.fr.strict, body), m0) == Normal(m))
  {
    hide Step, GenS, CodeS, Exec, FoldS, UnfoldedS, LoopsOnly, Stops, ComesToEnd, NeedsReturn, Crosses;
    var strict, ref, c := env.fr.strict, env.fr.returnRef, Config(0, [], m0);
    var t, folded := GenS(strict, ref, EMPTY, body).t, FoldS(strict, body);
    FoldSShape(strict, body, false);
    FoldSCode(strict, body, ref, Pending);
    if NeedsReturn(t) {
      ReturnAdded(env, body, m0, m);
    } else {
      TwinsTell(env, t.code + [EOFN], t.code + [ERR], c, m);
      JoinedEnd(env, body, EOFN, m0, Failed(NoReturn, m));
      JoinedEnd(env, body, ERR, m0, Failed(SyntaxError, m));
      PlainEnd(env, folded, m0, m);
    }
  }

  lemma ReturnAdded(env: Env, body: Stmt, m0: Mem, m: Mem)
    requires FinalReturn(env.fr.strict, env.fr.returnRef, body) && !Crosses(env.fr.strict, env.fr.returnRef, body)
    ensures var code := GenFunction(env.fr.strict, env.fr.returnRef, body).code;
            |code| > 0 && !ComesToEnd(env, code, Config(0, [], m0), m)
  {
    hide GenS, Step, FinalReturn;
    var code, c := GenFunction(env.fr.strict, env.fr.returnRef, body).code, Config(0, [], m0);
    forall k: nat, d: Config | Steps(env, code, c, k) == Running(d) ensures d.pc != |code| - 1 {
      EndMarkUnreached(env, body, m0, k);
    }
  }

  // ----- the final return -----

  /** The expression is written by pushing and popping nulls only. */
  predicate OnlyNulls(strict: nat, e: Expr)
    decreases e
  {
    match e
    case EConst(c) => strict < 3 && (c == CInt(0) || c == CBool(false))
    case EUnary(op, arg) => op == PrePlus && OnlyNulls(strict, arg)
    case ECall(callee, args) => (callee.NoInherited? || callee.NoGlobal?) && AllNulls(strict, args)
    case EMethod(how, target, args) => how.Unknown? && OnlyNulls(strict, target) && AllNulls(strict, args)
    case _ => false
  }

  predicate AllNulls(strict: nat, a: Args)
    decreases a
  {
    match a
    case NoArgs => true
    case Arg(e, _, rest) => OnlyNulls(strict, e) && AllNulls(strict, rest)
  }

  /** How a text ends: with a return; with a return that a jump passes by; otherwise. */
  datatype Tail = Else | ReturnLast | ReturnPassed

  /** The text `s` behind one that ends with `before`. A statement that only pushes nulls and drops
      them leaves no chunk, but what was known of jumps is forgotten. */
  function TailOf(strict: nat, s: Stmt, before: Tail): Tail
    decreases s
  {
    match s
    case SEmpty => before
    case SExpr(e, _) => if OnlyNulls(strict, e) && !before.Else? then ReturnLast else Else
    case SSeq(a, b) => TailOf(strict, b, TailOf(strict, a, before))
    case SIf(_, thn) => if TailOf(strict, thn, Else).Else? then Else else ReturnPassed
    case SIfElse(_, _, els) => if TailOf(strict, els, Else).Else? then Else else ReturnPassed
    case SReturn(_) => ReturnLast
    case SReturnNil => ReturnLast
    case _ => Else
  }

  /** The last chunk that is no stack chunk is a return. */
  predicate EndsReturned(code: Code)
    decreases |code|
  {
    |code| > 0 && if Last(code).STACK? then EndsReturned(code[..|code| - 1]) else Last(code).RETURN?
  }

  /** The code of `t` ends as `tail` says. */
  predicate Shows(t: Trace, tail: Tail) {
    if tail.Else? then !EndsReturned(t.code)
    else |t.code| > 0 && Last(t.code).RETURN? && t.jump == tail.ReturnPassed?
  }

  /** Stack chunks do not matter. */
  lemma PutEnds(strict: nat, t: Trace, x: Chunk)
    ensures var c := Converted(strict, x);
            EndsReturned(Put(strict, t, x).code) == if c.STACK? then EndsReturned(t.code) else c.RETURN?
  {
    var c, code := Converted(strict, x), Put(strict, t, x).code;
    if !t.jump && Joins(t.code, c) {
      if code != t.code[..|t.code| - 1] { assert code[..|code| - 1] == t.code[..|t.code| - 1]; }
    } else {
      assert code[..|code| - 1] == t.code;
    }
  }

  lemma {:induction false} SameEnds(a: Code, b: Code)
    requires |a| == |b| && forall i :: 0 <= i < |a| ==> a[i].STACK? == b[i].STACK? && a[i].RETURN? == b[i].RETURN?
    ensures EndsReturned(a) == EndsReturned(b)
    decreases |a|
  {
    if |a| > 0 { SameEnds(a[..|a| - 1], b[..|b| - 1]); }
  }

  lemma NoRefEnds(t: Trace)
    ensures EndsReturned(NoRef(t).code) == EndsReturned(t.code)
  {
    SameEnds(t.code, NoRef(t).code);
  }

  lemma RedirectEnds(t: Trace, g: nat, w: nat)
    ensures EndsReturned(Redirect(t, g, w).code) == EndsReturned(t.code)
    ensures EndsReturned(RedirectHere(t, g).code) == EndsReturned(t.code)
  {
    SameEnds(t.code, Redirect(t, g, w).code);
    SameEnds(t.code, RedirectHere(t, g).code);
  }

  lemma BackEnds(t: Trace, w: nat)
    requires w < |t.pos|
    ensures !EndsReturned(PutBack(t, w).code)
  {
  }

  lemma {:induction false} PutAllEnds(strict: nat, t: Trace, xs: Code)
    requires forall i :: 0 <= i < |xs| ==> !xs[i].RETURN?
    ensures AllStack(xs) ==> EndsReturned(PutAll(strict, t, xs).code) == EndsReturned(t.code)
    ensures !EndsReturned(t.code) || (exists i :: 0 <= i < |xs| && !Converted(strict, xs[i]).STACK?)
            ==> !EndsReturned(PutAll(strict, t, xs).code)
    decreases |xs|
  {
    hide Put, EndsReturned;
    if |xs| > 0 {
      PutEnds(strict, t, xs[0]);
      PutAllEnds(strict, Put(strict, t, xs[0]), xs[1..]);
    }
  }

  lemma CallEnds(callee: Callee, how: Method, n: nat)
    ensures forall x :: x in CodeBefore(callee) || x in CodeCall(callee, n) || x in CodeMethod(how, n) ==>
            !x.RETURN? && !x.INT? && !x.BOOL?
    ensures AllStack(CodeBefore(callee))
    ensures AllStack(CodeCall(callee, n)) == (callee.NoInherited? || callee.NoGlobal?)
    ensures AllStack(CodeMethod(how, n)) == how.Unknown?
  {
    var c, m := CodeCall(callee, n), CodeMethod(how, n);
    if !callee.NoInherited? && !callee.NoGlobal? { assert !c[|c| - 1].STACK?; }
    if !how.Unknown? { assert !m[|m| - 1].STACK?; }
  }

  /** Expressions write no return. */
  lemma {:induction false} ExprEnds(strict: nat, t: Trace, e: Expr)
    ensures EndsReturned(GenE(strict, t, e).code) == (OnlyNulls(strict, e) && EndsReturned(t.code))
    decreases e
  {
    hide Put, NoRef, RedirectHere, PutAll, EndsReturned, CodeCall, CodeMethod, CodeBefore, Negate;
    match e
    case EConst(c) => PutEnds(strict, t, RawConst(c));
    case ESlot(kind, i) => PutEnds(strict, t, SLOT(kind, i, true));
    case EUnary(op, arg) => UnaryEnds(strict, t, e);
    case EBinary(op, l, r) =>
      var t1 := NoRefIf(GenE(strict, t, l), !Modifies(op));
      PutEnds(strict, NoRef(GenE(strict, t1, r)), BIN(BinChunk(op, strict)));
    case ELogic(op, l, r) => LogicEnds(strict, t, e);
    case ENilAssign(l, r) =>
      var t1 := GenE(strict, t, l);
      var t2 := Put(strict, GenE(strict, Put(strict, t1, JMP(IfSet, 0)), r), BIN(Set));
      PutEnds(strict, GenE(strict, Put(strict, t1, JMP(IfSet, 0)), r), BIN(Set));
      RedirectEnds(t2, |t1.plain|, 0);
    case ECall(callee, args) =>
      var xs, t1 := CodeCall(callee, Count(args)), PutAll(strict, t, CodeBefore(callee));
      CallEnds(callee, Unknown, Count(args));
      PutAllEnds(strict, t, CodeBefore(callee));
      ArgsEnd(strict, t1, args);
      ListEnds(strict, GenArgs(strict, t1, args), xs);
    case EMethod(how, target, args) =>
      var xs, t1 := CodeMethod(how, Count(args)), GenE(strict, t, target);
      CallEnds(NewArray, how, Count(args));
      ExprEnds(strict, t, target);
      ArgsEnd(strict, t1, args);
      ListEnds(strict, GenArgs(strict, t1, args), xs);
  }

  lemma ListEnds(strict: nat, t: Trace, xs: Code)
    requires forall x :: x in xs ==> !x.RETURN? && !x.INT? && !x.BOOL?
    ensures EndsReturned(PutAll(strict, t, xs).code) == (AllStack(xs) && EndsReturned(t.code))
  {
    hide PutAll, EndsReturned;
    PutAllEnds(strict, t, xs);
    if !AllStack(xs) {
      var i :| 0 <= i < |xs| && !xs[i].STACK?;
      assert xs[i] in xs && !Converted(strict, xs[i]).STACK?;
    }
  }

  lemma UnaryEnds(strict: nat, t: Trace, e: Expr)
    requires e.EUnary?
    ensures EndsReturned(GenE(strict, t, e).code) == (OnlyNulls(strict, e) && EndsReturned(t.code))
    decreases e, 0
  {
    hide Put, NoRef, EndsReturned;
    var t1 := GenE(strict, t, e.arg);
    if e.uop == PrePlus {
      ExprEnds(strict, t, e.arg);
    } else if e.uop == PreNeg && EndsInInt(t1.code) {
      IntEnds(Negate(t1).code);
    } else {
      PutEnds(strict, NoRefIf(t1, !KeepsRef(e.uop)), UN(UnaryChunk(e.uop, false)));
    }
  }

  lemma IntEnds(code: Code)
    requires EndsInInt(code)
    ensures !EndsReturned(code)
  {
  }

  lemma LogicEnds(strict: nat, t: Trace, e: Expr)
    requires e.ELogic?
    ensures !EndsReturned(GenE(strict, t, e).code)
    decreases e, 0
  {
    hide Put, NoRef, EndsReturned, RedirectHere;
    var t1 := NoRef(GenE(strict, t, e.left));
    if ShortCircuit(e.lop, strict) {
      var t2 := Put(strict, t1, JMP(LogicJump(e.lop), 0));
      PutEnds(strict, t1, JMP(LogicJump(e.lop), 0));
      ExprEnds(strict, t2, e.right);
      RedirectEnds(GenE(strict, t2, e.right), |t1.plain|, 0);
    } else {
      PutEnds(strict, NoRef(GenE(strict, t1, e.right)), BIN(LogicChunk(e.lop)));
    }
  }

  lemma {:induction false} ArgsEnd(strict: nat, t: Trace, a: Args)
    ensures EndsReturned(GenArgs(strict, t, a).code) == (AllNulls(strict, a) && EndsReturned(t.code))
    decreases a
  {
    hide NoRef, EndsReturned, GenE;
    match a
    case NoArgs =>
    case Arg(e, keepRef, rest) =>
      var t1 := GenE(strict, t, e);
      ExprEnds(strict, t, e);
      NoRefEnds(t1);
      ArgsEnd(strict, NoRefIf(t1, !keepRef), rest);
  }

  /** `h` nulls have been pushed on `base`, which does not end with a stack chunk. */
  predicate Above(base: Code, t: Trace, h: nat) {
    && |base| > 0 && Last(base).RETURN?
    && t.code == base + (if h == 0 then [] else [STACK(h)]) && (h > 0 ==> !t.jump)
  }

  lemma PutAbove(strict: nat, base: Code, t: Trace, h: nat, x: Chunk)
    requires Above(base, t, h) && Converted(strict, x).STACK? && Converted(strict, x).n != 0
             && h + Converted(strict, x).n >= 0
    ensures Above(base, Put(strict, t, x), h + Converted(strict, x).n) && !Put(strict, t, x).jump
  {
    var c := Converted(strict, x);
    if h > 0 {
      assert t.code[..|t.code| - 1] == base;
      if h + c.n > 0 { assert t.code[|t.code| - 1 := STACK(h + c.n)] == base + [STACK(h + c.n)]; }
    }
  }

  lemma NoRefAbove(base: Code, t: Trace, h: nat)
    requires Above(base, t, h)
    ensures Above(base, NoRef(t), h) && NoRef(t).jump == t.jump
  {
    assert LastToValue(t.code) == t.code;
  }

  lemma {:induction false} NullsAbove(strict: nat, base: Code, t: Trace, h: nat, e: Expr)
    requires Above(base, t, h) && OnlyNulls(strict, e)
    ensures Above(base, GenE(strict, t, e), h + 1)
    decreases e
  {
    hide Put, PutAll, GenArgs, Above, Covered, Sum, CodeCall, CodeMethod;
    match e
    case EConst(c) => PutAbove(strict, base, t, h, RawConst(c));
    case EUnary(op, arg) => NullsAbove(strict, base, t, h, arg);
    case ECall(callee, args) =>
      var k, n := if callee.NoGlobal? then 1 else 0, Count(args);
      NobodyAbove(n, h);
      NoneAbove(strict, t);
      if callee.NoGlobal? { AllAbove(strict, base, t, h, CodeBefore(callee)); }
      var t1 := PutAll(strict, t, CodeBefore(callee));
      ArgsAbove(strict, base, t1, h + k, args);
      AllAbove(strict, base, GenArgs(strict, t1, args), h + k + n, CodeCall(callee, n));
    case EMethod(how, target, args) =>
      var n := Count(args);
      NobodyAbove(n, h);
      NullsAbove(strict, base, t, h, target);
      ArgsAbove(strict, base, GenE(strict, t, target), h + 1, args);
      AllAbove(strict, base, GenArgs(strict, GenE(strict, t, target), args), h + 1 + n, CodeMethod(how, n));
  }

  lemma NoneAbove(strict: nat, t: Trace)
    ensures PutAll(strict, t, []) == t
  {
  }

  /** The stack chunks never pop more than there is. */
  predicate Covered(xs: Code, h: int)
    decreases |xs|
  {
    |xs| == 0 || (xs[0].STACK? && xs[0].n != 0 && h + xs[0].n >= 0 && Covered(xs[1..], h + xs[0].n))
  }

  function Sum(xs: Code): int
    decreases |xs|
  {
    if |xs| == 0 then 0 else (if xs[0].STACK? then xs[0].n else 0) + Sum(xs[1..])
  }

  lemma NobodyAbove(n: nat, h: nat)
    ensures Covered(CodeCall(NoInherited, n), h + n) && Sum(CodeCall(NoInherited, n)) == 1 - n
    ensures Covered(CodeCall(NoGlobal, n), h + 1 + n) && Sum(CodeCall(NoGlobal, n)) == 0 - n
    ensures CodeMethod(Unknown, n) == CodeCall(NoGlobal, n)
    ensures Covered(CodeBefore(NoGlobal), h) && Sum(CodeBefore(NoGlobal)) == 1
  {
    var push: Code, both: Code := [STACK(1)], [STACK(-1), STACK(1)];
    assert push[1..] == [] && both[1..] == push;
    if n > 0 {
      var drop: Code := [STACK(0 - n)];
      assert CodeCall(NoInherited, n) == drop + push && (drop + push)[1..] == push;
      assert CodeCall(NoGlobal, n) == drop + both && (drop + both)[1..] == both;
    } else {
      assert CodeCall(NoInherited, n) == push && CodeCall(NoGlobal, n) == both;
    }
  }

  lemma {:induction false} AllAbove(strict: nat, base: Code, t: Trace, h: nat, xs: Code)
    requires Above(base, t, h) && Covered(xs, h)
    ensures h + Sum(xs) >= 0 && Above(base, PutAll(strict, t, xs), h + Sum(xs))
    decreases |xs|
  {
    hide Put, Above;
    if |xs| > 0 {
      PutAbove(strict, base, t, h, xs[0]);
      AllAbove(strict, base, Put(strict, t, xs[0]), h + xs[0].n, xs[1..]);
    }
  }

  lemma {:induction false} ArgsAbove(strict: nat, base: Code, t: Trace, h: nat, a: Args)
    requires Above(base, t, h) && AllNulls(strict, a)
    ensures Above(base, GenArgs(strict, t, a), h + Count(a))
    decreases a
  {
    hide NoRef, Above, GenE;
    match a
    case NoArgs =>
    case Arg(e, keepRef, rest) =>
      NullsAbove(strict, base, t, h, e);
      NoRefAbove(base, GenE(strict, t, e), h + 1);
      ArgsAbove(strict, base, NoRefIf(GenE(strict, t, e), !keepRef), h + 1, rest);
  }

  // ----- statements -----

  lemma ShowsExpr(strict: nat, t: Trace, e: Expr, valueOnly: bool, before: Tail)
    requires Shows(t, before)
    ensures Shows(Put(strict, NoRefIf(GenE(strict, t, e), valueOnly), STACK(-1)),
                  if OnlyNulls(strict, e) && !before.Else? then ReturnLast else Else)
  {
    hide GenE, NoRef;
    var t1 := GenE(strict, t, e);
    var t2 := NoRefIf(t1, valueOnly);
    ExprEnds(strict, t, e);
    NoRefEnds(t1);
    PutEnds(strict, t2, STACK(-1));
    if OnlyNulls(strict, e) && !before.Else? {
      assert Above(t.code, t, 0) by { assert t.code + [] == t.code; }
      NullsAbove(strict, t.code, t, 0, e);
      NoRefAbove(t.code, t1, 1);
      PutAbove(strict, t.code, t2, 1, STACK(-1));
    }
  }

  lemma ShowsPut(strict: nat, t: Trace, x: Chunk)
    requires !Converted(strict, x).STACK?
    ensures Shows(Put(strict, t, x), if x.RETURN? then ReturnLast else Else)
  {
    PutEnds(strict, t, x);
  }

  /** A return behind which a jump is led. */
  lemma ShowsOver(t: Trace, g: nat, tail: Tail)
    requires Shows(t, tail)
    ensures Shows(RedirectHere(t, g), if tail.Else? then Else else ReturnPassed)
  {
    RedirectEnds(t, g, 0);
  }

  lemma ShowsLoop(w: Written, back: nat, exits: seq<nat>)
    requires back < |w.t.pos|
    ensures Shows(EndLoop(w, back, exits), Else)
  {
    hide EndsReturned, RedirectHere, Resolve, PutBack;
    var t1 := PutBack(w.t, back);
    BackEnds(w.t, back);
    if |exits| > 0 { RedirectEnds(t1, exits[0], 0); }
    ResolveEnds(if |exits| > 0 then RedirectHere(t1, exits[0]) else t1, w.controls, back);
  }

  lemma {:induction false} ResolveEnds(t: Trace, cs: seq<Control>, w: nat)
    ensures EndsReturned(Resolve(t, cs, w).code) == EndsReturned(t.code)
    decreases |cs|
  {
    hide EndsReturned, Redirect, RedirectHere;
    if |cs| > 0 {
      RedirectEnds(t, cs[0].at, w);
      ResolveEnds(if cs[0].isBreak then RedirectHere(t, cs[0].at) else Redirect(t, cs[0].at, w), cs[1..], w);
    }
  }

  /** The code ends as the text says. */
  lemma {:induction false} ShowsTail(strict: nat, ref: bool, t: Trace, s: Stmt, before: Tail)
    requires Sound(t) && Shows(t, before)
    ensures Shows(GenS(strict, ref, t, s).t, TailOf(strict, s, before))
    decreases s, 1
  {
    hide Shows, Sound, Put, GenE, NoRef, RedirectHere, Here, EndLoop, GenTest, GenInc;
    match s
    case SEmpty =>
    case SExpr(e, valueOnly) => ShowsExpr(strict, t, e, valueOnly, before);
    case SVar(v, e) => ShowsPut(strict, NoRef(GenE(strict, t, e)), IVARN(v));
    case SReturn(e) => ShowsPut(strict, NoRefIf(GenE(strict, t, e), !ref), RETURN);
    case SReturnNil => ShowsPut(strict, Put(strict, t, NIL), RETURN);
    case SBreak => ShowsPut(strict, t, JMP(Always, 0));
    case SContinue => ShowsPut(strict, t, JMP(Always, 0));
    case SSeq(a, b) =>
      SoundS(strict, ref, t, a);
      ShowsTail(strict, ref, t, a, before);
      ShowsTail(strict, ref, GenS(strict, ref, t, a).t, b, TailOf(strict, a, before));
    case SIf(c, thn) =>
      var t0 := NoRef(GenE(strict, t, c));
      ShowsPut(strict, t0, JMP(Cond, 0));
      CondSound(strict, t, c);
      var t1 := Put(strict, t0, JMP(Cond, 0));
      ShowsTail(strict, ref, t1, thn, Else);
      ShowsOver(GenS(strict, ref, t1, thn).t, |t0.plain|, TailOf(strict, thn, Else));
    case SIfElse(c, thn, els) => ShowsElse(strict, ref, t, s, before);
    case _ => ShowsLoops(strict, ref, t, s);
  }

  lemma SoundS(strict: nat, ref: bool, t: Trace, s: Stmt)
    requires Sound(t)
    ensures Sound(GenS(strict, ref, t, s).t)
  {
    hide GenS, Sound, Flat;
    GenSSafe(strict, ref, t, s);
  }

  lemma CondSound(strict: nat, t: Trace, c: Expr)
    requires Sound(t)
    ensures Sound(Put(strict, NoRef(GenE(strict, t, c)), JMP(Cond, 0)))
  {
    hide Sound, Put, GenE, NoRef, Flat, Placed, CodeE;
    CondSafe(strict, t, c);
  }

  lemma ShowsElse(strict: nat, ref: bool, t: Trace, s: Stmt, before: Tail)
    requires Sound(t) && s.SIfElse?
    ensures Shows(GenS(strict, ref, t, s).t, TailOf(strict, s, before))
    decreases s, 0
  {
    hide Shows, Sound, Put, GenE, NoRef, RedirectHere, Flat, Safe;
    var t0 := NoRef(GenE(strict, t, s.cond));
    var t1 := Put(strict, t0, JMP(Cond, 0));
    var w1 := GenS(strict, ref, t1, s.thn);
    var t2 := Put(strict, w1.t, JMP(Always, 0));
    var t3 := RedirectHere(t2, |t0.plain|);
    var w2 := GenS(strict, ref, t3, s.els);
    CondSound(strict, t, s.cond);
    SoundS(strict, ref, t1, s.thn);
    ElseSound(strict, ref, t, s.cond, s.thn);
    ShowsPut(strict, w1.t, JMP(Always, 0));
    ShowsOver(t2, |t0.plain|, Else);
    ShowsTail(strict, ref, t3, s.els, Else);
    ShowsOver(w2.t, |w1.t.plain|, TailOf(strict, s.els, Else));
  }

  lemma ElseSound(strict: nat, ref: bool, t: Trace, c: Expr, thn: Stmt)
    requires Sound(t)
    ensures var t0 := NoRef(GenE(strict, t, c));
            var w1 := GenS(strict, ref, Put(strict, t0, JMP(Cond, 0)), thn);
            Sound(RedirectHere(Put(strict, w1.t, JMP(Always, 0)), |t0.plain|))
  {
    hide Sound, Put, GenE, NoRef, RedirectHere, Flat, GenS, Placed, CodeE, CodeS, ControlsOf, Safe;
    var t0 := NoRef(GenE(strict, t, c));
    var t1 := Put(strict, t0, JMP(Cond, 0));
    CondSafe(strict, t, c);
    CondSound(strict, t, c);
    SoundS(strict, ref, t1, thn);
    GenSWrites(strict, ref, t1, thn);
    JumpKept(t1, GenS(strict, ref, t1, thn).t, CodeS(strict, thn, ref, Pending), 0, |t0.plain|);
    ElseJump(strict, GenS(strict, ref, t1, thn).t, |t0.plain|);
    StaysSound(strict, GenS(strict, ref, t1, thn).t,
        RedirectHere(Put(strict, GenS(strict, ref, t1, thn).t, JMP(Always, 0)), |t0.plain|), true);
  }

  lemma ShowsBody(strict: nat, ref: bool, t: Trace, back: nat, exits: seq<nat>, body: Stmt)
    requires Sound(t) && back <= |t.plain|
    ensures Shows(EndLoop(GenS(strict, ref, t, body), back, exits), Else)
  {
    hide GenS, EndLoop, CodeS, ControlsOf, Shows, Joined;
    GenSWrites(strict, ref, t, body);
    ShowsLoop(GenS(strict, ref, t, body), back, exits);
  }

  lemma ShowsLoops(strict: nat, ref: bool, t: Trace, s: Stmt)
    requires Sound(t) && (s.SWhile? || s.SFor? || s.SForEach?)
    ensures Shows(GenS(strict, ref, t, s).t, Else)
  {
    hide Shows, Sound, Put, GenE, NoRef, RedirectHere, Here, EndLoop, GenTest, GenInc, CodeE, Placed, Landing, Safe,
         Flat;
    match s
    case SWhile(c, body) =>
      HereSafe(3, t);
      StaysSound(3, t, Here(t), true);
      CondSafe(strict, Here(t), c);
      CondSound(strict, Here(t), c);
      var t1 := NoRef(GenE(strict, Here(t), c));
      var t2 := Put(strict, t1, JMP(Cond, 0));
      ShowsBody(strict, ref, t2, |t.plain|, [|t1.plain|], body);
    case SFor(start, c, inc, body) =>
      var t0 := GenS(strict, ref, t, start).t;
      SoundS(strict, ref, t, start);
      var back, exits: seq<nat> := ForHeadSafe(strict, t0, c, inc);
      var t1 := GenTest(strict, t0, c);
      var t2 := GenInc(strict, t1, inc, c.Some?, |t0.plain|);
      var t3 := if inc.Some? then RedirectHere(Here(t2), |t1.plain|) else Here(t2);
      StaysSound(strict, t0, t3, CalmOpt(c) && CalmOpt(inc));
      LandsInside(t3.plain, t3.marks, back);
      ShowsBody(strict, ref, t3, back, exits, body);
    case SForEach(v, e, body) =>
      var t1 := Put(strict, GenE(strict, t, e), INT(0));
      var t2 := Put(strict, Put(strict, t1, FOREACH(v)), JMP(Always, 0));
      EachHeadSafe(strict, t, e, v);
      StaysSound(strict, t, t2, Calm(e));
      ShowsBody(strict, ref, t2, |t1.plain|, [|t1.plain| + 1], body);
      DropEnds(strict, EndLoop(GenS(strict, ref, t2, body), |t1.plain|, [|t1.plain| + 1]));
  }

  lemma LandsInside(plain: Code, marks: set<nat>, w: nat)
    requires Landing(plain, marks, w)
    ensures w <= |plain|
  {
  }

  lemma DropEnds(strict: nat, t: Trace)
    requires Shows(t, Else)
    ensures Shows(Put(strict, t, STACK(-2)), Else)
  {
    PutEnds(strict, t, STACK(-2));
  }

  /** The final return is left out exactly where the text of the function ends with a return, apart
      from statements that leave no chunk. A return that a jump passes by is not enough, but behind
      it such a statement is: the jump is forgotten. */
  lemma FinalReturnFromText(strict: nat, ref: bool, body: Stmt)
    ensures FinalReturn(strict, ref, body) <==> !TailOf(strict, body, Else).ReturnLast?
  {
    hide GenS;
    EmptySound();
    ShowsTail(strict, ref, EMPTY, body, Else);
    var t := GenS(strict, ref, EMPTY, body).t;
    if |t.code| > 0 && Last(t.code).RETURN? { assert EndsReturned(t.code); }
  }

  /** From the text alone, in every strictness: a call comes to the end mark exactly if the text
      ends with a return, and the body yet simply ends. */
  lemma EndMarkFromText(env: Env, body: Stmt, m0: Mem, m: Mem)
    requires LoopsOnly(body, false) && !Crosses(env.fr.strict, env.fr.returnRef, body)
    ensures var code := GenFunction(env.fr.strict, env.fr.returnRef, body).code;
            ComesToEnd(env, code, Config(0, [], m0), m)
            <==> TailOf(env.fr.strict, body, Else).ReturnLast?
                 && exists fuel: nat :: Exec(env, fuel, FoldS(env.fr.strict, body), m0) == Normal(m)
  {
    hide GenFunction, FinalReturn, Exec, FoldS, ComesToEnd, LoopsOnly, Crosses;
    EndMarkReached(env, body, m0, m);
    FinalReturnFromText(env.fr.strict, env.fr.returnRef, body);
  }
}
