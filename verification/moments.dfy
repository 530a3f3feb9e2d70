/** Every moment while a function is written. The parser may stop with an error at any of them;
    and at each of them the number of values it has counted is the height the stack will have
    there. */
module Moments {
  import opened Bytecode
  import opened Source
  import opened Compile
  import opened Peephole
  import opened Emitter
  import opened EmitterPlain
  import opened EmitterStmt
  import opened EmitterJoined
  import opened EmitterCalm
  import opened EmitterCalmStmt
  import opened Compiled
  import opened Heights

  // ----- the moments -----

  /** `u` is a moment while the expression is written, from `t` on. */
  ghost predicate MomentE(strict: nat, t: Trace, e: Expr, u: Trace)
    decreases e
  {
    u == t || u == GenE(strict, t, e) ||
    match e
    case EConst(_) => false
    case ESlot(_, _) => false
    case EUnary(op, arg) =>
      var t1 := GenE(strict, t, arg);
      MomentE(strict, t, arg, u) || (!(op == PreNeg && EndsInInt(t1.code)) && u == NoRefIf(t1, !KeepsRef(op)))
    case EBinary(op, l, r) => MomentPair(strict, t, e, !Modifies(op), u)
    case ELogic(op, l, r) =>
      if ShortCircuit(op, strict) then
        var t1 := NoRef(GenE(strict, t, l));
        MomentE(strict, t, l, u) || u == t1 || MomentE(strict, Put(strict, t1, JMP(LogicJump(op), 0)), r, u)
      else MomentPair(strict, t, e, true, u)
    case ENilAssign(l, r) =>
      var t2 := Put(strict, GenE(strict, t, l), JMP(IfSet, 0));
      MomentE(strict, t, l, u) || MomentE(strict, t2, r, u) || u == Put(strict, GenE(strict, t2, r), BIN(Set))
    case ECall(callee, args) =>
      var t1 := PutAll(strict, t, CodeBefore(callee));
      MomentAll(strict, t, CodeBefore(callee), u) || MomentArgs(strict, t1, args, u)
      || MomentAll(strict, GenArgs(strict, t1, args), CodeCall(callee, Count(args)), u)
    case EMethod(how, target, args) =>
      var t1 := GenE(strict, t, target);
      MomentE(strict, t, target, u) || MomentArgs(strict, t1, args, u)
      || MomentAll(strict, GenArgs(strict, t1, args), CodeMethod(how, Count(args)), u)
  }

  /** Two operands, before the operator's chunk. */
  ghost predicate MomentPair(strict: nat, t: Trace, e: Expr, leftValue: bool, u: Trace)
    requires e.EBinary? || e.ELogic?
    decreases e, 0
  {
    var t1 := NoRefIf(GenE(strict, t, e.left), leftValue);
    MomentE(strict, t, e.left, u) || MomentE(strict, t1, e.right, u) || u == NoRef(GenE(strict, t1, e.right))
  }

  ghost predicate MomentAll(strict: nat, t: Trace, xs: Code, u: Trace)
    decreases |xs|
  {
    u == t || (|xs| > 0 && MomentAll(strict, Put(strict, t, xs[0]), xs[1..], u))
  }

  ghost predicate MomentArgs(strict: nat, t: Trace, a: Args, u: Trace)
    decreases a
  {
    u == t ||
    match a
    case NoArgs => false
    case Arg(e, keepRef, rest) =>
      MomentE(strict, t, e, u) || MomentArgs(strict, NoRefIf(GenE(strict, t, e), !keepRef), rest, u)
  }

  /** A condition and the jump that depends on it. */
  ghost predicate MomentCond(strict: nat, t: Trace, c: Expr, u: Trace) {
    MomentE(strict, t, c, u) || u == NoRef(GenE(strict, t, c))
        || u == Put(strict, NoRef(GenE(strict, t, c)), JMP(Cond, 0))
  }

  ghost predicate MomentResolve(t: Trace, controls: seq<Control>, w: nat, u: Trace)
    decreases |controls|
  {
    u == t ||
    (|controls| > 0 &&
     var t1 := if controls[0].isBreak then RedirectHere(t, controls[0].at) else Redirect(t, controls[0].at, w);
     MomentResolve(t1, controls[1..], w, u))
  }

  /** The end of a loop. */
  ghost predicate MomentEnd(w: Written, back: nat, exits: seq<nat>, u: Trace) {
    u == w.t ||
    (back < |w.t.pos| &&
     var t1 := PutBack(w.t, back);
     u == t1 || MomentResolve(if |exits| > 0 then RedirectHere(t1, exits[0]) else t1, w.controls, back, u))
  }

  ghost predicate MomentTest(strict: nat, t: Trace, c: OptExpr, u: Trace) {
    u == t || (c.Some? && MomentCond(strict, Here(t), c.e, u))
  }

  ghost predicate MomentInc(strict: nat, t: Trace, inc: OptExpr, cond: bool, start: nat, u: Trace) {
    u == t || u == GenInc(strict, t, inc, cond, start) ||
    (inc.Some? &&
     var t1 := Put(strict, t, JMP(Always, 0));
     u == t1 || MomentE(strict, Here(t1), inc.e, u) || u == NoRef(GenE(strict, Here(t1), inc.e))
     || u == Put(strict, NoRef(GenE(strict, Here(t1), inc.e)), STACK(-1)))
  }

  /** `u` is a moment while the statement is written. Between FOREACH and the jump behind it
      nothing is read, so there is none. */
  ghost predicate MomentS(strict: nat, ref: bool, t: Trace, s: Stmt, u: Trace)
    decreases s
  {
    u == t || u == GenS(strict, ref, t, s).t ||
    match s
    case SExpr(e, valueOnly) => MomentE(strict, t, e, u) || u == NoRefIf(GenE(strict, t, e), valueOnly)
    case SVar(v, e) => MomentE(strict, t, e, u) || u == NoRef(GenE(strict, t, e))
    case SSeq(a, b) => MomentS(strict, ref, t, a, u) || MomentS(strict, ref, GenS(strict, ref, t, a).t, b, u)
    case SIf(c, thn) =>
      MomentCond(strict, t, c, u) || MomentS(strict, ref, Put(strict, NoRef(GenE(strict, t, c)), JMP(Cond, 0)), thn, u)
    case SIfElse(c, thn, els) =>
      var t1 := NoRef(GenE(strict, t, c));
      var w1 := GenS(strict, ref, Put(strict, t1, JMP(Cond, 0)), thn);
      MomentCond(strict, t, c, u) || MomentS(strict, ref, Put(strict, t1, JMP(Cond, 0)), thn, u)
      || u == Put(strict, w1.t, JMP(Always, 0))
      || MomentS(strict, ref, RedirectHere(Put(strict, w1.t, JMP(Always, 0)), |t1.plain|), els, u)
    case SWhile(c, body) =>
      var t1 := NoRef(GenE(strict, Here(t), c));
      var t2 := Put(strict, t1, JMP(Cond, 0));
      MomentCond(strict, Here(t), c, u) || MomentS(strict, ref, t2, body, u)
      || MomentEnd(GenS(strict, ref, t2, body), |t.plain|, [|t1.plain|], u)
    case SFor(start, c, inc, body) =>
      var t0 := GenS(strict, ref, t, start).t;
      var t1 := GenTest(strict, t0, c);
      var t2 := GenInc(strict, t1, inc, c.Some?, |t0.plain|);
      var t3 := if inc.Some? then RedirectHere(Here(t2), |t1.plain|) else Here(t2);
      var back := if inc.Some? then |t1.plain| + 1 else if c.Some? then |t0.plain| else |t2.plain|;
      MomentS(strict, ref, t, start, u) || MomentTest(strict, t0, c, u)
          || MomentInc(strict, t1, inc, c.Some?, |t0.plain|, u)
      || MomentS(strict, ref, t3, body, u)
      || MomentEnd(GenS(strict, ref, t3, body), back, if c.Some? then [|t1.plain| - 1] else [], u)
    case SForEach(v, e, body) =>
      var t1 := Put(strict, GenE(strict, t, e), INT(0));
      var t2 := Put(strict, Put(strict, t1, FOREACH(v)), JMP(Always, 0));
      MomentE(strict, t, e, u) || u == t1 || MomentS(strict, ref, t2, body, u)
      || MomentEnd(GenS(strict, ref, t2, body), |t1.plain|, [|t1.plain| + 1], u)
      || u == EndLoop(GenS(strict, ref, t2, body), |t1.plain|, [|t1.plain| + 1])
    case SReturn(e) => MomentE(strict, t, e, u) || u == NoRefIf(GenE(strict, t, e), !ref)
    case SReturnNil => u == Put(strict, t, NIL)
    case _ => false
  }

  // ----- what holds at every moment -----

  ghost predicate Ok(t: Trace) { Sound(t) && ForEachJumps(t.plain) && t.height == Total(t.plain) }

  /** What may become of a chunk that was asked for: a reference becomes a value, a number changes
      its sign, and a jump that does not lead anywhere yet is led somewhere. */
  predicate Alike(x: Chunk, y: Chunk) {
    && Delta(y) == Delta(x) && Need(y) == Need(x)
    && y.STACK? == x.STACK? && y.FOREACH? == x.FOREACH? && y.JMP? == x.JMP?
    && (x.JMP? ==> y.jkind == x.jkind && (x.off != 0 ==> y == x))
  }

  ghost predicate AllAlike(a: Code, b: Code) {
    |a| <= |b| && forall i :: 0 <= i < |a| ==> Alike(a[i], b[i])
  }

  /** From `u` on, `t` is reached: the chunks asked for stay where they are, jumps that lead somewhere
      go on leading there, and a crossing is not forgotten. */
  ghost predicate Leads(u: Trace, t: Trace) {
    (u.crossed ==> t.crossed) && u.pos <= t.pos && AllAlike(u.plain, t.plain)
  }

  ghost predicate Reached(t: Trace, u: Trace) { Ok(u) && Leads(t, u) }

  lemma AlikeThen(x: Chunk, y: Chunk, z: Chunk)
    requires Alike(x, y) && Alike(y, z)
    ensures Alike(x, z)
  {
    hide Delta, Need;
  }

  lemma AllAlikeThen(a: Code, b: Code, c: Code)
    requires AllAlike(a, b) && AllAlike(b, c)
    ensures AllAlike(a, c)
  {
    hide Alike;
    forall i | 0 <= i < |a| ensures Alike(a[i], c[i]) { AlikeThen(a[i], b[i], c[i]); }
  }

  lemma AlikeSelf(a: Code, more: Code)
    ensures AllAlike(a, a) && AllAlike(a, a + more)
  {
    hide Delta, Need;
  }

  /** One chunk is exchanged. */
  lemma AlikeBut(a: Code, g: nat, x: Chunk)
    requires g < |a| && Alike(a[g], x)
    ensures AllAlike(a, a[g := x])
  {
    hide Delta, Need;
  }

  lemma ReachedThen(t: Trace, u: Trace, v: Trace)
    requires Reached(t, u) && Reached(u, v)
    ensures Reached(t, v)
  {
    hide Ok, AllAlike;
    AllAlikeThen(t.plain, u.plain, v.plain);
  }

  lemma ReachedSelf(t: Trace)
    requires Ok(t)
    ensures Reached(t, t)
  {
    hide Ok, AllAlike;
    AlikeSelf(t.plain, []);
  }

  lemma {:induction false} SameDeltas(a: Code, b: Code)
    requires |a| == |b| && AllAlike(a, b)
    ensures Total(a) == Total(b)
    decreases |a|
  {
    hide Delta, Need;
    if |a| > 0 { SameDeltas(a[1..], b[1..]); }
  }

  lemma JumpsMore(a: Code, x: Chunk)
    requires ForEachJumps(a) && !x.FOREACH?
    ensures ForEachJumps(a + [x])
  {
  }

  lemma ReachPut(strict: nat, t: Trace, x: Chunk)
    requires Ok(t) && !x.FOREACH? && (x.JMP? ==> x.off == 0)
    ensures Reached(t, Put(strict, t, x)) && Put(strict, t, x).plain == t.plain + [Converted(strict, x)]
  {
    hide Sound, ForEachJumps, Joined, OpenRun, AllAlike;
    PutSound(strict, t, x);
    SoundPlaced(t);
    PutPlaced(strict, t, x);
    AlikeSelf(t.plain, [Converted(strict, x)]);
    JumpsMore(t.plain, Converted(strict, x));
    TotalAdd(t.plain, [Converted(strict, x)]);
    TotalOne(Converted(strict, x));
  }

  lemma ReachNoRef(t: Trace)
    requires Ok(t) && Aligned(t) && !Last(t.plain).JMP?
    ensures Reached(t, NoRef(t))
  {
    hide Sound, AllAlike, Alike;
    NoRefSound(t);
    ToValueAlike(Last(t.plain));
    AlikeBut(t.plain, |t.plain| - 1, ToValue(Last(t.plain)));
    SameDeltas(t.plain, NoRef(t).plain);
    LastJumps(t.plain, ToValue(Last(t.plain)));
  }

  lemma ToValueAlike(x: Chunk)
    ensures Alike(x, ToValue(x))
  {
  }

  lemma LastJumps(a: Code, x: Chunk)
    requires |a| > 0 && ForEachJumps(a) && Alike(Last(a), x)
    ensures ForEachJumps(a[|a| - 1 := x])
  {
    hide Delta, Need;
  }

  lemma ReachHere(t: Trace)
    requires Ok(t)
    ensures Reached(t, Here(t)) && Landing(Here(t).plain, Here(t).marks, |t.plain|)
  {
    hide Sound, AllAlike;
    HereSound(t);
    SoundPlaced(t);
    AlikeSelf(t.plain, []);
  }

  /** A jump that does not lead anywhere yet. */
  predicate Waits(t: Trace, g: int) { 0 <= g < |t.plain| && t.plain[g].JMP? && t.plain[g].off == 0 }

  lemma ReachRedirect(t: Trace, g: nat, w: nat)
    requires Ok(t) && Waits(t, g) && Landing(t.plain, t.marks, w)
    ensures Reached(t, Redirect(t, g, w)) && Landing(Redirect(t, g, w).plain, Redirect(t, g, w).marks, w)
    ensures Redirect(t, g, w).plain == t.plain[g := JMP(t.plain[g].jkind, w - g)]
  {
    hide Sound, AllAlike;
    RedirectSound(t, g, w);
    SoundPlaced(t);
    RedirectPlaced(t, g, w);
    AlikeBut(t.plain, g, JMP(t.plain[g].jkind, w - g));
    SameDeltas(t.plain, Redirect(t, g, w).plain);
  }

  lemma ReachRedirectHere(t: Trace, g: nat)
    requires Ok(t) && Waits(t, g)
    ensures Reached(t, RedirectHere(t, g))
    ensures RedirectHere(t, g).plain == t.plain[g := JMP(t.plain[g].jkind, |t.plain| - g)]
    ensures forall w :: Landing(t.plain, t.marks, w) ==> Landing(RedirectHere(t, g).plain, RedirectHere(t, g).marks, w)
  {
    hide Sound, ForEachJumps, AllAlike;
    ReachHere(t);
    ReachRedirect(Here(t), g, |t.plain|);
    ReachedThen(t, Here(t), RedirectHere(t, g));
    SoundPlaced(t);
    RedirectHerePlaced(t, g);
  }

  lemma ReachBack(t: Trace, w: nat)
    requires Ok(t) && Landing(t.plain, t.marks, w)
    ensures w < |t.pos| && Reached(t, PutBack(t, w)) && Landing(PutBack(t, w).plain, PutBack(t, w).marks, w)
    ensures PutBack(t, w).plain == t.plain + [JMP(Always, w - |t.plain|)]
  {
    hide Sound, ForEachJumps, AllAlike;
    SoundPlaced(t);
    PutBackSound(t, w);
    var x := JMP(Always, w - |t.plain|);
    AlikeSelf(t.plain, [x]);
    JumpsMore(t.plain, x);
    TotalAdd(t.plain, [x]);
    TotalOne(x);
  }

  // ----- expressions -----

  lemma {:induction false} CrossedE(strict: nat, t: Trace, e: Expr)
    requires t.crossed
    ensures GenE(strict, t, e).crossed
    decreases e
  {
    hide Put, NoRef, Negate;
    CrossedSteps(strict);
    match e
    case EUnary(_, arg) => CrossedE(strict, t, arg);
    case EBinary(op, l, r) =>
      CrossedE(strict, t, l);
      CrossedE(strict, NoRefIf(GenE(strict, t, l), !Modifies(op)), r);
    case ELogic(op, l, r) =>
      CrossedE(strict, t, l);
      var t1 := NoRef(GenE(strict, t, l));
      CrossedE(strict, t1, r);
      CrossedE(strict, Put(strict, t1, JMP(LogicJump(op), 0)), r);
    case ENilAssign(l, r) =>
      CrossedE(strict, t, l);
      CrossedE(strict, Put(strict, GenE(strict, t, l), JMP(IfSet, 0)), r);
    case ECall(callee, args) =>
      CrossedAll(strict, t, CodeBefore(callee));
      CrossedArgs(strict, PutAll(strict, t, CodeBefore(callee)), args);
      CrossedAll(strict, GenArgs(strict, PutAll(strict, t, CodeBefore(callee)), args), CodeCall(callee, Count(args)));
    case EMethod(how, target, args) =>
      CrossedE(strict, t, target);
      CrossedArgs(strict, GenE(strict, t, target), args);
      CrossedAll(strict, GenArgs(strict, GenE(strict, t, target), args), CodeMethod(how, Count(args)));
    case _ =>
  }

  lemma CrossedSteps(strict: nat)
    ensures forall t: Trace, x: Chunk :: t.crossed ==> Put(strict, t, x).crossed
    ensures forall t: Trace, x: Chunk :: |Put(strict, t, x).plain| > 0
    ensures forall t: Trace :: NoRef(t).crossed == t.crossed
    ensures forall t: Trace :: EndsInInt(t.code) ==> Negate(t).crossed == t.crossed
  {
  }

  lemma {:induction false} CrossedAll(strict: nat, t: Trace, xs: Code)
    requires t.crossed
    ensures PutAll(strict, t, xs).crossed
    decreases |xs|
  {
    hide Put;
    CrossedSteps(strict);
    if |xs| > 0 { CrossedAll(strict, Put(strict, t, xs[0]), xs[1..]); }
  }

  lemma {:induction false} CrossedArgs(strict: nat, t: Trace, a: Args)
    requires t.crossed
    ensures GenArgs(strict, t, a).crossed
    decreases a
  {
    hide NoRef;
    CrossedSteps(strict);
    match a
    case NoArgs =>
    case Arg(e, keepRef, rest) =>
      CrossedE(strict, t, e);
      CrossedArgs(strict, NoRefIf(GenE(strict, t, e), !keepRef), rest);
  }

  lemma ReachE(strict: nat, t: Trace, e: Expr)
    requires Ok(t)
    ensures var t' := GenE(strict, t, e); Reached(t, t') && Aligned(t') && !Last(t'.plain).JMP?
  {
    hide GenE, CodeE, Sound, Placed, Even, ForEachJumps, Total, AllAlike;
    GenEGood(strict, t, e);
    SoundPlaced(t);
    GenEWrites(strict, t, e);
    AlikeSelf(t.plain, CodeE(strict, e, false));
    EndNotJump(strict, t, e);
    HeightIsCounted(strict, false, t, e, SEmpty);
    ExprNoForEach(strict, e, false);
    NoForEachJumps(CodeE(strict, e, false));
    JumpsJoin(t.plain, CodeE(strict, e, false));
    if t.crossed { CrossedE(strict, t, e); }
  }

  lemma ReachValue(strict: nat, t: Trace, e: Expr, valueOnly: bool)
    requires Ok(t)
    ensures Reached(t, NoRefIf(GenE(strict, t, e), valueOnly))
  {
    hide GenE, Ok, NoRef, Aligned, Delta;
    ReachE(strict, t, e);
    var t1 := GenE(strict, t, e);
    if valueOnly {
      ReachNoRef(t1);
      ReachedThen(t, t1, NoRef(t1));
    }
  }

  /** `u` lies between `t` and `t'`. */
  ghost predicate Between(t: Trace, u: Trace, t': Trace) { Reached(t, u) && Reached(u, t') }

  lemma BetweenAfter(t: Trace, u: Trace, t1: Trace, t2: Trace)
    requires Between(t, u, t1) && Reached(t1, t2)
    ensures Between(t, u, t2)
  {
    hide Reached;
    ReachedThen(u, t1, t2);
  }

  lemma BetweenBefore(t: Trace, t1: Trace, u: Trace, t2: Trace)
    requires Reached(t, t1) && Between(t1, u, t2)
    ensures Between(t, u, t2)
  {
    hide Reached;
    ReachedThen(t, t1, u);
  }

  lemma BetweenEnds(t: Trace, t': Trace)
    requires Ok(t) && Reached(t, t')
    ensures Between(t, t, t') && Between(t, t', t')
  {
    hide Ok, Leads;
    ReachedSelf(t);
    ReachedSelf(t');
  }

  /** Every moment of an expression is reached from its beginning and leads to its end. */
  lemma {:induction false} BetweenE(strict: nat, t: Trace, e: Expr, u: Trace)
    requires Ok(t) && MomentE(strict, t, e, u)
    ensures Between(t, u, GenE(strict, t, e))
    decreases e, 2
  {
    hide Ok, Reached, Between, MomentArgs, MomentAll, Put, NoRef, RedirectHere, PutAll, GenArgs, Aligned;
    ReachE(strict, t, e);
    if u == t || u == GenE(strict, t, e) {
      BetweenEnds(t, GenE(strict, t, e));
    } else {
      match e
      case EUnary(op, arg) => BetweenUnary(strict, t, e, u);
      case EBinary(op, l, r) => BetweenPair(strict, t, e, !Modifies(op), BinChunk(op, strict), u);
      case ELogic(op, l, r) =>
        if ShortCircuit(op, strict) {
          BetweenShort(strict, t, e, u);
        } else {
          BetweenPair(strict, t, e, true, LogicChunk(op), u);
        }
      case ENilAssign(l, r) => BetweenNilAssign(strict, t, e, u);
      case ECall(callee, args) => BetweenCall(strict, t, e, u);
      case EMethod(how, target, args) => BetweenMethod(strict, t, e, u);
      case _ =>
    }
  }

  lemma BetweenUnary(strict: nat, t: Trace, e: Expr, u: Trace)
    requires Ok(t) && e.EUnary?
    requires var t1 := GenE(strict, t, e.arg);
             MomentE(strict, t, e.arg, u)
             || (!(e.uop == PreNeg && EndsInInt(t1.code)) && u == NoRefIf(t1, !KeepsRef(e.uop)))
    ensures Between(t, u, GenE(strict, t, e))
    decreases e, 1
  {
    hide Ok, Between, Leads, Put, NoRef, MomentE, Aligned;
    var t1, t' := GenE(strict, t, e.arg), GenE(strict, t, e);
    ReachE(strict, t, e.arg);
    ReachE(strict, t, e);
    var t2 := NoRefIf(t1, !KeepsRef(e.uop));
    if e.uop == PrePlus {
      ReachedSelf(t1);
    } else if e.uop == PreNeg && EndsInInt(t1.code) {
      NegateLeads(t1);
    } else {
      ReachValue(strict, t, e.arg, !KeepsRef(e.uop));
      if !KeepsRef(e.uop) { ReachNoRef(t1); } else { ReachedSelf(t1); }
      ReachPut(strict, t2, UN(UnaryChunk(e.uop, false)));
      ReachedThen(t1, t2, t');
      if u == t2 { BetweenIs(t, u, t'); }
    }
    if MomentE(strict, t, e.arg, u) {
      BetweenE(strict, t, e.arg, u);
      BetweenAfter(t, u, t1, t');
    } else if e.uop == PrePlus {
      BetweenIs(t, t1, t');
    }
  }

  lemma BetweenIs(t: Trace, u: Trace, t': Trace)
    requires Reached(t, u) && Reached(u, t')
    ensures Between(t, u, t')
  {
  }

  lemma NegateLeads(t: Trace)
    requires EndsInInt(t.code)
    ensures Leads(t, Negate(t))
  {
    hide AllAlike;
    AlikeSelf(t.plain, []);
    if EndsInInt(t.plain) { AlikeBut(t.plain, |t.plain| - 1, INT(-Last(t.plain).x)); }
  }

  /** Two operands and their operator. */
  lemma BetweenPair(strict: nat, t: Trace, e: Expr, leftValue: bool, op: BinOp, u: Trace)
    requires Ok(t) && (e.EBinary? || e.ELogic?) && MomentPair(strict, t, e, leftValue, u)
    ensures var t1 := NoRefIf(GenE(strict, t, e.left), leftValue);
            Between(t, u, Put(strict, NoRef(GenE(strict, t1, e.right)), BIN(op)))
    decreases e, 1
  {
    hide Ok, Leads, Between, Put, NoRef, MomentE, GenE, Aligned;
    var t0 := GenE(strict, t, e.left);
    var t1 := NoRefIf(t0, leftValue);
    var t2 := GenE(strict, t1, e.right);
    var t3 := NoRef(t2);
    var t' := Put(strict, t3, BIN(op));
    ReachE(strict, t, e.left);
    if leftValue { ReachNoRef(t0); } else { ReachedSelf(t0); }
    ReachE(strict, t1, e.right);
    ReachNoRef(t2);
    ReachPut(strict, t3, BIN(op));
    ReachedThen(t, t0, t1);
    ReachedThen(t2, t3, t');
    ReachedThen(t1, t2, t');
    if MomentE(strict, t, e.left, u) {
      BetweenE(strict, t, e.left, u);
      ReachedThen(t0, t1, t');
      BetweenAfter(t, u, t0, t');
    } else if MomentE(strict, t1, e.right, u) {
      BetweenE(strict, t1, e.right, u);
      BetweenAfter(t1, u, t2, t');
      BetweenBefore(t, t1, u, t');
    } else {
      ReachedThen(t1, t2, t3);
      ReachedThen(t, t1, t3);
      BetweenIs(t, t3, t');
    }
  }

  /** A jump over an operand, filled in behind it. */
  lemma ReachOver(strict: nat, t1: Trace, kind: JumpKind, e: Expr, assigns: bool)
    requires Ok(t1)
    ensures var t2 := Put(strict, t1, JMP(kind, 0));
            var t3 := GenE(strict, t2, e);
            var t4 := if assigns then Put(strict, t3, BIN(Set)) else t3;
            Reached(t1, t2) && Reached(t2, t3) && Reached(t3, t4) && Reached(t4, RedirectHere(t4, |t1.plain|))
  {
    hide Sound, Put, NoRef, GenE, Aligned, RedirectHere, Leads, CodeE, Placed, ForEachJumps;
    var t2 := Put(strict, t1, JMP(kind, 0));
    ReachPut(strict, t1, JMP(kind, 0));
    ReachE(strict, t2, e);
    var t3 := GenE(strict, t2, e);
    SoundPlaced(t2);
    GenEWrites(strict, t2, e);
    JumpKept(t2, t3, CodeE(strict, e, false), 1, |t1.plain|);
    ReachedSelf(t3);
    if assigns { ReachPut(strict, t3, BIN(Set)); }
    var t4 := if assigns then Put(strict, t3, BIN(Set)) else t3;
    ReachRedirectHere(t4, |t1.plain|);
  }

  lemma BetweenShort(strict: nat, t: Trace, e: Expr, u: Trace)
    requires Ok(t) && e.ELogic?
    requires var t1 := NoRef(GenE(strict, t, e.left));
             MomentE(strict, t, e.left, u) || u == t1
                 || MomentE(strict, Put(strict, t1, JMP(LogicJump(e.lop), 0)), e.right, u)
    ensures var t1 := NoRef(GenE(strict, t, e.left));
            Between(t, u, RedirectHere(GenE(strict, Put(strict, t1, JMP(LogicJump(e.lop), 0)), e.right), |t1.plain|))
    decreases e, 1
  {
    hide Ok, Leads, Between, Put, NoRef, MomentE, GenE, Aligned, RedirectHere;
    var t0 := GenE(strict, t, e.left);
    var t1 := NoRef(t0);
    var t2 := Put(strict, t1, JMP(LogicJump(e.lop), 0));
    var t3 := GenE(strict, t2, e.right);
    var t' := RedirectHere(t3, |t1.plain|);
    ReachE(strict, t, e.left);
    ReachNoRef(t0);
    ReachOver(strict, t1, LogicJump(e.lop), e.right, false);
    ReachedThen(t, t0, t1);
    ReachedThen(t, t1, t2);
    ReachedThen(t2, t3, t');
    ReachedThen(t1, t2, t');
    ReachedThen(t0, t1, t');
    if MomentE(strict, t, e.left, u) {
      BetweenE(strict, t, e.left, u);
      BetweenAfter(t, u, t0, t');
    } else if u == t1 {
      BetweenIs(t, t1, t');
    } else {
      BetweenE(strict, t2, e.right, u);
      BetweenAfter(t2, u, t3, t');
      BetweenBefore(t, t2, u, t');
    }
  }

  lemma BetweenNilAssign(strict: nat, t: Trace, e: Expr, u: Trace)
    requires Ok(t) && e.ENilAssign?
    requires var t2 := Put(strict, GenE(strict, t, e.left), JMP(IfSet, 0));
             MomentE(strict, t, e.left, u) || MomentE(strict, t2, e.right, u)
                 || u == Put(strict, GenE(strict, t2, e.right), BIN(Set))
    ensures Between(t, u, GenE(strict, t, e))
    decreases e, 1
  {
    hide Ok, Leads, Between, Put, NoRef, MomentE, Aligned, RedirectHere;
    var t1 := GenE(strict, t, e.left);
    var t2 := Put(strict, t1, JMP(IfSet, 0));
    var t3 := GenE(strict, t2, e.right);
    var t4 := Put(strict, t3, BIN(Set));
    var t' := GenE(strict, t, e);
    ReachE(strict, t, e.left);
    ReachOver(strict, t1, IfSet, e.right, true);
    assert t' == RedirectHere(t4, |t1.plain|);
    ReachedThen(t, t1, t2);
    ReachedThen(t3, t4, t');
    ReachedThen(t2, t3, t');
    ReachedThen(t1, t2, t');
    if MomentE(strict, t, e.left, u) {
      BetweenE(strict, t, e.left, u);
      BetweenAfter(t, u, t1, t');
    } else if MomentE(strict, t2, e.right, u) {
      BetweenE(strict, t2, e.right, u);
      BetweenAfter(t2, u, t3, t');
      BetweenBefore(t, t2, u, t');
    } else {
      ReachedThen(t2, t3, t4);
      ReachedThen(t, t2, t4);
      BetweenIs(t, t4, t');
    }
  }

  predicate NoJumps(xs: Code) { forall i :: 0 <= i < |xs| ==> !xs[i].JMP? && !xs[i].FOREACH? }

  lemma CallNoJumps(callee: Callee, how: Method, n: nat)
    ensures NoJumps(CodeBefore(callee)) && NoJumps(CodeCall(callee, n)) && NoJumps(CodeMethod(how, n))
  {
  }

  lemma {:induction false} ReachAll(strict: nat, t: Trace, xs: Code)
    requires Ok(t) && NoJumps(xs)
    ensures Reached(t, PutAll(strict, t, xs))
    decreases |xs|
  {
    hide Ok, Leads, Put;
    ReachedSelf(t);
    if |xs| > 0 {
      ReachPut(strict, t, xs[0]);
      ReachAll(strict, Put(strict, t, xs[0]), xs[1..]);
      ReachedThen(t, Put(strict, t, xs[0]), PutAll(strict, t, xs));
    }
  }

  lemma {:induction false} BetweenAll(strict: nat, t: Trace, xs: Code, u: Trace)
    requires Ok(t) && NoJumps(xs) && MomentAll(strict, t, xs, u)
    ensures Between(t, u, PutAll(strict, t, xs))
    decreases |xs|
  {
    hide Ok, Leads, Put, Between;
    ReachAll(strict, t, xs);
    if u == t {
      BetweenEnds(t, PutAll(strict, t, xs));
    } else {
      var t1 := Put(strict, t, xs[0]);
      ReachPut(strict, t, xs[0]);
      BetweenAll(strict, t1, xs[1..], u);
      BetweenBefore(t, t1, u, PutAll(strict, t, xs));
    }
  }

  lemma {:induction false} ReachArgs(strict: nat, t: Trace, a: Args)
    requires Ok(t)
    ensures Reached(t, GenArgs(strict, t, a))
    decreases a
  {
    hide Ok, Leads, GenE, NoRef;
    ReachedSelf(t);
    match a
    case NoArgs =>
    case Arg(e, keepRef, rest) =>
      var t1 := NoRefIf(GenE(strict, t, e), !keepRef);
      ReachValue(strict, t, e, !keepRef);
      ReachArgs(strict, t1, rest);
      ReachedThen(t, t1, GenArgs(strict, t, a));
  }

  lemma {:induction false} BetweenArgs(strict: nat, t: Trace, a: Args, u: Trace)
    requires Ok(t) && MomentArgs(strict, t, a, u)
    ensures Between(t, u, GenArgs(strict, t, a))
    decreases a, 0
  {
    hide Ok, Leads, GenE, NoRef, Between, Aligned, MomentE;
    ReachArgs(strict, t, a);
    if u == t {
      BetweenEnds(t, GenArgs(strict, t, a));
    } else {
      var t0 := GenE(strict, t, a.e);
      var t1, t' := NoRefIf(t0, !a.keepRef), GenArgs(strict, t, a);
      ReachE(strict, t, a.e);
      if !a.keepRef { ReachNoRef(t0); } else { ReachedSelf(t0); }
      ReachedThen(t, t0, t1);
      ReachArgs(strict, t1, a.rest);
      ReachedThen(t0, t1, t');
      if MomentE(strict, t, a.e, u) {
        BetweenE(strict, t, a.e, u);
        BetweenAfter(t, u, t0, t');
      } else {
        BetweenArgs(strict, t1, a.rest, u);
        BetweenBefore(t, t1, u, t');
      }
    }
  }

  /** Parameters and the chunks behind them. */
  lemma BetweenRest(strict: nat, t: Trace, args: Args, xs: Code, u: Trace)
    requires Ok(t) && NoJumps(xs)
    requires MomentArgs(strict, t, args, u) || MomentAll(strict, GenArgs(strict, t, args), xs, u)
    ensures Between(t, u, PutAll(strict, GenArgs(strict, t, args), xs))
    decreases args, 1
  {
    hide Ok, Leads, PutAll, GenArgs, Between, MomentArgs, MomentAll;
    var t1 := GenArgs(strict, t, args);
    var t' := PutAll(strict, t1, xs);
    ReachArgs(strict, t, args);
    ReachAll(strict, t1, xs);
    if MomentArgs(strict, t, args, u) {
      BetweenArgs(strict, t, args, u);
      BetweenAfter(t, u, t1, t');
    } else {
      BetweenAll(strict, t1, xs, u);
      BetweenBefore(t, t1, u, t');
    }
  }

  lemma BetweenCall(strict: nat, t: Trace, e: Expr, u: Trace)
    requires Ok(t) && e.ECall?
    requires var t1 := PutAll(strict, t, CodeBefore(e.callee));
             MomentAll(strict, t, CodeBefore(e.callee), u) || MomentArgs(strict, t1, e.args, u)
             || MomentAll(strict, GenArgs(strict, t1, e.args), CodeCall(e.callee, Count(e.args)), u)
    ensures Between(t, u, GenE(strict, t, e))
    decreases e, 1
  {
    hide Ok, Leads, PutAll, GenArgs, Between, MomentArgs, MomentAll, CodeBefore, CodeCall;
    CallNoJumps(e.callee, Unknown, Count(e.args));
    var t1, t' := PutAll(strict, t, CodeBefore(e.callee)), GenE(strict, t, e);
    var xs := CodeCall(e.callee, Count(e.args));
    ReachAll(strict, t, CodeBefore(e.callee));
    if MomentAll(strict, t, CodeBefore(e.callee), u) {
      BetweenAll(strict, t, CodeBefore(e.callee), u);
      ReachArgs(strict, t1, e.args);
      ReachAll(strict, GenArgs(strict, t1, e.args), xs);
      ReachedThen(t1, GenArgs(strict, t1, e.args), t');
      BetweenAfter(t, u, t1, t');
    } else {
      BetweenRest(strict, t1, e.args, xs, u);
      BetweenBefore(t, t1, u, t');
    }
  }

  lemma BetweenMethod(strict: nat, t: Trace, e: Expr, u: Trace)
    requires Ok(t) && e.EMethod?
    requires var t1 := GenE(strict, t, e.target);
             MomentE(strict, t, e.target, u) || MomentArgs(strict, t1, e.args, u)
             || MomentAll(strict, GenArgs(strict, t1, e.args), CodeMethod(e.how, Count(e.args)), u)
    ensures Between(t, u, GenE(strict, t, e))
    decreases e, 1
  {
    hide Ok, Leads, PutAll, GenArgs, Between, MomentArgs, MomentAll, MomentE, CodeMethod, Aligned;
    CallNoJumps(NewArray, e.how, Count(e.args));
    var t1, t' := GenE(strict, t, e.target), GenE(strict, t, e);
    var xs := CodeMethod(e.how, Count(e.args));
    ReachE(strict, t, e.target);
    if MomentE(strict, t, e.target, u) {
      BetweenE(strict, t, e.target, u);
      ReachArgs(strict, t1, e.args);
      ReachAll(strict, GenArgs(strict, t1, e.args), xs);
      ReachedThen(t1, GenArgs(strict, t1, e.args), t');
      BetweenAfter(t, u, t1, t');
    } else {
      BetweenRest(strict, t1, e.args, xs, u);
      BetweenBefore(t, t1, u, t');
    }
  }

  // ----- statements -----

  lemma CrossedJumps()
    ensures forall t: Trace :: Here(t).crossed == t.crossed
    ensures forall t: Trace, g: nat, w: nat :: Redirect(t, g, w).crossed == t.crossed
    ensures forall t: Trace, g: nat :: RedirectHere(t, g).crossed == t.crossed
  {
  }

  lemma {:induction false} CrossedResolve(t: Trace, cs: seq<Control>, w: nat)
    ensures Resolve(t, cs, w).crossed == t.crossed
    decreases |cs|
  {
    hide Redirect, RedirectHere;
    CrossedJumps();
    if |cs| > 0 {
      CrossedResolve(if cs[0].isBreak then RedirectHere(t, cs[0].at) else Redirect(t, cs[0].at, w), cs[1..], w);
    }
  }

  lemma CrossedEnd(w: Written, back: nat, exits: seq<nat>)
    ensures EndLoop(w, back, exits).crossed == w.t.crossed
  {
    hide Redirect, RedirectHere, Resolve;
    CrossedJumps();
    if back < |w.t.pos| {
      var t1 := PutBack(w.t, back);
      CrossedResolve(if |exits| > 0 then RedirectHere(t1, exits[0]) else t1, w.controls, back);
    }
  }

  lemma CrossedCond(strict: nat, t: Trace, c: Expr)
    requires t.crossed
    ensures Put(strict, NoRef(GenE(strict, t, c)), JMP(Cond, 0)).crossed
  {
    hide Put, NoRef, GenE;
    CrossedSteps(strict);
    CrossedE(strict, t, c);
  }

  lemma CrossedHead(strict: nat, t: Trace, c: OptExpr, inc: OptExpr, cond: bool, start: nat)
    requires t.crossed
    ensures GenTest(strict, t, c).crossed && GenInc(strict, t, inc, cond, start).crossed
    ensures c.Some? ==> |GenTest(strict, t, c).plain| > 0
  {
    hide Put, NoRef, GenE, Here;
    CrossedSteps(strict);
    CrossedJumps();
    if c.Some? { CrossedE(strict, Here(t), c.e); }
    if inc.Some? { CrossedE(strict, Here(Put(strict, t, JMP(Always, 0))), inc.e); }
  }

  lemma {:induction false} CrossedS(strict: nat, ref: bool, t: Trace, s: Stmt)
    requires t.crossed
    ensures GenS(strict, ref, t, s).t.crossed
    decreases s
  {
    hide Put, NoRef, GenE, Here, RedirectHere, EndLoop, GenTest, GenInc;
    CrossedSteps(strict);
    CrossedJumps();
    match s
    case SExpr(e, _) => CrossedE(strict, t, e);
    case SVar(_, e) => CrossedE(strict, t, e);
    case SSeq(a, b) =>
      CrossedS(strict, ref, t, a);
      CrossedS(strict, ref, GenS(strict, ref, t, a).t, b);
    case SIf(c, thn) =>
      CrossedCond(strict, t, c);
      CrossedS(strict, ref, Put(strict, NoRef(GenE(strict, t, c)), JMP(Cond, 0)), thn);
    case SIfElse(c, thn, els) =>
      CrossedCond(strict, t, c);
      var t1 := NoRef(GenE(strict, t, c));
      CrossedS(strict, ref, Put(strict, t1, JMP(Cond, 0)), thn);
      var w1 := GenS(strict, ref, Put(strict, t1, JMP(Cond, 0)), thn);
      CrossedS(strict, ref, RedirectHere(Put(strict, w1.t, JMP(Always, 0)), |t1.plain|), els);
    case SWhile(c, body) =>
      CrossedCond(strict, Here(t), c);
      var t1 := NoRef(GenE(strict, Here(t), c));
      CrossedS(strict, ref, Put(strict, t1, JMP(Cond, 0)), body);
      CrossedEnd(GenS(strict, ref, Put(strict, t1, JMP(Cond, 0)), body), |t.plain|, [|t1.plain|]);
    case SFor(start, c, inc, body) =>
      CrossedS(strict, ref, t, start);
      var t0 := GenS(strict, ref, t, start).t;
      CrossedHead(strict, t0, c, inc, c.Some?, |t0.plain|);
      var t1 := GenTest(strict, t0, c);
      CrossedHead(strict, t1, c, inc, c.Some?, |t0.plain|);
      var t2 := GenInc(strict, t1, inc, c.Some?, |t0.plain|);
      var t3 := if inc.Some? then RedirectHere(Here(t2), |t1.plain|) else Here(t2);
      CrossedS(strict, ref, t3, body);
      var back := if inc.Some? then |t1.plain| + 1 else if c.Some? then |t0.plain| else |t2.plain|;
      CrossedEnd(GenS(strict, ref, t3, body), back, if c.Some? then [|t1.plain| - 1] else []);
    case SForEach(v, e, body) =>
      CrossedE(strict, t, e);
      var t1 := Put(strict, GenE(strict, t, e), INT(0));
      var t2 := Put(strict, Put(strict, t1, FOREACH(v)), JMP(Always, 0));
      CrossedS(strict, ref, t2, body);
      CrossedEnd(GenS(strict, ref, t2, body), |t1.plain|, [|t1.plain| + 1]);
    case SReturn(e) => CrossedE(strict, t, e);
    case _ =>
  }

  lemma ReachS(strict: nat, ref: bool, t: Trace, s: Stmt)
    requires Ok(t)
    ensures Reached(t, GenS(strict, ref, t, s).t)
  {
    hide GenS, CodeS, Sound, Placed, Even, ForEachJumps, Total, Flat, ControlsOf, AllAlike;
    GenSSafe(strict, ref, t, s);
    SoundPlaced(t);
    GenSWrites(strict, ref, t, s);
    AlikeSelf(t.plain, CodeS(strict, s, ref, Pending));
    HeightIsCounted(strict, ref, t, EConst(CNil), s);
    StmtJumps(strict, s, ref, Pending);
    JumpsJoin(t.plain, CodeS(strict, s, ref, Pending));
    if t.crossed { CrossedS(strict, ref, t, s); }
  }

  /** A condition. */
  lemma BetweenCond(strict: nat, t: Trace, c: Expr)
    requires Ok(t)
    ensures var t0 := NoRef(GenE(strict, t, c));
            var t1 := Put(strict, t0, JMP(Cond, 0));
            Reached(t, t1) && Waits(t1, |t0.plain|)
            && forall u :: MomentCond(strict, t, c, u) ==> Between(t, u, t1)
  {
    hide Ok, Leads, Put, NoRef, GenE, Aligned, MomentE, Between;
    var t2 := GenE(strict, t, c);
    var t0 := NoRef(t2);
    var t1 := Put(strict, t0, JMP(Cond, 0));
    ReachE(strict, t, c);
    ReachNoRef(t2);
    ReachPut(strict, t0, JMP(Cond, 0));
    ReachedThen(t, t2, t0);
    ReachedThen(t, t0, t1);
    ReachedThen(t2, t0, t1);
    ReachedSelf(t1);
    BetweenIs(t, t0, t1);
    BetweenIs(t, t1, t1);
    forall u | MomentE(strict, t, c, u) ensures Between(t, u, t1) {
      BetweenE(strict, t, c, u);
      BetweenAfter(t, u, t2, t1);
    }
  }

  /** All these controls wait, each at a place of its own. */
  predicate AllWait(t: Trace, cs: seq<Control>) { InTurn(cs) && forall i :: 0 <= i < |cs| ==> Waits(t, cs[i].at) }

  predicate InTurn(cs: seq<Control>) { forall i, j :: 0 <= i < j < |cs| ==> cs[j].at < cs[i].at }

  lemma {:induction false} BetweenResolve(t: Trace, cs: seq<Control>, w: nat, u: Trace)
    requires Ok(t) && Landing(t.plain, t.marks, w) && AllWait(t, cs)
    ensures Reached(t, Resolve(t, cs, w))
    ensures MomentResolve(t, cs, w, u) ==> Between(t, u, Resolve(t, cs, w))
    decreases |cs|
  {
    hide Ok, Leads, Redirect, RedirectHere, Landing, Between;
    ReachedSelf(t);
    if |cs| > 0 {
      var t1 := if cs[0].isBreak then RedirectHere(t, cs[0].at) else Redirect(t, cs[0].at, w);
      if cs[0].isBreak { ReachRedirectHere(t, cs[0].at); } else { ReachRedirect(t, cs[0].at, w); }
      BetweenResolve(t1, cs[1..], w, u);
      ReachedThen(t, t1, Resolve(t, cs, w));
      if MomentResolve(t1, cs[1..], w, u) { BetweenBefore(t, t1, u, Resolve(t, cs, w)); }
    }
    if u == t { BetweenEnds(t, Resolve(t, cs, w)); }
  }

  lemma BetweenEnd(w: Written, back: nat, exits: seq<nat>, u: Trace)
    requires Ok(w.t) && Landing(w.t.plain, w.t.marks, back)
    requires AllWait(w.t, w.controls)
    requires |exits| > 0 ==> Waits(w.t, exits[0]) && forall c :: c in w.controls ==> exits[0] < c.at
    ensures Reached(w.t, EndLoop(w, back, exits))
    ensures MomentEnd(w, back, exits, u) ==> Between(w.t, u, EndLoop(w, back, exits))
  {
    hide Ok, Leads, RedirectHere, Landing, Between, Resolve, PutBack, MomentResolve;
    var t, t' := w.t, EndLoop(w, back, exits);
    ReachBack(t, back);
    var t1 := PutBack(t, back);
    var t2 := if |exits| > 0 then RedirectHere(t1, exits[0]) else t1;
    ReachedSelf(t1);
    if |exits| > 0 {
      assert t1.plain[exits[0]] == t.plain[exits[0]];
      ReachRedirectHere(t1, exits[0]);
    }
    BetweenResolve(t2, w.controls, back, u);
    ReachedThen(t1, t2, t');
    ReachedThen(t, t1, t');
    ReachedThen(t, t1, t2);
    if MomentEnd(w, back, exits, u) {
      if u == t {
        BetweenEnds(t, t');
      } else if u == t1 {
        BetweenIs(t, t1, t');
      } else {
        BetweenBefore(t, t2, u, t');
      }
    }
  }

  /** The controls of a loop's body. */
  lemma ControlsWait(strict: nat, ref: bool, t: Trace, s: Stmt)
    requires Placed(t)
    ensures var w := GenS(strict, ref, t, s);
            AllWait(w.t, w.controls) && forall c :: c in w.controls ==> |t.plain| <= c.at
  {
    hide GenS, CodeS, ControlsOf, Placed;
    GenSWrites(strict, ref, t, s);
    ControlsInside(strict, ref, s, |t.plain|);
    ControlsInTurn(strict, ref, s, |t.plain|);
    var w, code := GenS(strict, ref, t, s), CodeS(strict, s, ref, Pending);
    forall i | 0 <= i < |w.controls| ensures Waits(w.t, w.controls[i].at) {
      var c := w.controls[i];
      assert c in w.controls;
      assert w.t.plain[c.at] == code[c.at - |t.plain|];
    }
  }

  /** Newer controls stand behind older ones. */
  lemma {:induction false} ControlsInTurn(strict: nat, ref: bool, s: Stmt, base: nat)
    ensures InTurn(ControlsOf(strict, ref, s, base))
    decreases s
  {
    hide CodeE, CodeS, ControlsOf, InTurn;
    OpenControls(strict, ref, s, base);
    match s
    case SSeq(a, b) =>
      var n := |CodeS(strict, a, ref, Pending)|;
      ControlsInTurn(strict, ref, a, base);
      ControlsInTurn(strict, ref, b, base + n);
      ControlsInside(strict, ref, a, base);
      ControlsInside(strict, ref, b, base + n);
      TurnBoth(ControlsOf(strict, ref, b, base + n), ControlsOf(strict, ref, a, base), base + n);
    case SIf(c, t) => ControlsInTurn(strict, ref, t, base + |CodeE(strict, c, true)| + 1);
    case SIfElse(c, t, e) =>
      var n := base + |CodeE(strict, c, true)| + 1;
      var k := n + |CodeS(strict, t, ref, Pending)| + 1;
      ControlsInTurn(strict, ref, t, n);
      ControlsInTurn(strict, ref, e, k);
      ControlsInside(strict, ref, t, n);
      ControlsInside(strict, ref, e, k);
      TurnBoth(ControlsOf(strict, ref, e, k), ControlsOf(strict, ref, t, n), k);
    case _ => TurnOne(ControlsOf(strict, ref, s, base));
  }

  lemma TurnOne(cs: seq<Control>)
    requires |cs| <= 1
    ensures InTurn(cs)
  {
  }

  lemma TurnBoth(b: seq<Control>, a: seq<Control>, n: nat)
    requires InTurn(a) && InTurn(b)
    requires forall c :: c in b ==> n <= c.at
    requires forall c :: c in a ==> c.at < n
    ensures InTurn(b + a)
  {
    var cs := b + a;
    forall i, j | 0 <= i < j < |cs| ensures cs[j].at < cs[i].at {
      if i < |b| { assert cs[i] in b; }
      if j >= |b| { assert cs[j] in a; }
    }
  }

  /** A loop's body and end. */
  lemma BetweenBody(strict: nat, ref: bool, t: Trace, back: nat, exits: seq<nat>, s: Stmt, body: Stmt, u: Trace)
    requires Ok(t) && Landing(t.plain, t.marks, back) && body < s
    requires |exits| > 0 ==> Waits(t, exits[0])
    ensures var w := GenS(strict, ref, t, body);
            var t' := EndLoop(w, back, exits);
            Reached(t, t') && (MomentS(strict, ref, t, body, u) || MomentEnd(w, back, exits, u) ==> Between(t, u, t'))
    decreases s, 0
  {
    hide GenS, CodeS, EndLoop, ControlsOf, Landing, MomentS, MomentEnd, Between, Ok, Leads;
    var w := GenS(strict, ref, t, body);
    OkSound(t);
    SoundPlaced(t);
    GenSWrites(strict, ref, t, body);
    LandingKept(t, w.t, CodeS(strict, body, ref, Pending), 0, back);
    if |exits| > 0 { JumpKept(t, w.t, CodeS(strict, body, ref, Pending), 0, exits[0]); }
    ControlsWait(strict, ref, t, body);
    ReachS(strict, ref, t, body);
    BetweenEnd(w, back, exits, u);
    var t' := EndLoop(w, back, exits);
    ReachedThen(t, w.t, t');
    if MomentS(strict, ref, t, body, u) {
      BetweenS(strict, ref, t, body, u);
      BetweenAfter(t, u, w.t, t');
    } else if MomentEnd(w, back, exits, u) {
      BetweenBefore(t, w.t, u, t');
    }
  }

  lemma OkSound(t: Trace)
    requires Ok(t)
    ensures Sound(t)
  {
  }

  /** Every moment of a statement is reached from its beginning and leads to its end. */
  lemma {:induction false} BetweenS(strict: nat, ref: bool, t: Trace, s: Stmt, u: Trace)
    requires Ok(t) && MomentS(strict, ref, t, s, u)
    ensures Between(t, u, GenS(strict, ref, t, s).t)
    decreases s, 2
  {
    hide Ok, Reached, Between, MomentE, MomentCond, MomentEnd, MomentTest, MomentInc, Put, NoRef, RedirectHere, Here,
         EndLoop, GenE, GenTest, GenInc;
    ReachS(strict, ref, t, s);
    if u == t || u == GenS(strict, ref, t, s).t {
      BetweenEnds(t, GenS(strict, ref, t, s).t);
    } else {
      match s
      case SExpr(e, valueOnly) => BetweenValue(strict, t, e, valueOnly, STACK(-1), u);
      case SVar(v, e) => BetweenValue(strict, t, e, true, IVARN(v), u);
      case SReturn(e) => BetweenValue(strict, t, e, !ref, RETURN, u);
      case SReturnNil =>
        ReachPut(strict, t, NIL);
        ReachPut(strict, u, RETURN) by { assert Ok(u) by { ReachedOk(t, u); } }
        BetweenIs(t, u, GenS(strict, ref, t, s).t);
      case SSeq(a, b) => BetweenSeq(strict, ref, t, s, u);
      case SIf(c, thn) => BetweenIf(strict, ref, t, s, u);
      case SIfElse(c, thn, els) => BetweenElse(strict, ref, t, s, u);
      case SWhile(c, body) => BetweenWhile(strict, ref, t, s, u);
      case SFor(start, c, inc, body) => BetweenFor(strict, ref, t, s, u);
      case SForEach(v, e, body) => BetweenEach(strict, ref, t, s, u);
      case _ =>
    }
  }

  lemma ReachedOk(t: Trace, u: Trace)
    requires Reached(t, u)
    ensures Ok(u)
  {
  }

  /** A value and the chunk that takes it. */
  lemma BetweenValue(strict: nat, t: Trace, e: Expr, valueOnly: bool, x: Chunk, u: Trace)
    requires Ok(t) && !x.FOREACH? && !x.JMP?
    requires MomentE(strict, t, e, u) || u == NoRefIf(GenE(strict, t, e), valueOnly)
    ensures Between(t, u, Put(strict, NoRefIf(GenE(strict, t, e), valueOnly), x))
  {
    hide Ok, Leads, Between, MomentE, Put, NoRef, GenE, Aligned;
    var t1 := GenE(strict, t, e);
    var t2 := NoRefIf(t1, valueOnly);
    var t' := Put(strict, t2, x);
    ReachE(strict, t, e);
    if valueOnly { ReachNoRef(t1); } else { ReachedSelf(t1); }
    ReachPut(strict, t2, x);
    ReachedThen(t, t1, t2);
    ReachedThen(t1, t2, t');
    if MomentE(strict, t, e, u) {
      BetweenE(strict, t, e, u);
      BetweenAfter(t, u, t1, t');
    } else {
      BetweenIs(t, u, t');
    }
  }

  lemma BetweenSeq(strict: nat, ref: bool, t: Trace, s: Stmt, u: Trace)
    requires Ok(t) && s.SSeq?
    requires MomentS(strict, ref, t, s.first, u) || MomentS(strict, ref, GenS(strict, ref, t, s.first).t, s.second, u)
    ensures Between(t, u, GenS(strict, ref, GenS(strict, ref, t, s.first).t, s.second).t)
    decreases s, 1
  {
    hide Ok, Leads, Between, MomentS, GenS;
    var t1 := GenS(strict, ref, t, s.first).t;
    var t' := GenS(strict, ref, t1, s.second).t;
    ReachS(strict, ref, t, s.first);
    ReachS(strict, ref, t1, s.second);
    if MomentS(strict, ref, t, s.first, u) {
      BetweenS(strict, ref, t, s.first, u);
      BetweenAfter(t, u, t1, t');
    } else {
      BetweenS(strict, ref, t1, s.second, u);
      BetweenBefore(t, t1, u, t');
    }
  }

  /** A statement behind a waiting jump. */
  lemma BetweenOver(strict: nat, ref: bool, t: Trace, g: nat, s: Stmt, e: Stmt, u: Trace)
    requires Ok(t) && Waits(t, g) && e < s
    ensures var t1 := GenS(strict, ref, t, e).t;
            Reached(t, RedirectHere(t1, g)) && (MomentS(strict, ref, t, e, u) ==> Between(t, u, RedirectHere(t1, g)))
            && Waits(t1, g)
    decreases s, 0
  {
    hide Ok, Leads, Between, MomentS, GenS, CodeS, RedirectHere, ControlsOf;
    var t1 := GenS(strict, ref, t, e).t;
    OkSound(t);
    SoundPlaced(t);
    GenSWrites(strict, ref, t, e);
    JumpKept(t, t1, CodeS(strict, e, ref, Pending), 0, g);
    ReachS(strict, ref, t, e);
    ReachRedirectHere(t1, g);
    ReachedThen(t, t1, RedirectHere(t1, g));
    if MomentS(strict, ref, t, e, u) {
      BetweenS(strict, ref, t, e, u);
      BetweenAfter(t, u, t1, RedirectHere(t1, g));
    }
  }

  lemma BetweenIf(strict: nat, ref: bool, t: Trace, s: Stmt, u: Trace)
    requires Ok(t) && s.SIf?
    requires MomentCond(strict, t, s.cond, u)
             || MomentS(strict, ref, Put(strict, NoRef(GenE(strict, t, s.cond)), JMP(Cond, 0)), s.thn, u)
    ensures var t0 := NoRef(GenE(strict, t, s.cond));
            Between(t, u, RedirectHere(GenS(strict, ref, Put(strict, t0, JMP(Cond, 0)), s.thn).t, |t0.plain|))
    decreases s, 1
  {
    hide Ok, Leads, Between, MomentS, MomentCond, GenS, RedirectHere, Put, NoRef, GenE;
    var t0 := NoRef(GenE(strict, t, s.cond));
    var t1 := Put(strict, t0, JMP(Cond, 0));
    var t' := RedirectHere(GenS(strict, ref, t1, s.thn).t, |t0.plain|);
    BetweenCond(strict, t, s.cond);
    BetweenOver(strict, ref, t1, |t0.plain|, s, s.thn, u);
    if MomentCond(strict, t, s.cond, u) {
      BetweenAfter(t, u, t1, t');
    } else {
      BetweenBefore(t, t1, u, t');
    }
  }

  lemma BetweenElse(strict: nat, ref: bool, t: Trace, s: Stmt, u: Trace)
    requires Ok(t) && s.SIfElse?
    requires var t0 := NoRef(GenE(strict, t, s.cond));
             var t1 := Put(strict, t0, JMP(Cond, 0));
             var t2 := Put(strict, GenS(strict, ref, t1, s.thn).t, JMP(Always, 0));
             MomentCond(strict, t, s.cond, u) || MomentS(strict, ref, t1, s.thn, u) || u == t2
             || MomentS(strict, ref, RedirectHere(t2, |t0.plain|), s.els, u)
    ensures var t0 := NoRef(GenE(strict, t, s.cond));
            var w1 := GenS(strict, ref, Put(strict, t0, JMP(Cond, 0)), s.thn);
            var t3 := RedirectHere(Put(strict, w1.t, JMP(Always, 0)), |t0.plain|);
            Between(t, u, RedirectHere(GenS(strict, ref, t3, s.els).t, |w1.t.plain|))
    decreases s, 1
  {
    hide Ok, Leads, Between, MomentS, MomentCond, GenS, RedirectHere, Put, NoRef, GenE;
    var t0 := NoRef(GenE(strict, t, s.cond));
    var t1 := Put(strict, t0, JMP(Cond, 0));
    BetweenCond(strict, t, s.cond);
    BetweenOver(strict, ref, t1, |t0.plain|, s, s.thn, u);
    var w := GenS(strict, ref, t1, s.thn).t;
    ReachS(strict, ref, t1, s.thn);
    var t2 := Put(strict, w, JMP(Always, 0));
    ReachPut(strict, w, JMP(Always, 0));
    ReachRedirectHere(t2, |t0.plain|);
    var t3 := RedirectHere(t2, |t0.plain|);
    BetweenOver(strict, ref, t3, |w.plain|, s, s.els, u);
    var t' := RedirectHere(GenS(strict, ref, t3, s.els).t, |w.plain|);
    ReachedThen(t2, t3, t');
    ReachedThen(w, t2, t');
    ReachedThen(t1, w, t');
    ReachedThen(t, t1, w);
    ReachedThen(t, w, t2);
    ReachedThen(t, t2, t3);
    if MomentCond(strict, t, s.cond, u) {
      BetweenAfter(t, u, t1, t');
    } else if MomentS(strict, ref, t1, s.thn, u) {
      BetweenS(strict, ref, t1, s.thn, u);
      BetweenAfter(t1, u, w, t');
      BetweenBefore(t, t1, u, t');
    } else if u == t2 {
      BetweenIs(t, t2, t');
    } else {
      BetweenBefore(t, t3, u, t');
    }
  }

  lemma BetweenWhile(strict: nat, ref: bool, t: Trace, s: Stmt, u: Trace)
    requires Ok(t) && s.SWhile?
    requires var t0 := NoRef(GenE(strict, Here(t), s.cond));
             var t1 := Put(strict, t0, JMP(Cond, 0));
             MomentCond(strict, Here(t), s.cond, u) || MomentS(strict, ref, t1, s.body, u)
             || MomentEnd(GenS(strict, ref, t1, s.body), |t.plain|, [|t0.plain|], u)
    ensures var t0 := NoRef(GenE(strict, Here(t), s.cond));
            Between(t, u, EndLoop(GenS(strict, ref, Put(strict, t0, JMP(Cond, 0)), s.body), |t.plain|, [|t0.plain|]))
    decreases s, 1
  {
    hide Ok, Leads, Between, MomentS, MomentCond, MomentEnd, GenS, EndLoop, Put, NoRef, GenE, Here, Landing, CodeE;
    ReachHere(t);
    var t0 := NoRef(GenE(strict, Here(t), s.cond));
    var t1 := Put(strict, t0, JMP(Cond, 0));
    BetweenCond(strict, Here(t), s.cond);
    OkSound(Here(t));
    CondSafe(strict, Here(t), s.cond);
    LandingKept(Here(t), t1, CodeE(strict, s.cond, true) + [JMP(Cond, 0)], 0, |t.plain|);
    BetweenBody(strict, ref, t1, |t.plain|, [|t0.plain|], s, s.body, u);
    var t' := EndLoop(GenS(strict, ref, t1, s.body), |t.plain|, [|t0.plain|]);
    ReachedThen(t, Here(t), t1);
    if MomentCond(strict, Here(t), s.cond, u) {
      BetweenAfter(Here(t), u, t1, t');
      BetweenBefore(t, Here(t), u, t');
    } else {
      BetweenBefore(t, t1, u, t');
    }
  }

  lemma BetweenEach(strict: nat, ref: bool, t: Trace, s: Stmt, u: Trace)
    requires Ok(t) && s.SForEach?
    requires var t1 := Put(strict, GenE(strict, t, s.e), INT(0));
             var t2 := Put(strict, Put(strict, t1, FOREACH(s.v)), JMP(Always, 0));
             var w := GenS(strict, ref, t2, s.body);
             MomentE(strict, t, s.e, u) || u == t1 || MomentS(strict, ref, t2, s.body, u)
             || MomentEnd(w, |t1.plain|, [|t1.plain| + 1], u) || u == EndLoop(w, |t1.plain|, [|t1.plain| + 1])
    ensures var t1 := Put(strict, GenE(strict, t, s.e), INT(0));
            var t2 := Put(strict, Put(strict, t1, FOREACH(s.v)), JMP(Always, 0));
            Between(t, u, Put(strict, EndLoop(GenS(strict, ref, t2, s.body), |t1.plain|, [|t1.plain| + 1]), STACK(-2)))
    decreases s, 1
  {
    hide Ok, Leads, Between, MomentS, MomentE, MomentEnd, GenS, EndLoop, Put, NoRef, GenE, Landing, Aligned, Flat;
    var t0 := GenE(strict, t, s.e);
    var t1 := Put(strict, t0, INT(0));
    var t2 := Put(strict, Put(strict, t1, FOREACH(s.v)), JMP(Always, 0));
    ReachE(strict, t, s.e);
    ReachPut(strict, t0, INT(0));
    ReachEach(strict, t1, s.v);
    OkSound(t);
    EachHeadSafe(strict, t, s.e, s.v);
    BetweenBody(strict, ref, t2, |t1.plain|, [|t1.plain| + 1], s, s.body, u);
    var t3 := EndLoop(GenS(strict, ref, t2, s.body), |t1.plain|, [|t1.plain| + 1]);
    ReachPut(strict, t3, STACK(-2));
    var t' := Put(strict, t3, STACK(-2));
    ReachedThen(t2, t3, t');
    ReachedThen(t1, t2, t');
    ReachedThen(t0, t1, t');
    ReachedThen(t, t0, t1);
    ReachedThen(t, t1, t2);
    ReachedThen(t, t2, t3);
    if MomentE(strict, t, s.e, u) {
      BetweenE(strict, t, s.e, u);
      BetweenAfter(t, u, t0, t');
    } else if u == t1 {
      BetweenIs(t, t1, t');
    } else if u == t3 {
      BetweenIs(t, t3, t');
    } else {
      BetweenAfter(t2, u, t3, t');
      BetweenBefore(t, t2, u, t');
    }
  }

  /** The chunk that takes the next element, with the jump behind it. */
  lemma ReachEach(strict: nat, t: Trace, v: nat)
    requires Ok(t)
    ensures Reached(t, Put(strict, Put(strict, t, FOREACH(v)), JMP(Always, 0)))
    ensures Waits(Put(strict, Put(strict, t, FOREACH(v)), JMP(Always, 0)), |t.plain| + 1)
  {
    hide Sound, ForEachJumps, Joined, OpenRun, Total, AllAlike;
    var t1 := Put(strict, t, FOREACH(v));
    var t2 := Put(strict, t1, JMP(Always, 0));
    PutSound(strict, t, FOREACH(v));
    PutSound(strict, t1, JMP(Always, 0));
    SoundPlaced(t);
    SoundPlaced(t1);
    PutPlaced(strict, t, FOREACH(v));
    PutPlaced(strict, t1, JMP(Always, 0));
    assert t2.plain == t.plain + [FOREACH(v), JMP(Always, 0)];
    AlikeSelf(t.plain, [FOREACH(v), JMP(Always, 0)]);
    JumpsJoin(t.plain, [FOREACH(v), JMP(Always, 0)]) by { EachIsJump(v); }
    TotalAdd(t.plain, [FOREACH(v)]);
    TotalAdd(t1.plain, [JMP(Always, 0)]);
    TotalOne(FOREACH(v));
    TotalOne(JMP(Always, 0));
  }

  lemma EachIsJump(v: nat)
    ensures ForEachJumps([FOREACH(v), JMP(Always, 0)])
  {
  }

  lemma BetweenTest(strict: nat, t: Trace, c: OptExpr, u: Trace)
    requires Ok(t)
    ensures Reached(t, GenTest(strict, t, c))
    ensures MomentTest(strict, t, c, u) ==> Between(t, u, GenTest(strict, t, c))
  {
    hide Ok, Leads, Between, MomentCond, Put, NoRef, GenE, Here, Landing;
    var t' := GenTest(strict, t, c);
    ReachedSelf(t);
    if c.Some? {
      ReachHere(t);
      BetweenCond(strict, Here(t), c.e);
      ReachedThen(t, Here(t), t');
      if MomentCond(strict, Here(t), c.e, u) { BetweenBefore(t, Here(t), u, t'); }
    }
    if u == t { BetweenEnds(t, t'); }
  }

  lemma BetweenInc(strict: nat, t: Trace, inc: OptExpr, cond: bool, start: nat, u: Trace)
    requires Ok(t) && (cond ==> start < |t.plain| && Landing(t.plain, t.marks, start))
    ensures Reached(t, GenInc(strict, t, inc, cond, start))
    ensures MomentInc(strict, t, inc, cond, start, u) ==> Between(t, u, GenInc(strict, t, inc, cond, start))
  {
    hide Ok, Leads, Between, MomentE, Put, NoRef, GenE, Here, Landing, CodeE, Safe;
    var t' := GenInc(strict, t, inc, cond, start);
    ReachedSelf(t);
    if inc.Some? {
      var t1 := Put(strict, t, JMP(Always, 0));
      ReachPut(strict, t, JMP(Always, 0));
      ReachHere(t1);
      var t2 := Here(t1);
      var t4 := Put(strict, NoRef(GenE(strict, t2, inc.e)), STACK(-1));
      ReachedThen(t, t1, t2);
      StepReached(strict, t2, inc.e, u);
      ReachedThen(t, t2, t4);
      OkSound(t);
      var t5 := StepSafe(strict, t, inc.e);
      if cond {
        LandingKept(t, t4, [JMP(Always, 0)] + (CodeE(strict, inc.e, true) + [STACK(-1)]), 0, start);
        ReachBack(t4, start);
      } else {
        ReachedSelf(t4);
      }
      ReachedThen(t, t4, t');
      ReachedThen(t2, t4, t');
      ReachedThen(t1, t2, t');
      if u == t1 {
        BetweenIs(t, t1, t');
      } else if Between(t2, u, t4) {
        BetweenAfter(t2, u, t4, t');
        BetweenBefore(t, t2, u, t');
      }
    }
    if u == t || u == t' { BetweenEnds(t, t'); }
  }

  lemma StepReached(strict: nat, t: Trace, e: Expr, u: Trace)
    requires Ok(t)
    ensures var t1 := NoRef(GenE(strict, t, e));
            var t' := Put(strict, t1, STACK(-1));
            Reached(t, t') && (MomentE(strict, t, e, u) || u == t1 || u == t' ==> Between(t, u, t'))
  {
    hide Ok, Leads, Between, MomentE, Put, NoRef, GenE;
    var t1 := NoRef(GenE(strict, t, e));
    var t' := Put(strict, t1, STACK(-1));
    ReachValue(strict, t, e, true);
    ReachPut(strict, t1, STACK(-1));
    ReachedThen(t, t1, t');
    if u == t' { BetweenEnds(t, t'); }
    if MomentE(strict, t, e, u) || u == t1 { BetweenValue(strict, t, e, true, STACK(-1), u); }
  }

  lemma BetweenFor(strict: nat, ref: bool, t: Trace, s: Stmt, u: Trace)
    requires Ok(t) && s.SFor?
    requires var t0 := GenS(strict, ref, t, s.start).t;
             var t1 := GenTest(strict, t0, s.test);
             var t2 := GenInc(strict, t1, s.inc, s.test.Some?, |t0.plain|);
             var t3 := if s.inc.Some? then RedirectHere(Here(t2), |t1.plain|) else Here(t2);
             var back := if s.inc.Some? then |t1.plain| + 1 else if s.test.Some? then |t0.plain| else |t2.plain|;
             MomentS(strict, ref, t, s.start, u) || MomentTest(strict, t0, s.test, u)
             || MomentInc(strict, t1, s.inc, s.test.Some?, |t0.plain|, u) || MomentS(strict, ref, t3, s.body, u)
             || MomentEnd(GenS(strict, ref, t3, s.body), back, if s.test.Some? then [|t1.plain| - 1] else [], u)
    ensures var t0 := GenS(strict, ref, t, s.start).t;
            var t1 := GenTest(strict, t0, s.test);
            var t2 := GenInc(strict, t1, s.inc, s.test.Some?, |t0.plain|);
            var t3 := if s.inc.Some? then RedirectHere(Here(t2), |t1.plain|) else Here(t2);
            var back := if s.inc.Some? then |t1.plain| + 1 else if s.test.Some? then |t0.plain| else |t2.plain|;
            Between(t, u, EndLoop(GenS(strict, ref, t3, s.body), back, if s.test.Some? then [|t1.plain| - 1] else []))
    decreases s, 1
  {
    hide Ok, Leads, Between, MomentS, MomentTest, MomentInc, MomentEnd, GenS, GenTest, GenInc, EndLoop, Here,
         RedirectHere, Landing;
    var t0 := GenS(strict, ref, t, s.start).t;
    var t1 := GenTest(strict, t0, s.test);
    var t2 := GenInc(strict, t1, s.inc, s.test.Some?, |t0.plain|);
    ReachS(strict, ref, t, s.start);
    BetweenTest(strict, t0, s.test, u);
    OkSound(t0);
    TestSafe(strict, t0, s.test);
    BetweenInc(strict, t1, s.inc, s.test.Some?, |t0.plain|, u);
    var t3, back, exits := ForHead(strict, t0, s.test, s.inc);
    BetweenBody(strict, ref, t3, back, exits, s, s.body, u);
    var t' := EndLoop(GenS(strict, ref, t3, s.body), back, exits);
    ReachedThen(t2, t3, t');
    ReachedThen(t1, t2, t');
    ReachedThen(t0, t1, t');
    ReachedThen(t, t0, t1);
    ReachedThen(t, t1, t2);
    ReachedThen(t, t2, t3);
    if MomentS(strict, ref, t, s.start, u) {
      BetweenS(strict, ref, t, s.start, u);
      BetweenAfter(t, u, t0, t');
    } else if MomentTest(strict, t0, s.test, u) {
      BetweenAfter(t0, u, t1, t');
      BetweenBefore(t, t0, u, t');
    } else if MomentInc(strict, t1, s.inc, s.test.Some?, |t0.plain|, u) {
      BetweenAfter(t1, u, t2, t');
      BetweenBefore(t, t1, u, t');
    } else {
      BetweenBefore(t, t3, u, t');
    }
  }

  /** The body of a `for` loop begins. */
  lemma ForHead(strict: nat, t0: Trace, c: OptExpr, inc: OptExpr) returns (t3: Trace, back: nat, exits: seq<nat>)
    requires Ok(t0)
    ensures var t1 := GenTest(strict, t0, c);
            var t2 := GenInc(strict, t1, inc, c.Some?, |t0.plain|);
            t3 == (if inc.Some? then RedirectHere(Here(t2), |t1.plain|) else Here(t2))
            && back == (if inc.Some? then |t1.plain| + 1 else if c.Some? then |t0.plain| else |t2.plain|)
            && (c.Some? ==> |t1.plain| > 0) && exits == (if c.Some? then [|t1.plain| - 1] else [])
            && Reached(t2, t3) && Landing(t3.plain, t3.marks, back)
            && (|exits| > 0 ==> Waits(t3, exits[0]))
  {
    hide Ok, Leads, GenTest, GenInc, Here, RedirectHere, Landing, Safe;
    var t1 := GenTest(strict, t0, c);
    var t2 := GenInc(strict, t1, inc, c.Some?, |t0.plain|);
    t3 := if inc.Some? then RedirectHere(Here(t2), |t1.plain|) else Here(t2);
    OkSound(t0);
    back, exits := ForHeadSafe(strict, t0, c, inc);
    TestSafe(strict, t0, c);
    var none := EMPTY;
    BetweenTest(strict, t0, c, none);
    BetweenInc(strict, t1, inc, c.Some?, |t0.plain|, none);
    ReachHere(t2);
    if inc.Some? {
      IncJump(strict, t1, inc.e, c.Some?, |t0.plain|);
      ReachRedirectHere(Here(t2), |t1.plain|);
      ReachedThen(t2, Here(t2), t3);
    }
  }

  /** The jump over the increment. */
  lemma IncJump(strict: nat, t: Trace, e: Expr, cond: bool, start: nat)
    requires Ok(t)
    ensures var t2 := GenInc(strict, t, Some(e), cond, start);
            Waits(t2, |t.plain|) && Here(t2).plain == t2.plain
  {
    hide Ok, Put, NoRef, GenE, CodeE, Safe, Landing;
    OkSound(t);
    var t2 := StepSafe(strict, t, e);
  }

  // ----- whole functions -----

  lemma EmptyOk()
    ensures Ok(EMPTY)
  {
    EmptySound();
  }

  /** Whatever moment of writing a function the parser stops at with an error: what it has written
      so far can be run. Control stays inside and never comes to the end mark, as the error chunk is
      before it. */
  lemma ErrorStaysInside(env: Env, body: Stmt, u: Trace, m: Mem, k: nat)
    requires MomentS(env.fr.strict, env.fr.returnRef, EMPTY, body, u) && !u.crossed
    ensures var code := LeadOut(u.code) + [ERR, EOFN];
            var o := Steps(env, code, Config(0, [], m), k);
            o.Running? ==> 0 <= o.c.pc < |code| - 1
  {
    hide GenFunction, GenS, Sound, MomentS, Step, ForEachJumps;
    EmptyOk();
    BetweenS(env.fr.strict, env.fr.returnRef, EMPTY, body, u);
    UnfinishedStaysInside(env, u, m, k);
  }

  lemma ReachFunction(strict: nat, ref: bool, body: Stmt)
    ensures Reached(GenS(strict, ref, EMPTY, body).t, GenFunction(strict, ref, body))
  {
    hide Ok, Leads, GenS, Put, NeedsReturn;
    EmptyOk();
    ReachS(strict, ref, EMPTY, body);
    var t := GenS(strict, ref, EMPTY, body).t;
    ReachedOk(EMPTY, t);
    ReachedSelf(t);
    var t1 := Put(strict, t, NIL);
    var t2 := Put(strict, t1, RETURN);
    var t3 := if NeedsReturn(t) then t2 else t;
    ReachPut(strict, t, NIL);
    ReachPut(strict, t1, RETURN);
    ReachedThen(t, t1, t2);
    ReachPut(strict, t3, EOFN);
    ReachedThen(t, t3, GenFunction(strict, ref, body));
  }

  // ----- heights in a function with an error -----

  /** The chunks asked for up to a moment find what they take, and those of their jumps that lead
      somewhere lead to places of the height they jump with. */
  ghost predicate Fine(plain: Code) {
    Fed(plain)
    && forall i: nat :: i < |plain| ==> FineAt(plain, i)
  }

  ghost predicate FineAt(plain: Code, i: nat)
    requires i < |plain|
  {
    && (plain[i].JMP? && plain[i].off != 0 && 0 <= i + plain[i].off <= |plain| ==>
          H(plain, i + plain[i].off) == H(plain, i) + TakenDelta(plain[i].jkind))
    && (plain[i].FOREACH? ==> i + 1 < |plain| ==> plain[i + 1].JMP? ==> plain[i + 1].jkind == Always)
  }

  /** Up to every chunk the heights are those of the code that becomes of it. */
  lemma SameHeights(a: Code, b: Code, i: nat)
    requires AllAlike(a, b) && i <= |a|
    ensures H(a, i) == H(b, i)
  {
    hide Total, Alike;
    SameDeltas(a[..i], b[..i]);
  }

  /** What becomes of the chunks is even, so they are fine already. */
  lemma AlreadyFine(a: Code, b: Code)
    requires AllAlike(a, b) && Even(b, 0, 0, {})
    ensures Fine(a)
  {
    hide H, Delta, Need;
    forall i: nat | i < |a| ensures Need(a[i]) <= H(a, i) && FineAt(a, i) {
      assert Alike(a[i], b[i]);
      SameHeights(a, b, i);
      ChunkFits(b, i);
      if a[i].JMP? && a[i].off != 0 && 0 <= i + a[i].off <= |a| { SameHeights(a, b, i + a[i].off); }
      if a[i].FOREACH? && i + 1 < |a| { assert Alike(a[i + 1], b[i + 1]); }
    }
  }

  /** The code with its open jumps led out, the error chunk and the end mark. */
  function Cut(code: Code): (r: Code)
    ensures |r| == |code| + 2 && r[|code|] == ERR && r[|code| + 1] == EOFN
  {
    LeadOut(code) + [ERR, EOFN]
  }

  lemma CutHeight(code: Code, i: nat)
    requires i <= |code|
    ensures H(Cut(code), i) == H(code, i)
  {
    hide Total;
    LedOutTotal(code[..i], LeadOut(code)[..i]);
    assert Cut(code)[..i] == LeadOut(code)[..i];
  }

  lemma {:induction false} LedOutTotal(a: Code, b: Code)
    requires |a| == |b| && forall i :: 0 <= i < |a| ==>
             b[i] == a[i] || (a[i].JMP? && b[i].JMP? && b[i].jkind == a[i].jkind)
    ensures Total(a) == Total(b)
    decreases |a|
  {
    if |a| > 0 { LedOutTotal(a[1..], b[1..]); }
  }

  /** Where the code ends the height is that of the chunks asked for. */
  lemma EndHeight(t: Trace)
    requires Sound(t) && !t.crossed
    ensures H(t.code, |t.code|) == H(t.plain, |t.plain|)
  {
    hide H, SameChunk, SameRun;
    SameHeight(t.plain, t.marks, t.code, t.pos, |t.plain|);
  }

  lemma CutSuits(t: Trace, q: nat)
    requires Sound(t) && !t.crossed && ForEachJumps(t.plain) && Fine(t.plain) && q < |t.code|
    ensures Suits(Cut(t.code), q)
  {
    hide H, SameChunk, SameRun, Fed, FineAt, Need, Cut;
    CutChunk(t.code, q);
    CutHeight(t.code, q);
    if t.code[q].STACK? {
      JoinedStackFits(t.plain, t.marks, t.code, t.pos, q, 0);
    } else {
      var j := JoinedOther(t.plain, t.marks, t.code, t.pos, q);
      assert Need(t.plain[j]) <= H(t.plain, j) by { FedAt(t.plain, j); }
      CutOther(t, q, j);
    }
  }

  lemma FedAt(code: Code, i: nat)
    requires Fed(code) && i < |code|
    ensures Need(code[i]) <= H(code, i)
  {
  }

  lemma CutChunk(code: Code, q: nat)
    requires q < |code|
    ensures var x, y := code[q], Cut(code)[q];
            y == (if x.JMP? && x.off == 0 then JMP(x.jkind, |code| - q) else x) && Need(y) == Need(x)
  {
  }

  lemma CutOther(t: Trace, q: nat, j: nat)
    requires Sound(t) && !t.crossed && ForEachJumps(t.plain) && Fine(t.plain) && q < |t.code| && j < |t.plain|
    requires !t.plain[j].STACK? && t.pos[j] == q && SameChunk(t.plain, t.marks, t.code, t.pos, j)
    requires H(t.code, q) == H(t.plain, j) && Need(t.code[q]) <= H(t.code, q)
    requires t.plain[j].JMP? ==>
               var k, w := q + t.code[q].off, j + t.plain[j].off;
               0 <= w <= |t.plain| && k == t.pos[w] && 0 <= k <= |t.code| && H(t.code, k) == H(t.plain, w)
    requires t.plain[j].FOREACH? && j + 1 < |t.plain| && t.plain[j + 1].JMP? ==>
               q + 1 < |t.code| && t.code[q + 1].JMP? && t.code[q + 1].jkind == t.plain[j + 1].jkind
    ensures Suits(Cut(t.code), q)
  {
    hide H, SameRun, Fed, Need, Cut, Joined;
    CutChunk(t.code, q);
    CutHeight(t.code, q);
    assert FineAt(t.plain, j);
    if t.code[q].JMP? && t.code[q].off != 0 { CutHeight(t.code, q + t.code[q].off); }
    if t.code[q].FOREACH? { CutChunk(t.code, q + 1); }
  }

  /** The parser has stopped with an error: whatever moment it was, the code that is left takes no more
      values than it has pushed, and its jumps lead to places of the height they jump with, or to the
      error chunk. */
  lemma ErrorLoose(strict: nat, ref: bool, body: Stmt, u: Trace)
    requires MomentS(strict, ref, EMPTY, body, u) && !u.crossed
    ensures Loose(LeadOut(u.code) + [ERR, EOFN])
  {
    hide GenFunction, GenS, MomentS, Joined, H, Need, FinalReturn, AllAlike, Even, Suits, ForEachJumps,
         Fine;
    var t := GenFunction(strict, ref, body);
    EmptyOk();
    BetweenS(strict, ref, EMPTY, body, u);
    ReachFunction(strict, ref, body);
    ReachedThen(u, GenS(strict, ref, EMPTY, body).t, t);
    FunctionWritten(strict, ref, body);
    FunctionEven(strict, body, ref, FinalReturn(strict, ref, body));
    AlreadyFine(u.plain, t.plain);
    forall q: nat | q < |Cut(u.code)| ensures Suits(Cut(u.code), q) {
      if q < |u.code| { CutSuits(u, q); } else { CutEnd(u, q); }
    }
    assert Cut(u.code) == LeadOut(u.code) + [ERR, EOFN];
  }

  /** The error chunk and the end mark take nothing. */
  lemma CutEnd(t: Trace, q: nat)
    requires Sound(t) && !t.crossed && Fine(t.plain) && |t.code| <= q < |t.code| + 2
    ensures Suits(Cut(t.code), q)
  {
    hide H, Cut, Sound;
    CutHeight(t.code, |t.code|);
    EndHeight(t);
    NeverBelow(t.plain, |t.plain|);
    HNext(Cut(t.code), |t.code|);
  }

  /** The number the compiler has counted when it asks for a chunk is the height the stack has
      whenever a run comes to the place of that chunk. */
  lemma HeightAtEveryChunk(env: Env, body: Stmt, u: Trace, m: Mem, k: nat)
    requires !Crosses(env.fr.strict, env.fr.returnRef, body)
    requires MomentS(env.fr.strict, env.fr.returnRef, EMPTY, body, u)
    requires var t := GenFunction(env.fr.strict, env.fr.returnRef, body); Border(t.plain, t.marks, |u.plain|)
    ensures var o := Steps(env, GenFunction(env.fr.strict, env.fr.returnRef, body).code, Config(0, [], m), k);
            o.Running? && o.c.pc == |u.code| ==> |o.c.temps| == u.height
  {
    hide GenFunction, GenS, MomentS, Step, Joined, Border, Delta, Total, Need, ForEachJumps;
    var strict, ref := env.fr.strict, env.fr.returnRef;
    var t := GenFunction(strict, ref, body);
    EmptyOk();
    BetweenS(strict, ref, EMPTY, body, u);
    ReachFunction(strict, ref, body);
    ReachedThen(u, GenS(strict, ref, EMPTY, body).t, t);
    SameDeltas(u.plain, t.plain[..|u.plain|]);
    FunctionWritten(strict, ref, body);
    SameHeight(t.plain, t.marks, t.code, t.pos, |u.plain|);
    HeightsKept(env, body, m, k);
    PlacedEnd(u);
  }

  lemma PlacedEnd(u: Trace)
    requires Ok(u)
    ensures |u.pos| == |u.plain| + 1 && u.pos[|u.plain|] == |u.code|
  {
    hide Joined;
  }
}
