/** Told from the text: when a join reaches across a jump target, so that the code may mean something
    else than the program. */
module CrossingText {
  import opened Bytecode
  import opened Source
  import opened Compile
  import opened Peephole
  import opened Emitter
  import opened EmitterPlain
  import opened EmitterStmt
  import opened Meaning
  import Compiled
  import FunctionEnd

  // ----- what is known of the end of the code -----

  /** How code ends: by pushing nulls, by popping, or with another chunk. */
  datatype End = Other | Pushed | Popped

  /** The stack chunks asked for since the last jump target or other chunk have the effect `run`, before
      them the code ends as `base` says. `begun`: there are some. */
  datatype Way = Way(base: End, run: Effect, begun: bool, crossed: bool)

  const NOTHING: Effect := Effect(0, 0)
  const START: Way := Way(Other, NOTHING, true, false)

  function EndOf(w: Way): End {
    if w.run.up > 0 then Pushed else if w.run.down > 0 then Popped else w.base
  }

  /** A stack chunk. Where those before it have come to nothing, it is joined to what stands before the
      jump target. */
  function AskStack(w: Way, n: int): Way {
    var crosses := w.begun && w.run == NOTHING && (w.base.Pushed? || (w.base.Popped? && n <= 0));
    Way(w.base, AndThen(w.run, n), true, w.crossed || crosses)
  }

  function AskOther(w: Way): Way { Way(Other, NOTHING, true, w.crossed) }

  /** A jump leads here. */
  function AskMark(w: Way): Way { Way(EndOf(w), NOTHING, false, w.crossed) }

  function Ask(strict: nat, w: Way, x: Chunk): Way {
    var c := Converted(strict, x);
    if c.STACK? then AskStack(w, c.n) else AskOther(w)
  }

  function AskAll(strict: nat, w: Way, xs: Code): Way
    decreases |xs|
  {
    if |xs| == 0 then w else AskAll(strict, Ask(strict, w, xs[0]), xs[1..])
  }

  // ----- expressions and statements -----

  function WayE(strict: nat, w: Way, e: Expr): Way
    decreases e
  {
    match e
    case EConst(c) => Ask(strict, w, RawConst(c))
    case ESlot(_, _) => AskOther(w)
    case EUnary(op, arg) => if op == PrePlus then WayE(strict, w, arg) else AskOther(WayE(strict, w, arg))
    case EBinary(_, l, r) => AskOther(WayE(strict, WayE(strict, w, l), r))
    case ELogic(op, l, r) =>
      var w1 := WayE(strict, w, l);
      if ShortCircuit(op, strict) then AskMark(WayE(strict, AskOther(w1), r)) else AskOther(WayE(strict, w1, r))
    case ENilAssign(l, r) => AskOther(WayE(strict, AskOther(WayE(strict, w, l)), r))
    case ECall(callee, args) =>
      AskAll(strict, WayArgs(strict, AskAll(strict, w, CodeBefore(callee)), args), CodeCall(callee, Count(args)))
    case EMethod(how, target, args) =>
      AskAll(strict, WayArgs(strict, WayE(strict, w, target), args), CodeMethod(how, Count(args)))
  }

  function WayArgs(strict: nat, w: Way, a: Args): Way
    decreases a
  {
    match a
    case NoArgs => w
    case Arg(e, _, rest) => WayArgs(strict, WayE(strict, w, e), rest)
  }

  /** The expression makes a join reach across a jump target inside it. */
  predicate CrossesE(strict: nat, e: Expr) { WayE(strict, START, e).crossed }

  predicate CrossesOpt(strict: nat, e: OptExpr) { e.Some? && CrossesE(strict, e.e) }

  /** One of the expressions of the text does. */
  predicate CrossesS(strict: nat, s: Stmt) {
    match s
    case SEmpty => false
    case SExpr(e, _) => CrossesE(strict, e)
    case SVar(_, e) => CrossesE(strict, e)
    case SSeq(a, b) => CrossesS(strict, a) || CrossesS(strict, b)
    case SIf(c, t) => CrossesE(strict, c) || CrossesS(strict, t)
    case SIfElse(c, t, e) => CrossesE(strict, c) || CrossesS(strict, t) || CrossesS(strict, e)
    case SWhile(c, b) => CrossesE(strict, c) || CrossesS(strict, b)
    case SFor(a, c, i, b) =>
      CrossesS(strict, a) || CrossesOpt(strict, c) || CrossesOpt(strict, i) || CrossesS(strict, b)
    case SForEach(_, e, b) => CrossesE(strict, e) || CrossesS(strict, b)
    case SBreak => false
    case SContinue => false
    case SReturn(e) => CrossesE(strict, e)
    case SReturnNil => false
  }

  // ----- the compiler's end of the code -----

  /** Pops, and then pushed nulls. */
  predicate RunIs(code: Code, f: Effect) {
    var k := if f.up > 0 then |code| - 1 else |code|;
    && k >= 0 && (k > 0 <==> f.down > 0)
    && (forall i :: 0 <= i < k ==> code[i].STACK? && code[i].n < 0)
    && (f.up > 0 ==> code[k] == STACK(f.up))
  }

  predicate EndIs(code: Code, e: End) {
    match e
    case Other => |code| == 0 || !Last(code).STACK?
    case Pushed => |code| > 0 && Last(code).STACK? && Last(code).n > 0
    case Popped => |code| > 0 && Last(code).STACK? && Last(code).n < 0
  }

  /** Chunk `s` is the first behind the last jump target or other chunk. */
  ghost predicate Since(t: Trace, w: Way, s: nat) {
    && s <= |t.plain| && |t.pos| == |t.plain| + 1 && 0 <= t.pos[s] <= |t.code|
    && (forall k :: s <= k < |t.plain| ==> t.plain[k].STACK?)
    && (forall m :: m in t.marks ==> m <= s)
    && (s == 0 || s in t.marks || !t.plain[s - 1].STACK?)
    && RunIs(t.code[t.pos[s]..], w.run) && EndIs(t.code[..t.pos[s]], w.base)
    && (if t.jump then s == |t.plain| && w.run == NOTHING && (w.begun ==> w.base.Other?)
        else w.begun && (s == |t.plain| ==> w.base.Other? && w.run == NOTHING))
  }

  ghost predicate Knows(t: Trace, w: Way) {
    Placed(t) && t.crossed == w.crossed && (t.crossed || exists s: nat :: Since(t, w, s))
  }

  lemma StartSince(t: Trace, w: Way, s: nat)
    requires Since(t, w, s) && s < |t.plain| && Placed(t)
    ensures Start(t.plain, t.marks, |t.plain| - 1) == s
  {
    assert Border(t.plain, t.marks, s);
    StartIs(t.plain, t.marks, s, |t.plain| - 1);
  }

  lemma {:induction false} StartIs(plain: Code, marks: set<nat>, s: nat, i: nat)
    requires s <= i < |plain| && Border(plain, marks, s)
    requires forall k :: s <= k < |plain| ==> plain[k].STACK?
    requires forall m :: m in marks ==> m <= s
    ensures Start(plain, marks, i) == s
    decreases i
  {
    if i > s { StartIs(plain, marks, s, i - 1); }
  }

  /** One stack chunk more in the run. */
  lemma RunMore(run: Code, f: Effect, n: int)
    requires RunIs(run, f) && n != 0
    ensures |run| == 0 || !Joins(run, STACK(n)) ==> RunIs(run + [STACK(n)], AndThen(f, n)) || n < 0
    ensures |run| > 0 && Joins(run, STACK(n)) ==> RunIs(JoinInto(run, n), AndThen(f, n))
    ensures |run| == 0 ==> RunIs([STACK(n)], AndThen(f, n))
    ensures |run| > 0 && n < 0 ==> Joins(run, STACK(n))
  {
  }

  lemma PutStackKnown(strict: nat, t: Trace, w: Way, x: Chunk)
    requires Knows(t, w) && Converted(strict, x).STACK? && Converted(strict, x).n != 0
    ensures Knows(Put(strict, t, x), AskStack(w, Converted(strict, x).n))
  {
    hide Placed, Put, Since;
    PutPlaced(strict, t, x);
    if t.crossed {
      StaysCrossed(strict, t, x);
    } else {
      var s: nat :| Since(t, w, s);
      var p := SincePlace(t, w, s);
      if |t.code[p..]| > 0 { RunGoesOn(strict, t, w, s, x); } else { RunStarts(strict, t, w, s, x); }
    }
  }

  lemma SincePlace(t: Trace, w: Way, s: nat) returns (p: nat)
    requires Since(t, w, s)
    ensures s < |t.pos| && p == t.pos[s] && p <= |t.code|
  {
    p := t.pos[s];
  }

  lemma StaysCrossed(strict: nat, t: Trace, x: Chunk)
    requires t.crossed
    ensures Put(strict, t, x).crossed
  {
  }

  lemma RunGoesOn(strict: nat, t: Trace, w: Way, s: nat, x: Chunk)
    requires Placed(t) && !t.crossed && !w.crossed && Since(t, w, s) && |t.code[t.pos[s]..]| > 0
    requires Converted(strict, x).STACK? && Converted(strict, x).n != 0
    ensures var t', w' := Put(strict, t, x), AskStack(w, Converted(strict, x).n);
            !t'.crossed && !w'.crossed && Since(t', w', s)
  {
    hide RunIs, Placed;
    var c, t' := Converted(strict, x), Put(strict, t, x);
    PlacedMarks(t);
    var p, run := t.pos[s], t.code[t.pos[s]..];
    RunMore(run, w.run, c.n);
    RunEmpty(run, w.run);
    StartSince(t, w, s);
    assert Last(t.code) == Last(run);
    if Joins(t.code, c) {
      assert JoinInto(t.code, c.n)[p..] == JoinInto(run, c.n);
      assert JoinInto(t.code, c.n)[..p] == t.code[..p];
    } else {
      assert (t.code + [c])[p..] == run + [c] && (t.code + [c])[..p] == t.code[..p];
    }
  }

  lemma RunStarts(strict: nat, t: Trace, w: Way, s: nat, x: Chunk)
    requires Placed(t) && !t.crossed && !w.crossed && Since(t, w, s) && |t.code[t.pos[s]..]| == 0
    requires Converted(strict, x).STACK? && Converted(strict, x).n != 0
    ensures var t', w' := Put(strict, t, x), AskStack(w, Converted(strict, x).n);
            t'.crossed == w'.crossed && (t'.crossed || Since(t', w', s))
  {
    hide RunIs, Placed;
    var c, t' := Converted(strict, x), Put(strict, t, x);
    PlacedMarks(t);
    var p := t.pos[s];
    RunMore([], w.run, c.n) by { assert t.code[p..] == []; }
    RunEmpty(t.code[p..], w.run);
    assert t.code[..p] == t.code;
    if s < |t.plain| { StartSince(t, w, s); }
    if t.jump || !Joins(t.code, c) { assert (t.code + [c])[p..] == [c] && (t.code + [c])[..p] == t.code; }
  }

  lemma RunEmpty(run: Code, f: Effect)
    requires RunIs(run, f)
    ensures |run| == 0 <==> f == NOTHING
    ensures |run| > 0 ==> Last(run).STACK? && (if f.up > 0 then Last(run).n > 0 else Last(run).n < 0)
  {
  }

  lemma PlacedMarks(t: Trace)
    requires Placed(t)
    ensures |t.pos| == |t.plain| + 1 && t.pos[|t.plain|] == |t.code| && (t.jump <==> |t.plain| in t.marks)
    ensures forall m :: m in t.marks ==> m <= |t.plain|
  {
  }

  lemma NoRun()
    ensures RunIs([], NOTHING)
  {
  }

  /** A place behind which nothing was asked for. */
  lemma FreshKnown(t: Trace, w: Way)
    requires Placed(t) && t.crossed == w.crossed && w.run == NOTHING && EndIs(t.code, w.base)
    requires if t.jump then w.begun ==> w.base.Other?
             else w.begun && w.base.Other? && |t.plain| > 0 && !Last(t.plain).STACK?
    ensures Knows(t, w)
  {
    hide RunIs, Placed;
    PlacedMarks(t);
    NoRun();
    var s := |t.plain|;
    assert t.code[t.pos[s]..] == [] && t.code[..t.pos[s]] == t.code;
    assert Since(t, w, s);
  }

  lemma PutOtherKnown(strict: nat, t: Trace, w: Way, x: Chunk)
    requires Knows(t, w) && !Converted(strict, x).STACK?
    ensures Knows(Put(strict, t, x), AskOther(w))
  {
    hide RunIs, Placed, Since;
    PutPlaced(strict, t, x);
    FreshKnown(Put(strict, t, x), AskOther(w));
  }

  lemma PutKnown(strict: nat, t: Trace, w: Way, x: Chunk)
    requires Knows(t, w) && (x.STACK? ==> x.n != 0)
    ensures Knows(Put(strict, t, x), Ask(strict, w, x))
  {
    hide Knows, Put;
    if Converted(strict, x).STACK? { PutStackKnown(strict, t, w, x); } else { PutOtherKnown(strict, t, w, x); }
  }

  lemma {:induction false} PutAllKnown(strict: nat, t: Trace, w: Way, xs: Code)
    requires Knows(t, w) && forall x :: x in xs && x.STACK? ==> x.n != 0
    ensures Knows(PutAll(strict, t, xs), AskAll(strict, w, xs))
    decreases |xs|
  {
    hide Knows, Put, Ask;
    if |xs| > 0 {
      PutKnown(strict, t, w, xs[0]);
      PutAllKnown(strict, Put(strict, t, xs[0]), Ask(strict, w, xs[0]), xs[1..]);
    }
  }

  lemma HereKnown(t: Trace, w: Way)
    requires Knows(t, w)
    ensures Knows(Here(t), AskMark(w))
    ensures w == AskOther(w) ==> Knows(Here(t), w)
  {
    hide RunIs, Placed;
    HerePlaced(t);
    if !t.crossed {
      var s: nat :| Since(t, w, s);
      var p := t.pos[s];
      RunEmpty(t.code[p..], w.run);
      if |t.code[p..]| == 0 { assert t.code[..p] == t.code; }
      assert EndIs(t.code, EndOf(w));
      FreshKnown(Here(t), AskMark(w));
      if w == AskOther(w) { FreshKnown(Here(t), w); }
    }
  }

  /** Nothing happens to stack chunks. */
  predicate StacksSame(a: Code, b: Code) {
    |a| == |b| && forall i :: 0 <= i < |a| ==> a[i] == b[i] || (!a[i].STACK? && !b[i].STACK?)
  }

  lemma SameKnown(t: Trace, t': Trace, w: Way)
    requires Knows(t, w) && Placed(t') && StacksSame(t.plain, t'.plain) && StacksSame(t.code, t'.code)
    requires t'.pos == t.pos && t'.marks == t.marks && t'.jump == t.jump && t'.crossed == t.crossed
    ensures Knows(t', w)
  {
    hide Placed, RunIs, EndIs;
    if !t.crossed {
      var s: nat :| Since(t, w, s);
      var a, b := t.code[t.pos[s]..], t'.code[t.pos[s]..];
      assert StacksSame(a, b);
      SameRun(a, b, w.run);
      SameEnd(t.code[..t.pos[s]], t'.code[..t.pos[s]], w.base);
      SamePlain(t, t', w, s);
    }
  }

  lemma SameRun(a: Code, b: Code, f: Effect)
    requires StacksSame(a, b) && RunIs(a, f)
    ensures RunIs(b, f)
  {
  }

  lemma SameEnd(a: Code, b: Code, e: End)
    requires StacksSame(a, b) && EndIs(a, e)
    ensures EndIs(b, e)
  {
  }

  lemma SamePlain(t: Trace, t': Trace, w: Way, s: nat)
    requires Since(t, w, s) && StacksSame(t.plain, t'.plain) && |t.code| == |t'.code|
    requires t'.pos == t.pos && t'.marks == t.marks && t'.jump == t.jump
    requires RunIs(t'.code[t.pos[s]..], w.run) && EndIs(t'.code[..t.pos[s]], w.base)
    ensures Since(t', w, s)
  {
    hide RunIs, EndIs;
  }

  lemma NoRefKnown(t: Trace, w: Way)
    requires Knows(t, w) && Aligned(t)
    ensures Knows(NoRef(t), w)
  {
    hide Knows, Placed;
    assert Placed(t) by { KnowsPlaced(t, w); }
    NoRefPlaced(t);
    NoRefKnown2(t, w);
  }

  lemma NoRefKnown2(t: Trace, w: Way)
    requires Knows(t, w) && Placed(NoRef(t))
    ensures Knows(NoRef(t), w)
  {
    hide Knows, Placed;
    SameKnown(t, NoRef(t), w);
  }

  lemma KnowsPlaced(t: Trace, w: Way)
    requires Knows(t, w)
    ensures Placed(t)
  {
  }

  lemma RedirectKnown(t: Trace, g: nat, k: nat, w: Way)
    requires Knows(t, w)
    ensures Knows(Redirect(t, g, k), w)
  {
    hide Knows, Placed;
    KnowsPlaced(t, w);
    if IsJump(t, g) && k <= |t.plain| {
      RedirectPlaced(t, g, k);
      SameKnown(t, Redirect(t, g, k), w);
    }
  }

  lemma RedirectHereKnown(t: Trace, g: nat, w: Way)
    requires Knows(t, w)
    ensures Knows(RedirectHere(t, g), AskMark(w))
    ensures w == AskOther(w) ==> Knows(RedirectHere(t, g), w)
  {
    hide Knows, Redirect;
    HereKnown(t, w);
    RedirectKnown(Here(t), g, |t.plain|, AskMark(w));
    if w == AskOther(w) { RedirectKnown(Here(t), g, |t.plain|, w); }
  }

  lemma PutBackKnown(t: Trace, k: nat, w: Way)
    requires Knows(t, w) && k <= |t.plain|
    ensures Knows(PutBack(t, k), AskOther(w))
  {
    hide Placed, Since;
    PutBackPlaced(t, k);
    FreshKnown(PutBack(t, k), AskOther(w));
  }

  // ----- expressions are written that way -----

  /** Code that ends with another chunk. */
  lemma OtherEnd(t: Trace, w: Way)
    requires Knows(t, w) && |t.code| > 0 && !Last(t.code).STACK?
    ensures Knows(t, AskOther(w))
  {
    hide Placed;
    if !t.crossed {
      var s: nat :| Since(t, w, s);
      var p := t.pos[s];
      RunEmpty(t.code[p..], w.run);
      LastBehind(t.code, p);
      assert t.code[..p] == t.code;
      assert Since(t, AskOther(w), s);
    }
  }

  lemma LastBehind(code: Code, p: nat)
    requires p <= |code|
    ensures p < |code| ==> Last(code[p..]) == Last(code)
  {
  }

  lemma NegateKnown(t: Trace, w: Way)
    requires Knows(t, w) && EndsInInt(t.code) && Placed(Negate(t))
    ensures Knows(Negate(t), AskOther(w))
  {
    hide Knows, Placed;
    OtherEnd(t, w);
    SameKnown(t, Negate(t), AskOther(w));
  }

  lemma CallNonZero(callee: Callee, how: Method, n: nat)
    ensures forall x :: x in CodeBefore(callee) || x in CodeCall(callee, n) || x in CodeMethod(how, n) ==>
              x.STACK? ==> x.n != 0
  {
  }

  lemma ValueKnown(strict: nat, t: Trace, w: Way, e: Expr, valueOnly: bool)
    requires Placed(t) && Knows(GenE(strict, t, e), w)
    ensures Knows(NoRefIf(GenE(strict, t, e), valueOnly), w)
  {
    hide Knows, Placed, GenE, CodeE, NoRef;
    GenEWrites(strict, t, e);
    if valueOnly { NoRefKnown(GenE(strict, t, e), w); }
  }

  lemma {:induction false} KnownE(strict: nat, t: Trace, w: Way, e: Expr)
    requires Knows(t, w)
    ensures Knows(GenE(strict, t, e), WayE(strict, w, e))
    decreases e, 2
  {
    hide Knows, Put, NoRef, PutAll, GenArgs, RedirectHere, CodeCall, CodeMethod, CodeBefore, Ask, AskOther, AskMark,
         AskAll, Placed, CodeE;
    KnowsPlaced(t, w);
    match e
    case EConst(c) => PutKnown(strict, t, w, RawConst(c));
    case ESlot(kind, i) => PutOtherKnown(strict, t, w, SLOT(kind, i, true));
    case EUnary(_, _) => KnownUnary(strict, t, w, e);
    case EBinary(op, l, r) => KnownPair(strict, t, w, e, l, !Modifies(op), r, BinChunk(op, strict));
    case ELogic(op, l, r) =>
      if ShortCircuit(op, strict) {
        KnownShort(strict, t, w, e, l, r, op);
      } else {
        KnownPair(strict, t, w, e, l, true, r, LogicChunk(op));
      }
    case ENilAssign(l, r) => KnownNilAssign(strict, t, w, e, l, r);
    case ECall(callee, args) =>
      CallNonZero(callee, Unknown, Count(args));
      PutAllKnown(strict, t, w, CodeBefore(callee));
      var t1, w1 := PutAll(strict, t, CodeBefore(callee)), AskAll(strict, w, CodeBefore(callee));
      KnownArgs(strict, t1, w1, args);
      PutAllKnown(strict, GenArgs(strict, t1, args), WayArgs(strict, w1, args), CodeCall(callee, Count(args)));
    case EMethod(how, target, args) =>
      CallNonZero(NewArray, how, Count(args));
      KnownE(strict, t, w, target);
      var t1, w1 := GenE(strict, t, target), WayE(strict, w, target);
      KnownArgs(strict, t1, w1, args);
      PutAllKnown(strict, GenArgs(strict, t1, args), WayArgs(strict, w1, args), CodeMethod(how, Count(args)));
  }

  lemma {:induction false} KnownArgs(strict: nat, t: Trace, w: Way, a: Args)
    requires Knows(t, w)
    ensures Knows(GenArgs(strict, t, a), WayArgs(strict, w, a))
    decreases a
  {
    hide Knows, GenE, WayE, NoRef, Placed;
    match a
    case NoArgs =>
    case Arg(e, keepRef, rest) =>
      KnowsPlaced(t, w);
      KnownE(strict, t, w, e);
      ValueKnown(strict, t, WayE(strict, w, e), e, !keepRef);
      KnownArgs(strict, NoRefIf(GenE(strict, t, e), !keepRef), WayE(strict, w, e), rest);
  }

  lemma KnownUnary(strict: nat, t: Trace, w: Way, e: Expr)
    requires Knows(t, w) && Placed(t) && e.EUnary?
    ensures Knows(GenE(strict, t, e), WayE(strict, w, e))
    decreases e, 1
  {
    hide Knows, Put, NoRef, AskOther, Placed, CodeE, Negate, Aligned;
    var t1, w1 := GenE(strict, t, e.arg), WayE(strict, w, e.arg);
    KnownE(strict, t, w, e.arg);
    if e.uop == PreNeg && EndsInInt(t1.code) {
      assert Placed(GenE(strict, t, e)) by { GenEWrites(strict, t, e); }
      NegateKnown(t1, w1);
    } else if e.uop != PrePlus {
      ValueKnown(strict, t, w1, e.arg, !KeepsRef(e.uop));
      PutOtherKnown(strict, NoRefIf(t1, !KeepsRef(e.uop)), w1, UN(UnaryChunk(e.uop, false)));
    }
  }

  lemma KnownPair(strict: nat, t: Trace, w: Way, e: Expr, l: Expr, lv: bool, r: Expr, op: BinOp)
    requires Knows(t, w) && Placed(t) && l < e && r < e
    ensures Knows(Put(strict, NoRef(GenE(strict, NoRefIf(GenE(strict, t, l), lv), r)), BIN(op)),
                  AskOther(WayE(strict, WayE(strict, w, l), r)))
    decreases e, 1
  {
    hide Knows, Put, NoRef, GenE, WayE, AskOther, Placed;
    var t1, w1 := NoRefIf(GenE(strict, t, l), lv), WayE(strict, w, l);
    KnownE(strict, t, w, l);
    ValueKnown(strict, t, w1, l, lv);
    KnowsPlaced(t1, w1);
    KnownE(strict, t1, w1, r);
    ValueKnown(strict, t1, WayE(strict, w1, r), r, true);
    PutOtherKnown(strict, NoRefIf(GenE(strict, t1, r), true), WayE(strict, w1, r), BIN(op));
  }

  /** A waiting jump and the operand behind it. */
  lemma KnownBehind(strict: nat, t1: Trace, w1: Way, e: Expr, r: Expr, kind: JumpKind)
    requires Knows(t1, w1) && r < e
    ensures var t2 := GenE(strict, Put(strict, t1, JMP(kind, 0)), r);
            Knows(t2, WayE(strict, AskOther(w1), r))
    decreases e, 0
  {
    hide Knows, Put, GenE, WayE, AskOther;
    PutOtherKnown(strict, t1, w1, JMP(kind, 0));
    KnownE(strict, Put(strict, t1, JMP(kind, 0)), AskOther(w1), r);
  }

  lemma KnownShort(strict: nat, t: Trace, w: Way, e: Expr, l: Expr, r: Expr, op: Logic)
    requires Knows(t, w) && Placed(t) && l < e && r < e
    ensures var t1 := NoRef(GenE(strict, t, l));
            Knows(RedirectHere(GenE(strict, Put(strict, t1, JMP(LogicJump(op), 0)), r), |t1.plain|),
                  AskMark(WayE(strict, AskOther(WayE(strict, w, l)), r)))
    decreases e, 1
  {
    hide Knows, Put, NoRef, GenE, WayE, AskOther, AskMark, RedirectHere, Placed;
    var w1 := WayE(strict, w, l);
    var t1 := NoRefIf(GenE(strict, t, l), true);
    KnownE(strict, t, w, l);
    ValueKnown(strict, t, w1, l, true);
    KnownBehind(strict, t1, w1, e, r, LogicJump(op));
    RedirectHereKnown(GenE(strict, Put(strict, t1, JMP(LogicJump(op), 0)), r), |t1.plain|,
        WayE(strict, AskOther(w1), r));
  }

  lemma KnownNilAssign(strict: nat, t: Trace, w: Way, e: Expr, l: Expr, r: Expr)
    requires Knows(t, w) && l < e && r < e
    ensures var t1 := GenE(strict, t, l);
            Knows(RedirectHere(Put(strict, GenE(strict, Put(strict, t1, JMP(IfSet, 0)), r), BIN(Set)), |t1.plain|),
                  AskOther(WayE(strict, AskOther(WayE(strict, w, l)), r)))
    decreases e, 1
  {
    hide Knows, Put, GenE, WayE, RedirectHere, Placed;
    var t1, w1 := GenE(strict, t, l), WayE(strict, w, l);
    KnownE(strict, t, w, l);
    KnownBehind(strict, t1, w1, e, r, IfSet);
    var t2, w2 := GenE(strict, Put(strict, t1, JMP(IfSet, 0)), r), WayE(strict, AskOther(w1), r);
    PutOtherKnown(strict, t2, w2, BIN(Set));
    RedirectHereKnown(Put(strict, t2, BIN(Set)), |t1.plain|, AskOther(w2));
  }

  // ----- what an expression does to the end of the code -----

  /** From `w` to `v` the stack has grown by `n`: by nulls only, or there was another chunk or a jump
      target, on which `n` values and what was popped since can stand. */
  predicate Rises(w: Way, v: Way, n: nat) {
    (v.base == w.base && v.run == AndThen(w.run, n)) || (v.run.up <= n && v.run.up < v.run.down + n)
  }

  lemma RisesThen(w: Way, v: Way, u: Way, a: nat, b: nat)
    requires Rises(w, v, a) && Rises(v, u, b)
    ensures Rises(w, u, a + b)
  {
  }

  lemma RisesStack(w: Way, v: Way, n: nat, k: int)
    requires Rises(w, v, n) && n + k >= 0
    ensures Rises(w, AskStack(v, k), n + k)
  {
  }

  lemma {:induction false} RisesAll(strict: nat, w: Way, v: Way, n: nat, xs: Code)
    requires Rises(w, v, n) && FunctionEnd.Covered(xs, n)
    ensures n + FunctionEnd.Sum(xs) >= 0 && Rises(w, AskAll(strict, v, xs), n + FunctionEnd.Sum(xs))
    decreases |xs|
  {
    hide AskStack, Rises;
    if |xs| > 0 {
      RisesStack(w, v, n, xs[0].n);
      RisesAll(strict, w, AskStack(v, xs[0].n), n + xs[0].n, xs[1..]);
    }
  }

  /** The last chunk of a call that takes what is there. */
  lemma AllLast(strict: nat, w: Way, xs: Code, x: Chunk)
    requires !Converted(strict, x).STACK?
    ensures AskAll(strict, w, xs + [x]) == AskOther(AskAll(strict, w, xs))
    decreases |xs|
  {
    hide AskStack;
    if |xs| > 0 {
      AllLast(strict, Ask(strict, w, xs[0]), xs[1..], x);
      assert (xs + [x])[1..] == xs[1..] + [x];
    } else {
      assert xs + [x] == [x] && [x][1..] == [];
    }
  }

  /** How a call ends: with the chunk that makes it, or, where nobody is called, with a null. */
  predicate Nobody(callee: Callee) { callee.NoInherited? || callee.NoGlobal? }

  lemma CallLast(callee: Callee, n: nat, h: nat) returns (xs: Code, x: Chunk)
    requires !Nobody(callee)
    ensures CodeCall(callee, n) == xs + [x] && !x.STACK? && !x.INT? && !x.BOOL?
    ensures FunctionEnd.Covered(xs, h + n)
  {
    match callee
    case Function(f, pars) =>
      BalanceCovered(n, pars, h);
      xs, x := Balance(n, pars), FUNC(f, pars);
    case Global(f) =>
      BalanceCovered(n, MAX_PAR, h);
      xs, x := Balance(n, MAX_PAR), CALL(CallGlobal, f);
    case NewArray => xs, x := [], ARRAY(n);
  }

  lemma MethodLast(how: Method, n: nat, h: nat) returns (xs: Code, x: Chunk)
    requires how.Named?
    ensures CodeMethod(how, n) == xs + [x] && !x.STACK? && !x.INT? && !x.BOOL?
    ensures FunctionEnd.Covered(xs, h + n)
  {
    BalanceCovered(n, MAX_PAR, h);
    xs, x := Balance(n, MAX_PAR), CALL(MethodKind(how.failSafe), how.mf);
  }

  lemma BalanceCovered(have: nat, want: nat, h: nat)
    ensures FunctionEnd.Covered(Balance(have, want), h + have)
  {
    if have != want {
      var one: Code := [STACK(want - have)];
      assert one[1..] == [] && Balance(have, want) == one;
    }
  }

  /** Where the expression ends with stack chunks, the last one pushes. */
  predicate EndsWell(v: Way) { v.run == NOTHING && v.begun ==> v.base.Other? }

  lemma {:induction false} RiseE(strict: nat, w: Way, e: Expr)
    ensures Rises(w, WayE(strict, w, e), 1) && EndsWell(WayE(strict, w, e))
    decreases e, 1
  {
    hide AskAll, AskStack, AskOther, AskMark, Rises, EndsWell, WayArgs, CodeCall, CodeMethod, CodeBefore;
    OtherRises(w);
    match e
    case EConst(c) => RiseConst(strict, w, c);
    case EUnary(op, arg) => RiseE(strict, w, arg);
    case ECall(callee, args) =>
      var w1 := AskAll(strict, w, CodeBefore(callee));
      RiseArgs(strict, w1, args);
      if Nobody(callee) {
        RiseNobody(strict, w, callee, args);
      } else {
        var xs, x := CallLast(callee, Count(args), 0);
        AllLast(strict, WayArgs(strict, w1, args), xs, x);
      }
    case EMethod(how, target, args) => RiseMethod(strict, w, how, target, args, e);
    case _ =>
  }

  lemma RiseMethod(strict: nat, w: Way, how: Method, target: Expr, args: Args, e: Expr)
    requires target < e && args < e
    ensures var v := AskAll(strict, WayArgs(strict, WayE(strict, w, target), args), CodeMethod(how, Count(args)));
            Rises(w, v, 1) && EndsWell(v)
    decreases e, 0
  {
    hide AskAll, AskOther, Rises, EndsWell, WayE, WayArgs, CodeCall, CodeMethod;
    var n, w1 := Count(args), WayE(strict, w, target);
    RiseArgs(strict, w1, args);
    if how.Unknown? {
      RiseE(strict, w, target);
      RisesThen(w, w1, WayArgs(strict, w1, args), 1, n);
      FunctionEnd.NobodyAbove(n, 0);
      RisesAll(strict, w, WayArgs(strict, w1, args), 1 + n, CodeMethod(how, n));
      NobodyEndsWell(strict, WayArgs(strict, w1, args), NoGlobal, n);
    } else {
      var xs, x := MethodLast(how, n, 0);
      AllLast(strict, WayArgs(strict, w1, args), xs, x);
      OtherRises(w);
    }
  }

  /** Another chunk, or a jump target. */
  lemma OtherRises(w: Way)
    ensures forall x :: Rises(w, AskOther(x), 1) && EndsWell(AskOther(x))
    ensures forall x :: Rises(w, AskMark(x), 1) && EndsWell(AskMark(x))
  {
  }

  lemma RiseConst(strict: nat, w: Way, c: Const)
    ensures var v := Ask(strict, w, RawConst(c)); Rises(w, v, 1) && EndsWell(v)
  {
  }

  lemma {:induction false} RiseArgs(strict: nat, w: Way, a: Args)
    ensures Rises(w, WayArgs(strict, w, a), Count(a))
    decreases a
  {
    hide WayE, Rises;
    match a
    case NoArgs => RisesSelf(w);
    case Arg(e, _, rest) =>
      var v := WayE(strict, w, e);
      RiseE(strict, w, e);
      RiseArgs(strict, v, rest);
      RisesThen(w, v, WayArgs(strict, v, rest), 1, Count(rest));
  }

  lemma RisesSelf(w: Way)
    ensures Rises(w, w, 0)
  {
  }

  /** A call of nobody: its parameters are dropped, and a null is left. */
  lemma RiseNobody(strict: nat, w: Way, callee: Callee, args: Args)
    requires Nobody(callee)
    requires var w1 := AskAll(strict, w, CodeBefore(callee)); Rises(w1, WayArgs(strict, w1, args), Count(args))
    ensures var w1 := AskAll(strict, w, CodeBefore(callee));
            var v := AskAll(strict, WayArgs(strict, w1, args), CodeCall(callee, Count(args)));
            Rises(w, v, 1) && EndsWell(v)
  {
    hide AskAll, AskStack, WayArgs, Rises, CodeCall, FunctionEnd.Covered, FunctionEnd.Sum, EndsWell;
    var n, k := Count(args), if callee.NoGlobal? then 1 else 0;
    var w1 := AskAll(strict, w, CodeBefore(callee));
    var w2 := WayArgs(strict, w1, args);
    RisesSelf(w);
    FunctionEnd.NobodyAbove(n, 0);
    NoneAsked(strict, w);
    if callee.NoGlobal? { RisesAll(strict, w, w, 0, CodeBefore(callee)); }
    RisesThen(w, w1, w2, k, n);
    RisesAll(strict, w, w2, k + n, CodeCall(callee, n));
    NobodyEndsWell(strict, w2, callee, n);
  }

  lemma NoneAsked(strict: nat, w: Way)
    ensures AskAll(strict, w, []) == w && CodeBefore(NoInherited) == []
  {
  }

  lemma NobodyEndsWell(strict: nat, w: Way, callee: Callee, n: nat)
    requires Nobody(callee)
    ensures EndsWell(AskAll(strict, w, CodeCall(callee, n)))
    ensures CodeMethod(Unknown, n) == CodeCall(NoGlobal, n)
  {
    hide AskStack, EndsWell;
    var pre := if callee.NoInherited? then Balance(n, 0) else Balance(n, 0) + [STACK(-1)];
    assert CodeCall(callee, n) == pre + [STACK(1)];
    NullLast(strict, w, pre);
  }

  lemma {:induction false} NullLast(strict: nat, w: Way, xs: Code)
    ensures EndsWell(AskAll(strict, w, xs + [STACK(1)]))
    decreases |xs|
  {
    hide AskStack;
    if |xs| > 0 {
      NullLast(strict, Ask(strict, w, xs[0]), xs[1..]);
      assert (xs + [STACK(1)])[1..] == xs[1..] + [STACK(1)];
    } else {
      assert xs + [STACK(1)] == [STACK(1)] && [STACK(1)][1..] == [];
      OneNull(w);
    }
  }

  lemma OneNull(w: Way)
    ensures EndsWell(AskStack(w, 1))
  {
  }

  // ----- what stands before an expression does not matter -----

  /** `h` nulls have been pushed, onto code that does not end by pushing nulls. */
  predicate LowAt(w: Way, h: nat) { w.run.up == h && (w.run.down > 0 || !w.base.Pushed?) }

  /** The ends are the same, or both have `h` nulls behind all that could be joined. `c`: before the
      second one a join has reached across. */
  predicate Alike(w1: Way, w2: Way, c: bool, h: nat) {
    && w2.crossed == (c || w1.crossed)
    && (w1.(crossed := w2.crossed) == w2 || (LowAt(w1, h) && LowAt(w2, h)))
  }

  lemma AlikeStack(w1: Way, w2: Way, c: bool, h: nat, n: int)
    requires Alike(w1, w2, c, h) && n != 0 && h + n >= 0
    ensures Alike(AskStack(w1, n), AskStack(w2, n), c, h + n)
  {
  }

  lemma AlikeOther(w1: Way, w2: Way, c: bool, h: nat, k: nat)
    requires Alike(w1, w2, c, h)
    ensures Alike(AskOther(w1), AskOther(w2), c, k)
    ensures h > 0 ==> Alike(AskMark(w1), AskMark(w2), c, k)
  {
  }

  lemma {:induction false} AlikeAll(strict: nat, w1: Way, w2: Way, c: bool, h: nat, xs: Code)
    requires Alike(w1, w2, c, h) && FunctionEnd.Covered(xs, h)
    ensures h + FunctionEnd.Sum(xs) >= 0
    ensures Alike(AskAll(strict, w1, xs), AskAll(strict, w2, xs), c, h + FunctionEnd.Sum(xs))
    decreases |xs|
  {
    hide AskStack, Alike;
    if |xs| > 0 {
      AlikeStack(w1, w2, c, h, xs[0].n);
      AlikeAll(strict, AskStack(w1, xs[0].n), AskStack(w2, xs[0].n), c, h + xs[0].n, xs[1..]);
    }
  }

  lemma AlikeLast(strict: nat, w1: Way, w2: Way, c: bool, h: nat, xs: Code, x: Chunk, k: nat)
    requires Alike(w1, w2, c, h) && FunctionEnd.Covered(xs, h) && !Converted(strict, x).STACK?
    ensures Alike(AskAll(strict, w1, xs + [x]), AskAll(strict, w2, xs + [x]), c, k)
  {
    hide AskStack, AskAll, AskOther, Alike;
    AlikeAll(strict, w1, w2, c, h, xs);
    AllLast(strict, w1, xs, x);
    AllLast(strict, w2, xs, x);
    AlikeOther(AskAll(strict, w1, xs), AskAll(strict, w2, xs), c, h + FunctionEnd.Sum(xs), k);
  }

  lemma {:induction false} AlikeE(strict: nat, w1: Way, w2: Way, c: bool, h: nat, e: Expr)
    requires Alike(w1, w2, c, h)
    ensures Alike(WayE(strict, w1, e), WayE(strict, w2, e), c, h + 1)
    decreases e, 1
  {
    hide AskAll, AskStack, AskOther, AskMark, Alike, WayArgs, CodeCall, CodeMethod, CodeBefore;
    AlikeOther(w1, w2, c, h, h + 1);
    match e
    case EConst(k) => if Converted(strict, RawConst(k)).STACK? { AlikeStack(w1, w2, c, h, 1); }
    case ESlot(_, _) =>
    case EUnary(_, arg) =>
      AlikeE(strict, w1, w2, c, h, arg);
      AlikeOther(WayE(strict, w1, arg), WayE(strict, w2, arg), c, h + 1, h + 1);
    case EBinary(_, l, r) => AlikePair(strict, w1, w2, c, h, e, l, r);
    case ELogic(op, l, r) =>
      if ShortCircuit(op, strict) { AlikeJump(strict, w1, w2, c, h, e, l, r); } else {
        AlikePair(strict, w1, w2, c, h, e, l, r);
      }
    case ENilAssign(l, r) => AlikeJump(strict, w1, w2, c, h, e, l, r);
    case ECall(callee, args) => AlikeCall(strict, w1, w2, c, h, callee, args, e);
    case EMethod(how, target, args) => AlikeMethod(strict, w1, w2, c, h, how, target, args, e);
  }

  lemma {:induction false} AlikeArgs(strict: nat, w1: Way, w2: Way, c: bool, h: nat, a: Args)
    requires Alike(w1, w2, c, h)
    ensures Alike(WayArgs(strict, w1, a), WayArgs(strict, w2, a), c, h + Count(a))
    decreases a
  {
    hide Alike, WayE;
    match a
    case NoArgs =>
    case Arg(e, _, rest) =>
      AlikeE(strict, w1, w2, c, h, e);
      AlikeArgs(strict, WayE(strict, w1, e), WayE(strict, w2, e), c, h + 1, rest);
  }

  lemma AlikePair(strict: nat, w1: Way, w2: Way, c: bool, h: nat, e: Expr, l: Expr, r: Expr)
    requires Alike(w1, w2, c, h) && l < e && r < e
    ensures Alike(AskOther(WayE(strict, WayE(strict, w1, l), r)), AskOther(WayE(strict, WayE(strict, w2, l), r)), c,
            h + 1)
    decreases e, 0
  {
    hide Alike, WayE, AskOther;
    var v1, v2 := WayE(strict, w1, l), WayE(strict, w2, l);
    AlikeE(strict, w1, w2, c, h, l);
    AlikeE(strict, v1, v2, c, h + 1, r);
    AlikeOther(WayE(strict, v1, r), WayE(strict, v2, r), c, h + 2, h + 1);
  }

  /** A jump over the second operand. */
  lemma AlikeJump(strict: nat, w1: Way, w2: Way, c: bool, h: nat, e: Expr, l: Expr, r: Expr)
    requires Alike(w1, w2, c, h) && l < e && r < e
    ensures var v1, v2 := WayE(strict, AskOther(WayE(strict, w1, l)), r),
            WayE(strict, AskOther(WayE(strict, w2, l)), r);
            Alike(AskMark(v1), AskMark(v2), c, h + 1) && Alike(AskOther(v1), AskOther(v2), c, h + 1)
    decreases e, 0
  {
    hide Alike, WayE, AskOther, AskMark;
    var v1, v2 := AskOther(WayE(strict, w1, l)), AskOther(WayE(strict, w2, l));
    AlikeE(strict, w1, w2, c, h, l);
    AlikeOther(WayE(strict, w1, l), WayE(strict, w2, l), c, h + 1, h);
    AlikeE(strict, v1, v2, c, h, r);
    AlikeOther(WayE(strict, v1, r), WayE(strict, v2, r), c, h + 1, h + 1);
  }

  lemma AlikeCall(strict: nat, w1: Way, w2: Way, c: bool, h: nat, callee: Callee, args: Args, e: Expr)
    requires Alike(w1, w2, c, h) && args < e
    ensures var v1, v2 := AskAll(strict, w1, CodeBefore(callee)), AskAll(strict, w2, CodeBefore(callee));
            Alike(AskAll(strict, WayArgs(strict, v1, args), CodeCall(callee, Count(args))),
                  AskAll(strict, WayArgs(strict, v2, args), CodeCall(callee, Count(args))), c, h + 1)
    decreases e, 0
  {
    hide AskAll, AskStack, Alike, WayArgs, CodeCall, FunctionEnd.Covered, FunctionEnd.Sum;
    var n, k := Count(args), |CodeBefore(callee)|;
    var v1, v2 := AskAll(strict, w1, CodeBefore(callee)), AskAll(strict, w2, CodeBefore(callee));
    FunctionEnd.NobodyAbove(n, h);
    NoneAsked(strict, w1);
    NoneAsked(strict, w2);
    if k > 0 {
      assert CodeBefore(callee) == CodeBefore(NoGlobal);
      AlikeAll(strict, w1, w2, c, h, CodeBefore(callee));
    }
    AlikeArgs(strict, v1, v2, c, h + k, args);
    if Nobody(callee) {
      AlikeAll(strict, WayArgs(strict, v1, args), WayArgs(strict, v2, args), c, h + k + n, CodeCall(callee, n));
    } else {
      var xs, x := CallLast(callee, n, h + k);
      AlikeLast(strict, WayArgs(strict, v1, args), WayArgs(strict, v2, args), c, h + k + n, xs, x, h + 1);
    }
  }

  lemma AlikeMethod(strict: nat, w1: Way, w2: Way, c: bool, h: nat, how: Method, target: Expr, args: Args, e: Expr)
    requires Alike(w1, w2, c, h) && target < e && args < e
    ensures var n, v1, v2 := Count(args), WayE(strict, w1, target), WayE(strict, w2, target);
            Alike(AskAll(strict, WayArgs(strict, v1, args), CodeMethod(how, n)),
                  AskAll(strict, WayArgs(strict, v2, args), CodeMethod(how, n)), c, h + 1)
    decreases e, 0
  {
    hide AskAll, Alike, WayE, WayArgs, CodeCall, CodeMethod, FunctionEnd.Covered, FunctionEnd.Sum;
    var n, v1, v2 := Count(args), WayE(strict, w1, target), WayE(strict, w2, target);
    AlikeE(strict, w1, w2, c, h, target);
    AlikeArgs(strict, v1, v2, c, h + 1, args);
    if how.Unknown? {
      FunctionEnd.NobodyAbove(n, h);
      AlikeAll(strict, WayArgs(strict, v1, args), WayArgs(strict, v2, args), c, h + 1 + n, CodeMethod(how, n));
    } else {
      var xs, x := MethodLast(how, n, h + 1);
      AlikeLast(strict, WayArgs(strict, v1, args), WayArgs(strict, v2, args), c, h + 1 + n, xs, x, h + 1);
    }
  }

  // ----- statements -----

  /** Between statements the code does not end by pushing nulls. */
  predicate Low(w: Way) { LowAt(w, 0) }

  /** The code ends as `w'` says, which crosses where `w` did or something between them does. */
  ghost predicate Reached(t': Trace, w: Way, w': Way, crosses: bool) {
    Knows(t', w') && Low(w') && (w'.crossed <==> w.crossed || crosses)
  }

  lemma ReachedThen(t: Trace, w0: Way, w1: Way, w2: Way, a: bool, b: bool)
    requires (w1.crossed <==> w0.crossed || a) && Reached(t, w1, w2, b)
    ensures Reached(t, w0, w2, a || b)
  {
  }

  /** An expression of a statement. */
  lemma ExprKnown(strict: nat, t: Trace, w: Way, e: Expr, valueOnly: bool)
    requires Knows(t, w) && Low(w)
    ensures var v := WayE(strict, w, e);
            Knows(NoRefIf(GenE(strict, t, e), valueOnly), v) && Rises(w, v, 1) && EndsWell(v)
            && (v.crossed <==> w.crossed || CrossesE(strict, e))
  {
    hide Knows, Placed, GenE, WayE, NoRef, Rises, EndsWell;
    KnowsPlaced(t, w);
    KnownE(strict, t, w, e);
    ValueKnown(strict, t, WayE(strict, w, e), e, valueOnly);
    RiseE(strict, w, e);
    AlikeE(strict, START, w, w.crossed, 0, e);
  }

  lemma ExprDropped(strict: nat, t: Trace, w: Way, e: Expr, valueOnly: bool)
    requires Knows(t, w) && Low(w)
    ensures Reached(Put(strict, NoRefIf(GenE(strict, t, e), valueOnly), STACK(-1)), w,
                AskStack(WayE(strict, w, e), -1), CrossesE(strict, e))
  {
    hide Knows, GenE, WayE, NoRef, Put;
    ExprKnown(strict, t, w, e, valueOnly);
    PutKnown(strict, NoRefIf(GenE(strict, t, e), valueOnly), WayE(strict, w, e), STACK(-1));
  }

  /** A value and a chunk that takes it. */
  lemma ValueTaken(strict: nat, t: Trace, w: Way, e: Expr, valueOnly: bool, x: Chunk)
    requires Knows(t, w) && Low(w) && !Converted(strict, x).STACK?
    ensures Reached(Put(strict, NoRefIf(GenE(strict, t, e), valueOnly), x), w,
                AskOther(WayE(strict, w, e)), CrossesE(strict, e))
  {
    hide Knows, GenE, WayE, NoRef, Put;
    ExprKnown(strict, t, w, e, valueOnly);
    PutOtherKnown(strict, NoRefIf(GenE(strict, t, e), valueOnly), WayE(strict, w, e), x);
  }

  lemma JumpKnown(strict: nat, t: Trace, w: Way, x: Chunk)
    requires Knows(t, w) && !Converted(strict, x).STACK?
    ensures Reached(Put(strict, t, x), w, AskOther(w), false)
  {
    hide Knows, Put;
    PutOtherKnown(strict, t, w, x);
  }

  lemma MarkKnown(t: Trace, w: Way, g: nat)
    requires Knows(t, w) && Low(w)
    ensures Reached(Here(t), w, AskMark(w), false) && Reached(RedirectHere(t, g), w, AskMark(w), false)
  {
    hide Knows, Here, RedirectHere;
    HereKnown(t, w);
    RedirectHereKnown(t, g, w);
  }

  lemma {:induction false} ResolveKnown(t: Trace, w: Way, cs: seq<Control>, k: nat)
    requires Knows(t, w) && w == AskOther(w)
    ensures Knows(Resolve(t, cs, k), w)
    decreases |cs|
  {
    hide Knows, Redirect, RedirectHere;
    if |cs| > 0 {
      if cs[0].isBreak { RedirectHereKnown(t, cs[0].at, w); } else { RedirectKnown(t, cs[0].at, k, w); }
      ResolveKnown(if cs[0].isBreak then RedirectHere(t, cs[0].at) else Redirect(t, cs[0].at, k), w, cs[1..], k);
    }
  }

  lemma EndLoopKnown(o: Written, w: Way, back: nat, exits: seq<nat>)
    requires Knows(o.t, w) && back <= |o.t.plain|
    ensures Reached(EndLoop(o, back, exits), w, AskOther(w), false)
  {
    hide Knows, Resolve, RedirectHere, PutBack, Placed;
    KnowsPlaced(o.t, w);
    PlacedMarks(o.t);
    PutBackKnown(o.t, back, w);
    var t1 := PutBack(o.t, back);
    if |exits| > 0 { RedirectHereKnown(t1, exits[0], AskOther(w)); }
    ResolveKnown(if |exits| > 0 then RedirectHere(t1, exits[0]) else t1, AskOther(w), o.controls, back);
  }

  /** What a statement asks for grows. */
  lemma Grows(strict: nat, ref: bool, t: Trace, w: Way, s: Stmt)
    requires Knows(t, w)
    ensures |GenS(strict, ref, t, s).t.plain| >= |t.plain|
  {
    hide Knows, GenS, Placed, CodeS, ControlsOf;
    KnowsPlaced(t, w);
    GenSWrites(strict, ref, t, s);
  }

  lemma CondGrows(strict: nat, t: Trace, w: Way, e: Expr, valueOnly: bool, x: Chunk)
    requires Knows(t, w)
    ensures |Put(strict, NoRefIf(GenE(strict, t, e), valueOnly), x).plain| > |t.plain|
  {
    hide Knows, GenE, Placed, CodeE;
    KnowsPlaced(t, w);
    GenEWrites(strict, t, e);
  }

  lemma {:induction false} KnownS(strict: nat, ref: bool, t: Trace, w: Way, s: Stmt) returns (w': Way)
    requires Knows(t, w) && Low(w)
    ensures Reached(GenS(strict, ref, t, s).t, w, w', CrossesS(strict, s))
    decreases s, 2
  {
    hide Knows, GenE, WayE, CrossesE, NoRef, Put, RedirectHere, Here, EndLoop, AskStack, AskMark, AskOther;
    match s
    case SEmpty => w' := w;
    case SExpr(e, valueOnly) =>
      ExprDropped(strict, t, w, e, valueOnly);
      w' := AskStack(WayE(strict, w, e), -1);
    case SVar(v, e) =>
      ValueTaken(strict, t, w, e, true, IVARN(v));
      w' := AskOther(WayE(strict, w, e));
    case SReturn(e) =>
      ValueTaken(strict, t, w, e, !ref, RETURN);
      w' := AskOther(WayE(strict, w, e));
    case SReturnNil =>
      JumpKnown(strict, t, w, NIL);
      JumpKnown(strict, Put(strict, t, NIL), AskOther(w), RETURN);
      w' := AskOther(AskOther(w));
    case SBreak =>
      JumpKnown(strict, t, w, JMP(Always, 0));
      w' := AskOther(w);
    case SContinue =>
      JumpKnown(strict, t, w, JMP(Always, 0));
      w' := AskOther(w);
    case SSeq(a, b) =>
      var w1 := KnownS(strict, ref, t, w, a);
      w' := KnownS(strict, ref, GenS(strict, ref, t, a).t, w1, b);
    case SIf(c, thn) =>
      var t0 := NoRef(GenE(strict, t, c));
      ValueTaken(strict, t, w, c, true, JMP(Cond, 0));
      var w1 := KnownS(strict, ref, Put(strict, t0, JMP(Cond, 0)), AskOther(WayE(strict, w, c)), thn);
      MarkKnown(GenS(strict, ref, Put(strict, t0, JMP(Cond, 0)), thn).t, w1, |t0.plain|);
      w' := AskMark(w1);
    case SIfElse(_, _, _) => w' := KnownElse(strict, ref, t, w, s);
    case SWhile(c, body) =>
      MarkKnown(t, w, 0);
      ValueTaken(strict, Here(t), AskMark(w), c, true, JMP(Cond, 0));
      CondGrows(strict, Here(t), AskMark(w), c, true, JMP(Cond, 0));
      var t0 := NoRef(GenE(strict, Here(t), c));
      HerePlain(t);
      w' := KnownBody(strict, ref, Put(strict, t0, JMP(Cond, 0)), AskOther(WayE(strict, AskMark(w), c)), |t.plain|,
          [|t0.plain|], s, body);
    case SFor(_, _, _, _) => w' := KnownFor(strict, ref, t, w, s);
    case SForEach(_, _, _) => w' := KnownEach(strict, ref, t, w, s);
  }

  lemma HerePlain(t: Trace)
    ensures Here(t).plain == t.plain
  {
  }

  lemma KnownElse(strict: nat, ref: bool, t: Trace, w: Way, s: Stmt) returns (w': Way)
    requires Knows(t, w) && Low(w) && s.SIfElse?
    ensures Reached(GenS(strict, ref, t, s).t, w, w', CrossesS(strict, s))
    decreases s, 0
  {
    hide Knows, GenE, WayE, CrossesE, NoRef, Put, RedirectHere, AskStack, AskMark, AskOther;
    var t0 := NoRef(GenE(strict, t, s.cond));
    ValueTaken(strict, t, w, s.cond, true, JMP(Cond, 0));
    var t1 := Put(strict, t0, JMP(Cond, 0));
    var w1 := KnownS(strict, ref, t1, AskOther(WayE(strict, w, s.cond)), s.thn);
    var t2 := GenS(strict, ref, t1, s.thn).t;
    JumpKnown(strict, t2, w1, JMP(Always, 0));
    MarkKnown(Put(strict, t2, JMP(Always, 0)), AskOther(w1), |t0.plain|);
    var t3 := RedirectHere(Put(strict, t2, JMP(Always, 0)), |t0.plain|);
    var w2 := KnownS(strict, ref, t3, AskMark(AskOther(w1)), s.els);
    MarkKnown(GenS(strict, ref, t3, s.els).t, w2, |t2.plain|);
    w' := AskMark(w2);
  }

  lemma KnownBody(strict: nat, ref: bool, t: Trace, w: Way, back: nat, exits: seq<nat>, s: Stmt, body: Stmt)
      returns (w': Way)
    requires Knows(t, w) && Low(w) && back <= |t.plain| && body < s
    ensures Reached(EndLoop(GenS(strict, ref, t, body), back, exits), w, w', CrossesS(strict, body))
    ensures w' == AskOther(w')
    decreases s, 0
  {
    hide Knows, GenS, EndLoop, CrossesS;
    var w1 := KnownS(strict, ref, t, w, body);
    Grows(strict, ref, t, w, body);
    EndLoopKnown(GenS(strict, ref, t, body), w1, back, exits);
    w' := AskOther(w1);
  }

  lemma KnownTest(strict: nat, t: Trace, w: Way, c: OptExpr) returns (w': Way)
    requires Knows(t, w) && Low(w)
    ensures Reached(GenTest(strict, t, c), w, w', CrossesOpt(strict, c))
    ensures |GenTest(strict, t, c).plain| >= |t.plain| + (if c.Some? then 1 else 0)
  {
    hide Knows, GenE, WayE, CrossesE, NoRef, Put, Here, AskMark, AskOther;
    w' := w;
    if c.Some? {
      MarkKnown(t, w, 0);
      ValueTaken(strict, Here(t), AskMark(w), c.e, true, JMP(Cond, 0));
      CondGrows(strict, Here(t), AskMark(w), c.e, true, JMP(Cond, 0));
      HerePlain(t);
      w' := AskOther(WayE(strict, AskMark(w), c.e));
    }
  }

  lemma KnownInc(strict: nat, t: Trace, w: Way, inc: OptExpr, cond: bool, start: nat) returns (w': Way)
    requires Knows(t, w) && Low(w)
    ensures Reached(GenInc(strict, t, inc, cond, start), w, w', CrossesOpt(strict, inc))
    ensures |GenInc(strict, t, inc, cond, start).plain| >= |t.plain| + (if inc.Some? then 1 else 0)
  {
    hide Knows, GenE, WayE, CrossesE, NoRef, Put, Here, AskMark, AskOther, AskStack, PutBack;
    w' := w;
    if inc.Some? {
      var t0 := Put(strict, t, JMP(Always, 0));
      JumpKnown(strict, t, w, JMP(Always, 0));
      PutGrows(strict, t, w, JMP(Always, 0));
      HerePlain(t0);
      MarkKnown(t0, AskOther(w), 0);
      ExprDropped(strict, Here(t0), AskMark(AskOther(w)), inc.e, true);
      CondGrows(strict, Here(t0), AskMark(AskOther(w)), inc.e, true, STACK(-1));
      var t1 := Put(strict, NoRefIf(GenE(strict, Here(t0), inc.e), true), STACK(-1));
      w' := AskStack(WayE(strict, AskMark(AskOther(w)), inc.e), -1);
      if cond && start < |t1.pos| {
        BackAdds(t1, w', start);
        w' := AskOther(w');
      }
    }
  }

  lemma PutGrows(strict: nat, t: Trace, w: Way, x: Chunk)
    requires Knows(t, w)
    ensures |Put(strict, t, x).plain| == |t.plain| + 1
  {
  }

  lemma BackAdds(t: Trace, w: Way, k: nat)
    requires Knows(t, w) && k < |t.pos|
    ensures Reached(PutBack(t, k), w, AskOther(w), false) && |PutBack(t, k).plain| == |t.plain| + 1
  {
    hide Knows, Placed;
    KnowsPlaced(t, w);
    PlacedMarks(t);
    PutBackKnown(t, k, w);
  }

  lemma KnownFor(strict: nat, ref: bool, t: Trace, w: Way, s: Stmt) returns (w': Way)
    requires Knows(t, w) && Low(w) && s.SFor?
    ensures Reached(GenS(strict, ref, t, s).t, w, w', CrossesS(strict, s))
    decreases s, 1
  {
    hide Knows, Put, RedirectHere, Here, EndLoop, GenTest, GenInc, AskMark, AskOther, CrossesOpt;
    match s
    case SFor(start, c, inc, body) =>
      var w0 := KnownS(strict, ref, t, w, start);
      var t0 := GenS(strict, ref, t, start).t;
      var w1 := KnownTest(strict, t0, w0, c);
      var t1 := GenTest(strict, t0, c);
      var w2 := KnownInc(strict, t1, w1, inc, c.Some?, |t0.plain|);
      var t2 := GenInc(strict, t1, inc, c.Some?, |t0.plain|);
      MarkKnown(t2, w2, 0);
      HerePlain(t2);
      var w3 := AskMark(w2);
      if inc.Some? {
        MarkKnown(Here(t2), w3, |t1.plain|);
        LedHere(Here(t2), |t1.plain|);
        w3 := AskMark(w3);
      }
      var t3 := if inc.Some? then RedirectHere(Here(t2), |t1.plain|) else Here(t2);
      var back := if inc.Some? then |t1.plain| + 1 else if c.Some? then |t0.plain| else |t2.plain|;
      w' := KnownBody(strict, ref, t3, w3, back, if c.Some? then [|t1.plain| - 1] else [], s, body);
  }

  lemma LedHere(t: Trace, g: nat)
    ensures |RedirectHere(t, g).plain| == |t.plain|
  {
  }

  lemma KnownEach(strict: nat, ref: bool, t: Trace, w: Way, s: Stmt) returns (w': Way)
    requires Knows(t, w) && Low(w) && s.SForEach?
    ensures Reached(GenS(strict, ref, t, s).t, w, w', CrossesS(strict, s))
    decreases s, 1
  {
    hide Knows, GenE, WayE, CrossesE, Put, EndLoop, AskOther;
    match s
    case SForEach(v, e, body) =>
      var t0, t1 := GenE(strict, t, e), Put(strict, GenE(strict, t, e), INT(0));
      var w1 := EachKnown(strict, t, w, e);
      JumpKnown(strict, t1, w1, FOREACH(v));
      PutGrows(strict, t1, w1, FOREACH(v));
      var t2 := Put(strict, t1, FOREACH(v));
      JumpKnown(strict, t2, AskOther(w1), JMP(Always, 0));
      PutGrows(strict, t2, AskOther(w1), JMP(Always, 0));
      var w2 := KnownBody(strict, ref, Put(strict, t2, JMP(Always, 0)), AskOther(AskOther(w1)), |t1.plain|,
          [|t1.plain| + 1], s, body);
      DropKnown(strict, EndLoop(GenS(strict, ref, Put(strict, t2, JMP(Always, 0)), body), |t1.plain|,
          [|t1.plain| + 1]), w2);
      w' := AskStack(w2, -2);
  }

  /** The array and the position in it. */
  lemma EachKnown(strict: nat, t: Trace, w: Way, e: Expr) returns (w': Way)
    requires Knows(t, w) && Low(w)
    ensures Knows(Put(strict, GenE(strict, t, e), INT(0)), w') && (w'.crossed <==> w.crossed || CrossesE(strict, e))
  {
    hide Knows, GenE, WayE, CrossesE, Put;
    ExprKnown(strict, t, w, e, false);
    PutKnown(strict, GenE(strict, t, e), WayE(strict, w, e), INT(0));
    w' := Ask(strict, WayE(strict, w, e), INT(0));
  }

  lemma DropKnown(strict: nat, t: Trace, w: Way)
    requires Knows(t, w) && w == AskOther(w)
    ensures Reached(Put(strict, t, STACK(-2)), w, AskStack(w, -2), false)
  {
    hide Knows, Put;
    PutKnown(strict, t, w, STACK(-2));
  }

  /** From the text alone: while a function is written, a join reaches across a jump target exactly
      if one of its expressions makes it. */
  lemma CrossesFromText(strict: nat, ref: bool, body: Stmt)
    ensures Compiled.Crosses(strict, ref, body) <==> CrossesS(strict, body)
  {
    hide GenS, Put, CrossesS, Knows;
    EmptyKnown();
    var w := KnownS(strict, ref, EMPTY, START, body);
    Compiled.FunctionWritten(strict, ref, body);
    CrossedKnown(GenS(strict, ref, EMPTY, body).t, w);
  }

  /** From the text alone: what the finished code of a function means. */
  lemma MeaningFromText(env: Env, body: Stmt, m: Mem, o: Outcome)
    requires LoopsOnly(body, false) && !CrossesS(env.fr.strict, body)
    ensures Stops(env, GenFunction(env.fr.strict, env.fr.returnRef, body).code, Config(0, [], m), o)
            <==> ComesTo(env, FoldS(env.fr.strict, body),
                         !FunctionEnd.TailOf(env.fr.strict, body, FunctionEnd.Else).ReturnLast?, m, o)
  {
    hide *;
    CrossesFromText(env.fr.strict, env.fr.returnRef, body);
    FunctionEnd.FinalReturnFromText(env.fr.strict, env.fr.returnRef, body);
    Compiled.CompiledMeaning(env, body, m, o);
  }

  lemma EmptyKnown()
    ensures Knows(EMPTY, START)
  {
    assert Since(EMPTY, START, 0);
  }

  lemma CrossedKnown(t: Trace, w: Way)
    requires Knows(t, w)
    ensures t.crossed == w.crossed
  {
  }
}
