/** Whole programs: functions that call each other. What a call means is told by evaluating the body
    of the function called; no code, no stack of contexts and no engine come into it. */
module Programs {
  import opened Bytecode
  import opened Wrappers
  import opened Machine
  import opened Relocate
  import Source
  import Meaning
  import Emitter
  import Compiled

  // ----- what the world may do -----

  /** The result of a built-in function that runs no scripts. */
  function AtOnce(plan: Plan, m: Mem): OpResult {
    match plan
    case Done(v, writes) => Ok(v, WriteAll(m, writes))
    case Fail(e, writes) => Throw(e, WriteAll(m, writes))
    case Run(_, _, _, _, writes, _) => Throw(TooDeep, WriteAll(m, writes))
  }

  /** The parameters stand on top of the memory, from slot `pars` on. */
  predicate Given(m: Mem, pars: nat) { Tidy(m) && pars <= |m.stack| && AllBelow(m.stack[pars..], pars) }

  /** Built-in functions that run no scripts, keep the memory tidy, return no references to slots of
      the value stack and do the same wherever their parameters stand. */
  ghost predicate FairNative(w: World, f: nat, pars: nat, m: Mem) {
    Given(m, pars) ==>
      var plan := w.native(f, m.stack[pars..], m);
      var r := AtOnce(plan, m);
      && !plan.Run? && |r.m.stack| == |m.stack| && Tidy(r.m) && (r.Ok? ==> Below(r.v, 0))
      && forall mv :: Moves(mv, m) && mv.at <= pars ==>
           var m' := MovedMem(mv, m);
           var plan' := w.native(f, MovedAll(mv, m.stack[pars..]), m');
           !plan'.Run? && AtOnce(plan', m') == MovedResult(mv, r)
  }

  predicate SameConverted(mv: Move, r: Converted, r': Converted) {
    match r
    case Converted(args) => r' == Converted(MovedAll(mv, args))
    case Misfit(e) => r' == Misfit(e)
  }

  /** Conversions keep the memory tidy and do the same wherever the parameters stand. */
  ghost predicate FairConvert(w: World, strict: nat, f: nat, pars: nat, m: Mem) {
    Given(m, pars) ==>
      var r := w.convert(strict, f, m.stack[pars..], m);
      && (r.Converted? ==> AllBelow(r.args, pars))
      && forall mv :: Moves(mv, m) && mv.at <= pars ==>
           SameConverted(mv, r, w.convert(strict, f, MovedAll(mv, m.stack[pars..]), MovedMem(mv, m)))
  }

  ghost predicate FairResolve(w: World, kind: CallKind, f: nat, t: Value, m: Mem) {
    Tidy(m) && Below(t, |m.stack|) ==>
      forall mv :: Moves(mv, m) ==> w.resolve(kind, f, Moved(mv, t), MovedMem(mv, m)) == w.resolve(kind, f, t, m)
  }

  ghost predicate Gentle(w: World) {
    && (forall strict: nat, op, v, m :: FairUn(w.un(strict), op, v, m))
    && (forall strict: nat, op, a, b, m :: FairBin(w.bin(strict), op, a, b, m))
    && (forall f, pars, m :: FairNative(w, f, pars, m))
    && (forall strict, f, pars, m :: FairConvert(w, strict, f, pars, m))
    && (forall kind, f, t, m :: FairResolve(w, kind, f, t, m))
  }

  /** Script functions are called with ten parameters. */
  function Takes(w: World): nat -> Option<nat> {
    (f: nat) => if f < |w.funcs| && w.funcs[f].Script? then Some(MAX_PAR) else None
  }

  /** The function is compiled from this text, in which nothing crosses; it returns no references and
      names no parameters and variables that it does not have. */
  ghost predicate Written(w: World, fn: Func, body: Source.Stmt)
    requires fn.Script?
  {
    && fn.code == Emitter.GenFunction(fn.strict, fn.returnRef, body).code && !fn.returnRef
    && Source.LoopsOnly(body, false) && !Compiled.Crosses(fn.strict, fn.returnRef, body)
    && CodeNames(fn.code, Frame(0, MAX_PAR, false, fn.strict, fn.returnRef), MAX_PAR + fn.vars, Takes(w))
  }

  /** The program consists of the functions whose texts are given. The world may hold others, with
      any code. */
  ghost predicate Program(w: World, bodies: map<nat, Source.Stmt>) {
    forall f :: f in bodies ==> f < |w.funcs| && w.funcs[f].Script? && Written(w, w.funcs[f], bodies[f])
  }

  // ----- what calls mean -----

  function Cut(m: Mem, keep: nat): Mem { if keep <= |m.stack| then Mem(m.stack[..keep], m.heap) else m }

  function CutResult(r: OpResult, keep: nat): OpResult { r.(m := Cut(r.m, keep)) }

  /** The evaluator comes to `o` when it is given the body. */
  ghost predicate Ends(env: Env, body: Source.Stmt, m: Mem, o: Outcome) {
    Meaning.ComesTo(env, Meaning.FoldS(env.fr.strict, body),
        Emitter.FinalReturn(env.fr.strict, env.fr.returnRef, body), m, o)
  }

  /** Operators, and calls up to `n` deep. Where a call goes deeper, does not end or leads out of the
      program, the evaluator gives up. */
  ghost function SemOf(w: World, bodies: map<nat, Source.Stmt>, n: nat, strict: nat, hasObject: bool): Sem
    decreases n, 3
  {
    Sem(w.un(strict), w.bin(strict),
        (f: nat, vs: seq<Value>, m: Mem) => CallOf(w, bodies, n, strict, hasObject, f, vs, m),
        (kind: CallKind, f: nat, t: Value, vs: seq<Value>, m: Mem) => ObjCallOf(w, bodies, n, strict, kind, f, t, vs,
            m))
  }

  ghost function CallOf(w: World, bodies: map<nat, Source.Stmt>, n: nat, strict: nat, hasObject: bool, f: nat,
                        vs: seq<Value>,
                        m: Mem): OpResult
    decreases n, 2
  {
    Invoke(w, bodies, n, strict, hasObject, f, |m.stack|, Mem(m.stack + vs, m.heap), |m.stack|)
  }

  ghost function ObjCallOf(w: World, bodies: map<nat, Source.Stmt>, n: nat, strict: nat, kind: CallKind, f: nat,
                           t: Value,
                           vs: seq<Value>, m: Mem): OpResult
    decreases n, 2
  {
    var full := Mem(m.stack + [t] + vs, m.heap);
    match w.resolve(kind, f, t, full)
    case Found(g, hasObject) => Invoke(w, bodies, n, strict, hasObject, g, |m.stack| + 1, full, |m.stack|)
    case Nobody => Ok(Nil, m)
    case NotFound(e) => Throw(e, m)
  }

  /** Calls function `f` with the parameters on top of the memory. Of the memory the call leaves, the
      first `keep` slots count. */
  ghost function Invoke(w: World, bodies: map<nat, Source.Stmt>, n: nat, strict: nat, hasObject: bool, f: nat,
                        pars: nat, m: Mem,
                        keep: nat): OpResult
    requires pars <= |m.stack|
    decreases n, 1
  {
    if f >= |w.funcs| then Throw(BadTarget, Cut(m, keep))
    else
      match w.convert(strict, f, m.stack[pars..], m)
      case Misfit(e) => Throw(e, Cut(m, keep))
      case Converted(args) =>
        var m1 := WithArgs(m, pars, args);
        match w.funcs[f]
        case Native => CutResult(AtOnce(w.native(f, m1.stack[pars..], m1), m1), keep)
        case Script(vars, _, own, ref) =>
          if n == 0 || f !in bodies then Throw(TooDeep, Cut(m, keep))
          else
            var env := Env(SemOf(w, bodies, n - 1, own, hasObject), Frame(pars, |m.stack|, hasObject, own, ref));
            BodyResult(env, bodies[f], Mem(m1.stack + Nils(vars), m1.heap), keep)
  }

  function WithArgs(m: Mem, pars: nat, args: seq<Value>): (r: Mem)
    requires pars <= |m.stack|
    ensures |r.stack| == |m.stack|
  {
    if |args| == |m.stack| - pars then Mem(m.stack[..pars] + args, m.heap) else m
  }

  ghost function BodyResult(env: Env, body: Source.Stmt, m: Mem, keep: nat): OpResult {
    if exists o :: Ends(env, body, m, o) then
      var o :| Ends(env, body, m, o);
      OfOutcome(o, m, keep)
    else Throw(TooDeep, Cut(m, keep))
  }

  function OfOutcome(o: Outcome, m: Mem, keep: nat): OpResult {
    match o
    case Returned(v, m1) => Ok(v, Cut(m1, keep))
    case Failed(e, m1) => Throw(e, Cut(m1, keep))
    case Running(_) => Throw(TooDeep, Cut(m, keep))
  }

  // ----- calls do the same wherever they are made -----

  lemma CutMoved(mv: Move, m: Mem, keep: nat)
    requires mv.at <= keep <= |m.stack|
    ensures Cut(MovedMem(mv, m), keep + |mv.pad|) == MovedMem(mv, Cut(m, keep))
  {
    MovedCut(mv, m.stack[mv.at..], keep - mv.at);
    assert m.stack[..keep][..mv.at] == m.stack[..mv.at] && m.stack[..keep][mv.at..] == m.stack[mv.at..][..keep - mv.at];
  }

  lemma CutTidy(m: Mem, keep: nat)
    requires Tidy(m) && keep <= |m.stack|
    ensures Tidy(Cut(m, keep)) && |Cut(m, keep).stack| == keep
  {
  }

  /** More values on top. */
  lemma MoreMoved(mv: Move, m: Mem, vs: seq<Value>)
    requires mv.at <= |m.stack|
    ensures MovedMem(mv, Mem(m.stack + vs, m.heap)) == Mem(MovedMem(mv, m).stack + MovedAll(mv, vs), m.heap)
    ensures |MovedMem(mv, m).stack| == |m.stack| + |mv.pad|
  {
    assert (m.stack + vs)[..mv.at] == m.stack[..mv.at] && (m.stack + vs)[mv.at..] == m.stack[mv.at..] + vs;
    MovedParts(mv, m.stack[mv.at..], vs);
  }

  lemma MoreTidy(m: Mem, vs: seq<Value>)
    requires Tidy(m) && AllBelow(vs, |m.stack|)
    ensures Tidy(Mem(m.stack + vs, m.heap))
  {
    hide Flat;
    var s := m.stack + vs;
    forall i | 0 <= i < |s| ensures Below(s[i], i) {
      if i >= |m.stack| { BelowHigher(vs[i - |m.stack|], |m.stack|, i); }
    }
  }

  /** What stands from slot `pars` on. */
  lemma TopMoved(mv: Move, m: Mem, pars: nat)
    requires mv.at <= pars <= |m.stack|
    ensures MovedMem(mv, m).stack[pars + |mv.pad|..] == MovedAll(mv, m.stack[pars..])
    ensures MovedMem(mv, m).stack[..pars + |mv.pad|] == MovedMem(mv, Cut(m, pars)).stack
    ensures |MovedMem(mv, m).stack| == |m.stack| + |mv.pad|
  {
    CutMoved(mv, m, pars);
    MovedCut(mv, m.stack[mv.at..], pars - mv.at);
    assert m.stack[mv.at..][pars - mv.at..] == m.stack[pars..];
  }

  lemma ArgsMoved(mv: Move, m: Mem, pars: nat, args: seq<Value>)
    requires Given(m, pars) && AllBelow(args, pars) && mv.at <= pars
    ensures Given(WithArgs(m, pars, args), pars)
    ensures WithArgs(MovedMem(mv, m), pars + |mv.pad|, MovedAll(mv, args)) == MovedMem(mv, WithArgs(m, pars, args))
  {
    hide Flat;
    TopMoved(mv, m, pars);
    if |args| == |m.stack| - pars {
      CutTidy(m, pars);
      MoreTidy(Cut(m, pars), args);
      MoreMoved(mv, Cut(m, pars), args);
    }
  }

  /** The result `r` of a call that leaves the first `keep` slots, and the same moved. */
  ghost predicate Settled(mv: Move, r: OpResult, r': OpResult, keep: nat) {
    |r.m.stack| == keep && mv.at <= keep && Tidy(r.m) && (r.Ok? ==> Below(r.v, 0)) && r' == MovedResult(mv, r)
  }

  lemma NativeMoved(mv: Move, w: World, f: nat, pars: nat, m: Mem, keep: nat)
    requires Gentle(w) && Given(m, pars) && mv.at <= keep <= pars && Moves(mv, m)
    ensures var m', t := MovedMem(mv, m), |mv.pad|;
            pars + t <= |m'.stack|
            && Settled(mv, CutResult(AtOnce(w.native(f, m.stack[pars..], m), m), keep),
                       CutResult(AtOnce(w.native(f, m'.stack[pars + t..], m'), m'), keep + t), keep)
  {
    hide Tidy, Below, MovedMem, Cut;
    TopMoved(mv, m, pars);
    assert FairNative(w, f, pars, m);
    var r := AtOnce(w.native(f, m.stack[pars..], m), m);
    CutTidy(r.m, keep);
    CutMoved(mv, r.m, keep);
  }

  /** The frame of a function that is called. */
  function Entered(pars: nat, vars: nat, hasObject: bool,
                   strict: nat): Frame { Frame(pars, vars, hasObject, strict, false) }

  lemma NamesInside(code: Code, pars: nat, vars: nat, fr: Frame, takes: nat -> Option<nat>)
    requires CodeNames(code, Frame(0, MAX_PAR, false, fr.strict, fr.returnRef), MAX_PAR + vars, takes)
    requires fr.pars == pars && fr.vars == pars + MAX_PAR
    ensures CodeNames(code, fr, pars + MAX_PAR + vars, takes)
  {
    var fr0 := Frame(0, MAX_PAR, false, fr.strict, fr.returnRef);
    forall i | 0 <= i < |code| ensures ChunkNames(code[i], fr, pars + MAX_PAR + vars, takes) {
      assert ChunkNames(code[i], fr0, MAX_PAR + vars, takes);
    }
  }

  /** The evaluator comes to the same end wherever the frame of the function stands. */
  lemma EndsMoved(mv: Move, w: World, env: Env, fn: Func, body: Source.Stmt, m: Mem, o: Outcome)
    requires fn.Script? && Written(w, fn, body) && FairSem(env.sem, Takes(w)) && Here(mv, env, Config(0, [], m))
    requires env.fr.strict == fn.strict && env.fr.returnRef == fn.returnRef
    requires CodeNames(fn.code, env.fr, |m.stack|, Takes(w)) && Ends(env, body, m, o)
    ensures FairOutcome(o, Config(0, [], m)) && (o.Returned? ==> Flat(o.v))
    ensures Ends(MovedEnv(mv, env), body, MovedMem(mv, m), MovedOutcome(mv, o))
  {
    hide Ends, FairSem, Here, CodeNames, Emitter.GenFunction, Compiled.Crosses, Source.LoopsOnly, Step, MovedMem,
         Meaning.ComesTo,
         Meaning.FoldS, Emitter.FinalReturn, Flat;
    var c := Config(0, [], m);
    HereAt(mv, env, c);
    EndsStops(env, fn.code, fn, w, body, m, o);
    var k: nat :| Bytecode.Steps(env, fn.code, c, k) == o;
    StepsMoved(mv, env, fn.code, c, Takes(w), k);
    ReturnsFlat(mv, env, fn.code, c, Takes(w), k);
    NoTemps(mv, m);
    assert Stops(MovedEnv(mv, env), fn.code, Config(0, [], MovedMem(mv, m)), MovedOutcome(mv, o));
    EndsStops(MovedEnv(mv, env), fn.code, fn, w, body, MovedMem(mv, m), MovedOutcome(mv, o));
  }

  lemma NoTemps(mv: Move, m: Mem)
    requires mv.at <= |m.stack|
    ensures MovedConfig(mv, Config(0, [], m)) == Config(0, [], MovedMem(mv, m))
  {
    assert MovedAll(mv, []) == [];
  }

  /** What the evaluator comes to, the function's code stops with. */
  lemma EndsStops(env: Env, code: Code, fn: Func, w: World, body: Source.Stmt, m: Mem, o: Outcome)
    requires fn.Script? && Written(w, fn, body) && code == fn.code
    requires env.fr.strict == fn.strict && env.fr.returnRef == fn.returnRef
    ensures Stops(env, code, Config(0, [], m), o) <==> Ends(env, body, m, o)
  {
    hide Emitter.GenFunction, Compiled.Crosses, Source.LoopsOnly, Meaning.ComesTo, Meaning.FoldS, Emitter.FinalReturn,
         Stops, CodeNames;
    Compiled.CompiledMeaning(env, body, m, o);
  }

  lemma OneEnd(env: Env, fn: Func, w: World, body: Source.Stmt, m: Mem, o: Outcome, o': Outcome)
    requires fn.Script? && Written(w, fn, body) && Ends(env, body, m, o) && Ends(env, body, m, o')
    requires env.fr.strict == fn.strict && env.fr.returnRef == fn.returnRef
    ensures o == o'
  {
    hide Ends, Written, Step;
    EndsStops(env, fn.code, fn, w, body, m, o);
    EndsStops(env, fn.code, fn, w, body, m, o');
    var k: nat :| Bytecode.Steps(env, fn.code, Config(0, [], m), k) == o;
    OneOutcome(env, fn.code, Config(0, [], m), o', k);
  }

  /** Nothing comes of the moved call but what comes of the call. */
  lemma MovedEnds(mv: Move, w: World, env: Env, fn: Func, body: Source.Stmt, m: Mem, o': Outcome) returns (o: Outcome)
    requires fn.Script? && Written(w, fn, body) && FairSem(env.sem, Takes(w)) && Here(mv, env, Config(0, [], m))
    requires env.fr.strict == fn.strict && env.fr.returnRef == fn.returnRef
    requires CodeNames(fn.code, env.fr, |m.stack|, Takes(w)) && Ends(MovedEnv(mv, env), body, MovedMem(mv, m), o')
    ensures Ends(env, body, m, o)
  {
    hide Ends, FairSem, Here, CodeNames, Written, Step, MovedMem;
    var c := Config(0, [], m);
    HereAt(mv, env, c);
    NoTemps(mv, m);
    EndsStops(MovedEnv(mv, env), fn.code, fn, w, body, MovedMem(mv, m), o');
    var k: nat :| Bytecode.Steps(MovedEnv(mv, env), fn.code, Config(0, [], MovedMem(mv, m)), k) == o';
    StepsMoved(mv, env, fn.code, c, Takes(w), k);
    o := Bytecode.Steps(env, fn.code, c, k);
    assert Stops(env, fn.code, c, o);
    EndsStops(env, fn.code, fn, w, body, m, o);
  }

  lemma HereAt(mv: Move, env: Env, c: Config)
    requires Here(mv, env, c)
    ensures mv.at <= |c.m.stack|
  {
  }

  lemma BodyMoved(mv: Move, w: World, env: Env, fn: Func, body: Source.Stmt, m: Mem, keep: nat)
    requires fn.Script? && Written(w, fn, body) && FairSem(env.sem, Takes(w)) && Here(mv, env, Config(0, [], m))
    requires env.fr.strict == fn.strict && env.fr.returnRef == fn.returnRef
    requires CodeNames(fn.code, env.fr, |m.stack|, Takes(w)) && mv.at <= keep <= |m.stack|
    ensures Settled(mv, BodyResult(env, body, m, keep),
                    BodyResult(MovedEnv(mv, env), body, MovedMem(mv, m), keep + |mv.pad|), keep)
  {
    hide Ends, FairSem, CodeNames, Written, MovedMem, Flat, Tidy, Cut;
    var env', m' := MovedEnv(mv, env), MovedMem(mv, m);
    if exists o :: Ends(env, body, m, o) {
      var o :| Ends(env, body, m, o) && BodyResult(env, body, m, keep) == OfOutcome(o, m, keep);
      EndsMoved(mv, w, env, fn, body, m, o);
      var o' :| Ends(env', body, m', o') && BodyResult(env', body, m', keep + |mv.pad|)
          == OfOutcome(o', m', keep + |mv.pad|);
      OneEnd(env', fn, w, body, m', o', MovedOutcome(mv, o));
      EndsNot(env, body, m, o);
      OutcomeMoved(mv, o, m, keep);
    } else {
      if exists o' :: Ends(env', body, m', o') {
        var o' :| Ends(env', body, m', o');
        var o := MovedEnds(mv, w, env, fn, body, m, o');
      }
      CutTidy(m, keep);
      CutMoved(mv, m, keep);
    }
  }

  lemma EndsNot(env: Env, body: Source.Stmt, m: Mem, o: Outcome)
    requires Ends(env, body, m, o)
    ensures !o.Running?
  {
  }

  lemma OutcomeMoved(mv: Move, o: Outcome, m: Mem, keep: nat)
    requires !o.Running? && FairOutcome(o, Config(0, [], m)) && (o.Returned? ==> Flat(o.v))
             && mv.at <= keep <= |m.stack|
    ensures Settled(mv, OfOutcome(o, m, keep), OfOutcome(MovedOutcome(mv, o), MovedMem(mv, m), keep + |mv.pad|), keep)
  {
    hide Tidy, Flat, MovedMem, Cut;
    CutTidy(o.m, keep);
    CutMoved(mv, o.m, keep);
    if o.Returned? {
      FlatBelow(o.v, 0);
      FlatStays(mv, o.v);
    }
  }

  /** Calls do the same wherever they are made, and leave the memory tidy. */
  lemma InvokeMoved(mv: Move, w: World, bodies: map<nat, Source.Stmt>, n: nat, strict: nat, hasObject: bool, f: nat,
                    pars: nat, m: Mem,
                    keep: nat)
    requires Gentle(w) && Program(w, bodies) && Given(m, pars) && mv.at <= keep <= pars && Moves(mv, m)
    requires f < |w.funcs| && w.funcs[f].Script? ==> |m.stack| == pars + MAX_PAR
    ensures pars + |mv.pad| <= |MovedMem(mv, m).stack|
    ensures Settled(mv, Invoke(w, bodies, n, strict, hasObject, f, pars, m, keep),
                    Invoke(w, bodies, n, strict, hasObject, f, pars + |mv.pad|, MovedMem(mv, m), keep + |mv.pad|), keep)
    decreases n, 1
  {
    hide Tidy, Flat, Below, MovedMem, Cut, Gentle, Program, Moves, BodyResult, Written, SemOf, AtOnce, WithArgs;
    TopMoved(mv, m, pars);
    CutTidy(m, keep);
    CutMoved(mv, m, keep);
    if f < |w.funcs| {
      ConvertMoved(mv, w, strict, f, pars, m);
      var r := w.convert(strict, f, m.stack[pars..], m);
      if r.Converted? {
        ArgsMoved(mv, m, pars, r.args);
        var m1 := WithArgs(m, pars, r.args);
        StillMoves(mv, m, m1);
        if w.funcs[f].Native? {
          NativeMoved(mv, w, f, pars, m1, keep);
        } else if n > 0 && f in bodies {
          ScriptMoved(mv, w, bodies, n, hasObject, f, pars, m1, keep);
        }
      }
    }
  }

  lemma StillMoves(mv: Move, m: Mem, m1: Mem)
    requires Moves(mv, m) && |m1.stack| == |m.stack|
    ensures Moves(mv, m1)
  {
  }

  lemma ConvertMoved(mv: Move, w: World, strict: nat, f: nat, pars: nat, m: Mem)
    requires Gentle(w) && Given(m, pars) && mv.at <= pars && Moves(mv, m)
    ensures var r := w.convert(strict, f, m.stack[pars..], m);
            (r.Converted? ==> AllBelow(r.args, pars))
            && SameConverted(mv, r, w.convert(strict, f, MovedAll(mv, m.stack[pars..]), MovedMem(mv, m)))
  {
    hide MovedMem, Tidy, Below;
    assert FairConvert(w, strict, f, pars, m);
  }

  lemma ScriptMoved(mv: Move, w: World, bodies: map<nat, Source.Stmt>, n: nat, hasObject: bool, f: nat, pars: nat,
                    m: Mem,
                    keep: nat)
    requires Gentle(w) && Program(w, bodies) && Given(m, pars) && mv.at <= keep <= pars && Moves(mv, m)
    requires n > 0 && f in bodies && f < |w.funcs| && w.funcs[f].Script? && |m.stack| == pars + MAX_PAR
    ensures var fn, t, m' := w.funcs[f], |mv.pad|, MovedMem(mv, m);
            var sem := SemOf(w, bodies, n - 1, fn.strict, hasObject);
            |m'.stack| == |m.stack| + t
            && Settled(mv, BodyResult(Env(sem, Frame(pars, |m.stack|, hasObject, fn.strict, fn.returnRef)), bodies[f],
                                      Mem(m.stack + Nils(fn.vars), m.heap), keep),
                       BodyResult(Env(sem, Frame(pars + t, |m'.stack|, hasObject, fn.strict, fn.returnRef)), bodies[f],
                                  Mem(m'.stack + Nils(fn.vars), m'.heap), keep + t), keep)
    decreases n, 0
  {
    hide Tidy, Flat, Below, MovedMem, Cut, Gentle, BodyResult, SemOf, FairSem, CodeNames, Here, Written, Moves, Given;
    var fn := w.funcs[f];
    var sem := SemOf(w, bodies, n - 1, fn.strict, hasObject);
    var env := Env(sem, Frame(pars, |m.stack|, hasObject, fn.strict, fn.returnRef));
    var m2 := Mem(m.stack + Nils(fn.vars), m.heap);
    SemFair(w, bodies, n - 1, fn.strict, hasObject);
    RoomForVars(mv, env, m, pars, fn.vars);
    WrittenFits(w, fn, bodies[f], pars, env.fr);
    BodyMoved(mv, w, env, fn, bodies[f], m2, keep);
  }

  lemma WrittenFits(w: World, fn: Func, body: Source.Stmt, pars: nat, fr: Frame)
    requires fn.Script? && Written(w, fn, body) && fr.strict == fn.strict && fr.returnRef == fn.returnRef
    requires fr.pars == pars && fr.vars == pars + MAX_PAR
    ensures CodeNames(fn.code, fr, pars + MAX_PAR + fn.vars, Takes(w))
  {
    hide CodeNames, Emitter.GenFunction, Compiled.Crosses, Source.LoopsOnly;
    NamesInside(fn.code, pars, fn.vars, fr, Takes(w));
  }

  /** The memory with the function's variables on top. */
  lemma RoomForVars(mv: Move, env: Env, m: Mem, pars: nat, vars: nat)
    requires Given(m, pars) && Moves(mv, m) && mv.at <= pars == env.fr.pars && env.fr.vars == |m.stack|
    ensures var m2, m' := Mem(m.stack + Nils(vars), m.heap), MovedMem(mv, m);
            Here(mv, env, Config(0, [], m2)) && |m'.stack| == |m.stack| + |mv.pad| && mv.at <= |m.stack|
            && MovedMem(mv, m2) == Mem(m'.stack + Nils(vars), m'.heap)
  {
    hide Tidy, Flat, Below;
    NilsBelow(vars, |m.stack|);
    HeapSame(mv, m);
    MoreTidy(m, Nils(vars));
    MoreMoved(mv, m, Nils(vars));
    NilsMoved(mv, vars);
    MovesMore(mv, m, Nils(vars));
  }

  lemma NilsBelow(n: nat, b: nat)
    ensures AllBelow(Nils(n), b)
  {
  }

  lemma NilsMoved(mv: Move, n: nat)
    ensures MovedAll(mv, Nils(n)) == Nils(n)
  {
  }

  lemma MovesMore(mv: Move, m: Mem, vs: seq<Value>)
    requires Moves(mv, m)
    ensures Moves(mv, Mem(m.stack + vs, m.heap))
  {
  }

  /** So calls of programs are fair. */
  lemma SemFair(w: World, bodies: map<nat, Source.Stmt>, n: nat, strict: nat, hasObject: bool)
    requires Gentle(w) && Program(w, bodies)
    ensures FairSem(SemOf(w, bodies, n, strict, hasObject), Takes(w))
    decreases n, 4
  {
    hide CallOf, ObjCallOf, FairCall, FairObjCall, FairUn, FairBin, Program, FairNative, FairConvert, FairResolve;
    var sem := SemOf(w, bodies, n, strict, hasObject);
    forall f, vs, m | Takes(w)(f).Some? ==> |vs| == Takes(w)(f).value ensures FairCall(sem.call, f, vs, m) {
      CallFair(w, bodies, n, strict, hasObject, f, vs, m);
    }
    forall kind, f, t, vs, m | |vs| == MAX_PAR ensures FairObjCall(sem.objCall, kind, f, t, vs, m) {
      ObjCallFair(w, bodies, n, strict, hasObject, kind, f, t, vs, m);
    }
  }

  lemma CallFair(w: World, bodies: map<nat, Source.Stmt>, n: nat, strict: nat, hasObject: bool, f: nat,
                 vs: seq<Value>, m: Mem)
    requires Gentle(w) && Program(w, bodies) && (Takes(w)(f).Some? ==> |vs| == MAX_PAR)
    ensures FairCall(SemOf(w, bodies, n, strict, hasObject).call, f, vs, m)
    decreases n, 3
  {
    hide Tidy, Flat, Below, MovedMem, Gentle, Program, Invoke;
    if Tidy(m) && AllBelow(vs, |m.stack|) {
      var full := Mem(m.stack + vs, m.heap);
      MoreTidy(m, vs);
      SettledFair(m, CallOf(w, bodies, n, strict, hasObject, f, vs, m));
      var none := Move(0, []);
      NoMove(m);
      assert full.stack[|m.stack|..] == vs;
      MovesMore(none, m, vs);
      InvokeMoved(none, w, bodies, n, strict, hasObject, f, |m.stack|, full, |m.stack|);
      forall mv | Moves(mv, m)
        ensures CallOf(w, bodies, n, strict, hasObject, f, MovedAll(mv, vs), MovedMem(mv, m))
                == MovedResult(mv, CallOf(w, bodies, n, strict, hasObject, f, vs, m))
      {
        MovesAt(mv, m);
        MovesMore(mv, m, vs);
        MoreMoved(mv, m, vs);
        HeapSame(mv, m);
        InvokeMoved(mv, w, bodies, n, strict, hasObject, f, |m.stack|, full, |m.stack|);
      }
    }
  }

  lemma NoMove(m: Mem)
    ensures Moves(Move(0, []), m)
  {
  }

  lemma MovesAt(mv: Move, m: Mem)
    requires Moves(mv, m)
    ensures mv.at <= |m.stack|
  {
  }

  lemma HeapSame(mv: Move, m: Mem)
    requires mv.at <= |m.stack|
    ensures MovedMem(mv, m).heap == m.heap
  {
  }

  lemma SettledFair(m: Mem, r: OpResult)
    ensures |r.m.stack| == |m.stack| && Tidy(r.m) && (r.Ok? ==> Below(r.v, 0)) ==> Fair(r, m)
  {
    hide Tidy, Flat;
    if r.Ok? && Below(r.v, 0) { BelowHigher(r.v, 0, |m.stack|); }
  }

  lemma ObjCallFair(w: World, bodies: map<nat, Source.Stmt>, n: nat, strict: nat, hasObject: bool, kind: CallKind,
                    f: nat, t: Value,
                    vs: seq<Value>, m: Mem)
    requires Gentle(w) && Program(w, bodies) && |vs| == MAX_PAR
    ensures FairObjCall(SemOf(w, bodies, n, strict, hasObject).objCall, kind, f, t, vs, m)
    decreases n, 3
  {
    hide Tidy, Flat, Below, MovedMem, Gentle, Program, Invoke;
    if Tidy(m) && Below(t, |m.stack|) && AllBelow(vs, |m.stack|) {
      ObjCallSettled(Move(0, []), w, bodies, n, strict, kind, f, t, vs, m) by { NoMove(m); }
      SettledFair(m, ObjCallOf(w, bodies, n, strict, kind, f, t, vs, m));
      forall mv | Moves(mv, m)
        ensures ObjCallOf(w, bodies, n, strict, kind, f, Moved(mv, t), MovedAll(mv, vs), MovedMem(mv, m))
                == MovedResult(mv, ObjCallOf(w, bodies, n, strict, kind, f, t, vs, m))
      {
        ObjCallSettled(mv, w, bodies, n, strict, kind, f, t, vs, m);
      }
    }
  }

  lemma ObjCallSettled(mv: Move, w: World, bodies: map<nat, Source.Stmt>, n: nat, strict: nat, kind: CallKind, f: nat,
                       t: Value,
                       vs: seq<Value>, m: Mem)
    requires Gentle(w) && Program(w, bodies) && |vs| == MAX_PAR && Moves(mv, m)
    requires Tidy(m) && Below(t, |m.stack|) && AllBelow(vs, |m.stack|)
    ensures Settled(mv, ObjCallOf(w, bodies, n, strict, kind, f, t, vs, m),
                    ObjCallOf(w, bodies, n, strict, kind, f, Moved(mv, t), MovedAll(mv, vs), MovedMem(mv, m)),
                        |m.stack|)
    decreases n, 2
  {
    hide Tidy, Flat, Below, MovedMem, Gentle, Program, Invoke;
    var k := |m.stack|;
    var full := Mem(m.stack + [t] + vs, m.heap);
    MovesAt(mv, m);
    HeapSame(mv, m);
    TargetTidy(mv, m, t, vs);
    ResolveMoved(mv, w, kind, f, t, full);
    match w.resolve(kind, f, t, full)
    case Found(g, hasObject) => InvokeMoved(mv, w, bodies, n, strict, hasObject, g, k + 1, full, k);
    case Nobody => NilBelow();
    case NotFound(e) =>
  }

  lemma NilBelow()
    ensures Below(Nil, 0)
  {
  }

  lemma ResolveMoved(mv: Move, w: World, kind: CallKind, f: nat, t: Value, m: Mem)
    requires Gentle(w) && Tidy(m) && Below(t, |m.stack|) && Moves(mv, m)
    ensures w.resolve(kind, f, Moved(mv, t), MovedMem(mv, m)) == w.resolve(kind, f, t, m)
  {
    assert FairResolve(w, kind, f, t, m);
  }

  /** The target and the parameters of an object call on top of the memory. */
  lemma TargetTidy(mv: Move, m: Mem, t: Value, vs: seq<Value>)
    requires Tidy(m) && Below(t, |m.stack|) && AllBelow(vs, |m.stack|) && Moves(mv, m)
    ensures var full, m' := Mem(m.stack + [t] + vs, m.heap), MovedMem(mv, m);
            Given(full, |m.stack| + 1) && Below(t, |full.stack|) && Moves(mv, full)
                && |m'.stack| == |m.stack| + |mv.pad|
            && MovedMem(mv, full) == Mem(m'.stack + [Moved(mv, t)] + MovedAll(mv, vs), m'.heap)
  {
    hide Tidy, Flat;
    var k := |m.stack|;
    var m1 := Mem(m.stack + [t], m.heap);
    MoreTidy(m, [t]);
    AllHigher(vs, k, k + 1);
    MoreTidy(m1, vs);
    assert (m1.stack + vs)[k + 1..] == vs;
    MoreMoved(mv, m, [t]);
    MoreMoved(mv, m1, vs);
    assert MovedAll(mv, [t]) == [Moved(mv, t)];
    BelowHigher(t, k, |(m1.stack + vs)|);
  }

  lemma AllHigher(vs: seq<Value>, a: nat, b: nat)
    requires AllBelow(vs, a) && a <= b
    ensures AllBelow(vs, b)
  {
    hide Flat;
  }
}
