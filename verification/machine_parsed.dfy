/** The engine with what the parser leaves in it. Functions at which it has stopped with an error are
    kept and can be called: they run as far as they were written, and then into an error chunk. */
module MachineParsed {
  import opened Bytecode
  import opened Source
  import opened Emitter
  import opened Compiled
  import opened Heights
  import opened Moments
  import opened Machine
  import opened MachineSafe
  import opened MachineFrames

  /** The code the parser leaves for the text `body`: the finished code, or what was written at the
      moment `u` of an error, its open jumps led to the error chunk. Nothing was joined across a jump
      target. */
  ghost predicate LeftFor(strict: nat, ref: bool, code: Code, body: Stmt, u: Trace) {
    && !u.crossed
    && ((u == GenFunction(strict, ref, body) && code == u.code)
        || (MomentS(strict, ref, EMPTY, body, u) && code == LeadOut(u.code) + [ERR, EOFN]))
  }

  ghost predicate Parsed(fn: Func) {
    fn.Script? ==> exists body: Stmt, u: Trace :: LeftFor(fn.strict, fn.returnRef, fn.code, body, u)
  }

  ghost predicate AllParsed(w: World) { forall f :: 0 <= f < |w.funcs| ==> Parsed(w.funcs[f]) }

  lemma LeftLoose(strict: nat, ref: bool, code: Code, body: Stmt, u: Trace)
    requires LeftFor(strict, ref, code, body, u)
    ensures Loose(code)
  {
    hide GenFunction, MomentS, Loose, LeadOut, Even;
    if u == GenFunction(strict, ref, body) && code == u.code {
      CompiledEven(strict, ref, body);
      EvenLoose(code);
    } else {
      ErrorLoose(strict, ref, body, u);
    }
  }

  /** What the parser leaves is what the engine needs, whatever functions have errors. */
  lemma ParsedWorldOk(w: World)
    requires OpsOk(w) && AllParsed(w)
    ensures WorldOk(w)
  {
    hide OpsOk, LeftFor, Loose;
    forall f | 0 <= f < |w.funcs| && w.funcs[f].Script? ensures Loose(w.funcs[f].code) {
      var fn := w.funcs[f];
      assert Parsed(fn);
      var body: Stmt, u: Trace :| LeftFor(fn.strict, fn.returnRef, fn.code, body, u);
      LeftLoose(fn.strict, fn.returnRef, fn.code, body, u);
    }
  }

  /** So the engine is safe with every set of scripts, those with errors included. */
  lemma ParsedIsSafe(w: World, plan: Plan, heap: map<Addr, Value>, k: nat)
    requires OpsOk(w) && AllParsed(w)
    ensures SafeState(w, VMSteps(w, Start(plan, heap), k))
  {
    hide OpsOk, AllParsed, WorldOk, SafeState, VMSteps;
    ParsedWorldOk(w);
    EngineIsSafe(w, plan, heap, k);
  }

  // ----- a function with an error -----

  /** `if (a) b` and then an error, for parameters `a` and `b`. */
  const BROKEN: Stmt := SIf(ESlot(ParN, 0), SExpr(ESlot(ParN, 1), true))

  const BROKEN_CODE: Code := [SLOT(ParN, 0, false), JMP(Cond, 2), SLOT(ParN, 1, true), ERR, EOFN]

  /** What it leaves is not even: the error chunk is reached with one value and with none. */
  lemma ErrorUneven(strict: nat, ref: bool)
    ensures exists u :: LeftFor(strict, ref, BROKEN_CODE, BROKEN, u)
    ensures !Even(BROKEN_CODE, 0, 0, {}) && Loose(BROKEN_CODE)
  {
    var u := BrokenMoment(strict, ref);
    assert LeftFor(strict, ref, BROKEN_CODE, BROKEN, u);
    LeftLoose(strict, ref, BROKEN_CODE, BROKEN, u);
    hide H, Loose;
    HEnds(BROKEN_CODE);
    HNext(BROKEN_CODE, 0);
    HNext(BROKEN_CODE, 1);
    HNext(BROKEN_CODE, 2);
    assert !Fits(BROKEN_CODE, 0, 0, {}, 1);
  }

  lemma BrokenMoment(strict: nat, ref: bool) returns (u: Trace)
    ensures LeftFor(strict, ref, BROKEN_CODE, BROKEN, u)
  {
    hide GenFunction, Put, NoRef;
    var t1 := Put(strict, EMPTY, SLOT(ParN, 0, true));
    var t2 := Put(strict, NoRef(t1), JMP(Cond, 0));
    u := Put(strict, t2, SLOT(ParN, 1, true));
    SlotPut(strict, EMPTY, 0);
    CondPut(strict, NoRef(t1));
    SlotPut(strict, t2, 1);
    assert GenE(strict, EMPTY, ESlot(ParN, 0)) == t1;
    assert GenE(strict, t2, ESlot(ParN, 1)) == u;
    assert MomentE(strict, t2, ESlot(ParN, 1), u);
    assert MomentS(strict, ref, t2, BROKEN.thn, u);
    assert u.code == [SLOT(ParN, 0, false), JMP(Cond, 0), SLOT(ParN, 1, true)];
    assert LeadOut(u.code) + [ERR, EOFN] == BROKEN_CODE;
  }

  lemma SlotPut(strict: nat, t: Trace, i: nat)
    ensures var t1 := Put(strict, t, SLOT(ParN, i, true));
            t1.code == t.code + [SLOT(ParN, i, true)] && t1.crossed == t.crossed
            && NoRef(t1).code == t.code + [SLOT(ParN, i, false)] && NoRef(t1).crossed == t.crossed
  {
  }

  lemma CondPut(strict: nat, t: Trace)
    ensures var t1 := Put(strict, t, JMP(Cond, 0)); t1.code == t.code + [JMP(Cond, 0)] && t1.crossed == t.crossed
  {
  }
}
