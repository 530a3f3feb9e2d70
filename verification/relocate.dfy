/** A function does the same wherever its frame stands: more values below the frame, which nothing
    refers to, change nothing but the places that references lead to. */
module Relocate {
  import opened Bytecode
  import opened Wrappers

  // ----- tidy memory -----

  /** No reference is in the value. */
  predicate Flat(v: Value)
    decreases v
  {
    match v
    case Ref(_) => false
    case Array(items) => forall i :: 0 <= i < |items| ==> Flat(items[i])
    case _ => true
  }

  /** A plain value, or a reference that leads below slot `b` of the value stack or off it. */
  predicate Below(v: Value, b: nat) { Flat(v) || (v.Ref? && (v.at.StackAt? ==> v.at.n < b)) }

  predicate AllBelow(vs: seq<Value>, b: nat) { forall i :: 0 <= i < |vs| ==> Below(vs[i], b) }

  /** References lead downwards, and only from the value stack. */
  predicate Tidy(m: Mem) {
    (forall i :: 0 <= i < |m.stack| ==> Below(m.stack[i], i)) && (forall a :: a in m.heap ==> Flat(m.heap[a]))
  }

  lemma BelowHigher(v: Value, a: nat, b: nat)
    requires Below(v, a) && a <= b
    ensures Below(v, b)
  {
  }

  // ----- the same with more values below -----

  /** `pad` stands at slot `at`, and what was above is higher by its length. */
  datatype Move = Move(at: nat, pad: seq<Value>)

  predicate Moves(mv: Move, m: Mem) {
    mv.at <= |m.stack| && forall i :: 0 <= i < |mv.pad| ==> Below(mv.pad[i], mv.at + i)
  }

  function MovedAt(mv: Move, a: Addr): Addr { if a.StackAt? && a.n >= mv.at then StackAt(a.n + |mv.pad|) else a }

  function Moved(mv: Move, v: Value): Value { if v.Ref? then Ref(MovedAt(mv, v.at)) else v }

  function MovedAll(mv: Move, vs: seq<Value>): (r: seq<Value>)
    ensures |r| == |vs|
    ensures forall i :: 0 <= i < |vs| ==> r[i] == Moved(mv, vs[i])
  {
    seq(|vs|, i requires 0 <= i < |vs| => Moved(mv, vs[i]))
  }

  function MovedMem(mv: Move, m: Mem): Mem
    requires mv.at <= |m.stack|
  {
    Mem(m.stack[..mv.at] + mv.pad + MovedAll(mv, m.stack[mv.at..]), m.heap)
  }

  function MovedResult(mv: Move, r: OpResult): OpResult
    requires mv.at <= |r.m.stack|
  {
    match r
    case Ok(v, m) => Ok(Moved(mv, v), MovedMem(mv, m))
    case Throw(e, m) => Throw(e, MovedMem(mv, m))
  }

  function MovedConfig(mv: Move, c: Config): Config
    requires mv.at <= |c.m.stack|
  {
    Config(c.pc, MovedAll(mv, c.temps), MovedMem(mv, c.m))
  }

  function MovedOutcome(mv: Move, o: Outcome): Outcome
    requires o.Running? ==> mv.at <= |o.c.m.stack|
    requires !o.Running? ==> mv.at <= |o.m.stack|
  {
    match o
    case Running(c) => Running(MovedConfig(mv, c))
    case Returned(v, m) => Returned(Moved(mv, v), MovedMem(mv, m))
    case Failed(e, m) => Failed(e, MovedMem(mv, m))
  }

  // ----- loading, following, assigning -----

  lemma MovedBelow(mv: Move, v: Value, b: nat)
    requires Below(v, b)
    ensures Below(Moved(mv, v), b + |mv.pad|)
    ensures b <= mv.at ==> Moved(mv, v) == v
  {
  }

  lemma MovedTidy(mv: Move, m: Mem)
    requires Tidy(m) && Moves(mv, m)
    ensures Tidy(MovedMem(mv, m)) && |MovedMem(mv, m).stack| == |m.stack| + |mv.pad|
  {
    hide Flat;
    var m', t := MovedMem(mv, m), |mv.pad|;
    forall i | 0 <= i < |m'.stack| ensures Below(m'.stack[i], i) {
      if i >= mv.at + t { MovedBelow(mv, m.stack[i - t], i - t); }
    }
  }

  /** Slots below the pad are as they were, those above it have moved. */
  lemma MovedSlot(mv: Move, m: Mem, n: nat)
    requires mv.at <= |m.stack|
    ensures var s := MovedMem(mv, m).stack;
            |s| == |m.stack| + |mv.pad|
            && (n < mv.at ==> s[n] == m.stack[n])
            && (mv.at <= n < |m.stack| ==> s[n + |mv.pad|] == Moved(mv, m.stack[n]))
  {
  }

  lemma LoadMoved(mv: Move, m: Mem, a: Addr)
    requires Tidy(m) && Moves(mv, m)
    ensures Load(MovedMem(mv, m), MovedAt(mv, a)) == Moved(mv, Load(m, a))
    ensures !a.StackAt? ==> Flat(Load(m, a))
    ensures a.StackAt? ==> Below(Load(m, a), a.n)
  {
    if a.StackAt? {
      MovedSlot(mv, m, a.n);
      if a.n < mv.at { MovedBelow(mv, m.stack[a.n], a.n); }
    }
  }

  /** How many steps lead from the value to a plain one, at most. */
  function Distance(v: Value): nat { if !v.Ref? then 0 else if v.at.StackAt? then v.at.n + 2 else 1 }

  lemma {:induction false} FollowMoved(mv: Move, m: Mem, v: Value, h: nat, h': nat)
    requires Tidy(m) && Moves(mv, m) && (Flat(v) || v.Ref?) && h >= Distance(v) && h' >= Distance(v)
    ensures Follow(MovedMem(mv, m), Moved(mv, v), h') == Follow(m, v, h) && Flat(Follow(m, v, h))
    decreases Distance(v)
  {
    if v.Ref? {
      LoadMoved(mv, m, v.at);
      FollowMoved(mv, m, Load(m, v.at), h - 1, h' - 1);
    }
  }

  lemma PlainMoved(mv: Move, m: Mem, v: Value)
    requires Tidy(m) && Moves(mv, m) && Below(v, |m.stack|)
    ensures Plain(MovedMem(mv, m), Moved(mv, v)) == Plain(m, v) && Flat(Plain(m, v))
    ensures Truthy(MovedMem(mv, m), Moved(mv, v)) == Truthy(m, v)
    ensures IsNil(MovedMem(mv, m), Moved(mv, v)) == IsNil(m, v)
  {
    MovedSlot(mv, m, 0);
    FollowMoved(mv, m, v, Hops(m), Hops(MovedMem(mv, m)));
  }

  lemma {:induction false} TargetMoved(mv: Move, m: Mem, a: Addr, h: nat, h': nat)
    requires Tidy(m) && Moves(mv, m) && (a.StackAt? ==> h > a.n && h' > a.n)
    ensures Target(MovedMem(mv, m), MovedAt(mv, a), h') == MovedAt(mv, Target(m, a, h))
    decreases if a.StackAt? then a.n + 1 else 0
  {
    LoadMoved(mv, m, a);
    var v := Load(m, a);
    if v.Ref? && h > 0 && h' > 0 { TargetMoved(mv, m, v.at, h - 1, h' - 1); }
  }

  lemma WriteMoved(mv: Move, m: Mem, a: Addr, v: Value)
    requires Tidy(m) && Moves(mv, m) && Flat(v)
    ensures var r := Write(m, a, v);
            Tidy(r) && |r.stack| == |m.stack| && Write(MovedMem(mv, m), MovedAt(mv, a), v) == MovedMem(mv, r)
  {
    hide Flat;
    FlatStays(mv, v);
    var s := m.stack;
    assert |MovedMem(mv, m).stack| == |s| + |mv.pad|;
    if a.StackAt? && a.n < |s| {
      if a.n < mv.at {
        assert s[a.n := v][..mv.at] == s[..mv.at][a.n := v] && s[a.n := v][mv.at..] == s[mv.at..];
      } else {
        var k := a.n - mv.at;
        assert s[a.n := v][..mv.at] == s[..mv.at] && s[a.n := v][mv.at..] == s[mv.at..][k := v];
        assert MovedAll(mv, s[mv.at..][k := v]) == MovedAll(mv, s[mv.at..])[k := v];
      }
    }
  }

  lemma FlatStays(mv: Move, v: Value)
    requires Flat(v)
    ensures Moved(mv, v) == v
  {
  }

  lemma AssignMoved(mv: Move, m: Mem, a: Addr, v: Value)
    requires Tidy(m) && Moves(mv, m) && Below(v, |m.stack|)
    ensures var r := Assign(m, a, v);
            Tidy(r) && |r.stack| == |m.stack| && Assign(MovedMem(mv, m), MovedAt(mv, a), Moved(mv, v))
                == MovedMem(mv, r)
  {
    hide Flat, Tidy;
    PlainMoved(mv, m, v);
    if a.StackAt? && a.n >= |m.stack| {
      OffStack(mv, m, a);
    } else {
      MovedSlot(mv, m, 0);
      TargetMoved(mv, m, a, Hops(m), Hops(MovedMem(mv, m)));
    }
    WriteMoved(mv, m, Target(m, a, Hops(m)), Plain(m, v));
  }

  lemma OffStack(mv: Move, m: Mem, a: Addr)
    requires mv.at <= |m.stack| && a.StackAt? && a.n >= |m.stack|
    ensures Target(m, a, Hops(m)) == a && Target(MovedMem(mv, m), MovedAt(mv, a), Hops(MovedMem(mv, m)))
            == MovedAt(mv, a)
  {
    MovedSlot(mv, m, 0);
  }

  lemma PlainAllMoved(mv: Move, m: Mem, vs: seq<Value>)
    requires Tidy(m) && Moves(mv, m) && AllBelow(vs, |m.stack|)
    ensures PlainAll(MovedMem(mv, m), MovedAll(mv, vs)) == PlainAll(m, vs) && Flat(Array(PlainAll(m, vs)))
  {
    hide Plain, Tidy;
    forall i | 0 <= i < |vs| ensures Plain(MovedMem(mv, m), Moved(mv, vs[i])) == Plain(m, vs[i])
        && Flat(Plain(m, vs[i])) {
      PlainMoved(mv, m, vs[i]);
    }
  }

  // ----- operators and calls -----

  /** What operators and calls may do to a tidy memory. */
  predicate Fair(r: OpResult, m: Mem) {
    |r.m.stack| == |m.stack| && Tidy(r.m) && (r.Ok? ==> Below(r.v, |m.stack|))
  }

  ghost predicate FairUn(un: (UnOp, Value, Mem) -> OpResult, op: UnOp, v: Value, m: Mem) {
    Tidy(m) && Below(v, |m.stack|) ==>
      Fair(un(op, v, m), m)
      && forall mv :: Moves(mv, m) ==> un(op, Moved(mv, v), MovedMem(mv, m)) == MovedResult(mv, un(op, v, m))
  }

  ghost predicate FairBin(bin: (BinOp, Value, Value, Mem) -> OpResult, op: BinOp, a: Value, b: Value, m: Mem) {
    Tidy(m) && Below(a, |m.stack|) && Below(b, |m.stack|) ==>
      Fair(bin(op, a, b, m), m)
      && forall mv :: Moves(mv, m) ==>
           bin(op, Moved(mv, a), Moved(mv, b), MovedMem(mv, m)) == MovedResult(mv, bin(op, a, b, m))
  }

  ghost predicate FairCall(call: (nat, seq<Value>, Mem) -> OpResult, f: nat, vs: seq<Value>, m: Mem) {
    Tidy(m) && AllBelow(vs, |m.stack|) ==>
      Fair(call(f, vs, m), m)
      && forall mv :: Moves(mv, m) ==> call(f, MovedAll(mv, vs), MovedMem(mv, m)) == MovedResult(mv, call(f, vs, m))
  }

  ghost predicate FairObjCall(call: (CallKind, nat, Value, seq<Value>, Mem) -> OpResult, k: CallKind, f: nat, t: Value,
                              vs: seq<Value>, m: Mem)
  {
    Tidy(m) && Below(t, |m.stack|) && AllBelow(vs, |m.stack|) ==>
      Fair(call(k, f, t, vs, m), m)
      && forall mv :: Moves(mv, m) ==>
           call(k, f, Moved(mv, t), MovedAll(mv, vs), MovedMem(mv, m)) == MovedResult(mv, call(k, f, t, vs, m))
  }

  ghost predicate FairOperators(sem: Sem) {
    && (forall op, v, m :: FairUn(sem.un, op, v, m))
    && (forall op, a, b, m :: FairBin(sem.bin, op, a, b, m))
  }

  /** `takes(f)` parameters are the ones with which function `f` must be called. */
  ghost predicate FairSem(sem: Sem, takes: nat -> Option<nat>) {
    && FairOperators(sem)
    && (forall f, vs, m :: (takes(f).Some? ==> |vs| == takes(f).value) ==> FairCall(sem.call, f, vs, m))
    && (forall k, f, t, vs, m :: |vs| == MAX_PAR ==> FairObjCall(sem.objCall, k, f, t, vs, m))
  }

  // ----- one chunk -----

  /** References to parameters and variables lead into the frame, which ends at slot `base`; calls
      have the parameters they need. */
  predicate ChunkNames(x: Chunk, fr: Frame, base: nat, takes: nat -> Option<nat>) {
    match x
    case SLOT(ParN, i, true) => fr.pars + i < base
    case SLOT(VarN, i, true) => fr.vars + i < base
    case FUNC(f, pars) => takes(f).Some? ==> pars == takes(f).value
    case _ => true
  }

  function MovedEnv(mv: Move, env: Env): Env {
    env.(fr := env.fr.(pars := env.fr.pars + |mv.pad|, vars := env.fr.vars + |mv.pad|))
  }

  /** A configuration of a call whose frame lies above the pad. */
  ghost predicate Here(mv: Move, env: Env, c: Config) {
    && Tidy(c.m) && Moves(mv, c.m) && AllBelow(c.temps, |c.m.stack|) && mv.at <= env.fr.pars && mv.at <= env.fr.vars
  }

  predicate FairOutcome(o: Outcome, c: Config) {
    match o
    case Running(d) => |d.m.stack| == |c.m.stack| && Tidy(d.m) && AllBelow(d.temps, |d.m.stack|)
    case Returned(v, m) => |m.stack| == |c.m.stack| && Tidy(m) && Below(v, |m.stack|)
    case Failed(e, m) => |m.stack| == |c.m.stack| && Tidy(m)
  }

  lemma MovedParts(mv: Move, a: seq<Value>, b: seq<Value>)
    ensures MovedAll(mv, a + b) == MovedAll(mv, a) + MovedAll(mv, b)
  {
  }

  lemma MovedCut(mv: Move, s: seq<Value>, n: nat)
    requires n <= |s|
    ensures MovedAll(mv, s[..n]) == MovedAll(mv, s)[..n] && MovedAll(mv, s[n..]) == MovedAll(mv, s)[n..]
  {
  }

  lemma FinishMoved(mv: Move, c: Config, n: nat, r: OpResult)
    requires n <= |c.temps| && Fair(r, c.m) && Moves(mv, c.m) && AllBelow(c.temps, |c.m.stack|)
    ensures var o := Finish(c, n, r);
            FairOutcome(o, c) && Finish(MovedConfig(mv, c), n, MovedResult(mv, r)) == MovedOutcome(mv, o)
  {
    hide Tidy, Flat;
    if r.Ok? {
      MovedCut(mv, c.temps, |c.temps| - n);
      MovedParts(mv, c.temps[..|c.temps| - n], [r.v]);
      assert MovedAll(mv, [r.v]) == [Moved(mv, r.v)];
    }
  }

  lemma UnMoved(mv: Move, env: Env, v: Value, m: Mem, op: UnOp)
    requires FairUn(env.sem.un, op, v, m) && Tidy(m) && Moves(mv, m) && Below(v, |m.stack|)
    ensures Fair(ApplyUn(env, op, v, m), m)
    ensures ApplyUn(MovedEnv(mv, env), op, Moved(mv, v), MovedMem(mv, m)) == MovedResult(mv, ApplyUn(env, op, v, m))
  {
    hide Tidy;
  }

  lemma BinMoved(mv: Move, env: Env, a: Value, b: Value, m: Mem, op: BinOp)
    requires FairBin(env.sem.bin, op, a, b, m) && Tidy(m) && Moves(mv, m) && Below(a, |m.stack|) && Below(b, |m.stack|)
    ensures Fair(ApplyBin(env, op, a, b, m), m)
    ensures ApplyBin(MovedEnv(mv, env), op, Moved(mv, a), Moved(mv, b), MovedMem(mv, m))
            == MovedResult(mv, ApplyBin(env, op, a, b, m))
  {
    hide Tidy, Flat, Assign, Plain, Truthy, MovedMem;
    if op == Set && a.Ref? {
      PlainMoved(mv, m, b);
      AssignedBelow(mv, env.fr, m, b);
      AssignMoved(mv, m, a.at, Assigned(env.fr, m, b));
    }
  }

  lemma AssignedBelow(mv: Move, fr: Frame, m: Mem, b: Value)
    requires Tidy(m) && Moves(mv, m) && Below(b, |m.stack|)
    ensures Below(Assigned(fr, m, b), |m.stack|) && Moved(mv, Assigned(fr, m, b)) == Assigned(fr, m, b)
  {
    PlainMoved(mv, m, b);
  }

  lemma SlotMoved(mv: Move, env: Env, kind: SlotKind, i: nat, asRef: bool, c: Config)
    requires Here(mv, env, c)
    requires asRef && kind == ParN ==> env.fr.pars + i < |c.m.stack|
    requires asRef && kind == VarN ==> env.fr.vars + i < |c.m.stack|
    ensures var r := ReadSlot(env.fr, kind, i, asRef, c.m);
            Fair(r, c.m) && ReadSlot(MovedEnv(mv, env).fr, kind, i, asRef, MovedMem(mv, c.m)) == MovedResult(mv, r)
  {
    var a := SlotAddr(env.fr, kind, i);
    assert SlotAddr(MovedEnv(mv, env).fr, kind, i) == MovedAt(mv, a);
    LoadMoved(mv, c.m, a);
    if a.StackAt? && a.n < |c.m.stack| { BelowHigher(Load(c.m, a), a.n, |c.m.stack|); }
  }

  lemma JumpMoved(mv: Move, env: Env, kind: JumpKind, off: int, c: Config)
    requires Here(mv, env, c)
    ensures var o := Jump(kind, off, c);
            FairOutcome(o, c) && Jump(kind, off, MovedConfig(mv, c)) == MovedOutcome(mv, o)
  {
    if |c.temps| > 0 { JumpParts(mv, env, kind, c); }
    hide Tidy, Flat, Plain, Taken, MovedMem, MovedAll, Below;
    MovedSize(mv, c.temps);
  }

  lemma MovedSize(mv: Move, vs: seq<Value>)
    ensures |MovedAll(mv, vs)| == |vs|
    ensures forall i :: 0 <= i < |vs| ==> MovedAll(mv, vs)[i] == Moved(mv, vs[i])
  {
  }

  lemma JumpParts(mv: Move, env: Env, kind: JumpKind, c: Config)
    requires Here(mv, env, c) && |c.temps| > 0
    ensures var n, m' := |c.temps| - 1, MovedMem(mv, c.m);
            var top, rest := c.temps[n], c.temps[..n];
            && Taken(kind, m', Moved(mv, top)) == Taken(kind, c.m, top)
            && MovedAll(mv, rest) == MovedAll(mv, c.temps)[..n] && AllBelow(rest, |c.m.stack|)
            && MovedAll(mv, rest + [Plain(c.m, top)]) == MovedAll(mv, c.temps)[..n] + [Plain(m', Moved(mv, top))]
            && AllBelow(rest + [Plain(c.m, top)], |c.m.stack|)
  {
    hide Tidy, Flat, Plain, Truthy, IsNil, MovedMem;
    var n := |c.temps| - 1;
    var top := c.temps[n];
    PlainMoved(mv, c.m, top);
    FlatBelow(Plain(c.m, top), |c.m.stack|);
    FlatStays(mv, Plain(c.m, top));
    MovedCut(mv, c.temps, n);
    MovedParts(mv, c.temps[..n], [Plain(c.m, top)]);
    assert MovedAll(mv, [Plain(c.m, top)]) == [Plain(c.m, top)];
  }

  lemma FlatBelow(v: Value, b: nat)
    requires Flat(v)
    ensures Below(v, b)
  {
  }

  lemma EachMoved(mv: Move, env: Env, v: nat, c: Config)
    requires Here(mv, env, c)
    ensures var o := ForEach(env.fr, v, c);
            FairOutcome(o, c) && ForEach(MovedEnv(mv, env).fr, v, MovedConfig(mv, c)) == MovedOutcome(mv, o)
  {
    hide Tidy, Plain, Assign, MovedMem, Flat;
    var n := |c.temps|;
    if n >= 2 {
      var i, x := Position(c.temps[n - 1]), c.temps[n - 2];
      var arr := if i == 0 then Plain(c.m, x) else x;
      EachArray(mv, env, c, arr, i);
      if arr.Array? { EachStep(mv, env, v, c, c.temps[..n - 2] + [arr], arr, i); }
    }
  }

  lemma EachArray(mv: Move, env: Env, c: Config, arr: Value, i: nat)
    requires Here(mv, env, c) && |c.temps| >= 2
    requires var x := c.temps[|c.temps| - 2]; arr == if i == 0 then Plain(c.m, x) else x
    ensures var n := |c.temps|;
            Below(arr, |c.m.stack|) && AllBelow(c.temps[..n - 2] + [arr], |c.m.stack|)
            && MovedAll(mv, c.temps[..n - 2] + [arr]) == MovedAll(mv, c.temps)[..n - 2] + [Moved(mv, arr)]
            && (if i == 0 then Plain(MovedMem(mv, c.m), Moved(mv, c.temps[n - 2])) else Moved(mv, c.temps[n - 2]))
                == Moved(mv, arr)
            && Position(Moved(mv, c.temps[n - 1])) == Position(c.temps[n - 1])
  {
    hide Tidy, Plain, MovedMem, Flat;
    var n := |c.temps|;
    var x := c.temps[n - 2];
    PlainMoved(mv, c.m, x);
    FlatBelow(Plain(c.m, x), |c.m.stack|);
    FlatStays(mv, Plain(c.m, x));
    MovedCut(mv, c.temps, n - 2);
    MovedParts(mv, c.temps[..n - 2], [arr]);
    assert MovedAll(mv, [arr]) == [Moved(mv, arr)];
  }

  lemma EachStep(mv: Move, env: Env, v: nat, c: Config, temps: seq<Value>, arr: Value, i: nat)
    requires Here(mv, env, c) && AllBelow(temps, |c.m.stack|) && arr.Array? && Below(arr, |c.m.stack|) && |c.temps| >= 2
    ensures var last := c.temps[|c.temps| - 1];
            AllBelow(temps + [last], |c.m.stack|) && MovedAll(mv, temps + [last])
                == MovedAll(mv, temps) + [Moved(mv, last)]
    ensures MovedAll(mv, temps + [Int(i + 1)]) == MovedAll(mv, temps) + [Int(i + 1)]
    ensures i < |arr.items| ==>
              var a := SlotAddr(env.fr, VarN, v);
              var m := Assign(c.m, a, arr.items[i]);
              Tidy(m) && |m.stack| == |c.m.stack|
              && Assign(MovedMem(mv, c.m), SlotAddr(MovedEnv(mv, env).fr, VarN, v), arr.items[i]) == MovedMem(mv, m)
              && AllBelow(temps + [Int(i + 1)], |c.m.stack|)
  {
    hide Tidy, Assign, MovedMem;
    var last := c.temps[|c.temps| - 1];
    MovedParts(mv, temps, [last]);
    MovedParts(mv, temps, [Int(i + 1)]);
    assert MovedAll(mv, [last]) == [Moved(mv, last)] && MovedAll(mv, [Int(i + 1)]) == [Int(i + 1)];
    if i < |arr.items| {
      FlatStays(mv, arr.items[i]);
      AssignMoved(mv, c.m, SlotAddr(env.fr, VarN, v), arr.items[i]);
    }
  }

  lemma StepUn(mv: Move, env: Env, c: Config, op: UnOp, takes: nat -> Option<nat>)
    requires FairSem(env.sem, takes) && Here(mv, env, c) && |c.temps| > 0
    ensures var top := c.temps[|c.temps| - 1];
            var o := Finish(c, 1, ApplyUn(env, op, top, c.m));
            FairOutcome(o, c)
            && Finish(MovedConfig(mv, c), 1, ApplyUn(MovedEnv(mv, env), op, Moved(mv, top), MovedMem(mv, c.m)))
                == MovedOutcome(mv, o)
  {
    hide Tidy, Flat, ApplyUn, Finish, MovedMem, FairUn;
    var top := c.temps[|c.temps| - 1];
    assert FairUn(env.sem.un, op, top, c.m);
    UnMoved(mv, env, top, c.m, op);
    FinishMoved(mv, c, 1, ApplyUn(env, op, top, c.m));
  }

  lemma StepBin(mv: Move, env: Env, c: Config, op: BinOp, takes: nat -> Option<nat>)
    requires FairSem(env.sem, takes) && Here(mv, env, c) && |c.temps| > 1
    ensures var a, b := c.temps[|c.temps| - 2], c.temps[|c.temps| - 1];
            var o := Finish(c, 2, ApplyBin(env, op, a, b, c.m));
            FairOutcome(o, c)
            && Finish(MovedConfig(mv, c), 2, ApplyBin(MovedEnv(mv, env), op, Moved(mv, a), Moved(mv, b),
                MovedMem(mv, c.m)))
               == MovedOutcome(mv, o)
  {
    hide Tidy, Flat, ApplyBin, Finish, MovedMem, FairBin;
    var a, b := c.temps[|c.temps| - 2], c.temps[|c.temps| - 1];
    assert FairBin(env.sem.bin, op, a, b, c.m);
    BinMoved(mv, env, a, b, c.m, op);
    FinishMoved(mv, c, 2, ApplyBin(env, op, a, b, c.m));
  }

  lemma StepCall(mv: Move, env: Env, c: Config, f: nat, pars: nat, takes: nat -> Option<nat>)
    requires FairSem(env.sem, takes) && Here(mv, env, c) && |c.temps| >= pars
    requires takes(f).Some? ==> pars == takes(f).value
    ensures var k := |c.temps| - pars;
            var o := Finish(c, pars, env.sem.call(f, c.temps[k..], c.m));
            FairOutcome(o, c)
            && Finish(MovedConfig(mv, c), pars, env.sem.call(f, MovedAll(mv, c.temps)[k..], MovedMem(mv, c.m)))
                == MovedOutcome(mv, o)
  {
    hide Tidy, Flat, Finish, MovedMem, FairOperators;
    var k := |c.temps| - pars;
    var vs := c.temps[k..];
    assert FairCall(env.sem.call, f, vs, c.m);
    MovedCut(mv, c.temps, k);
    FinishMoved(mv, c, pars, env.sem.call(f, vs, c.m));
  }

  lemma StepObjCall(mv: Move, env: Env, c: Config, kind: CallKind, f: nat, takes: nat -> Option<nat>)
    requires FairSem(env.sem, takes) && Here(mv, env, c) && |c.temps| > MAX_PAR
    ensures var k := |c.temps| - MAX_PAR;
            var t := c.temps[k - 1];
            var o := Finish(c, MAX_PAR + 1, env.sem.objCall(kind, f, t, c.temps[k..], c.m));
            FairOutcome(o, c)
            && Finish(MovedConfig(mv, c), MAX_PAR + 1,
                      env.sem.objCall(kind, f, Moved(mv, t), MovedAll(mv, c.temps)[k..], MovedMem(mv, c.m)))
                          == MovedOutcome(mv, o)
  {
    hide Tidy, Flat, Finish, MovedMem, FairOperators;
    var k := |c.temps| - MAX_PAR;
    var t, vs := c.temps[k - 1], c.temps[k..];
    assert FairObjCall(env.sem.objCall, kind, f, t, vs, c.m);
    MovedCut(mv, c.temps, k);
    FinishMoved(mv, c, MAX_PAR + 1, env.sem.objCall(kind, f, t, vs, c.m));
  }

  lemma StepArray(mv: Move, env: Env, c: Config, size: nat)
    requires Here(mv, env, c) && |c.temps| >= size
    ensures var k := |c.temps| - size;
            var o := Finish(c, size, Ok(Array(PlainAll(c.m, c.temps[k..])), c.m));
            FairOutcome(o, c)
            && Finish(MovedConfig(mv, c), size, Ok(Array(PlainAll(MovedMem(mv, c.m), MovedAll(mv, c.temps)[k..])),
                MovedMem(mv, c.m)))
               == MovedOutcome(mv, o)
  {
    hide Tidy, Finish, MovedMem, PlainAll;
    var k := |c.temps| - size;
    MovedCut(mv, c.temps, k);
    PlainAllMoved(mv, c.m, c.temps[k..]);
    var v := Array(PlainAll(c.m, c.temps[k..]));
    FlatBelow(v, |c.m.stack|);
    FinishMoved(mv, c, size, Ok(v, c.m));
  }

  lemma StepStack(mv: Move, env: Env, c: Config, n: int)
    requires Here(mv, env, c) && |c.temps| + n >= 0
    ensures var o := Running(c.(pc := c.pc + 1, temps := ApplyStack(n, c.temps)));
            FairOutcome(o, c)
            && Running(MovedConfig(mv, c).(pc := c.pc + 1, temps := ApplyStack(n, MovedAll(mv, c.temps))))
                == MovedOutcome(mv, o)
  {
    hide Tidy, MovedMem;
    if n < 0 {
      MovedCut(mv, c.temps, |c.temps| + n);
    } else {
      MovedParts(mv, c.temps, Nils(n));
      assert MovedAll(mv, Nils(n)) == Nils(n);
    }
  }

  lemma StepVar(mv: Move, env: Env, c: Config, v: nat)
    requires Here(mv, env, c) && |c.temps| > 0
    ensures var n := |c.temps| - 1;
            var o := Running(Config(c.pc + 1, c.temps[..n], Assign(c.m, SlotAddr(env.fr, VarN, v), c.temps[n])));
            var m' := Assign(MovedMem(mv, c.m), SlotAddr(MovedEnv(mv, env).fr, VarN, v), Moved(mv, c.temps[n]));
            FairOutcome(o, c) && Running(Config(c.pc + 1, MovedAll(mv, c.temps)[..n], m')) == MovedOutcome(mv, o)
  {
    hide Tidy, MovedMem, Assign;
    var n := |c.temps| - 1;
    MovedCut(mv, c.temps, n);
    AssignMoved(mv, c.m, SlotAddr(env.fr, VarN, v), c.temps[n]);
  }

  lemma StepReturn(mv: Move, env: Env, c: Config)
    requires Here(mv, env, c) && |c.temps| > 0
    ensures var top := c.temps[|c.temps| - 1];
            var o := Returned(if env.fr.returnRef then top else Plain(c.m, top), c.m);
            FairOutcome(o, c)
            && Returned(if env.fr.returnRef then Moved(mv, top) else Plain(MovedMem(mv, c.m), Moved(mv, top)),
                MovedMem(mv, c.m))
               == MovedOutcome(mv, o)
  {
    hide Tidy, MovedMem, Plain;
    var top := c.temps[|c.temps| - 1];
    PlainMoved(mv, c.m, top);
    FlatBelow(Plain(c.m, top), |c.m.stack|);
    FlatStays(mv, Plain(c.m, top));
  }

  lemma StepConst(mv: Move, env: Env, code: Code, c: Config)
    requires Here(mv, env, c) && 0 <= c.pc < |code|
    requires var x := code[c.pc]; x.NIL? || x.INT? || x.BOOL? || x.STRING? || x.C4ID?
    ensures var o := Step(env, code, c);
            FairOutcome(o, c) && Step(MovedEnv(mv, env), code, MovedConfig(mv, c)) == MovedOutcome(mv, o)
  {
    hide Tidy, MovedMem, Finish;
    var v := match code[c.pc] case INT(x) => Value.Int(Wrap32(x)) case BOOL(b) => Value.Bool(b) case STRING(s) => Str(s)
                              case C4ID(i) => if i == 0 then Nil else Id(i) case _ => Nil;
    FinishMoved(mv, c, 0, Ok(v, c.m));
  }

  /** One step of a call does the same wherever its frame stands. */
  ghost predicate SameStep(mv: Move, env: Env, code: Code, c: Config)
    requires Here(mv, env, c)
  {
    var o := Step(env, code, c);
    FairOutcome(o, c) && Step(MovedEnv(mv, env), code, MovedConfig(mv, c)) == MovedOutcome(mv, o)
  }

  lemma OperatorMoved(mv: Move, env: Env, code: Code, c: Config, takes: nat -> Option<nat>)
    requires FairSem(env.sem, takes) && Here(mv, env, c) && 0 <= c.pc < |code| && (code[c.pc].UN? || code[c.pc].BIN?)
    ensures SameStep(mv, env, code, c)
  {
    hide Tidy, FairOperators, MovedMem, Plain, PlainAll, ApplyUn, ApplyBin, Finish, FairSem, Flat;
    match code[c.pc]
    case UN(op) => if |c.temps| > 0 { StepUn(mv, env, c, op, takes); }
    case BIN(op) => if |c.temps| > 1 { StepBin(mv, env, c, op, takes); }
  }

  lemma CallMoved(mv: Move, env: Env, code: Code, c: Config, takes: nat -> Option<nat>)
    requires FairSem(env.sem, takes) && Here(mv, env, c) && 0 <= c.pc < |code|
             && ChunkNames(code[c.pc], env.fr, |c.m.stack|, takes)
    requires var x := code[c.pc]; x.FUNC? || x.CALL? || x.ARRAY?
    ensures SameStep(mv, env, code, c)
  {
    hide Tidy, FairOperators, MovedMem, Plain, PlainAll, Finish, FairSem, Flat;
    match code[c.pc]
    case FUNC(f, pars) => if |c.temps| >= pars { StepCall(mv, env, c, f, pars, takes); }
    case CALL(kind, f) => if |c.temps| > MAX_PAR { StepObjCall(mv, env, c, kind, f, takes); }
    case ARRAY(size) => if |c.temps| >= size { StepArray(mv, env, c, size); }
  }

  /** Jumps and what works on the stack only. */
  lemma OtherMoved(mv: Move, env: Env, code: Code, c: Config)
    requires Here(mv, env, c) && 0 <= c.pc < |code|
    requires var x := code[c.pc]; x.STACK? || x.IVARN? || x.JMP? || x.FOREACH? || x.RETURN? || x.ERR? || x.EOFN?
    ensures SameStep(mv, env, code, c)
  {
    hide Tidy, MovedMem, Plain, Assign, Jump, ForEach, ApplyStack, Flat;
    match code[c.pc]
    case STACK(n) => if |c.temps| + n >= 0 { StepStack(mv, env, c, n); }
    case IVARN(v) => if |c.temps| > 0 { StepVar(mv, env, c, v); }
    case JMP(kind, off) => JumpMoved(mv, env, kind, off, c);
    case FOREACH(v) => EachMoved(mv, env, v, c);
    case RETURN => if |c.temps| > 0 { StepReturn(mv, env, c); }
    case _ =>
  }

  lemma SlotStep(mv: Move, env: Env, code: Code, c: Config, takes: nat -> Option<nat>)
    requires Here(mv, env, c) && 0 <= c.pc < |code| && code[c.pc].SLOT?
             && ChunkNames(code[c.pc], env.fr, |c.m.stack|, takes)
    ensures SameStep(mv, env, code, c)
  {
    hide Tidy, MovedMem, ReadSlot, Finish, Flat;
    var x := code[c.pc];
    SlotMoved(mv, env, x.kind, x.slot, x.asRef, c);
    FinishMoved(mv, c, 0, ReadSlot(env.fr, x.kind, x.slot, x.asRef, c.m));
  }

  lemma StepMoved(mv: Move, env: Env, code: Code, c: Config, takes: nat -> Option<nat>)
    requires FairSem(env.sem, takes) && Here(mv, env, c)
    requires 0 <= c.pc < |code| ==> ChunkNames(code[c.pc], env.fr, |c.m.stack|, takes)
    ensures SameStep(mv, env, code, c)
  {
    if 0 <= c.pc < |code| {
      hide SameStep, FairSem, Here, ChunkNames;
      var x := code[c.pc];
      if x.SLOT? {
        SlotStep(mv, env, code, c, takes);
      } else if x.UN? || x.BIN? {
        OperatorMoved(mv, env, code, c, takes);
      } else if x.FUNC? || x.CALL? || x.ARRAY? {
        CallMoved(mv, env, code, c, takes);
      } else if x.STACK? || x.IVARN? || x.JMP? || x.FOREACH? || x.RETURN? || x.ERR? || x.EOFN? {
        OtherMoved(mv, env, code, c);
      } else {
        ConstMoved(mv, env, code, c);
      }
    }
  }

  lemma ConstMoved(mv: Move, env: Env, code: Code, c: Config)
    requires Here(mv, env, c) && 0 <= c.pc < |code|
    requires var x := code[c.pc]; x.NIL? || x.INT? || x.BOOL? || x.STRING? || x.C4ID?
    ensures SameStep(mv, env, code, c)
  {
    hide Step;
    StepConst(mv, env, code, c);
  }

  /** Every chunk of the code fits. */
  ghost predicate CodeNames(code: Code, fr: Frame, base: nat, takes: nat -> Option<nat>) {
    forall i :: 0 <= i < |code| ==> ChunkNames(code[i], fr, base, takes)
  }

  /** A whole call does the same wherever its frame stands, and leaves the memory tidy. */
  lemma {:induction false} StepsMoved(mv: Move, env: Env, code: Code, c: Config, takes: nat -> Option<nat>, k: nat)
    requires FairSem(env.sem, takes) && Here(mv, env, c) && CodeNames(code, env.fr, |c.m.stack|, takes)
    ensures var o := Bytecode.Steps(env, code, c, k);
            FairOutcome(o, c) && Bytecode.Steps(MovedEnv(mv, env), code, MovedConfig(mv, c), k) == MovedOutcome(mv, o)
    decreases k
  {
    hide Step, Tidy, FairSem, MovedMem, MovedAll, ChunkNames, Flat;
    if k > 0 {
      StepMoved(mv, env, code, c, takes);
      var o := Step(env, code, c);
      if o.Running? {
        StillHere(mv, env, c, o.c);
        StepsMoved(mv, env, code, o.c, takes, k - 1);
      }
    }
  }

  lemma StillHere(mv: Move, env: Env, c: Config, d: Config)
    requires Here(mv, env, c) && FairOutcome(Running(d), c)
    ensures Here(mv, env, d)
  {
  }

  /** What a call returns is a plain value, unless it returns references. */
  lemma {:induction false} ReturnsFlat(mv: Move, env: Env, code: Code, c: Config, takes: nat -> Option<nat>, k: nat)
    requires FairSem(env.sem, takes) && Here(mv, env, c) && CodeNames(code, env.fr, |c.m.stack|, takes)
             && !env.fr.returnRef
    ensures var o := Bytecode.Steps(env, code, c, k); o.Returned? ==> Flat(o.v)
    decreases k
  {
    hide Step, Tidy, FairSem, MovedMem, MovedAll, ChunkNames, Flat;
    if k > 0 {
      StepMoved(mv, env, code, c, takes);
      var o := Step(env, code, c);
      if o.Running? {
        StillHere(mv, env, c, o.c);
        ReturnsFlat(mv, env, code, o.c, takes, k - 1);
      } else if o.Returned? {
        OnlyReturn(env, code, c);
        PlainMoved(mv, c.m, c.temps[|c.temps| - 1]);
      }
    }
  }

  lemma OnlyReturn(env: Env, code: Code, c: Config)
    requires Step(env, code, c).Returned? && !env.fr.returnRef
    ensures |c.temps| > 0 && Step(env, code, c).v == Plain(c.m, c.temps[|c.temps| - 1])
  {
    hide ApplyUn, ApplyBin, ReadSlot, PlainAll, Assign, Plain, Jump, ForEach, ApplyStack;
    JumpRuns(env, code, c);
  }

  lemma JumpRuns(env: Env, code: Code, c: Config)
    ensures forall kind, off :: !Jump(kind, off, c).Returned?
    ensures forall v :: !ForEach(env.fr, v, c).Returned?
  {
    hide Plain, Assign, Truthy, IsNil;
  }
}
