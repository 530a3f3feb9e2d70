/** Joining neighbouring stack chunks keeps the behaviour of code, as long as no join reaches
    across a jump target. */
module Peephole {
  import opened Bytecode
  import opened ExprCorrect

  // ----- what stack chunks do together -----

  /** Pops `down` values, then pushes `up` nulls. */
  datatype Effect = Effect(down: nat, up: nat)

  function AndThen(f: Effect, n: int): Effect {
    if n >= 0 then Effect(f.down, f.up + n)
    else if f.up >= -n then Effect(f.down, f.up + n)
    else Effect(f.down - n - f.up, 0)
  }

  predicate AllStack(code: Code) { forall i :: 0 <= i < |code| ==> code[i].STACK? }

  function Eff(code: Code): Effect
    requires AllStack(code)
  {
    if |code| == 0 then Effect(0, 0) else AndThen(Eff(code[..|code| - 1]), code[|code| - 1].n)
  }

  /** Running stack chunks has their joint effect; they fail if it pops too much. */
  lemma {:induction false} RunStacks(env: Env, code: Code, pos: nat, n: nat, temps: seq<Value>, m: Mem)
    requires pos + n <= |code| && AllStack(code[pos..pos + n])
    ensures var f := Eff(code[pos..pos + n]);
            Steps(env, code, Config(pos, temps, m), n) ==
            if f.down > |temps| then Failed(Underflow, m)
            else Running(Config(pos + n, temps[..|temps| - f.down] + Nils(f.up), m))
    decreases n
  {
    hide Step;
    if n == 0 {
      assert temps[..|temps|] + Nils(0) == temps;
    } else {
      var s := code[pos..pos + n];
      assert s[..n - 1] == code[pos..pos + n - 1];
      RunStacks(env, code, pos, n - 1, temps, m);
      var f, x := Eff(s[..n - 1]), s[n - 1].n;
      StepsAdd(env, code, Config(pos, temps, m), n - 1, 1);
      if f.down <= |temps| {
        var c := Config(pos + n - 1, temps[..|temps| - f.down] + Nils(f.up), m);
        One(env, code, c);
        StackStep(env, code, c, x);
        var g := Eff(s);
        if g.down <= |temps| {
          assert ApplyStack(x, c.temps) == temps[..|temps| - g.down] + Nils(g.up);
        }
      }
    }
  }

  lemma StackStep(env: Env, code: Code, c: Config, x: int)
    requires 0 <= c.pc < |code| && code[c.pc] == STACK(x)
    ensures Step(env, code, c) ==
            if |c.temps| + x < 0 then Failed(Underflow, c.m)
            else Running(c.(pc := c.pc + 1, temps := ApplyStack(x, c.temps)))
  {
  }

  // ----- places where code may not be joined -----

  /** A jump may lead here: a place marked as target, or a chunk that is never joined. */
  predicate Landing(plain: Code, marks: set<nat>, i: int) {
    0 <= i <= |plain| && (i in marks || (i < |plain| && !plain[i].STACK?))
  }

  /** Stack chunks on both sides of a border are kept apart. */
  predicate Border(plain: Code, marks: set<nat>, i: int) {
    0 <= i <= |plain| &&
    (i == 0 || i == |plain| || i in marks || !plain[i].STACK? || !plain[i - 1].STACK?)
  }

  /** The border that begins the run of stack chunks containing chunk `i`. */
  function Start(plain: Code, marks: set<nat>, i: nat): (r: nat)
    requires i <= |plain|
    ensures r <= i && Border(plain, marks, r)
    ensures forall j :: r < j <= i ==> !Border(plain, marks, j)
  {
    if Border(plain, marks, i) then i else Start(plain, marks, i - 1)
  }

  /** The first border behind chunk `i`. */
  function Stop(plain: Code, marks: set<nat>, i: nat): (r: nat)
    requires i < |plain|
    ensures i < r <= |plain| && Border(plain, marks, r)
    ensures forall j :: i < j < r ==> !Border(plain, marks, j)
    decreases |plain| - i
  {
    if Border(plain, marks, i + 1) then i + 1 else Stop(plain, marks, i + 1)
  }

  // ----- the relation between unjoined and joined code -----

  /** Chunk `i`, no stack chunk, stands at `pos[i]`; a jump there leads to the place of the
      chunk it led to before. */
  predicate SameChunk(plain: Code, marks: set<nat>, code: Code, pos: seq<int>, i: nat)
    requires i < |plain| && |pos| == |plain| + 1
  {
    && 0 <= pos[i] < |code|
    && pos[i + 1] == pos[i] + 1
    && if plain[i].JMP? then
         && Landing(plain, marks, i + plain[i].off)
         && code[pos[i]] == JMP(plain[i].jkind, pos[i + plain[i].off] - pos[i])
       else code[pos[i]] == plain[i]
  }

  /** The run of stack chunks that ends with chunk `i` and the chunks it became have the same
      effect. */
  predicate SameRun(plain: Code, marks: set<nat>, code: Code, pos: seq<int>, i: nat)
    requires i < |plain| && |pos| == |plain| + 1
  {
    var a := Start(plain, marks, i);
    0 <= pos[a] <= pos[i + 1] <= |code| && AllStack(plain[a..i + 1]) && AllStack(code[pos[a]..pos[i + 1]])
    && Eff(plain[a..i + 1]) == Eff(code[pos[a]..pos[i + 1]])
  }

  ghost predicate Joined(plain: Code, marks: set<nat>, code: Code, pos: seq<int>) {
    && |pos| == |plain| + 1
    && pos[0] == 0 && pos[|plain|] == |code|
    && (forall i: nat :: i < |plain| && !plain[i].STACK? ==> SameChunk(plain, marks, code, pos, i))
    && (forall i: nat :: i < |plain| && plain[i].STACK? && Border(plain, marks, i + 1)
          ==> SameRun(plain, marks, code, pos, i))
  }

  /** Behind FOREACH stands the jump out of the loop. */
  ghost predicate ForEachJumps(plain: Code) {
    forall i: nat :: i < |plain| && plain[i].FOREACH? ==> i + 1 < |plain| && plain[i + 1].JMP?
  }

  // ----- one stretch at a time -----

  /** A chunk that is no stack chunk does the same in both codes. */
  lemma SameStep(env: Env, plain: Code, marks: set<nat>, code: Code, pos: seq<int>, i: nat, temps: seq<Value>, m: Mem)
    requires Joined(plain, marks, code, pos) && ForEachJumps(plain)
    requires i < |plain| && !plain[i].STACK?
    ensures var p := Step(env, plain, Config(i, temps, m));
            var q := Step(env, code, Config(pos[i], temps, m));
            if p.Running? then
              Border(plain, marks, p.c.pc) && 0 <= p.c.pc <= |plain| && q == Running(p.c.(pc := pos[p.c.pc]))
            else q == p
  {
    assert SameChunk(plain, marks, code, pos, i);
    var x := plain[i];
    if x.FOREACH? {
      assert SameChunk(plain, marks, code, pos, i + 1);
    }
    if x.JMP? {
      SameJump(x.jkind, x.off, code[pos[i]].off, Config(i, temps, m), pos[i]);
    } else {
      SameOther(env, plain, code, i, pos[i], temps, m);
    }
  }

  lemma SameJump(kind: JumpKind, off: int, off': int, c: Config, pc: int)
    ensures var p, q := Jump(kind, off, c), Jump(kind, off', c.(pc := pc));
            if p.Running? then
              q.Running? && q.c.temps == p.c.temps && q.c.m == p.c.m
              && ((p.c.pc == c.pc + off && q.c.pc == pc + off') || (p.c.pc == c.pc + 1 && q.c.pc == pc + 1))
            else q == p
  {
  }

  /** Chunks that do not jump do the same wherever they stand. */
  lemma SameOther(env: Env, plain: Code, code: Code, i: nat, j: nat, temps: seq<Value>, m: Mem)
    requires i < |plain| && j < |code| && plain[i] == code[j] && !plain[i].JMP?
    ensures var p := Step(env, plain, Config(i, temps, m));
            var q := Step(env, code, Config(j, temps, m));
            if p.Running? then
              (p.c.pc == i + 1 || (plain[i].FOREACH? && p.c.pc == i + 2))
              && q == Running(p.c.(pc := p.c.pc - i + j))
            else q == p
  {
    hide Step;
    if plain[i].FOREACH? {
      SameEach(env, plain, code, i, j, temps, m);
    } else {
      SameNext(env, plain, code, i, j, temps, m);
    }
  }

  lemma SameEach(env: Env, plain: Code, code: Code, i: nat, j: nat, temps: seq<Value>, m: Mem)
    requires i < |plain| && j < |code| && plain[i] == code[j] && plain[i].FOREACH?
    ensures var p := Step(env, plain, Config(i, temps, m));
            var q := Step(env, code, Config(j, temps, m));
            if p.Running? then
              (p.c.pc == i + 1 || p.c.pc == i + 2) && q == Running(p.c.(pc := p.c.pc - i + j))
            else q == p
  {
    hide ApplyUn, ApplyBin, ReadSlot, PlainAll, Assign, Plain, ApplyStack;
  }

  lemma SameNext(env: Env, plain: Code, code: Code, i: nat, j: nat, temps: seq<Value>, m: Mem)
    requires i < |plain| && j < |code| && plain[i] == code[j] && !plain[i].JMP? && !plain[i].FOREACH?
    ensures var p := Step(env, plain, Config(i, temps, m));
            var q := Step(env, code, Config(j, temps, m));
            if p.Running? then p.c.pc == i + 1 && q == Running(p.c.(pc := j + 1)) else q == p
  {
    hide ApplyUn, ApplyBin, ReadSlot, PlainAll, Assign, Plain, ApplyStack;
  }

  /** A run of stack chunks: both codes fail, or both come to the next border with the same
      temporaries. */
  lemma SameStretch(env: Env, plain: Code, marks: set<nat>, code: Code, pos: seq<int>, i: nat, temps: seq<Value>,
                    m: Mem)
    requires Joined(plain, marks, code, pos) && Border(plain, marks, i)
    requires i < |plain| && plain[i].STACK?
    ensures var b := Stop(plain, marks, i);
            0 <= pos[i] <= pos[b]
            && var p := Steps(env, plain, Config(i, temps, m), b - i);
               var q := Steps(env, code, Config(pos[i], temps, m), pos[b] - pos[i]);
               (p == q == Failed(Underflow, m))
               || (p.Running? && p.c.pc == b && q == Running(p.c.(pc := pos[b])))
  {
    hide Step;
    var b := Stop(plain, marks, i);
    RunIsStacks(plain, marks, i, b - 1);
    assert SameRun(plain, marks, code, pos, b - 1);
    RunStacks(env, plain, i, b - i, temps, m);
    RunStacks(env, code, pos[i], pos[b] - pos[i], temps, m);
  }

  lemma {:induction false} RunIsStacks(plain: Code, marks: set<nat>, i: nat, j: nat)
    requires i <= j < |plain| && plain[i].STACK? && Border(plain, marks, i)
    requires forall k :: i < k <= j ==> !Border(plain, marks, k)
    ensures AllStack(plain[i..j + 1]) && Start(plain, marks, j) == i && plain[j].STACK?
    decreases j
  {
    if i < j {
      RunIsStacks(plain, marks, i, j - 1);
      assert !Border(plain, marks, j);
      assert plain[i..j + 1] == plain[i..j] + [plain[j]];
    }
  }

  // ----- whole runs -----

  /** Whatever unjoined code comes to, joined code comes to. */
  lemma {:induction false} Forward(env: Env, plain: Code, marks: set<nat>, code: Code, pos: seq<int>, i: nat,
                                   temps: seq<Value>, m: Mem,
                                   k: nat) returns (n: nat)
    requires Joined(plain, marks, code, pos) && ForEachJumps(plain) && Border(plain, marks, i)
    requires i <= |plain| && |pos| == |plain| + 1
    requires !Steps(env, plain, Config(i, temps, m), k).Running?
    ensures Steps(env, code, Config(pos[i], temps, m), n) == Steps(env, plain, Config(i, temps, m), k)
    decreases k
  {
    hide Step, Border, Landing, Joined;
    var c := Config(i, temps, m);
    if i == |plain| {
      EndOfBoth(env, plain, marks, code, pos, temps, m, k);
      n := 1;
    } else if plain[i].STACK? {
      SameStretch(env, plain, marks, code, pos, i, temps, m);
      var b := Stop(plain, marks, i);
      var p := Steps(env, plain, c, b - i);
      n := pos[b] - pos[i];
      if p.Running? {
        if k <= b - i { StepsAdd(env, plain, c, k, b - i - k); }
        StepsAdd(env, plain, c, b - i, k - (b - i));
        var n1 := Forward(env, plain, marks, code, pos, b, p.c.temps, p.c.m, k - (b - i));
        Chain(env, code, Config(pos[i], temps, m), n, n1);
        n := n + n1;
      } else {
        OneOutcome(env, plain, c, p, k);
      }
    } else {
      PlaceInside(plain, marks, code, pos, i);
      SameStep(env, plain, marks, code, pos, i, temps, m);
      One(env, plain, c);
      One(env, code, Config(pos[i], temps, m));
      n := 1;
      var p := Step(env, plain, c);
      if p.Running? {
        StepsAdd(env, plain, c, 1, k - 1);
        var n1 := Forward(env, plain, marks, code, pos, p.c.pc, p.c.temps, p.c.m, k - 1);
        Chain(env, code, Config(pos[i], temps, m), 1, n1);
        n := 1 + n1;
      } else {
        OneOutcome(env, plain, c, p, k);
      }
    }
  }

  lemma PlaceInside(plain: Code, marks: set<nat>, code: Code, pos: seq<int>, i: nat)
    requires Joined(plain, marks, code, pos) && i < |plain| && !plain[i].STACK?
    ensures 0 <= pos[i] < |code| && pos[i + 1] == pos[i] + 1
  {
    assert SameChunk(plain, marks, code, pos, i);
  }

  lemma EndOfBoth(env: Env, plain: Code, marks: set<nat>, code: Code, pos: seq<int>, temps: seq<Value>, m: Mem, k: nat)
    requires Joined(plain, marks, code, pos)
    ensures pos[|plain|] == |code|
    ensures Steps(env, code, Config(|code|, temps, m), 1) == Failed(BadTarget, m)
    ensures k > 0 ==> Steps(env, plain, Config(|plain|, temps, m), k) == Failed(BadTarget, m)
  {
    One(env, code, Config(|code|, temps, m));
    assert Step(env, plain, Config(|plain|, temps, m)) == Failed(BadTarget, m);
  }

  /** And the other way round. A run of stack chunks that joined away takes no step in the
      joined code. */
  lemma {:induction false} Backward(env: Env, plain: Code, marks: set<nat>, code: Code, pos: seq<int>, i: nat,
                                    temps: seq<Value>, m: Mem,
                                    n: nat) returns (k: nat)
    requires Joined(plain, marks, code, pos) && ForEachJumps(plain) && Border(plain, marks, i)
    requires i <= |plain| && |pos| == |plain| + 1
    requires !Steps(env, code, Config(pos[i], temps, m), n).Running?
    ensures Steps(env, plain, Config(i, temps, m), k) == Steps(env, code, Config(pos[i], temps, m), n)
    decreases n, |plain| - i
  {
    hide Step, Border, Landing, Joined;
    var c, d := Config(i, temps, m), Config(pos[i], temps, m);
    if i == |plain| {
      EndOfBoth(env, plain, marks, code, pos, temps, m, 1);
      OneOutcome(env, code, d, Failed(BadTarget, m), n);
      k := 1;
    } else if plain[i].STACK? {
      SameStretch(env, plain, marks, code, pos, i, temps, m);
      var b := Stop(plain, marks, i);
      var w := pos[b] - pos[i];
      var q := Steps(env, code, d, w);
      k := b - i;
      if q.Running? {
        if n < w { StepsAdd(env, code, d, n, w - n); }
        StepsAdd(env, code, d, w, n - w);
        var k1 := Backward(env, plain, marks, code, pos, b, q.c.temps, q.c.m, n - w);
        Chain(env, plain, c, k, k1);
        k := k + k1;
      } else {
        OneOutcome(env, code, d, q, n);
      }
    } else {
      PlaceInside(plain, marks, code, pos, i);
      SameStep(env, plain, marks, code, pos, i, temps, m);
      One(env, plain, c);
      One(env, code, d);
      k := 1;
      var p := Step(env, plain, c);
      if p.Running? {
        StepsAdd(env, code, d, 1, n - 1);
        var k1 := Backward(env, plain, marks, code, pos, p.c.pc, p.c.temps, p.c.m, n - 1);
        Chain(env, plain, c, 1, k1);
        k := 1 + k1;
      } else {
        OneOutcome(env, code, d, p, n);
      }
    }
  }

  /** Joined and unjoined code have the same runs: one stops with an outcome exactly when the
      other does. */
  lemma SameBehaviour(env: Env, plain: Code, marks: set<nat>, code: Code, pos: seq<int>, m: Mem, o: Outcome)
    requires Joined(plain, marks, code, pos) && ForEachJumps(plain)
    ensures Stops(env, code, Config(0, [], m), o) <==> Stops(env, plain, Config(0, [], m), o)
  {
    hide Step;
    if Stops(env, plain, Config(0, [], m), o) {
      var k: nat :| Steps(env, plain, Config(0, [], m), k) == o;
      var n := Forward(env, plain, marks, code, pos, 0, [], m, k);
    }
    if Stops(env, code, Config(0, [], m), o) {
      var n: nat :| Steps(env, code, Config(0, [], m), n) == o;
      var k := Backward(env, plain, marks, code, pos, 0, [], m, n);
    }
  }
}
