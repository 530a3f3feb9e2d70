/** The code the compiler writes is the code it asked for with stack chunks joined, unless a
    join reaches across a jump target. */
module EmitterJoined {
  import opened Bytecode
  import opened Compile
  import opened Peephole
  import opened Emitter
  import opened EmitterPlain

  ghost predicate Sound(t: Trace) {
    Placed(t) && (!t.crossed ==> Joined(t.plain, t.marks, t.code, t.pos))
  }

  lemma EmptySound()
    ensures Sound(EMPTY)
  {
  }

  // ----- one more chunk -----

  /** More chunks at the end change no border, run or landing before them. */
  lemma Prefix(plain: Code, marks: set<nat>, x: Chunk, i: nat)
    requires i < |plain|
    ensures Border(plain + [x], marks, i) == Border(plain, marks, i)
    ensures Start(plain + [x], marks, i) == Start(plain, marks, i)
    ensures Landing(plain, marks, i) ==> Landing(plain + [x], marks, i)
    decreases i
  {
    if !Border(plain, marks, i) { Prefix(plain, marks, x, i - 1); }
  }

  /** What held of the chunks before still holds when one more is asked for, if the code only
      changes behind the place `keep`. */
  lemma OldChunk(plain: Code, marks: set<nat>, code: Code, pos: seq<int>, x: Chunk, code': Code, i: nat)
    requires Joined(plain, marks, code, pos) && i < |plain| && !plain[i].STACK?
    requires pos[i] < |code'| && code'[pos[i]] == code[pos[i]]
    ensures SameChunk(plain + [x], marks, code', pos + [|code'|], i)
  {
    assert SameChunk(plain, marks, code, pos, i);
  }

  lemma OldRun(plain: Code, marks: set<nat>, code: Code, pos: seq<int>, x: Chunk, code': Code, i: nat)
    requires Joined(plain, marks, code, pos) && i < |plain| && plain[i].STACK? && Border(plain, marks, i + 1)
    requires pos[i + 1] <= |code'| && code'[..pos[i + 1]] == code[..pos[i + 1]]
    ensures SameRun(plain + [x], marks, code', pos + [|code'|], i)
  {
    assert SameRun(plain, marks, code, pos, i);
    Prefix(plain, marks, x, i);
    var a := Start(plain, marks, i);
    assert (plain + [x])[a..i + 1] == plain[a..i + 1];
    assert code'[pos[a]..pos[i + 1]] == code[pos[a]..pos[i + 1]];
  }

  /** A chunk that is kept apart from those before it. */
  lemma AppendJoined(plain: Code, marks: set<nat>, code: Code, pos: seq<int>, x: Chunk, y: Chunk)
    requires Joined(plain, marks, code, pos)
    requires x.STACK? ==> |plain| == 0 || |plain| in marks || !Last(plain).STACK?
    requires if x.JMP? then Landing(plain + [x], marks, |plain| + x.off) && |plain| + x.off <= |plain|
                            && y == JMP(x.jkind, pos[|plain| + x.off] - |code|)
             else y == x
    ensures Joined(plain + [x], marks, code + [y], pos + [|code| + 1])
  {
    var plain', code', pos' := plain + [x], code + [y], pos + [|code| + 1];
    var n := |plain|;
    forall i: nat | i < |plain'| && !plain'[i].STACK? ensures SameChunk(plain', marks, code', pos', i) {
      if i < n {
        assert SameChunk(plain, marks, code, pos, i);
        OldChunk(plain, marks, code, pos, x, code', i);
      }
    }
    forall i: nat | i < |plain'| && plain'[i].STACK? && Border(plain', marks, i + 1)
        ensures SameRun(plain', marks, code', pos', i) {
      if i < n {
        if i + 1 < n { Prefix(plain, marks, x, i + 1); }
        assert SameRun(plain, marks, code, pos, i);
        OldRun(plain, marks, code, pos, x, code', i);
      } else {
        assert plain'[n..n + 1] == [x] && code'[pos'[n]..pos'[n + 1]] == [x];
      }
    }
  }

  lemma EffAppend(a: Code, n: int)
    requires AllStack(a)
    ensures AllStack(a + [STACK(n)]) && Eff(a + [STACK(n)]) == AndThen(Eff(a), n)
  {
    assert (a + [STACK(n)])[..|a|] == a;
  }

  lemma Twice(f: Effect, m: int, n: int)
    requires n <= 0 || m >= 0
    ensures AndThen(AndThen(f, m), n) == AndThen(f, m + n)
    ensures AndThen(f, 0) == f
  {
  }

  /** Joining to the last of some stack chunks has the effect of one chunk more. */
  lemma EffJoin(a: Code, n: int)
    requires |a| > 0 && AllStack(a) && (n <= 0 || Last(a).n >= 0)
    ensures AllStack(JoinInto(a, n)) && Eff(JoinInto(a, n)) == AndThen(Eff(a), n)
  {
    hide Eff, AndThen;
    var b, m := a[..|a| - 1], Last(a).n;
    assert a == b + [STACK(m)];
    EffAppend(b, m);
    Twice(Eff(b), m, n);
    if m + n != 0 {
      EffAppend(b, m + n);
      assert JoinInto(a, n) == b + [STACK(m + n)];
    }
  }

  /** A stack chunk that continues a run: it may be joined to the run's last chunk. */
  lemma ContinueJoined(plain: Code, marks: set<nat>, code: Code, pos: seq<int>, n: int, code': Code)
    requires Joined(plain, marks, code, pos)
    requires |plain| > 0 && Last(plain).STACK? && |plain| !in marks
    requires var p := pos[Start(plain, marks, |plain| - 1)];
             code' == code + [STACK(n)]
             || (0 <= p < |code| && Last(code).STACK? && (n <= 0 || Last(code).n >= 0) && code' == JoinInto(code, n))
    ensures Joined(plain + [STACK(n)], marks, code', pos + [|code'|])
  {
    hide Eff, AllStack, SameRun, SameChunk, Start;
    var plain', pos' := plain + [STACK(n)], pos + [|code'|];
    var k := |plain|;
    RunOfEnd(plain, marks, code, pos, n);
    forall i: nat | i < |plain'| && !plain'[i].STACK? ensures SameChunk(plain', marks, code', pos', i) {
      OldBelowRun(plain, marks, code, pos, i);
      OldChunk(plain, marks, code, pos, STACK(n), code', i);
    }
    forall i: nat | i < |plain'| && plain'[i].STACK? && Border(plain', marks, i + 1)
        ensures SameRun(plain', marks, code', pos', i) {
      if i < k {
        Prefix(plain, marks, STACK(n), i + 1);
        OldRunBelowRun(plain, marks, code, pos, i);
        OldRun(plain, marks, code, pos, STACK(n), code', i);
      } else {
        LastRun(plain, marks, code, pos, n, code');
      }
    }
  }

  lemma LastRun(plain: Code, marks: set<nat>, code: Code, pos: seq<int>, n: int, code': Code)
    requires Joined(plain, marks, code, pos)
    requires |plain| > 0 && Last(plain).STACK? && |plain| !in marks
    requires var p := pos[Start(plain, marks, |plain| - 1)];
             code' == code + [STACK(n)]
             || (0 <= p < |code| && Last(code).STACK? && (n <= 0 || Last(code).n >= 0) && code' == JoinInto(code, n))
    ensures SameRun(plain + [STACK(n)], marks, code', pos + [|code'|], |plain|)
  {
    hide Joined, Eff, AllStack, Start;
    var k := |plain|;
    var a := Start(plain, marks, k - 1);
    RunOfEnd(plain, marks, code, pos, n);
    assert (plain + [STACK(n)])[a..k + 1] == plain[a..k] + [STACK(n)];
    EffAppend(plain[a..k], n);
    RunCode(code, pos[a], n, code');
    assert code'[pos[a]..|code'|] == code'[pos[a]..];
  }

  /** The run at the end, which another stack chunk would continue. */
  lemma RunOfEnd(plain: Code, marks: set<nat>, code: Code, pos: seq<int>, n: int)
    requires Joined(plain, marks, code, pos) && |plain| > 0 && Last(plain).STACK?
    ensures var a := Start(plain, marks, |plain| - 1);
            |pos| == |plain| + 1 && 0 <= pos[a] <= |code| && AllStack(plain[a..|plain|]) && AllStack(code[pos[a]..])
            && Eff(plain[a..|plain|]) == Eff(code[pos[a]..])
    ensures |plain| !in marks ==> Start(plain + [STACK(n)], marks, |plain|) == Start(plain, marks, |plain| - 1)
  {
    var k := |plain|;
    var a := Start(plain, marks, k - 1);
    assert SameRun(plain, marks, code, pos, k - 1);
    Prefix(plain, marks, STACK(n), k - 1);
    assert code[pos[a]..pos[k]] == code[pos[a]..];
  }

  /** The code of a run with one stack chunk more, joined or not. */
  lemma RunCode(code: Code, p: nat, n: int, code': Code)
    requires p <= |code| && AllStack(code[p..])
    requires code' == code + [STACK(n)]
             || (p < |code| && Last(code).STACK? && (n <= 0 || Last(code).n >= 0) && code' == JoinInto(code, n))
    ensures p <= |code'| && AllStack(code'[p..]) && Eff(code'[p..]) == AndThen(Eff(code[p..]), n)
  {
    var run := code[p..];
    if code' == code + [STACK(n)] {
      assert code'[p..] == run + [STACK(n)];
      EffAppend(run, n);
    } else {
      EffJoin(run, n);
      assert code'[p..] == JoinInto(run, n);
    }
  }

  /** Places of borders come in order. */
  lemma {:induction false} BorderOrder(plain: Code, marks: set<nat>, code: Code, pos: seq<int>, i: nat, j: nat)
    requires Joined(plain, marks, code, pos) && i <= j <= |plain| && Border(plain, marks, i) && Border(plain, marks, j)
    ensures pos[i] <= pos[j] && (i < j && !plain[i].STACK? ==> pos[i] < pos[j])
    decreases j - i
  {
    if i < j {
      var b := Stop(plain, marks, i);
      if plain[i].STACK? {
        RunIsStacks(plain, marks, i, b - 1);
        assert SameRun(plain, marks, code, pos, b - 1);
      } else {
        assert SameChunk(plain, marks, code, pos, i);
        assert Border(plain, marks, i + 1);
      }
      BorderOrder(plain, marks, code, pos, b, j);
    }
  }

  /** Chunks before the last run stand before its code. */
  lemma OldBelowRun(plain: Code, marks: set<nat>, code: Code, pos: seq<int>, i: nat)
    requires Joined(plain, marks, code, pos) && i < |plain| && !plain[i].STACK?
    requires |plain| > 0 && Last(plain).STACK?
    ensures 0 <= pos[i] < pos[Start(plain, marks, |plain| - 1)] <= |code|
  {
    var a := Start(plain, marks, |plain| - 1);
    assert SameChunk(plain, marks, code, pos, i);
    assert SameRun(plain, marks, code, pos, |plain| - 1);
    BorderOrder(plain, marks, code, pos, i, a);
  }

  lemma OldRunBelowRun(plain: Code, marks: set<nat>, code: Code, pos: seq<int>, i: nat)
    requires Joined(plain, marks, code, pos) && i + 1 < |plain| && plain[i].STACK? && Border(plain, marks, i + 1)
    requires Last(plain).STACK?
    ensures 0 <= pos[i + 1] <= pos[Start(plain, marks, |plain| - 1)] <= |code|
  {
    assert SameRun(plain, marks, code, pos, |plain| - 1);
    assert SameRun(plain, marks, code, pos, i);
    BorderOrder(plain, marks, code, pos, i + 1, Start(plain, marks, |plain| - 1));
  }

  lemma RunPlace(plain: Code, marks: set<nat>, code: Code, pos: seq<int>)
    requires Joined(plain, marks, code, pos) && |plain| > 0 && Last(plain).STACK?
    ensures 0 <= pos[Start(plain, marks, |plain| - 1)] <= |code|
  {
    assert SameRun(plain, marks, code, pos, |plain| - 1);
  }

  // ----- the steps of the compiler -----

  lemma PutSound(strict: nat, t: Trace, x: Chunk)
    requires Sound(t)
    requires Converted(strict, x).JMP? ==> Converted(strict, x).off == 0
    ensures Sound(Put(strict, t, x))
  {
    hide Joined;
    var c := Converted(strict, x);
    PutPlaced(strict, t, x);
    if !Put(strict, t, x).crossed {
      if !t.jump && Joins(t.code, c) {
        RunPlace(t.plain, t.marks, t.code, t.pos);
        ContinueJoined(t.plain, t.marks, t.code, t.pos, c.n, JoinInto(t.code, c.n));
      } else if c.STACK? && |t.plain| > 0 && |t.plain| !in t.marks && Last(t.plain).STACK? {
        ContinueJoined(t.plain, t.marks, t.code, t.pos, c.n, t.code + [c]);
      } else {
        assert t.pos[|t.plain|] == |t.code|;
        AppendJoined(t.plain, t.marks, t.code, t.pos, c, c);
      }
    }
  }

  lemma PutBackSound(t: Trace, w: nat)
    requires Sound(t) && w < |t.pos| && Landing(t.plain, t.marks, w)
    ensures Sound(PutBack(t, w))
  {
    hide Joined;
    PutBackPlaced(t, w);
    if !t.crossed {
      AppendJoined(t.plain, t.marks, t.code, t.pos, JMP(Always, w - |t.plain|), JMP(Always, t.pos[w] - |t.code|));
    }
  }

  /** Marking the end changes no border: the end is one. */
  lemma {:induction false} SameWithEnd(plain: Code, marks: set<nat>, i: nat)
    requires i <= |plain|
    ensures Border(plain, marks + {|plain|}, i) == Border(plain, marks, i)
    ensures Start(plain, marks + {|plain|}, i) == Start(plain, marks, i)
    decreases i
  {
    if !Border(plain, marks, i) { SameWithEnd(plain, marks, i - 1); }
  }

  lemma HereSound(t: Trace)
    requires Sound(t)
    ensures Sound(Here(t))
  {
    HerePlaced(t);
    if !t.crossed {
      var marks := t.marks + {|t.plain|};
      forall i: nat | i < |t.plain| && !t.plain[i].STACK? ensures SameChunk(t.plain, marks, t.code, t.pos, i) {
        assert SameChunk(t.plain, t.marks, t.code, t.pos, i);
      }
      forall i: nat | i < |t.plain| && t.plain[i].STACK? && Border(t.plain, marks, i + 1)
        ensures SameRun(t.plain, marks, t.code, t.pos, i)
      {
        SameWithEnd(t.plain, t.marks, i);
        SameWithEnd(t.plain, t.marks, i + 1);
        assert SameRun(t.plain, t.marks, t.code, t.pos, i);
      }
    }
  }

  /** One chunk, no stack chunk before or after, is exchanged at its place. */
  lemma ExchangeJoined(plain: Code, marks: set<nat>, code: Code, pos: seq<int>, g: nat, x: Chunk, y: Chunk)
    requires Joined(plain, marks, code, pos) && g < |plain| && !plain[g].STACK? && !x.STACK?
    requires if x.JMP? then Landing(plain, marks, g + x.off) && y == JMP(x.jkind, pos[g + x.off] - pos[g]) else y == x
    ensures 0 <= pos[g] < |code|
    ensures Joined(plain[g := x], marks, code[pos[g] := y], pos)
  {
    assert SameChunk(plain, marks, code, pos, g);
    var plain', code' := plain[g := x], code[pos[g] := y];
    forall i: nat | i < |plain| && !plain'[i].STACK? ensures SameChunk(plain', marks, code', pos, i) {
      assert SameChunk(plain, marks, code, pos, i);
      if i < g { BorderOrder(plain, marks, code, pos, i, g); }
      if g < i { BorderOrder(plain, marks, code, pos, g, i); }
    }
    forall i: nat | i < |plain| && plain'[i].STACK? && Border(plain', marks, i + 1)
        ensures SameRun(plain', marks, code', pos, i) {
      assert Border(plain, marks, i + 1);
      assert SameRun(plain, marks, code, pos, i);
      var a := Start(plain, marks, i);
      SameStart(plain, plain', marks, i);
      assert plain'[a..i + 1] == plain[a..i + 1];
      if g < a { BorderOrder(plain, marks, code, pos, g, a); } else { BorderOrder(plain, marks, code, pos, i + 1, g); }
      assert code'[pos[a]..pos[i + 1]] == code[pos[a]..pos[i + 1]];
    }
  }

  lemma {:induction false} SameStart(plain: Code, plain': Code, marks: set<nat>, i: nat)
    requires |plain| == |plain'| && i <= |plain|
    requires forall j :: 0 <= j < |plain| ==> plain[j].STACK? == plain'[j].STACK?
    ensures Border(plain, marks, i) == Border(plain', marks, i) && Start(plain, marks, i) == Start(plain', marks, i)
    decreases i
  {
    if !Border(plain, marks, i) { SameStart(plain, plain', marks, i - 1); }
  }

  lemma RedirectSound(t: Trace, g: nat, w: nat)
    requires Sound(t) && g < |t.plain| && t.plain[g].JMP? && Landing(t.plain, t.marks, w)
    ensures Sound(Redirect(t, g, w))
  {
    hide Joined;
    RedirectPlaced(t, g, w);
    if !t.crossed {
      ExchangeJoined(t.plain, t.marks, t.code, t.pos, g, JMP(t.plain[g].jkind, w - g),
          JMP(t.plain[g].jkind, t.pos[w] - t.pos[g]));
    }
  }

  lemma RedirectHereSound(t: Trace, g: nat)
    requires Sound(t) && g < |t.plain| && t.plain[g].JMP?
    ensures Sound(RedirectHere(t, g))
  {
    HereSound(t);
    RedirectSound(Here(t), g, |t.plain|);
  }

  lemma NoRefSound(t: Trace)
    requires Sound(t) && Aligned(t) && !Last(t.plain).JMP?
    ensures Sound(NoRef(t))
  {
    hide Joined;
    NoRefPlaced(t);
    if !t.crossed && !Last(t.plain).STACK? {
      LastPlace(t);
      ExchangeJoined(t.plain, t.marks, t.code, t.pos, |t.plain| - 1, ToValue(Last(t.plain)), ToValue(Last(t.code)));
    } else {
      assert !t.crossed ==> LastToValue(t.plain) == t.plain && LastToValue(t.code) == t.code;
    }
  }

  lemma NegateSound(t: Trace)
    requires Sound(t) && Aligned(t) && EndsInInt(t.code) && Placed(Negate(t))
    ensures Sound(Negate(t))
  {
    hide Joined;
    LastPlace(t);
    if !t.crossed {
      var x := INT(-Last(t.code).x);
      ExchangeJoined(t.plain, t.marks, t.code, t.pos, |t.plain| - 1, x, x);
    }
  }
}
