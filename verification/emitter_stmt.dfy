/** The same for statements: jumps out of loops and back are filled in so that the chunks
    asked for are the unjoined code. */
module EmitterStmt {
  import opened Bytecode
  import opened Source
  import opened Compile
  import opened Emitter
  import opened EmitterPlain

  // ----- controls -----

  /** The `break`s and `continue`s of the loop around `s`, whose code starts at `base`. */
  function ControlsOf(strict: nat, ref: bool, s: Stmt, base: nat): seq<Control>
    decreases s
  {
    match s
    case SSeq(a, b) =>
      ControlsOf(strict, ref, b, base + |CodeS(strict, a, ref, Pending)|) + ControlsOf(strict, ref, a, base)
    case SIf(c, t) => ControlsOf(strict, ref, t, base + |CodeE(strict, c, true)| + 1)
    case SIfElse(c, t, e) =>
      var n := base + |CodeE(strict, c, true)| + 1;
      ControlsOf(strict, ref, e, n + |CodeS(strict, t, ref, Pending)| + 1) + ControlsOf(strict, ref, t, n)
    case SBreak => [Control(true, base)]
    case SContinue => [Control(false, base)]
    case _ => []
  }

  lemma OpenControls(strict: nat, ref: bool, s: Stmt, base: nat)
    ensures s.SSeq? ==>
              var n := base + |CodeS(strict, s.first, ref, Pending)|;
              ControlsOf(strict, ref, s, base) == ControlsOf(strict, ref, s.second, n) + ControlsOf(strict, ref,
                  s.first, base)
    ensures s.SIf? ==>
              var n := base + |CodeE(strict, s.cond, true)| + 1;
              ControlsOf(strict, ref, s, base) == ControlsOf(strict, ref, s.thn, n)
    ensures s.SIfElse? ==>
              var n := base + |CodeE(strict, s.cond, true)| + 1;
              ControlsOf(strict, ref, s, base) ==
              ControlsOf(strict, ref, s.els, n + |CodeS(strict, s.thn, ref, Pending)| + 1) + ControlsOf(strict, ref,
                  s.thn, n)
    ensures s.SBreak? || s.SContinue? ==> ControlsOf(strict, ref, s, base) == [Control(s.SBreak?, base)]
    ensures !Branches(s) && !s.SBreak? && !s.SContinue? ==> ControlsOf(strict, ref, s, base) == []
  {
    hide CodeS, CodeE;
  }

  /** The controls' jumps led to `brk` and `cont`. */
  function Patched(plain: Code, cs: seq<Control>, brk: int, cont: int): (r: Code)
    requires forall c :: c in cs ==> c.at < |plain|
    ensures |r| == |plain|
    decreases |cs|
  {
    if |cs| == 0 then plain
    else
      var c := cs[0];
      Patched(plain[c.at := JMP(Always, (if c.isBreak then brk else cont) - c.at)], cs[1..], brk, cont)
  }

  lemma {:induction false} PatchedTwice(plain: Code, a: seq<Control>, b: seq<Control>, brk: int, cont: int)
    requires forall c :: c in a + b ==> c.at < |plain|
    ensures (forall c :: c in a ==> c.at < |plain|) && (forall c :: c in b ==> c.at < |plain|)
    ensures Patched(plain, a + b, brk, cont) == Patched(Patched(plain, a, brk, cont), b, brk, cont)
    decreases |a|
  {
    assert forall c :: c in a ==> c in a + b;
    assert forall c :: c in b ==> c in a + b;
    if |a| == 0 {
      assert a + b == b;
    } else {
      var c := a[0];
      assert (a + b)[0] == c && (a + b)[1..] == a[1..] + b;
      assert forall d :: d in a[1..] + b ==> d in a + b;
      PatchedTwice(plain[c.at := JMP(Always, (if c.isBreak then brk else cont) - c.at)], a[1..], b, brk, cont);
    }
  }

  /** Each control stands for a waiting jump inside `code`, whose first chunk is number `base`. */
  ghost predicate Inside(code: Code, cs: seq<Control>, base: nat) {
    forall c :: c in cs ==> base <= c.at < base + |code| && code[c.at - base] == JMP(Always, 0)
  }

  lemma InsideMore(pre: Code, code: Code, suf: Code, cs: seq<Control>, base: nat)
    requires Inside(code, cs, base + |pre|)
    ensures Inside(pre + code + suf, cs, base)
  {
    forall c | c in cs ensures (pre + code + suf)[c.at - base] == code[c.at - base - |pre|] {
    }
  }

  lemma {:induction false} ControlsInside(strict: nat, ref: bool, s: Stmt, base: nat)
    ensures Inside(CodeS(strict, s, ref, Pending), ControlsOf(strict, ref, s, base), base)
    decreases s
  {
    hide CodeE, CodeS, ControlsOf, Inside, IfCode, IfElseCode;
    OpenControls(strict, ref, s, base);
    match s
    case SSeq(a, b) =>
      OpenSeq(strict, s, ref, Pending);
      ControlsInsideSeq(strict, ref, a, b, s, base);
    case SIf(c, t) =>
      OpenIf(strict, s, ref, Pending);
      ControlsInsideIf(strict, ref, c, t, s, base);
    case SIfElse(c, t, e) =>
      OpenIfElse(strict, s, ref, Pending);
      ControlsInsideElse(strict, ref, c, t, e, s, base);
    case _ =>
      JumpCode(strict, s, ref, Pending);
      InsideNone(CodeS(strict, s, ref, Pending), ControlsOf(strict, ref, s, base), base);
  }

  lemma JumpCode(strict: nat, s: Stmt, ref: bool, ctl: Ctl)
    ensures s.SBreak? ==> CodeS(strict, s, ref, ctl) == [JMP(Always, if ctl.To? then ctl.brk else 0)]
    ensures s.SContinue? ==> CodeS(strict, s, ref, ctl) == [JMP(Always, if ctl.To? then ctl.cont else 0)]
  {
  }

  lemma ControlsInsideSeq(strict: nat, ref: bool, a: Stmt, b: Stmt, s: Stmt, base: nat)
    requires a < s && b < s
    ensures var ca, cb := CodeS(strict, a, ref, Pending), CodeS(strict, b, ref, Pending);
            Inside(ca + cb, ControlsOf(strict, ref, b, base + |ca|) + ControlsOf(strict, ref, a, base), base)
    decreases s, 0
  {
    hide CodeE, CodeS, ControlsOf, Inside;
    var ca, cb := CodeS(strict, a, ref, Pending), CodeS(strict, b, ref, Pending);
    ControlsInside(strict, ref, a, base);
    ControlsInside(strict, ref, b, base + |ca|);
    InsideMore([], ca, cb, ControlsOf(strict, ref, a, base), base);
    InsideMore(ca, cb, [], ControlsOf(strict, ref, b, base + |ca|), base);
    assert [] + ca + cb == ca + cb && ca + cb + [] == ca + cb;
    InsideBoth(ca + cb, ControlsOf(strict, ref, b, base + |ca|), ControlsOf(strict, ref, a, base), base);
  }

  lemma InsideNone(code: Code, cs: seq<Control>, base: nat)
    requires |cs| == 0 || (|cs| == 1 && cs[0].at == base && code == [JMP(Always, 0)])
    ensures Inside(code, cs, base)
  {
  }

  lemma InsideBoth(code: Code, a: seq<Control>, b: seq<Control>, base: nat)
    requires Inside(code, a, base) && Inside(code, b, base)
    ensures Inside(code, a + b, base)
  {
  }

  lemma ControlsInsideIf(strict: nat, ref: bool, c: Expr, t: Stmt, s: Stmt, base: nat)
    requires t < s
    ensures var n := |CodeE(strict, c, true)| + 1;
            Inside(IfCode(CodeE(strict, c, true), CodeS(strict, t, ref, Pending)),
                ControlsOf(strict, ref, t, base + n), base)
    decreases s, 0
  {
    hide CodeE, CodeS, ControlsOf, Inside;
    var test, thn := CodeE(strict, c, true), CodeS(strict, t, ref, Pending);
    var n := |test| + 1;
    ControlsInside(strict, ref, t, base + n);
    InsideMore(test + [JMP(Cond, |thn| + 1)], thn, [], ControlsOf(strict, ref, t, base + n), base);
    assert test + [JMP(Cond, |thn| + 1)] + thn + [] == IfCode(test, thn);
  }

  lemma ControlsInsideElse(strict: nat, ref: bool, c: Expr, t: Stmt, e: Stmt, s: Stmt, base: nat)
    requires t < s && e < s
    ensures var test, thn, els := CodeE(strict, c, true), CodeS(strict, t, ref, Pending),
            CodeS(strict, e, ref, Pending);
            var n := base + |test| + 1;
            Inside(IfElseCode(test, thn, els), ControlsOf(strict, ref, e, n + |thn| + 1) + ControlsOf(strict, ref, t,
                n), base)
    decreases s, 0
  {
    hide CodeE, CodeS, ControlsOf, Inside;
    var test, thn, els := CodeE(strict, c, true), CodeS(strict, t, ref, Pending), CodeS(strict, e, ref, Pending);
    var n := base + |test| + 1;
    var over, jump := [JMP(Cond, |thn| + 2)], [JMP(Always, |els| + 1)];
    var ct, ce := ControlsOf(strict, ref, t, n), ControlsOf(strict, ref, e, n + |thn| + 1);
    ControlsInside(strict, ref, t, n);
    ControlsInside(strict, ref, e, n + |thn| + 1);
    InsideMore(test + over, thn, jump + els, ct, base);
    InsideMore(test + over + thn + jump, els, [], ce, base);
    assert test + over + thn + (jump + els) == IfElseCode(test, thn, els);
    assert test + over + thn + jump + els + [] == IfElseCode(test, thn, els);
    InsideBoth(IfElseCode(test, thn, els), ce, ct, base);
  }

  /** Leading the controls of a statement to their targets turns its waiting code into its final
      code, and changes nothing around it. */
  ghost predicate Patches(pre: Code, suf: Code, waiting: Code, final: Code, cs: seq<Control>, brk: int, cont: int) {
    (forall c :: c in cs ==> c.at < |pre + waiting + suf|)
    && Patched(pre + waiting + suf, cs, brk, cont) == pre + final + suf
  }

  lemma {:induction false} PatchedCode(strict: nat, ref: bool, s: Stmt, pre: Code, suf: Code, brk: int, cont: int)
    ensures Patches(pre, suf, CodeS(strict, s, ref, Pending), CodeS(strict, s, ref, To(brk - |pre|, cont - |pre|)),
                    ControlsOf(strict, ref, s, |pre|), brk, cont)
    decreases s, 1
  {
    hide CodeE, CodeS, ControlsOf, Patches, IfCode, IfElseCode;
    var to := To(brk - |pre|, cont - |pre|);
    OpenControls(strict, ref, s, |pre|);
    match s
    case SSeq(a, b) =>
      OpenSeq(strict, s, ref, Pending);
      OpenSeq(strict, s, ref, to);
      PatchedSeq(strict, ref, s, a, b, pre, suf, brk, cont);
    case SIf(c, t) =>
      OpenIf(strict, s, ref, Pending);
      OpenIf(strict, s, ref, to);
      PatchedIf(strict, ref, s, c, t, pre, suf, brk, cont);
    case SIfElse(c, t, e) =>
      OpenIfElse(strict, s, ref, Pending);
      OpenIfElse(strict, s, ref, to);
      PatchedElse(strict, ref, s, c, t, e, pre, suf, brk, cont);
    case SBreak => PatchedJump(strict, ref, s, pre, suf, brk, cont);
    case SContinue => PatchedJump(strict, ref, s, pre, suf, brk, cont);
    case _ =>
      OpenOther(strict, s, ref, Pending, to);
      PatchedNone(pre, suf, CodeS(strict, s, ref, Pending), brk, cont);
  }

  lemma PatchedJump(strict: nat, ref: bool, s: Stmt, pre: Code, suf: Code, brk: int, cont: int)
    requires s.SBreak? || s.SContinue?
    ensures Patches(pre, suf, CodeS(strict, s, ref, Pending), CodeS(strict, s, ref, To(brk - |pre|, cont - |pre|)),
                    ControlsOf(strict, ref, s, |pre|), brk, cont)
  {
    hide Patches, CodeS, ControlsOf;
    JumpCode(strict, s, ref, Pending);
    JumpCode(strict, s, ref, To(brk - |pre|, cont - |pre|));
    OpenControls(strict, ref, s, |pre|);
    PatchedOne(pre, suf, s.SBreak?, brk, cont);
  }

  lemma PatchedNone(pre: Code, suf: Code, code: Code, brk: int, cont: int)
    ensures Patches(pre, suf, code, code, [], brk, cont)
  {
  }

  lemma PatchedOne(pre: Code, suf: Code, isBreak: bool, brk: int, cont: int)
    ensures Patches(pre, suf, [JMP(Always, 0)], [JMP(Always, (if isBreak then brk else cont) - |pre|)],
                    [Control(isBreak, |pre|)], brk, cont)
  {
    var to := JMP(Always, (if isBreak then brk else cont) - |pre|);
    assert (pre + [JMP(Always, 0)] + suf)[|pre| := to] == pre + [to] + suf;
    assert Patched(pre + [to] + suf, [], brk, cont) == pre + [to] + suf;
  }

  /** The same with more code around it. */
  lemma PatchedAround(pre: Code, p: Code, waiting: Code, final: Code, q: Code, suf: Code, cs: seq<Control>, brk: int,
                      cont: int)
    requires Patches(pre + p, q + suf, waiting, final, cs, brk, cont)
    ensures Patches(pre, suf, p + waiting + q, p + final + q, cs, brk, cont)
  {
    assert pre + (p + waiting + q) + suf == (pre + p) + waiting + (q + suf);
    assert pre + (p + final + q) + suf == (pre + p) + final + (q + suf);
  }

  lemma PatchedInTurn(pre: Code, suf: Code, x: Code, y: Code, z: Code, a: seq<Control>, b: seq<Control>, brk: int,
                      cont: int)
    requires Patches(pre, suf, x, y, a, brk, cont) && Patches(pre, suf, y, z, b, brk, cont) && |x| == |y|
    ensures Patches(pre, suf, x, z, a + b, brk, cont)
  {
    assert forall c :: c in a + b ==> c in a || c in b;
    PatchedTwice(pre + x + suf, a, b, brk, cont);
  }

  lemma PatchedSeq(strict: nat, ref: bool, s: Stmt, a: Stmt, b: Stmt, pre: Code, suf: Code, brk: int, cont: int)
    requires a < s && b < s
    ensures var to := To(brk - |pre|, cont - |pre|);
            var ca, cb := CodeS(strict, a, ref, Pending), CodeS(strict, b, ref, Pending);
            var fa := CodeS(strict, a, ref, to);
            Patches(pre, suf, ca + cb, fa + CodeS(strict, b, ref, Later(to, |fa|)),
                    ControlsOf(strict, ref, b, |pre| + |ca|) + ControlsOf(strict, ref, a, |pre|), brk, cont)
    decreases s, 0
  {
    hide CodeE, CodeS, ControlsOf, Patches;
    var to := To(brk - |pre|, cont - |pre|);
    var ca, cb := CodeS(strict, a, ref, Pending), CodeS(strict, b, ref, Pending);
    var fa := CodeS(strict, a, ref, to);
    SameLength(strict, a, ref, Pending, to);
    var fb := CodeS(strict, b, ref, Later(to, |fa|));
    SameLength(strict, b, ref, Pending, Later(to, |fa|));
    var xa, xb := ControlsOf(strict, ref, a, |pre|), ControlsOf(strict, ref, b, |pre| + |ca|);
    assert To(brk - |pre + ca|, cont - |pre + ca|) == Later(to, |fa|);
    PatchedCode(strict, ref, b, pre + ca, [] + suf, brk, cont);
    PatchedAround(pre, ca, cb, fb, [], suf, xb, brk, cont);
    PatchedCode(strict, ref, a, pre + [], fb + suf, brk, cont);
    assert pre + [] == pre;
    PatchedAround(pre, [], ca, fa, fb, suf, xa, brk, cont);
    assert ca + cb + [] == ca + cb && ca + fb + [] == [] + ca + fb && [] + fa + fb == fa + fb;
    PatchedInTurn(pre, suf, ca + cb, ca + fb + [], fa + fb, xb, xa, brk, cont);
  }

  lemma PatchedIf(strict: nat, ref: bool, s: Stmt, c: Expr, t: Stmt, pre: Code, suf: Code, brk: int, cont: int)
    requires t < s
    ensures var test := CodeE(strict, c, true);
            var ct := CodeS(strict, t, ref, Pending);
            var ft := CodeS(strict, t, ref, Later(To(brk - |pre|, cont - |pre|), |test| + 1));
            Patches(pre, suf, IfCode(test, ct), IfCode(test, ft), ControlsOf(strict, ref, t, |pre| + |test| + 1), brk,
                cont)
    decreases s, 0
  {
    hide CodeE, CodeS, ControlsOf, Patches;
    var test := CodeE(strict, c, true);
    var later := Later(To(brk - |pre|, cont - |pre|), |test| + 1);
    var ct, ft := CodeS(strict, t, ref, Pending), CodeS(strict, t, ref, later);
    SameLength(strict, t, ref, Pending, later);
    var p := test + [JMP(Cond, |ct| + 1)];
    assert later == To(brk - |pre + p|, cont - |pre + p|);
    PatchedCode(strict, ref, t, pre + p, [] + suf, brk, cont);
    PatchedAround(pre, p, ct, ft, [], suf, ControlsOf(strict, ref, t, |pre| + |test| + 1), brk, cont);
    assert p + ct + [] == IfCode(test, ct) && p + ft + [] == IfCode(test, ft);
  }

  lemma PatchedElse(strict: nat, ref: bool, s: Stmt, c: Expr, t: Stmt, e: Stmt, pre: Code, suf: Code, brk: int,
                    cont: int)
    requires t < s && e < s
    ensures var test := CodeE(strict, c, true);
            var to := To(brk - |pre|, cont - |pre|);
            var n := |pre| + |test| + 1;
            var ct, ce := CodeS(strict, t, ref, Pending), CodeS(strict, e, ref, Pending);
            var ft := CodeS(strict, t, ref, Later(to, |test| + 1));
            var fe := CodeS(strict, e, ref, Later(to, |test| + |ft| + 2));
            Patches(pre, suf, IfElseCode(test, ct, ce), IfElseCode(test, ft, fe),
                    ControlsOf(strict, ref, e, n + |ct| + 1) + ControlsOf(strict, ref, t, n), brk, cont)
    decreases s, 0
  {
    hide CodeE, CodeS, ControlsOf, Patches;
    var test := CodeE(strict, c, true);
    var to := To(brk - |pre|, cont - |pre|);
    var n := |pre| + |test| + 1;
    var ct, ce := CodeS(strict, t, ref, Pending), CodeS(strict, e, ref, Pending);
    var ft := CodeS(strict, t, ref, Later(to, |test| + 1));
    SameLength(strict, t, ref, Pending, Later(to, |test| + 1));
    var fe := CodeS(strict, e, ref, Later(to, |test| + |ft| + 2));
    SameLength(strict, e, ref, Pending, Later(to, |test| + |ft| + 2));
    var p, mid := test + [JMP(Cond, |ct| + 2)], [JMP(Always, |ce| + 1)];
    var xt, xe := ControlsOf(strict, ref, t, n), ControlsOf(strict, ref, e, n + |ct| + 1);
    var pe := p + ct + mid;
    assert Later(to, |test| + |ft| + 2) == To(brk - |pre + pe|, cont - |pre + pe|);
    PatchedCode(strict, ref, e, pre + pe, [] + suf, brk, cont);
    PatchedAround(pre, pe, ce, fe, [], suf, xe, brk, cont);
    assert Later(to, |test| + 1) == To(brk - |pre + p|, cont - |pre + p|);
    PatchedCode(strict, ref, t, pre + p, mid + fe + suf, brk, cont);
    PatchedAround(pre, p, ct, ft, mid + fe, suf, xt, brk, cont);
    assert pe + ce + [] == IfElseCode(test, ct, ce) && pe + fe + [] == p + ct + (mid + fe);
    assert p + ft + (mid + fe) == IfElseCode(test, ft, fe);
    PatchedInTurn(pre, suf, pe + ce + [], p + ct + (mid + fe), p + ft + (mid + fe), xe, xt, brk, cont);
  }

  // ----- the end of a loop -----

  lemma {:induction false} ResolvePlaced(t: Trace, cs: seq<Control>, w: nat)
    requires Placed(t) && w <= |t.plain|
    requires forall c :: c in cs ==> c.at < |t.plain| && t.plain[c.at].JMP? && t.plain[c.at].jkind == Always
    ensures var t' := Resolve(t, cs, w);
            Placed(t') && t'.plain == Patched(t.plain, cs, |t.plain|, w)
            && t'.height == t.height && t.marks <= t'.marks && t'.pos == t.pos
    decreases |cs|
  {
    hide Redirect, RedirectHere, Placed;
    if |cs| > 0 {
      assert cs[0] in cs && forall c :: c in cs[1..] ==> c in cs;
      var t1 := if cs[0].isBreak then RedirectHere(t, cs[0].at) else Redirect(t, cs[0].at, w);
      if cs[0].isBreak { RedirectHerePlaced(t, cs[0].at); } else { RedirectPlaced(t, cs[0].at, w); }
      ResolvePlaced(t1, cs[1..], w);
    }
  }

  /** Closing a loop: `head` stands before the body, with at most one jump out, chunk `exit`;
      rounds end at chunk `r`. */
  lemma EndLoopWrote(strict: nat, ref: bool, t0: Trace, w: Written, head: Code, up: int, body: Stmt, r: nat,
                     exits: seq<nat>)
    requires var b := CodeS(strict, body, ref, Pending);
             Wrote(t0, w.t, head + b, up) && w.controls == ControlsOf(strict, ref, body, |t0.plain| + |head|)
    requires r <= |head| && |exits| <= 1
    requires |exits| > 0 ==> |t0.plain| <= exits[0] < |t0.plain| + |head| && head[exits[0] - |t0.plain|].JMP?
    ensures var b := |CodeS(strict, body, ref, Pending)|;
            Wrote(t0, EndLoop(w, |t0.plain| + r, exits),
                  Closed(head, exits, |t0.plain|, |head| + b + 1)
                  + CodeS(strict, body, ref, To(b + 1, r - |head|)) + [JMP(Always, r - |head| - b)], up)
  {
    hide Placed, Wrote, CodeS, ControlsOf, RedirectHere, PutBack, Resolve, Closed;
    var b := CodeS(strict, body, ref, Pending);
    var back := JMP(Always, r - |head| - |b|);
    BackWrote(t0, w.t, head + b, up, r);
    var t1 := PutBack(w.t, |t0.plain| + r);
    ExitWrote(t0, t1, head, b, back, up, exits);
    var t2 := if |exits| > 0 then RedirectHere(t1, exits[0]) else t1;
    ResolveWrote(strict, ref, t0, t2, w.controls, Closed(head, exits, |t0.plain|, |head| + |b| + 1), up, body, back, r);
  }

  lemma ExitWrote(t0: Trace, t1: Trace, head: Code, b: Code, back: Chunk, up: int, exits: seq<nat>)
    requires Wrote(t0, t1, head + b + [back], up) && |exits| <= 1
    requires |exits| > 0 ==> |t0.plain| <= exits[0] < |t0.plain| + |head| && head[exits[0] - |t0.plain|].JMP?
    ensures Wrote(t0, if |exits| > 0 then RedirectHere(t1, exits[0]) else t1,
                  Closed(head, exits, |t0.plain|, |head| + |b| + 1) + b + [back], up)
  {
    hide Wrote, Placed, RedirectHere;
    if |exits| > 0 {
      var x := exits[0] - |t0.plain|;
      RedirectHereWrote(t0, t1, head + b + [back], up, x);
      assert (head + b + [back])[x := JMP(head[x].jkind, |head| + |b| + 1 - x)]
        == Closed(head, exits, |t0.plain|, |head| + |b| + 1) + b + [back];
    }
  }

  /** `head` with its jump out, if any, leading to chunk `end` of the loop. */
  function Closed(head: Code, exits: seq<nat>, base: nat, end: int): (r: Code)
    requires |exits| > 0 ==> base <= exits[0] < base + |head| && head[exits[0] - base].JMP?
    ensures |r| == |head|
  {
    if |exits| == 0 then head
    else var x := exits[0] - base; head[x := JMP(head[x].jkind, end - x)]
  }

  /** The controls of a body that stands behind `head`, with one chunk after it. */
  lemma ResolveWrote(strict: nat, ref: bool, t0: Trace, t: Trace, cs: seq<Control>, head: Code, up: int, body: Stmt,
                     back: Chunk, r: nat)
    requires var b := CodeS(strict, body, ref, Pending);
             Wrote(t0, t, head + b + [back], up) && cs == ControlsOf(strict, ref, body, |t0.plain| + |head|)
    requires r <= |head|
    ensures var b := |CodeS(strict, body, ref, Pending)|;
            Wrote(t0, Resolve(t, cs, |t0.plain| + r), head + CodeS(strict, body, ref, To(b + 1, r - |head|)) + [back],
                up)
  {
    hide Placed, CodeS, ControlsOf, Resolve;
    var b := CodeS(strict, body, ref, Pending);
    var base, pre := |t0.plain|, t0.plain + head;
    assert t.plain == pre + b + [back];
    PatchedCode(strict, ref, body, pre, [back], |pre| + |b| + 1, base + r);
    ControlsInside(strict, ref, body, |pre|);
    forall c | c in cs ensures c.at < |t.plain| && t.plain[c.at] == JMP(Always, 0) {
      assert t.plain[c.at] == b[c.at - |pre|];
    }
    ResolvePlaced(t, cs, base + r);
    var final := CodeS(strict, body, ref, To(|b| + 1, r - |head|));
    assert pre + final + [back] == t0.plain + (head + final + [back]);
  }

  lemma BackWrote(t0: Trace, t: Trace, code: Code, up: int, r: nat)
    requires Wrote(t0, t, code, up) && r <= |code|
    ensures |t0.plain| + r < |t.pos|
    ensures Wrote(t0, PutBack(t, |t0.plain| + r), code + [JMP(Always, r - |code|)], up)
  {
    PutBackPlaced(t, |t0.plain| + r);
    assert t0.plain + code + [JMP(Always, r - |code|)] == t0.plain + (code + [JMP(Always, r - |code|)]);
  }

  // ----- statements -----

  /** Writing a statement asks for its code and leaves the stack as high as before. */
  lemma {:induction false} GenSWrites(strict: nat, ref: bool, t: Trace, s: Stmt)
    requires Placed(t)
    ensures var w := GenS(strict, ref, t, s);
            Wrote(t, w.t, CodeS(strict, s, ref, Pending), 0) && w.controls == ControlsOf(strict, ref, s, |t.plain|)
    decreases s, 3
  {
    hide Placed, GenE, CodeE, GenS, CodeS, ControlsOf;
    if Branches(s) {
      GenBranchWrites(strict, ref, t, s);
    } else if s.SWhile? || s.SFor? || s.SForEach? {
      GenLoopWrites(strict, ref, t, s);
    } else {
      GenLeafWrites(strict, ref, t, s);
    }
  }

  lemma GenLeafWrites(strict: nat, ref: bool, t: Trace, s: Stmt)
    requires Placed(t) && !Branches(s) && !s.SWhile? && !s.SFor? && !s.SForEach?
    ensures var w := GenS(strict, ref, t, s);
            Wrote(t, w.t, CodeS(strict, s, ref, Pending), 0) && w.controls == ControlsOf(strict, ref, s, |t.plain|)
  {
    hide Placed, Put, NoRefIf, NoRef, GenE, CodeE, ControlsOf, Wrote;
    OpenControls(strict, ref, s, |t.plain|);
    match s
    case SEmpty => SelfWrote(t);
    case SExpr(e, valueOnly) =>
      GenValueWrites(strict, t, e, valueOnly);
      PutWrote(strict, t, NoRefIf(GenE(strict, t, e), valueOnly), CodeE(strict, e, valueOnly), 1, STACK(-1));
    case SVar(v, e) => GenVarWrites(strict, t, e, IVARN(v), true);
    case SReturn(e) => GenVarWrites(strict, t, e, RETURN, !ref);
    case SBreak => GenJumpWrites(strict, t);
    case SContinue => GenJumpWrites(strict, t);
    case SReturnNil =>
      SelfWrote(t);
      PutWrote(strict, t, t, [], 0, NIL);
      PutWrote(strict, t, Put(strict, t, NIL), [] + [NIL], 1, RETURN);
      assert [] + [NIL] + [RETURN] == [NIL, RETURN];
  }

  lemma GenBranchWrites(strict: nat, ref: bool, t: Trace, s: Stmt)
    requires Placed(t) && Branches(s)
    ensures var w := GenS(strict, ref, t, s);
            Wrote(t, w.t, CodeS(strict, s, ref, Pending), 0) && w.controls == ControlsOf(strict, ref, s, |t.plain|)
    decreases s, 2
  {
    hide Wrote, Placed, GenS, CodeS, ControlsOf;
    match s
    case SSeq(_, _) => WriteSeq(strict, ref, t, s);
    case SIf(_, _) => WriteIf(strict, ref, t, s);
    case SIfElse(_, _, _) => WriteIfElse(strict, ref, t, s);
  }

  lemma WriteSeq(strict: nat, ref: bool, t: Trace, s: Stmt)
    requires Placed(t) && s.SSeq?
    ensures var w := GenS(strict, ref, t, s);
            Wrote(t, w.t, CodeS(strict, s, ref, Pending), 0) && w.controls == ControlsOf(strict, ref, s, |t.plain|)
    decreases s, 1
  {
    hide Wrote, Placed, Put, NoRef, GenE, CodeE, CodeS, ControlsOf, RedirectHere, IfCode, IfElseCode;
    OpenControls(strict, ref, s, |t.plain|);
    OpenSeq(strict, s, ref, Pending);
    GenSeqWrites(strict, ref, t, s, s.first, s.second);
  }

  lemma WriteIf(strict: nat, ref: bool, t: Trace, s: Stmt)
    requires Placed(t) && s.SIf?
    ensures var w := GenS(strict, ref, t, s);
            Wrote(t, w.t, CodeS(strict, s, ref, Pending), 0) && w.controls == ControlsOf(strict, ref, s, |t.plain|)
    decreases s, 1
  {
    hide Wrote, Placed, Put, NoRef, GenE, CodeE, CodeS, ControlsOf, RedirectHere, IfCode, IfElseCode;
    OpenControls(strict, ref, s, |t.plain|);
    OpenIf(strict, s, ref, Pending);
    GenIfWrites(strict, ref, t, s, s.cond, s.thn);
  }

  lemma WriteIfElse(strict: nat, ref: bool, t: Trace, s: Stmt)
    requires Placed(t) && s.SIfElse?
    ensures var w := GenS(strict, ref, t, s);
            Wrote(t, w.t, CodeS(strict, s, ref, Pending), 0) && w.controls == ControlsOf(strict, ref, s, |t.plain|)
    decreases s, 1
  {
    hide Wrote, Placed, Put, NoRef, GenE, CodeE, CodeS, ControlsOf, RedirectHere, IfCode, IfElseCode, GenS;
    OpenControls(strict, ref, s, |t.plain|);
    OpenIfElse(strict, s, ref, Pending);
    GenElseWrites(strict, ref, t, s, s.cond, s.thn, s.els);
    OpenGenElse(strict, ref, t, s);
  }

  lemma OpenGenElse(strict: nat, ref: bool, t: Trace, s: Stmt)
    requires s.SIfElse?
    ensures var t1 := NoRef(GenE(strict, t, s.cond));
            var w1 := GenS(strict, ref, Put(strict, t1, JMP(Cond, 0)), s.thn);
            var t2 := RedirectHere(Put(strict, w1.t, JMP(Always, 0)), |t1.plain|);
            var w2 := GenS(strict, ref, t2, s.els);
            GenS(strict, ref, t, s) == Written(RedirectHere(w2.t, |w1.t.plain|), w2.controls + w1.controls)
  {
    hide Put, NoRef, GenE, RedirectHere;
  }

  lemma GenLoopWrites(strict: nat, ref: bool, t: Trace, s: Stmt)
    requires Placed(t) && (s.SWhile? || s.SFor? || s.SForEach?)
    ensures var w := GenS(strict, ref, t, s);
            Wrote(t, w.t, CodeS(strict, s, ref, Pending), 0) && w.controls == ControlsOf(strict, ref, s, |t.plain|)
    decreases s, 1
  {
    hide Wrote, Placed, Put, NoRef, GenE, CodeE, EndLoop, LoopCode, CodeBody, RedirectHere, Here, GenTest, GenInc;
    match s
    case SWhile(c, body) => GenWhileWrites(strict, ref, t, s, c, body);
    case SFor(start, c, inc, body) => GenForWrites(strict, ref, t, s, start, c, inc, body);
    case SForEach(v, e, body) => GenForEachWrites(strict, ref, t, s, v, e, body);
  }

  lemma GenVarWrites(strict: nat, t: Trace, e: Expr, x: Chunk, valueOnly: bool)
    requires Placed(t) && (x.IVARN? || x.RETURN?)
    ensures Wrote(t, Put(strict, NoRefIf(GenE(strict, t, e), valueOnly), x), CodeE(strict, e, valueOnly) + [x], 0)
    ensures Wrote(t, Put(strict, NoRef(GenE(strict, t, e)), x), CodeE(strict, e, true) + [x], 0)
  {
    hide Placed, Put, NoRef, GenE, CodeE;
    GenValueWrites(strict, t, e, valueOnly);
    GenValueWrites(strict, t, e, true);
    PutWrote(strict, t, NoRefIf(GenE(strict, t, e), valueOnly), CodeE(strict, e, valueOnly), 1, x);
    PutWrote(strict, t, NoRefIf(GenE(strict, t, e), true), CodeE(strict, e, true), 1, x);
  }

  lemma GenJumpWrites(strict: nat, t: Trace)
    requires Placed(t)
    ensures Wrote(t, Put(strict, t, JMP(Always, 0)), [JMP(Always, 0)], 0)
  {
    hide Placed, Put;
    SelfWrote(t);
    PutWrote(strict, t, t, [], 0, JMP(Always, 0));
    assert [] + [JMP(Always, 0)] == [JMP(Always, 0)];
  }

  /** A condition and its jump, still waiting. */
  lemma GenCondWrites(strict: nat, t: Trace, e: Expr)
    requires Placed(t)
    ensures var t1 := NoRef(GenE(strict, t, e));
            |t1.plain| == |t.plain| + |CodeE(strict, e, true)| && Placed(Put(strict, t1, JMP(Cond, 0)))
            && Wrote(t, Put(strict, t1, JMP(Cond, 0)), CodeE(strict, e, true) + [JMP(Cond, 0)], 0)
  {
    hide Put, NoRef, GenE, CodeE;
    GenValueWrites(strict, t, e, true);
    PutWrote(strict, t, NoRefIf(GenE(strict, t, e), true), CodeE(strict, e, true), 1, JMP(Cond, 0));
  }

  /** A statement written after `head`. */
  lemma ThenStmt(strict: nat, ref: bool, t: Trace, t1: Trace, head: Code, up: int, s: Stmt)
    requires Wrote(t, t1, head, up)
    ensures var w := GenS(strict, ref, t1, s);
            Wrote(t, w.t, head + CodeS(strict, s, ref, Pending), up)
            && w.controls == ControlsOf(strict, ref, s, |t.plain| + |head|)
    decreases s, 4
  {
    hide GenS, CodeS, ControlsOf;
    GenSWrites(strict, ref, t1, s);
    ThenWrote(t, t1, GenS(strict, ref, t1, s).t, head, CodeS(strict, s, ref, Pending), up, 0);
  }

  lemma GenSeqWrites(strict: nat, ref: bool, t: Trace, s: Stmt, a: Stmt, b: Stmt)
    requires a < s && b < s && Placed(t)
    ensures var w1 := GenS(strict, ref, t, a);
            var w2 := GenS(strict, ref, w1.t, b);
            Wrote(t, w2.t, CodeS(strict, a, ref, Pending) + CodeS(strict, b, ref, Pending), 0)
            && w2.controls + w1.controls == ControlsOf(strict, ref, b, |t.plain| + |CodeS(strict, a, ref, Pending)|)
                                            + ControlsOf(strict, ref, a, |t.plain|)
    decreases s, 0
  {
    hide Placed, GenS, CodeS, ControlsOf;
    GenSWrites(strict, ref, t, a);
    ThenStmt(strict, ref, t, GenS(strict, ref, t, a).t, CodeS(strict, a, ref, Pending), 0, b);
  }

  lemma GenIfWrites(strict: nat, ref: bool, t: Trace, s: Stmt, c: Expr, thn: Stmt)
    requires thn < s && Placed(t)
    ensures var t1 := NoRef(GenE(strict, t, c));
            var w := GenS(strict, ref, Put(strict, t1, JMP(Cond, 0)), thn);
            Wrote(t, RedirectHere(w.t, |t1.plain|), IfCode(CodeE(strict, c, true), CodeS(strict, thn, ref, Pending)), 0)
            && w.controls == ControlsOf(strict, ref, thn, |t.plain| + |CodeE(strict, c, true)| + 1)
    decreases s, 0
  {
    hide Placed, Put, NoRef, GenE, CodeE, RedirectHere, GenS, CodeS, ControlsOf;
    var test, cs := CodeE(strict, c, true), CodeS(strict, thn, ref, Pending);
    var t1 := Put(strict, NoRef(GenE(strict, t, c)), JMP(Cond, 0));
    GenCondWrites(strict, t, c);
    ThenStmt(strict, ref, t, t1, test + [JMP(Cond, 0)], 0, thn);
    RedirectHereWrote(t, GenS(strict, ref, t1, thn).t, test + [JMP(Cond, 0)] + cs, 0, |test|);
    assert (test + [JMP(Cond, 0)] + cs)[|test| := JMP(Cond, |cs| + 1)] == IfCode(test, cs);
  }

  lemma GenElseWrites(strict: nat, ref: bool, t: Trace, s: Stmt, c: Expr, thn: Stmt, els: Stmt)
    requires thn < s && els < s && Placed(t)
    ensures var t1 := NoRef(GenE(strict, t, c));
            var w1 := GenS(strict, ref, Put(strict, t1, JMP(Cond, 0)), thn);
            var t2 := RedirectHere(Put(strict, w1.t, JMP(Always, 0)), |t1.plain|);
            var w2 := GenS(strict, ref, t2, els);
            var ct, ce := CodeS(strict, thn, ref, Pending), CodeS(strict, els, ref, Pending);
            var n := |t.plain| + |CodeE(strict, c, true)| + 1;
            Wrote(t, RedirectHere(w2.t, |w1.t.plain|), IfElseCode(CodeE(strict, c, true), ct, ce), 0)
            && w2.controls + w1.controls == ControlsOf(strict, ref, els, n + |ct| + 1) + ControlsOf(strict, ref, thn, n)
    decreases s, 0
  {
    hide Put, NoRef, GenE, CodeE, RedirectHere, GenS, CodeS, ControlsOf, Placed;
    var test := CodeE(strict, c, true);
    var ct, ce := CodeS(strict, thn, ref, Pending), CodeS(strict, els, ref, Pending);
    var t1 := Put(strict, NoRef(GenE(strict, t, c)), JMP(Cond, 0));
    GenCondWrites(strict, t, c);
    var w1 := GenS(strict, ref, t1, thn);
    ThenStmt(strict, ref, t, t1, test + [JMP(Cond, 0)], 0, thn);
    var head := test + [JMP(Cond, 0)] + ct;
    var t2 := Put(strict, w1.t, JMP(Always, 0));
    PutWrote(strict, t, w1.t, head, 0, JMP(Always, 0));
    RedirectHereWrote(t, t2, head + [JMP(Always, 0)], 0, |test|);
    var t3 := RedirectHere(t2, |t.plain| + |test|);
    var head1 := test + [JMP(Cond, |ct| + 2)] + ct + [JMP(Always, 0)];
    assert (head + [JMP(Always, 0)])[|test| := JMP(Cond, |ct| + 2)] == head1;
    ThenStmt(strict, ref, t, t3, head1, 0, els);
    RedirectHereWrote(t, GenS(strict, ref, t3, els).t, head1 + ce, 0, |test| + 1 + |ct|);
    assert (head1 + ce)[|test| + 1 + |ct| := JMP(Always, |ce| + 1)] == IfElseCode(test, ct, ce);
  }

  lemma GenWhileWrites(strict: nat, ref: bool, t: Trace, s: Stmt, c: Expr, body: Stmt)
    requires body < s && Placed(t)
    ensures var t1 := NoRef(GenE(strict, Here(t), c));
            var w := GenS(strict, ref, Put(strict, t1, JMP(Cond, 0)), body);
            Wrote(t, EndLoop(w, |t.plain|, [|t1.plain|]),
                  LoopCode(strict, Some(c), NoExpr, CodeBody(strict, Some(c), NoExpr, body, ref)), 0)
    decreases s, 0
  {
    hide Put, NoRef, GenE, CodeE, EndLoop, GenS, CodeS, ControlsOf, Placed;
    var test, b := CodeE(strict, c, true), CodeS(strict, body, ref, Pending);
    var head := test + [JMP(Cond, 0)];
    HerePlaced(t);
    SelfWrote(t);
    HereWrote(t, t, [], 0);
    var t1 := Put(strict, NoRef(GenE(strict, Here(t), c)), JMP(Cond, 0));
    GenCondWrites(strict, Here(t), c);
    ThenWrote(t, Here(t), t1, [], head, 0, 0);
    assert [] + head == head;
    ThenStmt(strict, ref, t, t1, head, 0, body);
    EndLoopWrote(strict, ref, t, GenS(strict, ref, t1, body), head, 0, body, 0, [|t.plain| + |test|]);
    var ctl := BodyCtl(strict, Some(c), NoExpr, |b|);
    SameLength(strict, body, ref, Pending, ctl);
    assert head[|test| := JMP(Cond, |b| + 2)] == test + [JMP(Cond, |b| + 2)] + [];
  }

  lemma GenForEachWrites(strict: nat, ref: bool, t: Trace, s: Stmt, v: nat, e: Expr, body: Stmt)
    requires body < s && Placed(t)
    ensures var t1 := Put(strict, GenE(strict, t, e), INT(0));
            var t2 := Put(strict, Put(strict, t1, FOREACH(v)), JMP(Always, 0));
            var w := GenS(strict, ref, t2, body);
            var b := CodeS(strict, body, ref, To(|CodeS(strict, body, ref, Pending)| + 1, -2));
            Wrote(t, Put(strict, EndLoop(w, |t1.plain|, [|t1.plain| + 1]), STACK(-2)),
                  CodeE(strict, e, false) + [ConstCode(strict, CInt(0))] + [FOREACH(v), JMP(Always, |b| + 2)] + b
                  + [JMP(Always, -(|b| + 2)), STACK(-2)], 0)
    decreases s, 0
  {
    hide Put, GenE, CodeE, EndLoop, GenS, CodeS, ControlsOf, Placed;
    var ce, zero := CodeE(strict, e, false), ConstCode(strict, CInt(0));
    var t1 := Put(strict, GenE(strict, t, e), INT(0));
    GenEWrites(strict, t, e);
    ConstWritten(strict, CInt(0));
    PutWrote(strict, t, GenE(strict, t, e), ce, 1, INT(0));
    var t2 := Put(strict, t1, FOREACH(v));
    PutWrote(strict, t, t1, ce + [zero], 2, FOREACH(v));
    var t3 := Put(strict, t2, JMP(Always, 0));
    PutWrote(strict, t, t2, ce + [zero] + [FOREACH(v)], 2, JMP(Always, 0));
    var b := CodeS(strict, body, ref, Pending);
    var final := CodeS(strict, body, ref, To(|b| + 1, -2));
    SameLength(strict, body, ref, Pending, To(|b| + 1, -2));
    var head := ce + [zero] + [FOREACH(v)] + [JMP(Always, 0)];
    ThenStmt(strict, ref, t, t3, head, 2, body);
    var w := GenS(strict, ref, t3, body);
    EndLoopWrote(strict, ref, t, w, head, 2, body, |ce| + 1, [|t.plain| + |ce| + 2]);
    var w1 := EndLoop(w, |t1.plain|, [|t1.plain| + 1]);
    assert head[|ce| + 2 := JMP(Always, |b| + 2)] == ce + [zero] + [FOREACH(v), JMP(Always, |b| + 2)];
    PutWrote(strict, t, w1, ce + [zero] + [FOREACH(v), JMP(Always, |b| + 2)] + final + [JMP(Always, -(|b| + 2))], 2,
        STACK(-2));
    assert ce + [zero] + [FOREACH(v), JMP(Always, |b| + 2)] + final + [JMP(Always, -(|b| + 2))] + [STACK(-2)]
      == ce + [zero] + [FOREACH(v), JMP(Always, |b| + 2)] + final + [JMP(Always, -(|b| + 2)), STACK(-2)];
  }

  lemma GenForWrites(strict: nat, ref: bool, t: Trace, s: Stmt, start: Stmt, c: OptExpr, inc: OptExpr, body: Stmt)
    requires start < s && body < s && Placed(t)
    ensures var t0 := GenS(strict, ref, t, start).t;
            var t1 := GenTest(strict, t0, c);
            var t2 := GenInc(strict, t1, inc, c.Some?, |t0.plain|);
            var t3 := if inc.Some? then RedirectHere(Here(t2), |t1.plain|) else Here(t2);
            var w := GenS(strict, ref, t3, body);
            var back := if inc.Some? then |t1.plain| + 1 else if c.Some? then |t0.plain| else |t2.plain|;
            Wrote(t, EndLoop(w, back, if c.Some? then [|t1.plain| - 1] else []),
                  CodeS(strict, start, ref, Pending) + LoopCode(strict, c, inc, CodeBody(strict, c, inc, body, ref)), 0)
    decreases s, 0
  {
    hide Wrote, Placed, GenE, CodeE, EndLoop, GenS, CodeS, ControlsOf, GenTest, GenInc, CodeInc, LoopCode, CodeBody,
         Closed,
         RedirectHere, Here;
    GenSWrites(strict, ref, t, start);
    var t0 := GenS(strict, ref, t, start).t;
    WrotePlaced(t, t0, CodeS(strict, start, ref, Pending), 0);
    GenTestWrites(strict, t0, c);
    var t1 := GenTest(strict, t0, c);
    WrotePlaced(t0, t1, WaitingTest(strict, c), 0);
    GenIncWrites(strict, t0, t1, WaitingTest(strict, c), inc, c.Some?);
    var t2 := GenInc(strict, t1, inc, c.Some?, |t0.plain|);
    var t3 := if inc.Some? then RedirectHere(Here(t2), |t1.plain|) else Here(t2);
    var head := WaitingTest(strict, c) + CodeInc(strict, inc, TestLen(strict, c));
    ThenStmt(strict, ref, t0, t3, head, 0, body);
    IncLength(strict, inc, TestLen(strict, c));
    var w := GenS(strict, ref, t3, body);
    var exits: seq<nat> := if c.Some? then [|t1.plain| - 1] else [];
    EndLoopWrote(strict, ref, t0, w, head, 0, body, RoundEnd(strict, c, inc), exits);
    ForCode(strict, c, inc, body, ref, exits, |t0.plain|);
    var back := if inc.Some? then |t1.plain| + 1 else if c.Some? then |t0.plain| else |t2.plain|;
    ThenWrote(t, t0, EndLoop(w, back, exits), CodeS(strict, start, ref, Pending),
              LoopCode(strict, c, inc, CodeBody(strict, c, inc, body, ref)), 0, 0);
  }

  lemma WrotePlaced(t0: Trace, t: Trace, code: Code, up: int)
    requires Wrote(t0, t, code, up)
    ensures Placed(t) && |t.plain| == |t0.plain| + |code|
  {
  }

  lemma ForCode(strict: nat, c: OptExpr, inc: OptExpr, body: Stmt, ref: bool, exits: seq<nat>, base: nat)
    requires exits == if c.Some? then [base + TestLen(strict, c) - 1] else []
    ensures var head := WaitingTest(strict, c) + CodeInc(strict, inc, TestLen(strict, c));
            var b := |CodeS(strict, body, ref, Pending)|;
            var r := RoundEnd(strict, c, inc);
            Closed(head, exits, base, |head| + b + 1)
            + CodeS(strict, body, ref, To(b + 1, r - |head|)) + [JMP(Always, r - |head| - b)]
            == LoopCode(strict, c, inc, CodeBody(strict, c, inc, body, ref))
  {
    hide CodeE, CodeS, CodeInc, Closed;
    var b := |CodeS(strict, body, ref, Pending)|;
    SameLength(strict, body, ref, Pending, BodyCtl(strict, c, inc, b));
    ClosedTest(strict, c, CodeInc(strict, inc, TestLen(strict, c)), exits, base, b);
  }

  /** The condition with its jump still waiting. */
  function WaitingTest(strict: nat, c: OptExpr): (r: Code)
    ensures |r| == TestLen(strict, c)
    ensures c.Some? <==> |r| > 0
    ensures c.Some? ==> Last(r) == JMP(Cond, 0)
  {
    match c
    case NoExpr => []
    case Some(e) => CodeE(strict, e, true) + [JMP(Cond, 0)]
  }

  lemma ClosedTest(strict: nat, c: OptExpr, inc: Code, exits: seq<nat>, base: nat, b: nat)
    requires exits == if c.Some? then [base + TestLen(strict, c) - 1] else []
    ensures Closed(WaitingTest(strict, c) + inc, exits, base, TestLen(strict, c) + |inc| + b + 1)
            == CodeTest(strict, c, |inc| + b + 1) + inc
  {
    hide CodeE;
  }

  lemma IncLength(strict: nat, inc: OptExpr, test: nat)
    ensures inc.Some? <==> |CodeInc(strict, inc, test)| > 0
  {
  }

  lemma GenTestWrites(strict: nat, t: Trace, c: OptExpr)
    requires Placed(t)
    ensures Wrote(t, GenTest(strict, t, c), WaitingTest(strict, c), 0)
  {
    hide Put, NoRef, GenE, CodeE, Placed;
    SelfWrote(t);
    match c
    case NoExpr =>
    case Some(e) =>
      HereWrote(t, t, [], 0);
      assert Placed(Here(t));
      GenCondWrites(strict, Here(t), e);
      ThenWrote(t, Here(t), GenTest(strict, t, c), [], CodeE(strict, e, true) + [JMP(Cond, 0)], 0, 0);
      assert [] + (CodeE(strict, e, true) + [JMP(Cond, 0)]) == CodeE(strict, e, true) + [JMP(Cond, 0)];
  }

  /** The increment behind the condition `test`, and the way over it into the body. */
  lemma GenIncWrites(strict: nat, t0: Trace, t1: Trace, test: Code, inc: OptExpr, cond: bool)
    requires Wrote(t0, t1, test, 0) && (cond <==> |test| > 0)
    ensures var t2 := GenInc(strict, t1, inc, cond, |t0.plain|);
            Wrote(t0, if inc.Some? then RedirectHere(Here(t2), |t1.plain|) else Here(t2),
                  test + CodeInc(strict, inc, |test|), 0)
            && |t2.plain| == |t0.plain| + |test| + |CodeInc(strict, inc, |test|)|
  {
    hide Put, NoRef, GenE, CodeE, Placed, RedirectHere, Here;
    match inc
    case NoExpr =>
      HereWrote(t0, t1, test, 0);
      assert test + [] == test;
    case Some(e) => GenSomeIncWrites(strict, t0, t1, test, e, cond);
  }

  lemma GenSomeIncWrites(strict: nat, t0: Trace, t1: Trace, test: Code, e: Expr, cond: bool)
    requires Wrote(t0, t1, test, 0) && (cond <==> |test| > 0)
    ensures var t2 := GenInc(strict, t1, Some(e), cond, |t0.plain|);
            Wrote(t0, RedirectHere(Here(t2), |t1.plain|), test + CodeInc(strict, Some(e), |test|), 0)
            && |t2.plain| == |t0.plain| + |test| + |CodeInc(strict, Some(e), |test|)|
  {
    hide Put, NoRef, GenE, CodeE, Placed, RedirectHere, Here, PutBack;
    var code := test + [JMP(Always, 0)] + (CodeE(strict, e, true) + [STACK(-1)]);
    GenStepWrites(strict, t0, t1, test, e);
    var t2 := GenInc(strict, t1, Some(e), cond, |t0.plain|);
    var done := Put(strict, NoRef(GenE(strict, Here(Put(strict, t1, JMP(Always, 0))), e)), STACK(-1));
    BackWrote(t0, done, code, 0, 0);
    var back := if cond then [JMP(Always, -|code|)] else [];
    assert code + [] == code;
    assert Wrote(t0, t2, code + back, 0);
    HereWrote(t0, t2, code + back, 0);
    RedirectHereWrote(t0, Here(t2), code + back, 0, |test|);
    IncCode(strict, e, test, code, back);
  }

  lemma IncCode(strict: nat, e: Expr, test: Code, code: Code, back: Code)
    requires code == test + [JMP(Always, 0)] + (CodeE(strict, e, true) + [STACK(-1)])
    requires back == if |test| > 0 then [JMP(Always, -|code|)] else []
    ensures (code + back)[|test| := JMP(Always, |code + back| - |test|)] == test + CodeInc(strict, Some(e), |test|)
    ensures |code + back| == |test| + |CodeInc(strict, Some(e), |test|)|
  {
    hide CodeE;
  }

  lemma GenStepWrites(strict: nat, t0: Trace, t1: Trace, test: Code, e: Expr)
    requires Wrote(t0, t1, test, 0)
    ensures Wrote(t0, Put(strict, NoRef(GenE(strict, Here(Put(strict, t1, JMP(Always, 0))), e)), STACK(-1)),
                  test + [JMP(Always, 0)] + (CodeE(strict, e, true) + [STACK(-1)]), 0)
  {
    hide Put, NoRef, GenE, CodeE, Placed;
    var step := CodeE(strict, e, true);
    var a := Put(strict, t1, JMP(Always, 0));
    PutWrote(strict, t0, t1, test, 0, JMP(Always, 0));
    HereWrote(t0, a, test + [JMP(Always, 0)], 0);
    assert Placed(Here(a));
    GenValueWrites(strict, Here(a), e, true);
    var v := NoRefIf(GenE(strict, Here(a), e), true);
    ThenWrote(t0, Here(a), v, test + [JMP(Always, 0)], step, 0, 1);
    PutWrote(strict, t0, v, test + [JMP(Always, 0)] + step, 1, STACK(-1));
    assert test + [JMP(Always, 0)] + step + [STACK(-1)] == test + [JMP(Always, 0)] + (step + [STACK(-1)]);
  }
}
