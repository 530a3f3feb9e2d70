/** Included scripts give their functions to those that include them. The scripts may include each
    other in circles. */
module Includes {
  import opened Wrappers

  // ----- scripts -----

  datatype Func = Func(name: nat, body: nat, isScript: bool, isGlobal: bool)

  datatype State = Raw | Preparsed | Linked

  /** `includes` holds what the script includes, the one named last first; ids that are not found
      are `None`. `runs` counts how often its includes were gone through. */
  datatype Script = Script(state: State, resolved: bool, resolving: bool, runs: nat,
                           includes: seq<Option<nat>>, funcs: seq<Func>)

  type World = seq<Script>

  /** Functions that are handed on: script functions that are not global. */
  function Own(fs: seq<Func>): seq<Func>
    decreases |fs|
  {
    if |fs| == 0 then []
    else (if fs[0].isScript && !fs[0].isGlobal then [fs[0]] else []) + Own(fs[1..])
  }

  datatype Outcome = Done(w: World, ok: bool) | Hangs

  /** Copies of the functions of `src` go before those of `dst`, in their order. A script that
      hands functions to itself never comes to the end of its list. */
  function AppendTo(w: World, src: nat, dst: nat): Outcome
    requires src < |w| && dst < |w|
  {
    var own := Own(w[src].funcs);
    if src == dst && |own| > 0 then Hangs
    else Done(w[dst := w[dst].(funcs := own + w[dst].funcs)], true)
  }

  // ----- resolving -----

  /** Scripts whose includes have not been gone through yet. */
  function Open(w: World): nat
    decreases |w|
  {
    if |w| == 0 then 0 else Open(w[..|w| - 1]) + if IsOpen(w[|w| - 1]) then 1 else 0
  }

  predicate IsOpen(s: Script) { !s.resolved && !s.resolving }

  lemma {:induction false} OpenUpdate(w: World, i: nat, s: Script)
    requires i < |w|
    ensures Open(w[i := s]) == Open(w) - (if IsOpen(w[i]) then 1 else 0) + (if IsOpen(s) then 1 else 0)
    decreases |w|
  {
    var n := |w| - 1;
    assert w[i := s][..n] == if i < n then w[..n][i := s] else w[..n];
    if i < n { OpenUpdate(w[..n], i, s); }
  }

  function Resolve(w: World, s: nat): (r: Outcome)
    ensures r.Done? ==> |r.w| == |w| && Open(r.w) <= Open(w)
    decreases Open(w), 0
  {
    if s >= |w| || w[s].state != Preparsed then Done(w, false)
    else if w[s].resolved then Done(w, true)
    else if w[s].resolving then
      OpenUpdate(w, s, w[s].(resolved := true, state := Linked));
      Done(w[s := w[s].(resolved := true, state := Linked)], false)
    else
      var begun := w[s].(resolving := true, runs := w[s].runs + 1);
      OpenUpdate(w, s, begun);
      var r := Each(w[s := begun], s, w[s].includes);
      if r.Hangs? then Hangs
      else
        var ended := r.w[s].(resolved := true, resolving := false, state := Linked);
        OpenUpdate(r.w, s, ended);
        Done(r.w[s := ended], true)
  }

  /** The includes of script `s`, one after the other. */
  function Each(w: World, s: nat, incs: seq<Option<nat>>): (r: Outcome)
    requires s < |w|
    ensures r.Done? ==> |r.w| == |w| && Open(r.w) <= Open(w)
    decreases Open(w), 1 + |incs|
  {
    if |incs| == 0 then Done(w, true)
    else if incs[0].None? || incs[0].value >= |w| then Each(w, s, incs[1..])
    else
      var d := incs[0].value;
      var r := if w[d].resolved then Done(w, true) else Resolve(w, d);
      if r.Hangs? then Hangs
      else if !r.ok then Each(r.w, s, incs[1..])
      else
        var a := AppendTo(r.w, d, s);
        if a.Hangs? then Hangs
        else
          OpenUpdate(r.w, s, a.w[s]);
          Each(a.w, s, incs[1..])
  }

  /** All scripts in their order. */
  function ResolveAll(w: World, from: nat): Outcome
    decreases |w| - from
  {
    if from >= |w| then Done(w, true)
    else
      var r := Resolve(w, from);
      if r.Hangs? then Hangs else ResolveAll(r.w, from + 1)
  }

  /** The engine's tree of scripts: the scripts below one are resolved before it. */
  datatype Tree = Node(script: nat, kids: seq<Tree>)

  function ResolveTree(w: World, t: Tree): Outcome
    decreases t, 0
  {
    var r := ResolveKids(w, t.kids);
    if r.Hangs? then Hangs else Resolve(r.w, t.script)
  }

  function ResolveKids(w: World, ts: seq<Tree>): Outcome
    decreases ts, 1
  {
    if |ts| == 0 then Done(w, true)
    else
      var r := ResolveTree(w, ts[0]);
      if r.Hangs? then Hangs else ResolveKids(r.w, ts[1..])
  }

  /** How many scripts the tree has; in the order of the calls they are numbered from `from` on. */
  function Size(t: Tree): nat
    decreases t, 0
  {
    SizeAll(t.kids) + 1
  }

  function SizeAll(ts: seq<Tree>): nat
    decreases ts, 1
  {
    if |ts| == 0 then 0 else Size(ts[0]) + SizeAll(ts[1..])
  }

  predicate Ordered(t: Tree, from: nat)
    decreases t, 0
  {
    OrderedAll(t.kids, from) && t.script == from + SizeAll(t.kids)
  }

  predicate OrderedAll(ts: seq<Tree>, from: nat)
    decreases ts, 1
  {
    |ts| == 0 || (Ordered(ts[0], from) && OrderedAll(ts[1..], from + Size(ts[0])))
  }

  /** After the scripts of the tree, the rest comes to what all come to. */
  lemma {:induction false} TreeFirst(w: World, t: Tree, from: nat)
    requires Ordered(t, from) && from + Size(t) <= |w|
    ensures var r := ResolveTree(w, t);
            (r.Done? ==> |r.w| == |w|)
            && ResolveAll(w, from) == if r.Hangs? then Hangs else ResolveAll(r.w, from + Size(t))
    decreases t, 0
  {
    hide Resolve, ResolveKids;
    KidsFirst(w, t.kids, from);
    var r := ResolveKids(w, t.kids);
    if r.Done? { ResolveSize(r.w, t.script); }
  }

  lemma ResolveSize(w: World, s: nat)
    ensures Resolve(w, s).Done? ==> |Resolve(w, s).w| == |w|
  {
  }

  lemma {:induction false} KidsFirst(w: World, ts: seq<Tree>, from: nat)
    requires OrderedAll(ts, from) && from + SizeAll(ts) <= |w|
    ensures var r := ResolveKids(w, ts);
            (r.Done? ==> |r.w| == |w|)
            && ResolveAll(w, from) == if r.Hangs? then Hangs else ResolveAll(r.w, from + SizeAll(ts))
    decreases ts, 1
  {
    hide ResolveAll, ResolveTree;
    if |ts| > 0 {
      TreeFirst(w, ts[0], from);
      var r := ResolveTree(w, ts[0]);
      if r.Done? { KidsFirst(r.w, ts[1..], from + Size(ts[0])); }
    }
  }

  /** The whole tree, numbered in the order of the calls, is resolved like the list of its scripts. */
  lemma TreeIsList(w: World, t: Tree)
    requires Ordered(t, 0) && Size(t) == |w|
    ensures var r, all := ResolveTree(w, t), ResolveAll(w, 0);
            if r.Hangs? then all.Hangs? else all == Done(r.w, true)
  {
    hide ResolveTree;
    TreeFirst(w, t, 0);
  }

  // ----- every script is linked once -----

  predicate Settled(s: Script) { s.resolved && !s.resolving && s.state == Linked }

  /** How a script may have changed: not at all but in its functions, or from waiting to settled;
      while it is being resolved, it may be marked as resolved early. */
  predicate Changed(a: Script, b: Script) {
    && a.includes == b.includes && a.resolving == b.resolving
    && (if IsOpen(a) && a.state == Preparsed then
          (IsOpen(b) && b.state == Preparsed && b.runs == a.runs) || (Settled(b) && b.runs == a.runs + 1)
        else if a.resolving then b.runs == a.runs && (a.resolved ==> b.resolved)
        else b.resolved == a.resolved && b.state == a.state && b.runs == a.runs)
  }

  ghost predicate AllChanged(w: World, w': World) {
    |w| == |w'| && forall i :: 0 <= i < |w| ==> Changed(w[i], w'[i])
  }

  lemma ChangedTwice(a: World, b: World, c: World)
    requires AllChanged(a, b) && AllChanged(b, c)
    ensures AllChanged(a, c)
  {
    forall i | 0 <= i < |a| ensures Changed(a[i], c[i]) {
      assert Changed(a[i], b[i]) && Changed(b[i], c[i]);
    }
  }

  /** Whatever the includes are, circular ones too. */
  lemma {:induction false} ResolveChanges(w: World, s: nat)
    ensures var r := Resolve(w, s);
            r.Done? ==> AllChanged(w, r.w) && (s < |w| && IsOpen(w[s]) && w[s].state == Preparsed ==> Settled(r.w[s]))
    decreases Open(w), 0
  {
    hide Changed;
    assert forall i :: 0 <= i < |w| ==> Changed(w[i], w[i]) by { SameChanged(w); }
    if s < |w| && w[s].state == Preparsed && !w[s].resolved {
      if w[s].resolving {
        EarlyMark(w[s]);
      } else {
        var begun := w[s].(resolving := true, runs := w[s].runs + 1);
        OpenUpdate(w, s, begun);
        var w1 := w[s := begun];
        EachChanges(w1, s, w[s].includes);
        var r := Each(w1, s, w[s].includes);
        if r.Done? {
          OwnTurn(w[s], r.w[s]);
          forall i | 0 <= i < |w| && i != s ensures Changed(w[i], Resolve(w, s).w[i]) {
            assert Changed(w1[i], r.w[i]);
          }
        }
      }
    }
  }

  lemma SameChanged(w: World)
    ensures forall i :: 0 <= i < |w| ==> Changed(w[i], w[i])
  {
  }

  lemma EarlyMark(a: Script)
    requires a.resolving
    ensures Changed(a, a.(resolved := true, state := Linked))
  {
  }

  lemma OwnTurn(a: Script, b: Script)
    requires a.state == Preparsed && IsOpen(a) && Changed(a.(resolving := true, runs := a.runs + 1), b)
    ensures var e := b.(resolved := true, resolving := false, state := Linked);
            Changed(a, e) && Settled(e)
  {
  }

  lemma {:induction false} EachChanges(w: World, s: nat, incs: seq<Option<nat>>)
    requires s < |w| && w[s].resolving
    ensures var r := Each(w, s, incs); r.Done? ==> AllChanged(w, r.w)
    decreases Open(w), 1 + |incs|
  {
    hide Changed;
    SameChanged(w);
    if |incs| > 0 {
      if incs[0].None? || incs[0].value >= |w| {
        EachChanges(w, s, incs[1..]);
      } else {
        var d := incs[0].value;
        ResolveChanges(w, d);
        var r := if w[d].resolved then Done(w, true) else Resolve(w, d);
        if r.Done? {
          assert AllChanged(w, r.w);
          KeepsResolving(w[s], r.w[s]);
          if !r.ok {
            EachChanges(r.w, s, incs[1..]);
            if Each(r.w, s, incs[1..]).Done? { ChangedTwice(w, r.w, Each(r.w, s, incs[1..]).w); }
          } else {
            var a := AppendTo(r.w, d, s);
            if a.Done? {
              AppendChanges(r.w, d, s);
              ChangedTwice(w, r.w, a.w);
              OpenUpdate(r.w, s, a.w[s]);
              EachChanges(a.w, s, incs[1..]);
              if Each(a.w, s, incs[1..]).Done? { ChangedTwice(w, a.w, Each(a.w, s, incs[1..]).w); }
            }
          }
        }
      }
    }
  }

  lemma KeepsResolving(a: Script, b: Script)
    requires Changed(a, b) && a.resolving
    ensures b.resolving
  {
  }

  lemma AppendChanges(w: World, src: nat, dst: nat)
    requires src < |w| && dst < |w| && AppendTo(w, src, dst).Done?
    ensures var w' := AppendTo(w, src, dst).w;
            AllChanged(w, w') && w'[dst].resolving == w[dst].resolving && w'[dst].resolved == w[dst].resolved
  {
  }

  /** Nothing is being resolved. */
  ghost predicate Quiet(w: World) { forall i :: 0 <= i < |w| ==> !w[i].resolving && (w[i].resolved ==> Settled(w[i])) }

  lemma StaysQuiet(w: World, w': World)
    requires Quiet(w) && AllChanged(w, w')
    ensures Quiet(w')
  {
    forall i | 0 <= i < |w'| ensures !w'[i].resolving && (w'[i].resolved ==> Settled(w'[i])) {
      assert Changed(w[i], w'[i]);
    }
  }

  /** What one script has gone through, it has gone through once and for all. */
  lemma StaysSettled(a: Script, b: Script, c: Script)
    requires a.state == Preparsed && IsOpen(a) && Changed(a, b) && Changed(b, c)
    ensures Settled(b) ==> Settled(c)
    ensures Settled(c) ==> c.runs == a.runs + 1
  {
  }

  lemma {:induction false} ResolveAllChanges(w: World, from: nat)
    requires Quiet(w)
    ensures var r := ResolveAll(w, from);
            r.Done? ==> AllChanged(w, r.w) && forall i ::
                from <= i < |w| && IsOpen(w[i]) && w[i].state == Preparsed ==> Settled(r.w[i])
    decreases |w| - from
  {
    hide Changed, Settled, Quiet;
    SameChanged(w);
    if from < |w| {
      ResolveChanges(w, from);
      var r := Resolve(w, from);
      if r.Done? {
        StaysQuiet(w, r.w);
        ResolveAllChanges(r.w, from + 1);
        var e := ResolveAll(r.w, from + 1);
        if e.Done? {
          ChangedTwice(w, r.w, e.w);
          forall i | from <= i < |w| && IsOpen(w[i]) && w[i].state == Preparsed ensures Settled(e.w[i]) {
            assert Changed(w[i], r.w[i]) && Changed(r.w[i], e.w[i]);
            StaysSettled(w[i], r.w[i], e.w[i]);
            OpenOrSettled(w[i], r.w[i]);
          }
        }
      }
    }
  }

  lemma OpenOrSettled(a: Script, b: Script)
    requires a.state == Preparsed && IsOpen(a) && Changed(a, b)
    ensures Settled(b) || (b.state == Preparsed && IsOpen(b))
  {
  }

  /** Scripts as the preparser leaves them. */
  ghost predicate Fresh(w: World) {
    forall i :: 0 <= i < |w| ==> IsOpen(w[i]) && w[i].runs == 0 && w[i].state != Linked
  }

  /** Circular or not: when linking ends, every preparsed script is linked, is marked as resolved
      and no longer as being resolved, and its includes were gone through once. */
  lemma LinkedOnce(w: World)
    requires Fresh(w) && ResolveAll(w, 0).Done?
    ensures var r := ResolveAll(w, 0);
            |r.w| == |w| && forall i :: 0 <= i < |w| ==> LinkedFrom(w[i], r.w[i])
  {
    hide ResolveAll, Settled;
    assert Quiet(w);
    ResolveAllChanges(w, 0);
    var r := ResolveAll(w, 0);
    forall i | 0 <= i < |w| ensures LinkedFrom(w[i], r.w[i]) {
      assert Changed(w[i], r.w[i]);
      if w[i].state == Preparsed { StaysSettled(w[i], w[i], r.w[i]); }
    }
  }

  predicate LinkedFrom(a: Script, b: Script) {
    if a.state == Preparsed then Settled(b) && b.runs == 1 else b.state == Raw && b.runs == 0 && !b.resolving
  }

  // ----- when linking ends -----

  /** Script `src` hands its functions to script `dst`. */
  datatype Hand = Hand(src: nat, dst: nat)

  /** The scripts without their functions: who includes whom. */
  function Bare(w: World): World { seq(|w|, i requires 0 <= i < |w| => w[i].(funcs := [])) }

  /** Who hands functions to whom, in this order, as far as the includes tell. */
  function Hands(w: World, s: nat): seq<Hand>
    decreases Open(w), 0
  {
    if s >= |w| || w[s].state != Preparsed || !IsOpen(w[s]) then []
    else
      var begun := w[s].(resolving := true, runs := w[s].runs + 1);
      OpenUpdate(w, s, begun);
      HandsEach(w[s := begun], s, w[s].includes)
  }

  function HandsEach(w: World, s: nat, incs: seq<Option<nat>>): seq<Hand>
    requires s < |w|
    decreases Open(w), 1 + |incs|
  {
    if |incs| == 0 then []
    else if incs[0].None? || incs[0].value >= |w| then HandsEach(w, s, incs[1..])
    else
      var d := incs[0].value;
      var before := if w[d].resolved then [] else Hands(w, d);
      var r := if w[d].resolved then Done(w, true) else Resolve(w, d);
      if r.Hangs? then before
      else before + (if r.ok then [Hand(d, s)] else []) + HandsEach(r.w, s, incs[1..])
  }

  function HandsAll(w: World, from: nat): seq<Hand>
    decreases |w| - from
  {
    if from >= |w| then []
    else
      var r := Resolve(w, from);
      if r.Hangs? then Hands(w, from) else Hands(w, from) + HandsAll(r.w, from + 1)
  }

  /** After these hands, has script `s` functions to hand on? */
  predicate Gives(w: World, hands: seq<Hand>, s: nat)
    decreases |hands|
  {
    if |hands| == 0 then s < |w| && |Own(w[s].funcs)| > 0
    else
      var before, h := hands[..|hands| - 1], hands[|hands| - 1];
      Gives(w, before, s) || (h.dst == s && Gives(w, before, h.src))
  }

  /** With its last hand, a script that has functions to hand on gives them to itself. */
  predicate Bites(w: World, hands: seq<Hand>) {
    |hands| > 0 &&
    var h := hands[|hands| - 1];
    h.src == h.dst && Gives(w, hands[..|hands| - 1], h.src)
  }

  predicate BitesFrom(w: World, hands: seq<Hand>, from: nat) {
    exists k :: from < k <= |hands| && Bites(w, hands[..k])
  }

  /** The one way not to end: an own include is met when the script is already marked as resolved,
      and there is something to hand on. */
  predicate BitesItself(w: World) { BitesFrom(w, HandsAll(Bare(w), 0), 0) }

  lemma {:induction false} OwnJoin(a: seq<Func>, b: seq<Func>)
    ensures Own(a + b) == Own(a) + Own(b)
    decreases |a|
  {
    if |a| == 0 {
      assert a + b == b;
    } else {
      assert (a + b)[0] == a[0] && (a + b)[1..] == a[1..] + b;
      OwnJoin(a[1..], b);
    }
  }

  lemma {:induction false} OwnTwice(a: seq<Func>)
    ensures Own(Own(a)) == Own(a)
    decreases |a|
  {
    if |a| > 0 {
      OwnTwice(a[1..]);
      OwnJoin(if a[0].isScript && !a[0].isGlobal then [a[0]] else [], Own(a[1..]));
    }
  }

  /** After `hands`, the scripts that have functions to hand on are those that should. */
  ghost predicate Knows(w0: World, hands: seq<Hand>, w: World) {
    |w| == |w0| && forall i :: 0 <= i < |w| ==> (|Own(w[i].funcs)| > 0 <==> Gives(w0, hands, i))
  }

  /** The same marks may change in both worlds. */
  lemma BareUpdate(w: World, i: nat, s: Script)
    requires i < |w|
    ensures Bare(w[i := s]) == Bare(w)[i := s.(funcs := [])]
  {
  }

  lemma {:induction false} BareOpen(w: World)
    ensures Open(Bare(w)) == Open(w)
    decreases |w|
  {
    if |w| > 0 {
      assert Bare(w)[..|w| - 1] == Bare(w[..|w| - 1]);
      BareOpen(w[..|w| - 1]);
    }
  }

  lemma AppendKnows(w0: World, hands: seq<Hand>, w: World, src: nat, dst: nat)
    requires Knows(w0, hands, w) && src < |w| && dst < |w|
    ensures AppendTo(w, src, dst).Hangs? <==> Bites(w0, hands + [Hand(src, dst)])
    ensures var a := AppendTo(w, src, dst);
            a.Done? ==> Bare(a.w) == Bare(w) && Knows(w0, hands + [Hand(src, dst)], a.w)
  {
    var all := hands + [Hand(src, dst)];
    assert all[..|all| - 1] == hands;
    var own := Own(w[src].funcs);
    OwnTwice(w[src].funcs);
    OwnJoin(own, w[dst].funcs);
    BareUpdate(w, dst, w[dst].(funcs := own + w[dst].funcs));
  }

  lemma BitesLater(w: World, a: seq<Hand>, b: seq<Hand>, c: seq<Hand>)
    ensures BitesFrom(w, a + b + c, |a|) <==> BitesFrom(w, a + b, |a|) || BitesFrom(w, a + b + c, |a + b|)
  {
    hide Bites;
    var abc := a + b + c;
    forall k | |a| < k <= |a + b| ensures abc[..k] == (a + b)[..k] {
    }
  }

  lemma Three(w: World, hands: seq<Hand>, a: seq<Hand>, b: seq<Hand>, c: seq<Hand>)
    ensures hands + (a + b + c) == hands + a + b + c
    ensures BitesFrom(w, hands + (a + b + c), |hands|)
            <==> BitesFrom(w, hands + a, |hands|) || BitesFrom(w, hands + a + b, |hands + a|)
                 || BitesFrom(w, hands + a + b + c, |hands + a + b|)
  {
    hide BitesFrom;
    assert hands + (a + b + c) == hands + a + (b + c) && hands + a + (b + c) == hands + a + b + c;
    BitesLater(w, hands, a, b + c);
    BitesLater(w, hands + a, b, c);
  }

  lemma BitesNow(w: World, a: seq<Hand>, h: Hand)
    ensures BitesFrom(w, a + [h], |a|) <==> Bites(w, a + [h])
  {
    assert (a + [h])[..|a| + 1] == a + [h];
  }

  lemma BitesNot(w: World, a: seq<Hand>)
    ensures !BitesFrom(w, a, |a|)
    ensures a + [] == a
  {
  }

  /** Both worlds side by side: the real one hangs where a hand bites. */
  ghost predicate SameWay(w0: World, hands: seq<Hand>, r: Outcome, bare: Outcome, more: seq<Hand>) {
    && (r.Hangs? <==> BitesFrom(w0, hands + more, |hands|))
    && (r.Done? ==> bare == Done(Bare(r.w), r.ok) && Knows(w0, hands + more, r.w))
  }

  lemma {:induction false} ResolveSameWay(w0: World, hands: seq<Hand>, w: World, s: nat)
    requires Knows(w0, hands, w)
    ensures SameWay(w0, hands, Resolve(w, s), Resolve(Bare(w), s), Hands(Bare(w), s))
    decreases Open(w), 0
  {
    hide Knows, Gives, BitesFrom;
    var b := Bare(w);
    BitesNot(w0, hands);
    if s < |w| && w[s].state == Preparsed && !w[s].resolved {
      if w[s].resolving {
        var marked := w[s].(resolved := true, state := Linked);
        BareUpdate(w, s, marked);
        KnowsMarks(w0, hands, w, s, marked);
      } else {
        var begun := w[s].(resolving := true, runs := w[s].runs + 1);
        BareUpdate(w, s, begun);
        KnowsMarks(w0, hands, w, s, begun);
        OpenUpdate(w, s, begun);
        EachSameWay(w0, hands, w[s := begun], s, w[s].includes);
        var r := Each(w[s := begun], s, w[s].includes);
        if r.Done? {
          var ended := r.w[s].(resolved := true, resolving := false, state := Linked);
          BareUpdate(r.w, s, ended);
          KnowsMarks(w0, hands + Hands(b, s), r.w, s, ended);
        }
      }
    }
  }

  lemma KnowsMarks(w0: World, hands: seq<Hand>, w: World, i: nat, s: Script)
    requires Knows(w0, hands, w) && i < |w| && s.funcs == w[i].funcs
    ensures Knows(w0, hands, w[i := s])
  {
  }

  lemma {:induction false} EachSameWay(w0: World, hands: seq<Hand>, w: World, s: nat, incs: seq<Option<nat>>)
    requires Knows(w0, hands, w) && s < |w|
    ensures var r, bare := Each(w, s, incs), Each(Bare(w), s, incs);
            SameWay(w0, hands, r, bare, HandsEach(Bare(w), s, incs))
    decreases Open(w), 1 + 2 * |incs|
  {
    hide Knows, Gives, BitesFrom, Resolve, Hands, AppendTo;
    BitesNot(w0, hands);
    if |incs| > 0 {
      if incs[0].None? || incs[0].value >= |w| {
        EachSameWay(w0, hands, w, s, incs[1..]);
      } else {
        OneSameWay(w0, hands, w, s, incs);
      }
    }
  }

  lemma OneSameWay(w0: World, hands: seq<Hand>, w: World, s: nat, incs: seq<Option<nat>>)
    requires Knows(w0, hands, w) && s < |w| && |incs| > 0 && incs[0].Some? && incs[0].value < |w|
    ensures SameWay(w0, hands, Each(w, s, incs), Each(Bare(w), s, incs), HandsEach(Bare(w), s, incs))
    decreases Open(w), 2 * |incs|
  {
    hide Knows, Gives, BitesFrom, Resolve, Hands, AppendTo, Bare;
    var d, b := incs[0].value, Bare(w);
    BareAt(w);
    var before := if w[d].resolved then [] else Hands(b, d);
    var r := if w[d].resolved then Done(w, true) else Resolve(w, d);
    var rb := if w[d].resolved then Done(b, true) else Resolve(b, d);
    BitesNot(w0, hands);
    if !w[d].resolved { ResolveSameWay(w0, hands, w, d); }
    assert SameWay(w0, hands, r, rb, before);
    if r.Hangs? {
      if rb.Done? {
        Three(w0, hands, before, if rb.ok then [Hand(d, s)] else [], HandsEach(rb.w, s, incs[1..]));
      }
      return;
    }
    if !w[d].resolved { ResolveOpen(w, d); }
    var hand := if rb.ok then [Hand(d, s)] else [];
    var rest := HandsEach(rb.w, s, incs[1..]);
    Three(w0, hands, before, hand, rest);
    KnowsSize(w0, hands + before, r.w);
    BareAt(r.w);
    if r.ok {
      AppendKnows(w0, hands + before, r.w, d, s);
        BareAppend(r.w, d, s);
        BitesNow(w0, hands + before, Hand(d, s));
        var a := AppendTo(r.w, d, s);
        if a.Done? {
          AppendOpen(r.w, d, s);
          KnowsSize(w0, hands + before + hand, a.w);
          EachSameWay(w0, hands + before + hand, a.w, s, incs[1..]);
        }
      } else {
        BitesNot(w0, hands + before);
        assert hands + before + [] == hands + before;
        EachSameWay(w0, hands + before, r.w, s, incs[1..]);
      }
  }

  lemma BareAt(w: World)
    ensures |Bare(w)| == |w|
    ensures forall i :: 0 <= i < |w| ==> Bare(w)[i] == w[i].(funcs := [])
  {
  }

  lemma BareAppend(w: World, src: nat, dst: nat)
    requires src < |w| && dst < |w|
    ensures AppendTo(Bare(w), src, dst) == Done(Bare(w), true)
  {
    var b := Bare(w);
    assert Own(b[src].funcs) == [];
    assert [] + b[dst].funcs == [];
    assert b[dst := b[dst].(funcs := [])] == b;
  }

  lemma AppendOpen(w: World, src: nat, dst: nat)
    requires src < |w| && dst < |w| && AppendTo(w, src, dst).Done?
    ensures var a := AppendTo(w, src, dst); |a.w| == |w| && Open(a.w) == Open(w)
  {
    OpenUpdate(w, dst, AppendTo(w, src, dst).w[dst]);
  }

  lemma ResolveOpen(w: World, s: nat)
    ensures var r := Resolve(w, s); r.Done? ==> |r.w| == |w| && Open(r.w) <= Open(w)
  {
  }

  lemma KnowsSize(w0: World, hands: seq<Hand>, w: World)
    requires Knows(w0, hands, w)
    ensures |w| == |w0|
  {
  }

  lemma {:induction false} AllSameWay(w0: World, hands: seq<Hand>, w: World, from: nat)
    requires Knows(w0, hands, w)
    ensures SameWay(w0, hands, ResolveAll(w, from), ResolveAll(Bare(w), from), HandsAll(Bare(w), from))
    decreases |w| - from
  {
    hide Knows, Gives, BitesFrom, Resolve, Hands, Bare;
    BareAt(w);
    BitesNot(w0, hands);
    if from < |w| {
      ResolveSameWay(w0, hands, w, from);
      var r, first := Resolve(w, from), Hands(Bare(w), from);
      var rb := Resolve(Bare(w), from);
      if rb.Done? {
        var rest := HandsAll(rb.w, from + 1);
        assert hands + (first + rest) == hands + first + rest;
        BitesLater(w0, hands, first, rest);
      }
      if r.Done? {
        KnowsSize(w0, hands + first, r.w);
        AllSameWay(w0, hands + first, r.w, from + 1);
      }
    }
  }

  /** Whatever includes whatever: linking hangs exactly if a script bites itself. */
  lemma HangsExactly(w: World)
    ensures ResolveAll(w, 0).Hangs? <==> BitesItself(w)
  {
    hide ResolveAll, HandsAll, Bare;
    AllSameWay(w, [], w, 0);
    assert [] + HandsAll(Bare(w), 0) == HandsAll(Bare(w), 0);
  }

  /** Otherwise every preparsed script is linked once, circles or not. */
  lemma EveryScriptLinkedOnce(w: World)
    requires Fresh(w)
    ensures var r := ResolveAll(w, 0);
            if BitesItself(w) then r.Hangs?
            else r.Done? && |r.w| == |w| && forall i :: 0 <= i < |w| ==> LinkedFrom(w[i], r.w[i])
  {
    hide ResolveAll, BitesItself, LinkedFrom;
    HangsExactly(w);
    if ResolveAll(w, 0).Done? { LinkedOnce(w); }
  }

  // ----- when a script bites itself -----

  ghost predicate SameIncludes(a: World, b: World) {
    |a| == |b| && forall i :: 0 <= i < |a| ==> a[i].includes == b[i].includes
  }

  /** `path` leads from script to script by what they include. */
  predicate Path(w: World, path: seq<nat>) {
    && |path| > 0 && (forall i :: 0 <= i < |path| ==> path[i] < |w|)
    && forall i :: 0 <= i < |path| - 1 ==> Some(path[i + 1]) in w[path[i]].includes
  }

  /** Script `a` includes `b`, directly or through others; or they are the same. */
  ghost predicate LeadsTo(w: World, a: nat, b: nat) {
    exists path :: Path(w, path) && path[0] == a && path[|path| - 1] == b
  }

  lemma LeadsThrough(w: World, a: nat, b: nat, c: nat)
    requires a < |w| && Some(b) in w[a].includes && LeadsTo(w, b, c)
    ensures LeadsTo(w, a, c)
  {
    var path :| Path(w, path) && path[0] == b && path[|path| - 1] == c;
    assert Path(w, [a] + path);
  }

  lemma ResolveIncludesSame(w: World, s: nat)
    ensures Resolve(w, s).Done? ==> SameIncludes(w, Resolve(w, s).w)
  {
    hide Resolve;
    ResolveChanges(w, s);
    if Resolve(w, s).Done? {
      forall i | 0 <= i < |w| ensures w[i].includes == Resolve(w, s).w[i].includes {
        assert Changed(w[i], Resolve(w, s).w[i]);
      }
    }
  }

  /** Scripts that are not led to are left alone. */
  lemma {:induction false} ResolveLeaves(w0: World, w: World, d: nat, s: nat)
    requires SameIncludes(w0, w) && s < |w| && d < |w| && !LeadsTo(w0, d, s)
    ensures var r := Resolve(w, d); r.Done? ==> |r.w| == |w| && r.w[s] == w[s]
    decreases Open(w), 0
  {
    hide LeadsTo;
    LeadsToSelf(w0, d);
    if w[d].state == Preparsed && IsOpen(w[d]) {
      var begun := w[d].(resolving := true, runs := w[d].runs + 1);
      OpenUpdate(w, d, begun);
      EachLeaves(w0, w[d := begun], d, w[d].includes, s);
    }
  }

  lemma LeadsToSelf(w: World, s: nat)
    requires s < |w|
    ensures LeadsTo(w, s, s)
  {
    assert Path(w, [s]);
  }

  lemma {:induction false} EachLeaves(w0: World, w: World, d: nat, incs: seq<Option<nat>>, s: nat)
    requires SameIncludes(w0, w) && s < |w| && d < |w| && d != s && !LeadsTo(w0, d, s)
    requires forall x :: x in incs ==> x in w0[d].includes
    ensures var r := Each(w, d, incs); r.Done? ==> |r.w| == |w| && r.w[s] == w[s]
    decreases Open(w), 1 + |incs|
  {
    hide LeadsTo;
    if |incs| > 0 {
      if incs[0].None? || incs[0].value >= |w| {
        EachLeaves(w0, w, d, incs[1..], s);
      } else {
        var e := incs[0].value;
        assert incs[0] in incs;
        var r := if w[e].resolved then Done(w, true) else Resolve(w, e);
        if LeadsTo(w0, e, s) { LeadsThrough(w0, d, e, s); }
        ResolveLeaves(w0, w, e, s);
        ResolveIncludesSame(w, e);
        if r.Done? {
          if r.ok {
            var a := AppendTo(r.w, e, d);
            if a.Done? {
              OpenUpdate(r.w, d, a.w[d]);
              EachLeaves(w0, a.w, d, incs[1..], s);
            }
          } else {
            EachLeaves(w0, r.w, d, incs[1..], s);
          }
        }
      }
    }
  }

  /** The first `k` includes of script `s` lead back to it. */
  ghost predicate LedBack(w: World, s: nat, k: nat)
    requires s < |w| && k <= |w[s].includes|
  {
    exists j :: 0 <= j < k && w[s].includes[j].Some? && LeadsTo(w, w[s].includes[j].value, s)
  }

  /** No script includes itself behind an include that leads back to it. */
  ghost predicate Careful(w: World) {
    forall s: nat, k: nat :: s < |w| && k < |w[s].includes| && w[s].includes[k] == Some(s) ==> !LedBack(w, s, k)
  }

  ghost predicate NoOwn(hands: seq<Hand>) { forall i :: 0 <= i < |hands| ==> hands[i].src != hands[i].dst }

  lemma {:induction false} HandsNoOwn(w0: World, w: World, s: nat)
    requires SameIncludes(w0, w) && Careful(w0)
    ensures NoOwn(Hands(w, s))
    decreases Open(w), 0
  {
    hide Careful;
    if s < |w| && w[s].state == Preparsed && IsOpen(w[s]) {
      var begun := w[s].(resolving := true, runs := w[s].runs + 1);
      OpenUpdate(w, s, begun);
      assert w[s].includes[0..] == w[s].includes;
      EachNoOwn(w0, w[s := begun], s, 0);
    }
  }

  lemma {:induction false} EachNoOwn(w0: World, w: World, s: nat, k: nat)
    requires SameIncludes(w0, w) && Careful(w0) && s < |w| && k <= |w0[s].includes| && w[s].resolving
    requires w[s].resolved ==> LedBack(w0, s, k)
    ensures NoOwn(HandsEach(w, s, w0[s].includes[k..]))
    decreases Open(w), 1 + |w0[s].includes| - k
  {
    hide LeadsTo, Resolve;
    var incs := w0[s].includes[k..];
    if k < |w0[s].includes| {
      assert incs[0] == w0[s].includes[k] && incs[1..] == w0[s].includes[k + 1..];
      if incs[0].None? || incs[0].value >= |w| {
        EachNoOwn(w0, w, s, k + 1);
      } else {
        var d := incs[0].value;
        var r := if w[d].resolved then Done(w, true) else Resolve(w, d);
        HandsNoOwn(w0, w, d);
        if r.Done? {
          OneNoOwn(w0, w, s, k, r);
          EachNoOwn(w0, r.w, s, k + 1);
        }
      }
    }
  }

  lemma OneNoOwn(w0: World, w: World, s: nat, k: nat, r: Outcome)
    requires SameIncludes(w0, w) && Careful(w0) && s < |w| && k < |w0[s].includes| && w[s].resolving
    requires w[s].resolved ==> LedBack(w0, s, k)
    requires var inc := w0[s].includes[k];
             inc.Some? && inc.value < |w| && r == (if w[inc.value].resolved then Done(w, true)
                 else Resolve(w, inc.value)) && r.Done?
    ensures |r.w| == |w| && Open(r.w) <= Open(w) && SameIncludes(w0, r.w) && r.w[s].resolving
    ensures r.w[s].resolved ==> LedBack(w0, s, k + 1)
    ensures r.ok ==> w0[s].includes[k].value != s
  {
    hide LeadsTo;
    var d := w0[s].includes[k].value;
    assert w0[s].includes[k] == Some(d);
    ResolveIncludesSame(w, d);
    ResolveOpen(w, d);
    ResolveChanges(w, d);
    assert Changed(w[s], r.w[s]) by { SameChanged(w); }
    KeepsResolving(w[s], r.w[s]);
    if !LeadsTo(w0, d, s) { ResolveLeaves(w0, w, d, s); }
  }

  lemma {:induction false} AllNoOwn(w0: World, w: World, from: nat)
    requires SameIncludes(w0, w) && Careful(w0)
    ensures NoOwn(HandsAll(w, from))
    decreases |w| - from
  {
    hide Careful, SameIncludes, Hands, Resolve;
    if from < |w| {
      HandsNoOwn(w0, w, from);
      ResolveIncludesSame(w, from);
      ResolveOpen(w, from);
      var r := Resolve(w, from);
      if r.Done? {
        assert SameIncludes(w0, r.w) by { SameTwice(w0, w, r.w); }
        AllNoOwn(w0, r.w, from + 1);
      }
    }
  }

  lemma SameTwice(a: World, b: World, c: World)
    requires SameIncludes(a, b) && SameIncludes(b, c)
    ensures SameIncludes(a, c)
  {
  }

  /** Circles alone do no harm: linking hangs only if a script includes itself behind an include
      that leads back to it. So it always ends where no script includes itself. */
  lemma CarefulEnds(w: World)
    requires Careful(w)
    ensures !BitesItself(w) && ResolveAll(w, 0).Done?
  {
    hide Careful, HandsAll, ResolveAll;
    BareAt(w);
    CarefulBare(w);
    AllNoOwn(Bare(w), Bare(w), 0);
    HangsExactly(w);
  }

  lemma CarefulBare(w: World)
    requires Careful(w)
    ensures Careful(Bare(w))
  {
    hide LeadsTo;
    var b := Bare(w);
    forall s: nat, k: nat | s < |b| && k < |b[s].includes| && b[s].includes[k] == Some(s) ensures !LedBack(b, s, k) {
      assert !LedBack(w, s, k);
      forall j | 0 <= j < k && b[s].includes[j].Some? ensures !LeadsTo(b, b[s].includes[j].value, s) {
        LeadsBare(w, w[s].includes[j].value, s);
      }
    }
  }

  lemma LeadsBare(w: World, a: nat, c: nat)
    ensures LeadsTo(Bare(w), a, c) ==> LeadsTo(w, a, c)
  {
    if LeadsTo(Bare(w), a, c) {
      var path :| Path(Bare(w), path) && path[0] == a && path[|path| - 1] == c;
      assert Path(w, path);
    }
  }

  lemma NoSelfCareful(w: World)
    requires forall s :: 0 <= s < |w| ==> Some(s) !in w[s].includes
    ensures Careful(w)
  {
    hide LedBack;
  }

  /** `s` stands in the list at least twice. */
  predicate Twice(incs: seq<Option<nat>>, s: nat) {
    exists j, k :: 0 <= j < k < |incs| && incs[j] == incs[k] == Some(s)
  }

  /** A script that includes itself twice and has functions to hand on. */
  predicate Looping(a: Script, s: nat) {
    a.state == Preparsed && IsOpen(a) && |Own(a.funcs)| > 0 && Twice(a.includes, s)
  }

  /** Marked early, because it was met while it was being resolved. */
  function Marked(a: Script): Script { a.(resolved := true, state := Linked) }

  /** A script that is being resolved, or waits and includes itself twice, gets no functions
      from others while script `d` is resolved. */
  lemma {:induction false} ResolveKeeps(w: World, d: nat, s: nat)
    requires s < |w| && (w[s].resolving || Looping(w[s], s))
    ensures var r := Resolve(w, d);
            r.Done? ==> |r.w| == |w| && (r.w[s] == w[s] || (w[s].resolving && r.w[s] == Marked(w[s])))
                        && (Looping(w[s], s) ==> d != s)
    decreases Open(w), 1, 0
  {
    hide Own, Twice;
    if d < |w| && w[d].state == Preparsed && IsOpen(w[d]) {
      var begun := w[d].(resolving := true, runs := w[d].runs + 1);
      var w1 := w[d := begun];
      OpenUpdate(w, d, begun);
      if d == s {
        TwiceHangs(w1, s, w[s].includes);
      } else {
        EachKeeps(w1, d, w[d].includes, s);
      }
    }
  }

  lemma {:induction false} EachKeeps(w: World, d: nat, incs: seq<Option<nat>>, s: nat)
    requires s < |w| && d < |w| && d != s && (w[s].resolving || Looping(w[s], s))
    ensures var r := Each(w, d, incs);
            r.Done? ==> |r.w| == |w| && (r.w[s] == w[s] || (w[s].resolving && r.w[s] == Marked(w[s])))
    decreases Open(w), 2, |incs|
  {
    hide Own, Twice, Resolve;
    if |incs| > 0 {
      if incs[0].None? || incs[0].value >= |w| {
        EachKeeps(w, d, incs[1..], s);
      } else {
        var e := incs[0].value;
        var r := if w[e].resolved then Done(w, true) else Resolve(w, e);
        ResolveKeeps(w, e, s);
        ResolveOpen(w, e);
        if r.Done? {
          if r.ok {
            var a := AppendTo(r.w, e, d);
            if a.Done? {
              OpenUpdate(r.w, d, a.w[d]);
              EachKeeps(a.w, d, incs[1..], s);
            }
          } else {
            EachKeeps(r.w, d, incs[1..], s);
          }
        }
      }
    }
  }

  /** The second time, or the first if it is already marked, it is handed to itself. */
  lemma {:induction false} TwiceHangs(w: World, s: nat, incs: seq<Option<nat>>)
    requires s < |w| && w[s].resolving && |Own(w[s].funcs)| > 0
    requires if w[s].resolved then Some(s) in incs else w[s].state == Preparsed && Twice(incs, s)
    ensures Each(w, s, incs).Hangs?
    decreases Open(w), 2, |incs|
  {
    hide Resolve;
    if incs[0].None? || incs[0].value >= |w| {
      TwiceHangs(w, s, incs[1..]);
    } else {
      var d := incs[0].value;
      var r := if w[d].resolved then Done(w, true) else Resolve(w, d);
      OneBefore(w, s, incs, r);
      if r.Done? {
        if r.ok {
          var a := AppendTo(r.w, d, s);
          if a.Done? {
            OwnJoin(Own(r.w[d].funcs), r.w[s].funcs);
            OwnTwice(r.w[d].funcs);
            OpenUpdate(r.w, s, a.w[s]);
            TwiceHangs(a.w, s, incs[1..]);
          }
        } else {
          TwiceHangs(r.w, s, incs[1..]);
        }
      }
    }
  }

  /** The first include of the list is resolved, which may be the script itself. */
  lemma OneBefore(w: World, s: nat, incs: seq<Option<nat>>, r: Outcome)
    requires s < |w| && w[s].resolving && |incs| > 0 && incs[0].Some? && incs[0].value < |w|
    requires if w[s].resolved then Some(s) in incs else w[s].state == Preparsed && Twice(incs, s)
    requires r == if w[incs[0].value].resolved then Done(w, true) else Resolve(w, incs[0].value)
    ensures r.Done? ==>
              |r.w| == |w| && Open(r.w) <= Open(w) && r.w[s].resolving && r.w[s].funcs == w[s].funcs
              && (if r.w[s].resolved then Some(s) in incs[1..] || (r.ok && incs[0].value == s)
                  else r.w[s].state == Preparsed && Twice(incs[1..], s))
    decreases Open(w), 2, 0
  {
    hide Own, Twice, Resolve;
    ResolveKeeps(w, incs[0].value, s);
    ResolveOpen(w, incs[0].value);
    if !w[s].resolved {
      TwiceTail(incs, s);
      if incs[0].value == s { assert Resolve(w, s) == Done(w[s := Marked(w[s])], false) by { MarksOwn(w, s); } }
    }
  }

  lemma MarksOwn(w: World, s: nat)
    requires s < |w| && w[s].resolving && !w[s].resolved && w[s].state == Preparsed
    ensures Resolve(w, s) == Done(w[s := Marked(w[s])], false)
  {
  }

  lemma TwiceTail(incs: seq<Option<nat>>, s: nat)
    requires Twice(incs, s)
    ensures Some(s) in incs[1..] && (incs[0] != Some(s) ==> Twice(incs[1..], s))
  {
    var j, k :| 0 <= j < k < |incs| && incs[j] == incs[k] == Some(s);
    assert incs[1..][k - 1] == Some(s);
    if j > 0 { assert incs[1..][j - 1] == Some(s); }
  }

  lemma {:induction false} LoopingHangs(w: World, from: nat, s: nat)
    requires from <= s < |w| && Looping(w[s], s)
    ensures ResolveAll(w, from).Hangs?
    decreases |w| - from
  {
    hide Own, Twice, Resolve;
    ResolveKeeps(w, from, s);
    var r := Resolve(w, from);
    if r.Done? { LoopingHangs(r.w, from + 1, s); }
  }

  /** Every script that includes itself twice and has functions of its own makes linking hang,
      whatever else is included. */
  lemma SelfIncludeHangs(w: World, s: nat)
    requires Fresh(w) && s < |w| && w[s].state == Preparsed && |Own(w[s].funcs)| > 0 && Twice(w[s].includes, s)
    ensures BitesItself(w) && ResolveAll(w, 0).Hangs?
  {
    LoopingHangs(w, 0, s);
    HangsExactly(w);
  }

  // ----- without circles -----

  /** Includes lead to scripts of lower rank, so there are no circles. */
  ghost predicate Ranked(w: World, rank: seq<nat>) {
    |rank| == |w| &&
    forall i, k ::
      0 <= i < |w| && 0 <= k < |w[i].includes| && w[i].includes[k].Some? && w[i].includes[k].value < |w| ==>
        rank[w[i].includes[k].value] < rank[i]
  }

  /** The functions of script `s` in the end, and those its includes give it on top of `acc`. */
  function Final(w: World, rank: seq<nat>, s: nat): seq<Func>
    requires Ranked(w, rank) && s < |w|
    decreases rank[s], 0
  {
    if w[s].state == Preparsed then Gather(w, rank, s, 0, w[s].funcs) else w[s].funcs
  }

  function Gather(w: World, rank: seq<nat>, s: nat, k: nat, acc: seq<Func>): seq<Func>
    requires Ranked(w, rank) && s < |w| && k <= |w[s].includes|
    decreases rank[s], 0, |w[s].includes| - k
  {
    if k == |w[s].includes| then acc
    else
      var inc := w[s].includes[k];
      if inc.None? || inc.value >= |w| || w[inc.value].state != Preparsed then Gather(w, rank, s, k + 1, acc)
      else Gather(w, rank, s, k + 1, Own(Final(w, rank, inc.value)) + acc)
  }

  /** A script at rest: settled with its final functions, or as it was at first. */
  ghost predicate Resting(w0: World, rank: seq<nat>, a: Script, i: nat)
    requires Ranked(w0, rank) && i < |w0|
  {
    if w0[i].state == Preparsed then
      (Settled(a) && a.funcs == Final(w0, rank, i)) || (IsOpen(a) && a.state == Preparsed && a.funcs == w0[i].funcs)
    else a.state != Preparsed && IsOpen(a) && a.funcs == w0[i].funcs
  }

  predicate Busy(a: Script) { a.resolving && !a.resolved && a.state == Preparsed }

  /** Every script rests, or is being resolved and has at least rank `below`. */
  ghost predicate Sound(w0: World, rank: seq<nat>, w: World, below: nat) {
    && |w| == |w0| && Ranked(w0, rank)
    && forall i :: 0 <= i < |w| ==>
         w[i].includes == w0[i].includes
         && (Resting(w0, rank, w[i], i) || (Busy(w[i]) && w0[i].state == Preparsed && rank[i] >= below))
  }

  /** Scripts that are being resolved are left alone, and no others are being resolved. */
  ghost predicate SameBusy(w: World, w': World) {
    |w| == |w'| &&
    forall i :: 0 <= i < |w| ==> (w[i].resolving ==> w'[i] == w[i]) && (w'[i].resolving ==> w[i].resolving)
  }

  lemma SoundFrom(w0: World, rank: seq<nat>, w: World, w': World, low: nat, high: nat)
    requires |rank| == |w0| && Sound(w0, rank, w, high) && Sound(w0, rank, w', low) && SameBusy(w, w')
    ensures Sound(w0, rank, w', high)
  {
    hide Resting, Ranked;
    forall i | 0 <= i < |w'|
      ensures w'[i].includes == w0[i].includes
              && (Resting(w0, rank, w'[i], i) || (Busy(w'[i]) && w0[i].state == Preparsed && rank[i] >= high))
    {
      RestingIsNot(w0, rank, w[i], i);
    }
  }

  lemma RestingIsNot(w0: World, rank: seq<nat>, a: Script, i: nat)
    requires Ranked(w0, rank) && i < |w0|
    ensures Resting(w0, rank, a, i) ==> !a.resolving
  {
  }

  lemma SoundLower(w0: World, rank: seq<nat>, w: World, low: nat, high: nat)
    requires Sound(w0, rank, w, high) && low <= high
    ensures Sound(w0, rank, w, low)
  {
    hide Resting, Ranked;
  }

  lemma {:induction false} ResolveSound(w0: World, rank: seq<nat>, w: World, s: nat)
    requires s < |w0| == |rank| && Sound(w0, rank, w, rank[s] + 1)
    ensures var r := Resolve(w, s);
            r.Done? && Sound(w0, rank, r.w, rank[s] + 1) && SameBusy(w, r.w)
            && r.ok == (IsOpen(w[s]) && w0[s].state == Preparsed)
            && (w0[s].state == Preparsed ==> Settled(r.w[s]) && r.w[s].funcs == Final(w0, rank, s))
    decreases rank[s], 2, 0
  {
    hide Own, Final, Gather, Ranked;
    assert Resting(w0, rank, w[s], s);
    if IsOpen(w[s]) && w[s].state == Preparsed {
      var begun := w[s].(resolving := true, runs := w[s].runs + 1);
      var w1 := w[s := begun];
      var r := Each(w1, s, w[s].includes);
      BeginSound(w0, rank, w, s, w1);
      EachSound(w0, rank, w1, s, 0);
      assert w0[s].includes[0..] == w[s].includes;
      FinalOpens(w0, rank, s);
      EndSound(w0, rank, w, s, w1, r.w);
    }
  }

  lemma FinalOpens(w0: World, rank: seq<nat>, s: nat)
    requires Ranked(w0, rank) && s < |w0| && w0[s].state == Preparsed
    ensures Final(w0, rank, s) == Gather(w0, rank, s, 0, w0[s].funcs)
  {
  }

  lemma BeginSound(w0: World, rank: seq<nat>, w: World, s: nat, w1: World)
    requires s < |w0| == |rank| && Sound(w0, rank, w, rank[s] + 1) && IsOpen(w[s]) && w[s].state == Preparsed
    requires w1 == w[s := w[s].(resolving := true, runs := w[s].runs + 1)]
    ensures Sound(w0, rank, w1, rank[s]) && Busy(w1[s]) && w0[s].state == Preparsed && w[s].funcs == w0[s].funcs
    ensures forall i :: 0 <= i < |w1| && w1[i].resolving && i != s ==> rank[i] > rank[s]
  {
    hide Final, Ranked;
    assert Resting(w0, rank, w[s], s);
  }

  lemma EndSound(w0: World, rank: seq<nat>, w: World, s: nat, w1: World, w2: World)
    requires s < |w0| == |rank| && Sound(w0, rank, w, rank[s] + 1) && IsOpen(w[s]) && w[s].state == Preparsed
             && w0[s].state == Preparsed
    requires w1 == w[s := w[s].(resolving := true, runs := w[s].runs + 1)]
    requires Sound(w0, rank, w2, rank[s]) && w2[s] == w1[s].(funcs := w2[s].funcs) && w2[s].funcs == Final(w0, rank, s)
    requires forall i :: 0 <= i < |w1| && i != s ==>
             (w1[i].resolving ==> w2[i] == w1[i]) && (w2[i].resolving ==> w1[i].resolving)
    ensures var w3 := w2[s := w2[s].(resolved := true, resolving := false, state := Linked)];
            Sound(w0, rank, w3, rank[s] + 1) && SameBusy(w, w3)
  {
    hide Final, Ranked;
    var w3 := w2[s := w2[s].(resolved := true, resolving := false, state := Linked)];
    forall i | 0 <= i < |w3|
      ensures w3[i].includes == w0[i].includes
              && (Resting(w0, rank, w3[i], i) || (Busy(w3[i]) && w0[i].state == Preparsed && rank[i] >= rank[s] + 1))
    {
      if i != s && w2[i].resolving { RestingIsNot(w0, rank, w[i], i); RestingIsNot(w0, rank, w2[i], i); }
    }
  }

  lemma {:induction false} EachSound(w0: World, rank: seq<nat>, w: World, s: nat, k: nat)
    requires s < |w0| == |rank| && Sound(w0, rank, w, rank[s]) && k <= |w0[s].includes|
    requires Busy(w[s]) && w0[s].state == Preparsed
    ensures var r := Each(w, s, w0[s].includes[k..]);
            r.Done? && Sound(w0, rank, r.w, rank[s]) && r.w[s].funcs == Gather(w0, rank, s, k, w[s].funcs)
            && r.w[s] == w[s].(funcs := r.w[s].funcs)
            && forall i :: 0 <= i < |w| && i != s ==>
                (w[i].resolving ==> r.w[i] == w[i]) && (r.w[i].resolving ==> w[i].resolving)
    decreases rank[s], 1, |w0[s].includes| - k
  {
    hide Own, Final, Resting, Busy;
    var incs := w0[s].includes[k..];
    if k < |w0[s].includes| {
      assert incs[0] == w0[s].includes[k] && incs[1..] == w0[s].includes[k + 1..];
      if incs[0].None? || incs[0].value >= |w| {
        EachSound(w0, rank, w, s, k + 1);
      } else {
        var w1 := EachOne(w0, rank, w, s, incs[0].value);
        EachSound(w0, rank, w1, s, k + 1);
      }
    }
  }

  /** One include that is there. */
  lemma EachOne(w0: World, rank: seq<nat>, w: World, s: nat, d: nat) returns (w1: World)
    requires s < |w0| == |rank| && Sound(w0, rank, w, rank[s]) && Busy(w[s]) && w0[s].state == Preparsed
    requires d < |w| == |w0| && rank[d] < rank[s]
    ensures var r := if w[d].resolved then Done(w, true) else Resolve(w, d);
            r.Done? && Sound(w0, rank, w1, rank[s]) && Busy(w1[s])
            && (if w0[d].state == Preparsed then r.ok && AppendTo(r.w, d, s) == Done(w1, true) else !r.ok && w1 == r.w)
            && w1[s] == w[s].(funcs := if w0[d].state == Preparsed then Own(Final(w0, rank, d)) + w[s].funcs
                else w[s].funcs)
            && forall i :: 0 <= i < |w| && i != s ==>
                (w[i].resolving ==> w1[i] == w[i]) && (w1[i].resolving ==> w[i].resolving)
    decreases rank[s], 0, 0
  {
    hide Own, Final, Gather, Ranked, Resolve;
    SoundLower(w0, rank, w, rank[d] + 1, rank[s]);
    ResolvedRests(w0, rank, w, d, rank[s]);
    var w2 := w;
    if !w[d].resolved {
      ResolveSound(w0, rank, w, d);
      w2 := Resolve(w, d).w;
      SoundFrom(w0, rank, w, w2, rank[d] + 1, rank[s]);
    }
    if w0[d].state == Preparsed {
      w1 := w2[s := w2[s].(funcs := Own(w2[d].funcs) + w2[s].funcs)];
      assert Sound(w0, rank, w1, rank[s]) by { StaysSound(w0, rank, w2, s, Own(w2[d].funcs) + w2[s].funcs); }
    } else {
      w1 := w2;
    }
  }

  lemma ResolvedRests(w0: World, rank: seq<nat>, w: World, d: nat, below: nat)
    requires Sound(w0, rank, w, below) && d < |w|
    ensures w[d].resolved ==> w0[d].state == Preparsed && Settled(w[d]) && w[d].funcs == Final(w0, rank, d)
  {
  }

  lemma StaysSound(w0: World, rank: seq<nat>, w: World, s: nat, funcs: seq<Func>)
    requires s < |w0| == |rank| && Sound(w0, rank, w, rank[s]) && Busy(w[s])
    ensures Sound(w0, rank, w[s := w[s].(funcs := funcs)], rank[s])
  {
    hide Final, Ranked;
    RestingIsNot(w0, rank, w[s], s);
    var w1 := w[s := w[s].(funcs := funcs)];
    forall i | 0 <= i < |w1|
      ensures w1[i].includes == w0[i].includes
              && (Resting(w0, rank, w1[i], i) || (Busy(w1[i]) && w0[i].state == Preparsed && rank[i] >= rank[s]))
    {
      assert w[i].includes == w0[i].includes;
    }
  }

  lemma {:induction false} ResolveAllSound(w0: World, rank: seq<nat>, w: World, from: nat, top: nat)
    requires |rank| == |w0| && Sound(w0, rank, w, top) && forall i :: 0 <= i < |w0| ==> rank[i] < top
    requires forall i :: 0 <= i < from && i < |w0| && w0[i].state == Preparsed ==>
             Settled(w[i]) && w[i].funcs == Final(w0, rank, i)
    ensures var r := ResolveAll(w, from);
            r.Done? && |r.w| == |w0| && forall i :: 0 <= i < |w0| && w0[i].state == Preparsed ==>
                r.w[i].funcs == Final(w0, rank, i)
    decreases |w0| - from
  {
    hide Final, Ranked, Resolve;
    if from < |w| {
      SoundLower(w0, rank, w, rank[from] + 1, top);
      ResolveSound(w0, rank, w, from);
      var w1 := Resolve(w, from).w;
      SoundFrom(w0, rank, w, w1, rank[from] + 1, top);
      ResolveChanges(w, from);
      forall i | 0 <= i < from + 1 && i < |w0| && w0[i].state == Preparsed
          ensures Settled(w1[i]) && w1[i].funcs == Final(w0, rank, i) {
        assert Changed(w[i], w1[i]);
        ResolvedRests(w0, rank, w1, i, top);
      }
      ResolveAllSound(w0, rank, w1, from + 1, top);
    }
  }

  /** Without circles, linking comes to an end, and every script has the functions of its
      includes before its own. */
  lemma AcyclicLists(w: World, rank: seq<nat>, top: nat)
    requires Fresh(w) && Ranked(w, rank) && forall i :: 0 <= i < |w| ==> rank[i] < top
    ensures var r := ResolveAll(w, 0);
            r.Done? && |r.w| == |w| && forall i :: 0 <= i < |w| && w[i].state == Preparsed ==>
                r.w[i].funcs == Final(w, rank, i)
  {
    ResolveAllSound(w, rank, w, 0, top);
  }

  // ----- in the order of the source -----

  /** The functions that includes `k` and on give, the last of them first. */
  function Given(w: World, rank: seq<nat>, s: nat, k: nat): seq<Func>
    requires Ranked(w, rank) && s < |w| && k <= |w[s].includes|
    decreases |w[s].includes| - k
  {
    if k == |w[s].includes| then []
    else
      var inc := w[s].includes[k];
      Given(w, rank, s, k + 1)
      + if inc.None? || inc.value >= |w| || w[inc.value].state != Preparsed then [] else Own(Final(w, rank, inc.value))
  }

  /** As the include named last stands first among the includes, the lists come in the order of
      the source; the script's own functions are last. */
  lemma {:induction false} SourceOrder(w: World, rank: seq<nat>, s: nat, k: nat, acc: seq<Func>)
    requires Ranked(w, rank) && s < |w| && k <= |w[s].includes|
    ensures Gather(w, rank, s, k, acc) == Given(w, rank, s, k) + acc
    decreases |w[s].includes| - k
  {
    hide Final, Own, Ranked;
    if k == |w[s].includes| {
      assert [] + acc == acc;
    } else {
      var inc, rest := w[s].includes[k], Given(w, rank, s, k + 1);
      if inc.None? || inc.value >= |w| || w[inc.value].state != Preparsed {
        SourceOrder(w, rank, s, k + 1, acc);
        assert rest + [] == rest;
      } else {
        var own := Own(Final(w, rank, inc.value));
        SourceOrder(w, rank, s, k + 1, own + acc);
        assert rest + (own + acc) == rest + own + acc;
      }
    }
  }

  /** The function a name stands for is the last of that name. */
  function Lookup(fs: seq<Func>, name: nat): Option<Func>
    decreases |fs|
  {
    if |fs| == 0 then None
    else if fs[|fs| - 1].name == name then Some(fs[|fs| - 1])
    else Lookup(fs[..|fs| - 1], name)
  }

  lemma {:induction false} LookupJoin(a: seq<Func>, b: seq<Func>, name: nat)
    ensures Lookup(a + b, name) == if Lookup(b, name).Some? then Lookup(b, name) else Lookup(a, name)
    decreases |b|
  {
    if |b| == 0 {
      assert a + b == a;
    } else {
      assert (a + b)[..|a + b| - 1] == a + b[..|b| - 1];
      LookupJoin(a, b[..|b| - 1], name);
    }
  }

  /** Own functions override all included ones; among the includes, the one named last in the
      source wins. */
  lemma OwnOverrides(w: World, rank: seq<nat>, top: nat, s: nat, name: nat)
    requires Fresh(w) && Ranked(w, rank) && (forall i :: 0 <= i < |w| ==> rank[i] < top) && s < |w|
             && w[s].state == Preparsed
    ensures var r := ResolveAll(w, 0);
            r.Done? && |r.w| == |w|
            && Lookup(r.w[s].funcs, name) ==
               if Lookup(w[s].funcs, name).Some? then Lookup(w[s].funcs, name) else Lookup(Given(w, rank, s, 0), name)
  {
    hide Final, Gather, Given, Ranked, ResolveAll, Lookup;
    AcyclicLists(w, rank, top);
    FinalOpens(w, rank, s);
    SourceOrder(w, rank, s, 0, w[s].funcs);
    LookupJoin(Given(w, rank, s, 0), w[s].funcs, name);
  }

  // ----- the linker at work -----

  lemma OwnHead(fs: seq<Func>, i: nat)
    requires i < |fs|
    ensures Own(fs[i..]) == (if fs[i].isScript && !fs[i].isGlobal then [fs[i]] else []) + Own(fs[i + 1..])
  {
    assert fs[i..][1..] == fs[i + 1..];
  }

  class Linker {
    var w: World

    constructor (w: World)
      ensures this.w == w
    {
      this.w := w;
    }

    /** From the last function to the first, a copy of each goes to the beginning of the other
        list. Where that would go on for ever, `hangs`. */
    method Append(src: nat, dst: nat) returns (hangs: bool)
      requires src < |w| && dst < |w|
      modifies this
      ensures match AppendTo(old(w), src, dst)
              case Done(w1, _) => !hangs && w == w1
              case Hangs => hangs
      ensures |w| == |old(w)|
    {
      var from := w[src].funcs;
      var copies: seq<Func> := [];
      var i := |from|;
      while i > 0
        invariant 0 <= i <= |from| && w == old(w) && copies == Own(from[i..])
      {
        i := i - 1;
        OwnHead(from, i);
        if from[i].isScript && !from[i].isGlobal { copies := [from[i]] + copies; }
      }
      assert from[0..] == from;
      // a copy in the same list is reached next, and copied again
      hangs := src == dst && |copies| > 0;
      w := w[dst := w[dst].(funcs := copies + w[dst].funcs)];
    }

    /** Goes through the includes of script `s`, unless that was done or is being done. */
    method ResolveIncludes(s: nat) returns (ok: bool, hangs: bool)
      modifies this
      ensures match Resolve(old(w), s)
              case Done(w1, ok1) => !hangs && w == w1 && ok == ok1
              case Hangs => hangs
      decreases Open(w), 0
    {
      if s >= |w| || w[s].state != Preparsed { return false, false; }
      if w[s].resolved { return true, false; }
      if w[s].resolving {
        w := w[s := w[s].(resolved := true, state := Linked)];
        return false, false;
      }
      ghost var begun := w[s].(resolving := true, runs := w[s].runs + 1);
      OpenUpdate(w, s, begun);
      w := w[s := w[s].(resolving := true, runs := w[s].runs + 1)];
      ghost var w1 := w;
      var incs := w[s].includes;
      hangs := ResolveEach(s, incs);
      if hangs { return false, true; }
      w := w[s := w[s].(resolved := true, resolving := false, state := Linked)];
      ok := true;
    }

    method ResolveEach(s: nat, includes: seq<Option<nat>>) returns (hangs: bool)
      requires s < |w|
      modifies this
      ensures match Each(old(w), s, includes)
              case Done(w1, _) => !hangs && w == w1
              case Hangs => hangs
      decreases Open(w), 1
    {
      var incs := includes;
      while |incs| > 0
        invariant s < |w| && Open(w) <= Open(old(w)) && Each(w, s, incs) == Each(old(w), s, includes)
        decreases |incs|
      {
        if incs[0].Some? && incs[0].value < |w| {
          var d := incs[0].value;
          var ok := true;
          ghost var before := w;
          if !w[d].resolved {
            ok, hangs := ResolveIncludes(d);
            if hangs { return true; }
          }
          if ok {
            ghost var between := w;
            hangs := Append(d, s);
            if hangs { return true; }
            OpenUpdate(between, s, w[s]);
          }
        }
        incs := incs[1..];
      }
      hangs := false;
    }
  }
}
