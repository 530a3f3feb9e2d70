/** Functions of the same name in different scripts are linked in rings, by which an object call
    finds the function of the object's definition, starting from any of them. */
module Rings {
  import opened Wrappers

  // ----- the script tree -----

  /** A script with the scripts below it. `def`: the definition it belongs to. `names`: its
      functions in the order of its list; a later one overloads an earlier one of the same name. */
  datatype Script = Script(def: Option<nat>, isEngine: bool, names: seq<nat>)

  datatype Tree = Node(script: Script, kids: seq<Tree>)

  function Preorder(t: Tree): seq<Script>
    decreases t, 0
  {
    [t.script] + PreorderAll(t.kids)
  }

  function PreorderAll(ts: seq<Tree>): seq<Script>
    decreases ts, 1
  {
    if |ts| == 0 then [] else Preorder(ts[0]) + PreorderAll(ts[1..])
  }

  /** Going through the tree from one script to the next: down to the first child, or else up
      until there is a next sibling. `up`: the siblings still to come, on each level. */
  function Walk(t: Tree, up: seq<seq<Tree>>): seq<Script>
    decreases Size(t) + SizeUp(up), 1
  {
    [t.script]
    + if |t.kids| > 0 then
        var rest := [t.kids[1..]] + up;
        assert rest[0] == t.kids[1..] && rest[1..] == up;
        assert SizeUp(rest) == SizeAll(t.kids[1..]) + SizeUp(up);
        assert Size(t) == 1 + (Size(t.kids[0]) + SizeAll(t.kids[1..]));
        Walk(t.kids[0], rest)
      else Climb(up)
  }

  function Climb(up: seq<seq<Tree>>): seq<Script>
    decreases SizeUp(up), 2 + |up|
  {
    if |up| == 0 then []
    else if |up[0]| > 0 then
      var rest := [up[0][1..]] + up[1..];
      assert rest[0] == up[0][1..] && rest[1..] == up[1..];
      Walk(up[0][0], rest)
    else Climb(up[1..])
  }

  function Size(t: Tree): nat
    decreases t, 0
  {
    1 + SizeAll(t.kids)
  }

  function SizeAll(ts: seq<Tree>): nat
    decreases ts, 1
  {
    if |ts| == 0 then 0 else Size(ts[0]) + SizeAll(ts[1..])
  }

  function SizeUp(up: seq<seq<Tree>>): nat
    decreases |up|
  {
    if |up| == 0 then 0 else SizeAll(up[0]) + SizeUp(up[1..])
  }

  /** What is still to come on all levels. */
  function Pending(up: seq<seq<Tree>>): seq<Script>
    decreases |up|
  {
    if |up| == 0 then [] else PreorderAll(up[0]) + Pending(up[1..])
  }

  lemma {:induction false} WalkIsPreorder(t: Tree, up: seq<seq<Tree>>)
    ensures Walk(t, up) == Preorder(t) + Pending(up)
    decreases Size(t) + SizeUp(up), 1
  {
    if |t.kids| > 0 {
      var rest := [t.kids[1..]] + up;
      assert rest[0] == t.kids[1..] && rest[1..] == up;
      assert SizeUp(rest) == SizeAll(t.kids[1..]) + SizeUp(up);
      assert Size(t) == 1 + (Size(t.kids[0]) + SizeAll(t.kids[1..]));
      WalkIsPreorder(t.kids[0], rest);
      assert Preorder(t.kids[0]) + (PreorderAll(t.kids[1..]) + Pending(up))
          == Preorder(t.kids[0]) + PreorderAll(t.kids[1..]) + Pending(up);
      assert [t.script] + (PreorderAll(t.kids) + Pending(up)) == [t.script] + PreorderAll(t.kids) + Pending(up);
    } else {
      ClimbIsPending(up);
    }
  }

  lemma {:induction false} ClimbIsPending(up: seq<seq<Tree>>)
    ensures Climb(up) == Pending(up)
    decreases SizeUp(up), 2 + |up|
  {
    if |up| > 0 {
      if |up[0]| > 0 {
        var rest := [up[0][1..]] + up[1..];
        assert rest[1..] == up[1..];
        WalkIsPreorder(up[0][0], rest);
        assert Preorder(up[0][0]) + (PreorderAll(up[0][1..]) + Pending(up[1..]))
            == Preorder(up[0][0]) + PreorderAll(up[0][1..]) + Pending(up[1..]);
      } else {
        ClimbIsPending(up[1..]);
        assert [] + Pending(up[1..]) == Pending(up[1..]);
      }
    }
  }

  // ----- functions -----

  /** Function `i` of the list of script `o`; scripts are numbered as the walk meets them. */
  datatype FuncId = FuncId(o: nat, i: nat)

  type World = seq<Script>

  predicate Valid(w: World, f: FuncId) { f.o < |w| && f.i < |w[f.o].names| }

  predicate Overloaded(w: World, f: FuncId)
    requires Valid(w, f)
  {
    exists j :: f.i < j < |w[f.o].names| && w[f.o].names[j] == w[f.o].names[f.i]
  }

  /** The last function of a name in a list. */
  function LastOf(names: seq<nat>, name: nat): (r: Option<nat>)
    ensures r.Some? ==> r.value < |names| && names[r.value] == name
    ensures r.Some? ==> forall j :: r.value < j < |names| ==> names[j] != name
    ensures r.None? ==> name !in names
    decreases |names|
  {
    if |names| == 0 then None
    else if names[|names| - 1] == name then Some(|names| - 1)
    else LastOf(names[..|names| - 1], name)
  }

  function TopOf(w: World, o: nat, name: nat): Option<nat>
    requires o < |w|
  {
    LastOf(w[o].names, name)
  }

  function NameOf(w: World, f: FuncId): nat
    requires Valid(w, f)
  {
    w[f.o].names[f.i]
  }

  /** A function that is not overloaded is the last of its name, and the other way round. */
  lemma TopIsNotOverloaded(w: World, f: FuncId)
    requires Valid(w, f)
    ensures !Overloaded(w, f) <==> TopOf(w, f.o, NameOf(w, f)) == Some(f.i)
  {
    var names, r := w[f.o].names, TopOf(w, f.o, NameOf(w, f));
    assert names[f.i] in names;
    if r.value > f.i {
      assert names[r.value] == names[f.i];
    }
  }

  /** The topmost functions of a name in scripts `from` and on, the last script's first. */
  function Members(w: World, name: nat, from: nat): (r: seq<FuncId>)
    requires from <= |w|
    ensures forall k :: 0 <= k < |r| ==> from <= r[k].o < |w| && TopOf(w, r[k].o, name) == Some(r[k].i)
    ensures forall k, l :: 0 <= k < l < |r| ==> r[k].o > r[l].o
    ensures forall o :: from <= o < |w| && TopOf(w, o, name).Some? ==> FuncId(o, TopOf(w, o, name).value) in r
    decreases |w| - from
  {
    if from == |w| then []
    else
      var rest := Members(w, name, from + 1);
      if TopOf(w, from, name).Some? then rest + [FuncId(from, TopOf(w, from, name).value)] else rest
  }

  // ----- linking -----

  type Links = map<FuncId, FuncId>

  /** The script's topmost function of that name comes into the ring, right behind `first`. */
  function LinkOne(w: World, links: Links, first: FuncId, name: nat, p: nat): Links
    requires p < |w| && first in links
  {
    if TopOf(w, p, name).None? then links
    else
      var f := FuncId(p, TopOf(w, p, name).value);
      links[f := links[first]][first := f]
  }

  /** The scripts behind, one after the other. */
  function LinkBehind(w: World, links: Links, first: FuncId, name: nat, p: nat): Links
    requires first in links && p <= |w|
    decreases |w| - p
  {
    if p == |w| then links else LinkBehind(w, LinkOne(w, links, first, name, p), first, name, p + 1)
  }

  function LinkFunc(w: World, links: Links, f: FuncId): Links
    requires Valid(w, f)
  {
    if f in links || Overloaded(w, f) then links
    else LinkBehind(w, links[f := f], f, NameOf(w, f), f.o + 1)
  }

  function LinkScript(w: World, links: Links, o: nat, i: nat): Links
    requires o < |w| && i <= |w[o].names|
    decreases |w[o].names| - i
  {
    if i == |w[o].names| then links else LinkScript(w, LinkFunc(w, links, FuncId(o, i)), o, i + 1)
  }

  /** All scripts, one after the other. */
  function LinkAll(w: World, links: Links, o: nat): Links
    requires o <= |w|
    decreases |w| - o
  {
    if o == |w| then links else LinkAll(w, LinkScript(w, links, o, 0), o + 1)
  }

  /** Script `o` with those below it: its own functions, then the scripts below, one after the other. */
  function AfterLink(w: World, links: Links, t: Tree, o: nat): Links
    requires o + |Preorder(t)| <= |w|
    decreases t, 0
  {
    AfterLinkKids(w, LinkScript(w, links, o, 0), t.kids, o + 1)
  }

  function AfterLinkKids(w: World, links: Links, ts: seq<Tree>, o: nat): Links
    requires o + |PreorderAll(ts)| <= |w|
    decreases ts, 1
  {
    if |ts| == 0 then links else AfterLinkKids(w, AfterLink(w, links, ts[0], o), ts[1..], o + |Preorder(ts[0])|)
  }

  lemma {:induction false} LinksOn(w: World, links: Links, t: Tree, o: nat)
    requires o + |Preorder(t)| <= |w|
    ensures LinkAll(w, AfterLink(w, links, t, o), o + |Preorder(t)|) == LinkAll(w, links, o)
    decreases t, 0
  {
    hide LinkScript;
    KidsLinkOn(w, LinkScript(w, links, o, 0), t.kids, o + 1);
  }

  lemma {:induction false} KidsLinkOn(w: World, links: Links, ts: seq<Tree>, o: nat)
    requires o + |PreorderAll(ts)| <= |w|
    ensures LinkAll(w, AfterLinkKids(w, links, ts, o), o + |PreorderAll(ts)|) == LinkAll(w, links, o)
    decreases ts, 1
  {
    hide LinkAll, AfterLink;
    if |ts| > 0 {
      LinksOn(w, links, ts[0], o);
      KidsLinkOn(w, AfterLink(w, links, ts[0], o), ts[1..], o + |Preorder(ts[0])|);
    }
  }

  /** The calls for the children come in the same order as the walk. */
  lemma TreeIsWalk(t: Tree)
    ensures AfterLink(Preorder(t), map[], t, 0) == LinkAll(Preorder(t), map[], 0)
  {
    hide AfterLink;
    LinksOn(Preorder(t), map[], t, 0);
  }

  // ----- rings -----

  /** The links lead through `ms` from each to the next, and from the last to the first. */
  predicate IsRing(links: Links, ms: seq<FuncId>) {
    |ms| > 0 && forall k :: 0 <= k < |ms| ==> ms[k] in links && links[ms[k]] == ms[if k + 1 < |ms| then k + 1 else 0]
  }

  /** Linking the scripts behind puts each new member behind the first, so the ring runs from the
      last script to the first. */
  lemma {:induction false} BehindMakesRing(w: World, links: Links, first: FuncId, name: nat, p: nat, ms: seq<FuncId>)
    requires first.o < p <= |w| && first in links && IsRing(links, ms + [first])
    requires forall k :: 0 <= k < |ms| ==> first.o < ms[k].o < p
    requires forall k, l :: 0 <= k < l < |ms| ==> ms[k] != ms[l]
    ensures IsRing(LinkBehind(w, links, first, name, p), Members(w, name, p) + ms + [first])
    decreases |w| - p
  {
    hide IsRing, LastOf;
    if p == |w| {
      assert [] + ms + [first] == ms + [first];
    } else if TopOf(w, p, name).None? {
      BehindMakesRing(w, links, first, name, p + 1, ms);
    } else {
      var f := FuncId(p, TopOf(w, p, name).value);
      var links1 := LinkOne(w, links, first, name, p);
      OneMoreInRing(links, links1, first, f, ms);
      DistinctWith(ms, f, p);
      BehindMakesRing(w, links1, first, name, p + 1, [f] + ms);
      var rest := Members(w, name, p + 1);
      assert rest + ([f] + ms) + [first] == rest + [f] + ms + [first];
    }
  }

  /** Nothing else is linked or led elsewhere. */
  lemma {:induction false} BehindKeeps(w: World, links: Links, first: FuncId, name: nat, p: nat)
    requires first.o < p <= |w| && first in links
    ensures var r := LinkBehind(w, links, first, name, p);
            (forall f :: f in links && f !in Members(w, name, p) && f != first ==> f in r && r[f] == links[f])
            && (forall f :: f in r <==> f in links || f in Members(w, name, p))
    decreases |w| - p
  {
    hide LastOf, LinkOne, Members;
    NoMembers(w, name);
    if p < |w| {
      var links1 := LinkOne(w, links, first, name, p);
      OneKeeps(w, links, first, name, p);
      MembersStep(w, name, p);
      BehindKeeps(w, links1, first, name, p + 1);
    }
  }

  lemma NoMembers(w: World, name: nat)
    ensures Members(w, name, |w|) == []
  {
  }

  lemma MembersStep(w: World, name: nat, p: nat)
    requires p < |w|
    ensures var top := TopOf(w, p, name);
            forall f :: f in Members(w, name, p) <==>
                f in Members(w, name, p + 1) || (top.Some? && f == FuncId(p, top.value))
  {
    hide LastOf;
  }

  lemma OneKeeps(w: World, links: Links, first: FuncId, name: nat, p: nat)
    requires p < |w| && first in links && first.o < p
    ensures var r, top := LinkOne(w, links, first, name, p), TopOf(w, p, name);
            first in r
            && (forall f :: f in links && f != first && !(top.Some? && f == FuncId(p, top.value)) ==>
                f in r && r[f] == links[f])
            && (forall f :: f in r <==> f in links || (top.Some? && f == FuncId(p, top.value)))
  {
  }

  lemma DistinctWith(ms: seq<FuncId>, f: FuncId, p: nat)
    requires f.o == p && (forall k :: 0 <= k < |ms| ==> ms[k].o < p)
             && forall k, l :: 0 <= k < l < |ms| ==> ms[k] != ms[l]
    ensures forall k, l :: 0 <= k < l < |[f] + ms| ==> ([f] + ms)[k] != ([f] + ms)[l]
    ensures forall g :: g in [f] + ms <==> g == f || g in ms
  {
  }

  lemma OneMoreInRing(links: Links, links1: Links, first: FuncId, f: FuncId, ms: seq<FuncId>)
    requires first in links && IsRing(links, ms + [first]) && f != first && f !in ms && first !in ms
    requires links1 == links[f := links[first]][first := f]
    ensures IsRing(links1, [f] + ms + [first])
  {
    var before, after := ms + [first], [f] + ms + [first];
    assert before[|ms|] == first;
    forall k | 0 <= k < |after| ensures after[k] in links1
        && links1[after[k]] == after[if k + 1 < |after| then k + 1 else 0] {
      if k == 0 {
        assert links[before[|ms|]] == before[0] == after[1];
      } else if k <= |ms| {
        assert after[k] == before[k - 1] == ms[k - 1];
        assert links[before[k - 1]] == before[k] == after[k + 1];
      } else {
        assert after[k] == first && after[0] == f;
      }
    }
  }

  // ----- all rings -----

  /** A topmost function of this name has been come by. */
  ghost predicate Covered(w: World, name: nat, o: nat, i: nat) {
    exists f :: f in Members(w, name, 0) && (f.o < o || (f.o == o && f.i < i))
  }

  /** Up to function `i` of script `o`, every name that was come by has its ring, with one member
      for each script that has the name. */
  ghost predicate Ringed(w: World, links: Links, o: nat, i: nat) {
    && (forall f :: f in links <==> Valid(w, f) && !Overloaded(w, f) && Covered(w, NameOf(w, f), o, i))
    && (forall name :: Covered(w, name, o, i) ==> IsRing(links, Members(w, name, 0)))
  }

  lemma MemberIsTop(w: World, name: nat, from: nat, f: FuncId)
    requires from <= |w|
    ensures f in Members(w, name, from) <==>
            Valid(w, f) && from <= f.o && NameOf(w, f) == name && !Overloaded(w, f)
  {
    if Valid(w, f) { TopIsNotOverloaded(w, f); }
  }

  lemma {:induction false} MembersFrom(w: World, name: nat, from: nat)
    requires from <= |w| && forall o :: 0 <= o < from ==> TopOf(w, o, name).None?
    ensures Members(w, name, 0) == Members(w, name, from)
    decreases from
  {
    if from > 0 { MembersFrom(w, name, from - 1); }
  }

  lemma LinkFuncRings(w: World, links: Links, o: nat, i: nat)
    requires Valid(w, FuncId(o, i)) && Ringed(w, links, o, i)
    ensures Ringed(w, LinkFunc(w, links, FuncId(o, i)), o, i + 1)
  {
    hide IsRing, Ringed;
    var f := FuncId(o, i);
    if f in links || Overloaded(w, f) {
      NothingNew(w, links, f);
    } else {
      NewName(w, links, f);
    }
  }

  lemma NothingNew(w: World, links: Links, f: FuncId)
    requires Valid(w, f) && Ringed(w, links, f.o, f.i) && (f in links || Overloaded(w, f))
    ensures Ringed(w, links, f.o, f.i + 1)
  {
    hide IsRing, Covered, Overloaded;
    forall n ensures Covered(w, n, f.o, f.i + 1) <==> Covered(w, n, f.o, f.i) {
      CoveredNext(w, n, f);
    }
  }

  lemma NewName(w: World, links: Links, f: FuncId)
    requires Valid(w, f) && Ringed(w, links, f.o, f.i) && f !in links && !Overloaded(w, f)
    ensures Ringed(w, LinkFunc(w, links, f), f.o, f.i + 1)
  {
    hide IsRing, Covered, Overloaded, LinkFunc, Members;
    NewRing(w, links, f);
    var r, name := LinkFunc(w, links, f), NameOf(w, f);
    forall n ensures Covered(w, n, f.o, f.i + 1) <==> Covered(w, n, f.o, f.i) || n == name {
      CoveredNext(w, n, f);
    }
    forall n | Covered(w, n, f.o, f.i + 1) ensures IsRing(r, Members(w, n, 0)) {
      if n != name { OtherRing(w, links, r, f, n); }
    }
    forall g ensures g in r <==> Valid(w, g) && !Overloaded(w, g) && Covered(w, NameOf(w, g), f.o, f.i + 1) {
      MemberIsTop(w, name, 0, g);
    }
  }

  lemma CoveredNext(w: World, n: nat, f: FuncId)
    requires Valid(w, f)
    ensures Covered(w, n, f.o, f.i + 1) <==> Covered(w, n, f.o, f.i) || (n == NameOf(w, f) && !Overloaded(w, f))
  {
    MemberIsTop(w, n, 0, f);
    if Covered(w, n, f.o, f.i + 1) && !Covered(w, n, f.o, f.i) {
      var g :| g in Members(w, n, 0) && (g.o < f.o || (g.o == f.o && g.i < f.i + 1));
      assert g == f;
    }
  }

  /** The first function of a name that is come by makes the ring of that name. */
  lemma NewRing(w: World, links: Links, f: FuncId)
    requires Valid(w, f) && Ringed(w, links, f.o, f.i) && f !in links && !Overloaded(w, f)
    ensures var r, ms := LinkFunc(w, links, f), Members(w, NameOf(w, f), 0);
            IsRing(r, ms)
            && (forall g :: g in links && g !in ms ==> g in r && r[g] == links[g])
            && (forall g :: g in r <==> g in links || g in ms)
  {
    hide IsRing;
    var name := NameOf(w, f);
    EarlierCovers(w, name, f.o, f.i);
    MembersFrom(w, name, f.o);
    TopIsNotOverloaded(w, f);
    var behind := Members(w, name, f.o + 1);
    assert Members(w, name, 0) == behind + [f];
    RingOfOne(links, f);
    BehindMakesRing(w, links[f := f], f, name, f.o + 1, []);
    BehindKeeps(w, links[f := f], f, name, f.o + 1);
    assert behind + [] + [f] == behind + [f];
  }

  lemma EarlierCovers(w: World, name: nat, o: nat, i: nat)
    requires o < |w|
    ensures forall p :: 0 <= p < o && TopOf(w, p, name).Some? ==> Covered(w, name, o, i)
  {
    forall p | 0 <= p < o && TopOf(w, p, name).Some? ensures Covered(w, name, o, i) {
      assert FuncId(p, TopOf(w, p, name).value) in Members(w, name, 0);
    }
  }

  lemma RingOfOne(links: Links, f: FuncId)
    ensures IsRing(links[f := f], [] + [f])
  {
  }

  lemma OtherRing(w: World, links: Links, r: Links, f: FuncId, n: nat)
    requires Valid(w, f) && n != NameOf(w, f) && IsRing(links, Members(w, n, 0))
    requires forall g :: g in links && g !in Members(w, NameOf(w, f), 0) ==> g in r && r[g] == links[g]
    ensures IsRing(r, Members(w, n, 0))
  {
    var ms := Members(w, n, 0);
    forall k | 0 <= k < |ms| ensures ms[k] in r && r[ms[k]] == ms[if k + 1 < |ms| then k + 1 else 0] {
      MemberIsTop(w, n, 0, ms[k]);
      MemberIsTop(w, NameOf(w, f), 0, ms[k]);
    }
  }

  lemma {:induction false} LinkScriptRings(w: World, links: Links, o: nat, i: nat)
    requires o < |w| && i <= |w[o].names| && Ringed(w, links, o, i)
    ensures Ringed(w, LinkScript(w, links, o, i), o, |w[o].names|)
    decreases |w[o].names| - i
  {
    hide Ringed, LinkFunc;
    if i < |w[o].names| {
      LinkFuncRings(w, links, o, i);
      LinkScriptRings(w, LinkFunc(w, links, FuncId(o, i)), o, i + 1);
    }
  }

  lemma NextScript(w: World, links: Links, o: nat)
    requires o < |w| && Ringed(w, links, o, |w[o].names|)
    ensures Ringed(w, links, o + 1, 0)
  {
    hide IsRing;
    forall n ensures Covered(w, n, o, |w[o].names|) <==> Covered(w, n, o + 1, 0) {
    }
  }

  lemma {:induction false} LinkAllRings(w: World, links: Links, o: nat)
    requires o <= |w| && Ringed(w, links, o, 0)
    ensures Ringed(w, LinkAll(w, links, o), |w|, 0)
    decreases |w| - o
  {
    hide Ringed, LinkScript;
    if o < |w| {
      LinkScriptRings(w, links, o, 0);
      NextScript(w, LinkScript(w, links, o, 0), o);
      LinkAllRings(w, LinkScript(w, links, o, 0), o + 1);
    }
  }

  lemma NothingRinged(w: World)
    ensures Ringed(w, map[], 0, 0)
  {
  }

  /** After linking, the topmost functions of every name form one ring, with one member for each
      script that has a function of that name, and nothing else is linked. */
  lemma RingsComplete(w: World)
    ensures var links := LinkAll(w, map[], 0);
            && (forall name :: |Members(w, name, 0)| > 0 ==> IsRing(links, Members(w, name, 0)))
            && (forall f :: f in links <==> Valid(w, f) && !Overloaded(w, f))
  {
    hide IsRing, LinkAll;
    NothingRinged(w);
    LinkAllRings(w, map[], 0);
    forall name | |Members(w, name, 0)| > 0 ensures Covered(w, name, |w|, 0) {
      assert Members(w, name, 0)[0] in Members(w, name, 0);
    }
    forall f | Valid(w, f) && !Overloaded(w, f) ensures Covered(w, NameOf(w, f), |w|, 0) {
      MemberIsTop(w, NameOf(w, f), 0, f);
    }
  }

  // ----- looking up -----

  /** Every definition has one script, and there is one engine, which has no definition. */
  predicate Proper(w: World) {
    && (forall o, p :: 0 <= o < p < |w| && w[o].def.Some? ==> w[o].def != w[p].def)
    && (forall o, p :: 0 <= o < p < |w| ==> !(w[o].isEngine && w[p].isEngine))
    && (forall o :: 0 <= o < |w| && w[o].isEngine ==> w[o].def == None)
  }

  function DefOf(w: World, f: FuncId): Option<nat> { if f.o < |w| then w[f.o].def else None }

  predicate Global(w: World, f: FuncId) { f.o < |w| && w[f.o].isEngine }

  /** Once around the ring from `f`, until it is back at `start`: the function of the wanted
      definition, or else the global one. */
  function FindFrom(w: World, links: Links, start: FuncId, f: FuncId, found: Option<FuncId>, scope: nat,
                    fuel: nat): Option<FuncId>
    decreases fuel
  {
    if !Valid(w, f) then found
    else if DefOf(w, f) == Some(scope) then Some(f)
    else
      var now := if Global(w, f) then Some(f) else found;
      if f !in links || links[f] == start || fuel == 0 then now
      else FindFrom(w, links, start, links[f], now, scope, fuel - 1)
  }

  function FindSameNameFunc(w: World, links: Links, start: FuncId, scope: nat): Option<FuncId> {
    FindFrom(w, links, start, start, None, scope, |w|)
  }

  /** The right answer: the definition's own function, else the global one, else none. */
  ghost predicate Right(w: World, ms: seq<FuncId>, scope: nat, r: Option<FuncId>)
  {
    && (forall m :: m in ms && DefOf(w, m) == Some(scope) ==> r == Some(m))
    && ((forall m :: m in ms ==> DefOf(w, m) != Some(scope)) ==>
          (forall m :: m in ms && Global(w, m) ==> r == Some(m))
          && ((forall m :: m in ms ==> !Global(w, m)) ==> r == None))
  }

  /** Place `d` behind place `j` on a ring of `n`. */
  function Around(j: nat, d: nat, n: nat): (k: nat)
    requires j < n && d < n
    ensures k < n
  {
    if j + d < n then j + d else j + d - n
  }

  predicate Ranked(ms: seq<FuncId>) { forall k, l :: 0 <= k < l < |ms| ==> ms[k].o > ms[l].o }

  lemma RankedApart(ms: seq<FuncId>, k: nat, l: nat)
    requires Ranked(ms) && k < |ms| && l < |ms|
    ensures ms[k].o == ms[l].o ==> k == l
  {
  }

  lemma {:induction false} FindGoesAround(w: World, links: Links, ms: seq<FuncId>, j: nat, d: nat,
                                          found: Option<FuncId>, scope: nat, fuel: nat)
    requires Proper(w) && IsRing(links, ms) && Ranked(ms) && (forall m :: m in ms ==> Valid(w, m))
    requires j < |ms| && d < |ms| && fuel >= |ms| - d
    requires forall c :: 0 <= c < d ==> DefOf(w, ms[Around(j, c, |ms|)]) != Some(scope)
    requires forall c :: 0 <= c < d && Global(w, ms[Around(j, c, |ms|)]) ==> found == Some(ms[Around(j, c, |ms|)])
    requires found.Some? ==> exists c :: 0 <= c < d && Global(w, ms[Around(j, c, |ms|)])
    ensures Right(w, ms, scope, FindFrom(w, links, ms[j], ms[Around(j, d, |ms|)], found, scope, fuel))
    decreases |ms| - d
  {
    hide Right, IsRing, Proper, Around;
    var f := ms[Around(j, d, |ms|)];
    assert f in ms;
    if DefOf(w, f) == Some(scope) {
      HereIsRight(w, ms, f, scope);
    } else {
      NextAround(links, ms, j, d);
      var now := if Global(w, f) then Some(f) else found;
      OneEngine(w, ms, j, d, found);
      if d + 1 < |ms| {
        FindGoesAround(w, links, ms, j, d + 1, now, scope, fuel - 1);
      } else {
        AllAround(w, ms, j, scope, now);
      }
    }
  }

  lemma HereIsRight(w: World, ms: seq<FuncId>, f: FuncId, scope: nat)
    requires Proper(w) && Ranked(ms) && (forall m :: m in ms ==> Valid(w, m)) && f in ms && DefOf(w, f) == Some(scope)
    ensures Right(w, ms, scope, Some(f))
  {
    forall m | m in ms && DefOf(w, m) == Some(scope) ensures m == f {
      var k :| 0 <= k < |ms| && ms[k] == f;
      var l :| 0 <= l < |ms| && ms[l] == m;
      RankedApart(ms, k, l);
    }
  }

  /** No two members are global. */
  lemma OneEngine(w: World, ms: seq<FuncId>, j: nat, d: nat, found: Option<FuncId>)
    requires Proper(w) && Ranked(ms) && j < |ms| && d < |ms|
    requires forall c :: 0 <= c < d && Global(w, ms[Around(j, c, |ms|)]) ==> found == Some(ms[Around(j, c, |ms|)])
    ensures var f := ms[Around(j, d, |ms|)];
            Global(w, f) ==> forall c :: 0 <= c < d ==> !Global(w, ms[Around(j, c, |ms|)])
  {
    var f := ms[Around(j, d, |ms|)];
    if Global(w, f) {
      forall c | 0 <= c < d ensures !Global(w, ms[Around(j, c, |ms|)]) {
        RankedApart(ms, Around(j, c, |ms|), Around(j, d, |ms|));
        assert Around(j, c, |ms|) != Around(j, d, |ms|);
      }
    }
  }

  lemma NextAround(links: Links, ms: seq<FuncId>, j: nat, d: nat)
    requires IsRing(links, ms) && Ranked(ms) && j < |ms| && d < |ms|
    ensures var f := ms[Around(j, d, |ms|)];
            f in links
            && (d + 1 < |ms| ==> links[f] == ms[Around(j, d + 1, |ms|)] && links[f] != ms[j])
            && (d + 1 == |ms| ==> links[f] == ms[j])
  {
    if d + 1 < |ms| { RankedApart(ms, Around(j, d + 1, |ms|), j); }
  }

  lemma AllAround(w: World, ms: seq<FuncId>, j: nat, scope: nat, now: Option<FuncId>)
    requires j < |ms|
    requires forall c :: 0 <= c < |ms| ==> DefOf(w, ms[Around(j, c, |ms|)]) != Some(scope)
    requires forall c :: 0 <= c < |ms| && Global(w, ms[Around(j, c, |ms|)]) ==> now == Some(ms[Around(j, c, |ms|)])
    requires now.Some? ==> exists c :: 0 <= c < |ms| && Global(w, ms[Around(j, c, |ms|)])
    ensures Right(w, ms, scope, now)
  {
    var n := |ms|;
    forall m | m in ms ensures DefOf(w, m) != Some(scope) && (Global(w, m) ==> now == Some(m)) {
      var l :| 0 <= l < n && ms[l] == m;
      var c := if l >= j then l - j else l + n - j;
      assert Around(j, c, n) == l;
    }
  }

  lemma {:induction false} MembersCount(w: World, name: nat, from: nat)
    requires from <= |w|
    ensures |Members(w, name, from)| <= |w| - from
    decreases |w| - from
  {
    hide LastOf;
    if from < |w| { MembersCount(w, name, from + 1); }
  }

  /** From whatever function of a name the search starts, it finds the right one. */
  lemma FindIsRight(w: World, name: nat, start: FuncId, scope: nat)
    requires Proper(w) && start in Members(w, name, 0)
    ensures forall m :: m in Members(w, name, 0) ==> Valid(w, m)
    ensures Right(w, Members(w, name, 0), scope, FindSameNameFunc(w, LinkAll(w, map[], 0), start, scope))
  {
    hide IsRing, LinkAll, FindFrom, Right, Proper;
    var ms := Members(w, name, 0);
    forall m | m in ms ensures Valid(w, m) { MemberIsTop(w, name, 0, m); }
    RingsComplete(w);
    MembersCount(w, name, 0);
    var j :| 0 <= j < |ms| && ms[j] == start;
    FindGoesAround(w, LinkAll(w, map[], 0), ms, j, 0, None, scope, |w|);
  }

  lemma OneRight(w: World, ms: seq<FuncId>, scope: nat, a: Option<FuncId>, b: Option<FuncId>)
    requires Right(w, ms, scope, a) && Right(w, ms, scope, b)
    ensures a == b
  {
    if forall m :: m in ms ==> DefOf(w, m) != Some(scope) {
      if exists m :: m in ms && Global(w, m) {
        var m :| m in ms && Global(w, m);
      }
    } else {
      var m :| m in ms && DefOf(w, m) == Some(scope);
    }
  }

  // ----- the cache of an object call -----

  /** A call remembers the function it has found and starts there the next time. */
  function Calls(w: World, links: Links, cached: FuncId, scopes: seq<nat>): seq<Option<FuncId>>
    decreases |scopes|
  {
    if |scopes| == 0 then []
    else
      var r := FindSameNameFunc(w, links, cached, scopes[0]);
      [r] + Calls(w, links, if r.Some? then r.value else cached, scopes[1..])
  }

  lemma RightIsMember(w: World, ms: seq<FuncId>, scope: nat, r: Option<FuncId>)
    requires Right(w, ms, scope, r) && r.Some?
    ensures r.value in ms
  {
    if forall m :: m in ms ==> DefOf(w, m) != Some(scope) {
      if exists m :: m in ms && Global(w, m) {
        var m :| m in ms && Global(w, m);
      }
    } else {
      var m :| m in ms && DefOf(w, m) == Some(scope);
    }
  }

  /** For any sequence of objects called, the memory never changes what is found. */
  lemma {:induction false} CacheNeverMatters(w: World, name: nat, start: FuncId, cached: FuncId, scopes: seq<nat>)
    requires Proper(w) && start in Members(w, name, 0) && cached in Members(w, name, 0)
    ensures var links := LinkAll(w, map[], 0);
            var rs := Calls(w, links, cached, scopes);
            |rs| == |scopes| && forall k :: 0 <= k < |scopes| ==> rs[k] == FindSameNameFunc(w, links, start, scopes[k])
    decreases |scopes|
  {
    hide LinkAll, FindSameNameFunc, Right, Proper;
    if |scopes| > 0 {
      var links, ms := LinkAll(w, map[], 0), Members(w, name, 0);
      var r := FindSameNameFunc(w, links, cached, scopes[0]);
      FindIsRight(w, name, cached, scopes[0]);
      FindIsRight(w, name, start, scopes[0]);
      OneRight(w, ms, scopes[0], r, FindSameNameFunc(w, links, start, scopes[0]));
      if r.Some? { RightIsMember(w, ms, scopes[0], r); }
      CacheNeverMatters(w, name, start, if r.Some? then r.value else cached, scopes[1..]);
    }
  }

  // ----- the links at work -----

  class Linker {
    const w: World
    var links: Links

    constructor (root: Tree)
      ensures w == Preorder(root) && links == map[]
    {
      w := Walk(root, []);
      links := map[];
      new;
      WalkIsPreorder(root, []);
      assert Preorder(root) + [] == Preorder(root);
    }

    /** Links all functions of the same name, each ring once. */
    method AfterLink()
      requires links == map[]
      modifies this
      ensures links == LinkAll(w, map[], 0)
    {
      hide LinkFunc;
      var o := 0;
      while o < |w|
        invariant o <= |w| && LinkAll(w, links, o) == LinkAll(w, map[], 0)
      {
        var i := 0;
        ghost var before := links;
        while i < |w[o].names|
          invariant i <= |w[o].names| && LinkScript(w, links, o, i) == LinkScript(w, before, o, 0)
        {
          MakeRing(FuncId(o, i));
          i := i + 1;
        }
        o := o + 1;
      }
    }

    method MakeRing(f: FuncId)
      requires Valid(w, f)
      modifies this
      ensures links == LinkFunc(w, old(links), f)
    {
      if f in links { return; }
      var names := w[f.o].names;
      for j := f.i + 1 to |names|
        invariant forall k :: f.i < k < j ==> names[k] != names[f.i]
      {
        if names[j] == names[f.i] { return; }
      }
      links := links[f := f];
      var p := f.o + 1;
      ghost var begun := links;
      while p < |w|
        invariant p <= |w| && f in links && links != map[]
        invariant LinkBehind(w, links, f, names[f.i], p) == LinkBehind(w, begun, f, names[f.i], f.o + 1)
      {
        var top := LastOf(w[p].names, names[f.i]);
        if top.Some? {
          var g := FuncId(p, top.value);
          links := links[g := links[f]][f := g];
        }
        p := p + 1;
      }
    }

    /** Around the ring. */
    method Find(start: FuncId, scope: nat) returns (r: Option<FuncId>)
      requires Valid(w, start)
      ensures r == FindSameNameFunc(w, links, start, scope)
    {
      var f := start;
      var fuel: nat := |w|;
      r := None;
      while true
        invariant FindFrom(w, links, start, f, r, scope, fuel) == FindSameNameFunc(w, links, start, scope)
        decreases fuel
      {
        if !Valid(w, f) { return; }
        if DefOf(w, f) == Some(scope) { return Some(f); }
        if Global(w, f) { r := Some(f); }
        if f !in links || links[f] == start || fuel == 0 { return; }
        f, fuel := links[f], fuel - 1;
      }
    }
  }
}
