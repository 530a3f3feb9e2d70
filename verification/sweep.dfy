/** What a sweep does to every effect, and what becomes of the others when one comes. */
module Sweeps {
  import opened Wrappers
  import opened Effects

  // ----- the clock -----

  /** One step later a multiple of the interval has passed. */
  ghost predicate Rings(e: Effect) { e.interval > 0 && exists n: nat :: e.time + 1 == n * e.interval }

  /** It is killed when its time comes, if it has no timer or the timer asks for it, and its stop call does
      not refuse. */
  ghost predicate Asked(e: Effect, ticks: nat -> Tick) { Rings(e) && (!e.hasTimer || ticks(e.number).kill) }

  ghost predicate Dies(e: Effect, ticks: nat -> Tick) { Asked(e, ticks) && !(e.hasStop && ticks(e.number).denied) }

  /** The live effects in their order, each one step older. */
  ghost function Aged(l: List, ticks: nat -> Tick): List {
    if |l| == 0 then []
    else
      var e := l[0];
      (if e.prio == 0 then [] else [e.(time := e.time + 1, prio := if Dies(e, ticks) then 0 else e.prio)])
      + Aged(l[1..], ticks)
  }

  /** The timer calls: of every live effect with a timer whose time has come, once, in their order. */
  ghost function Timers(l: List): seq<Event> {
    if |l| == 0 then []
    else
      var e := l[0];
      (if e.prio != 0 && e.hasTimer && Rings(e) then [Ticked(e.number, e.time + 1)] else []) + Timers(l[1..])
  }

  function OnlyTicks(events: seq<Event>): seq<Event> {
    if |events| == 0 then []
    else (if events[0].Ticked? then [events[0]] else []) + OnlyTicks(events[1..])
  }

  /** Above `k` an effect has stepped aside below one that has not. */
  ghost predicate Stranded(l: List, k: nat) { exists i, j :: k < i < j < |l| && Inactive(l[i]) && Active(l[j]) }

  /** If the effect is killed, that changes no other. */
  ghost predicate Quiet(l: List, k: nat, ticks: nat -> Tick)
    requires k < |l|
  {
    l[k].prio > 1 && Asked(l[k], ticks) ==> !Stranded(l, k)
  }

  lemma Divides(t: nat, i: nat)
    requires i > 0
    ensures t % i == 0 <==> exists n: nat :: t == n * i
  {
    if t % i == 0 { assert t == (t / i) * i; }
    forall n: nat | t == n * i ensures t % i == 0 { Multiple(n, i); }
  }

  lemma Multiple(n: nat, i: nat)
    requires i > 0
    ensures n * i % i == 0
  {
    var x := n * i;
    var q, r := x / i, x % i;
    assert x == q * i + r;
    assert (n - q) * i == r by { Distribute(n, q, i); }
    if n > q { AtLeast(n - q, i); }
    if n < q { AtLeast(q - n, i); }
  }

  lemma Distribute(n: int, q: int, i: int)
    ensures (n - q) * i == n * i - q * i
  {
  }

  lemma {:induction false} AtLeast(d: int, i: int)
    requires d > 0 && i > 0
    ensures d * i >= i && -d * i == -(d * i)
    decreases d
  {
    Distribute(0, d, i);
    if d > 1 {
      AtLeast(d - 1, i);
      Distribute(d, 1, i);
    }
  }

  lemma RingsIsDue(e: Effect)
    ensures Rings(e) <==> Due(e.(time := e.time + 1))
  {
    if e.interval > 0 { Divides(e.time + 1, e.interval); }
  }

  lemma BetweenIsStranded(l: List, k: nat)
    requires k < |l|
    ensures Between(l, k) <==> Stranded(l, k)
  {
    var last := LastActive(l, k);
    if i, j :| k < i < j < |l| && Inactive(l[i]) && Active(l[j]) {
      assert last.Some?;
      assert j <= last.value;
    }
  }

  // ----- kills call no timers -----

  lemma {:induction false} TicksJoin(a: seq<Event>, b: seq<Event>)
    ensures OnlyTicks(a + b) == OnlyTicks(a) + OnlyTicks(b)
    decreases |a|
  {
    if |a| == 0 {
      assert a + b == b && OnlyTicks(a) == [];
    } else {
      TicksJoin(a[1..], b);
      TicksHead(a);
      TicksHead(a + b);
      hide OnlyTicks;
      assert (a + b)[1..] == a[1..] + b && (a + b)[0] == a[0];
      var head: seq<Event> := if a[0].Ticked? then [a[0]] else [];
      assert head + (OnlyTicks(a[1..]) + OnlyTicks(b)) == head + OnlyTicks(a[1..]) + OnlyTicks(b);
    }
  }

  lemma TicksHead(a: seq<Event>)
    requires |a| > 0
    ensures OnlyTicks(a) == (if a[0].Ticked? then [a[0]] else []) + OnlyTicks(a[1..])
  {
  }

  predicate NoTicks(events: seq<Event>) { forall x :: x in events ==> !x.Ticked? }

  lemma {:induction false} NoneTicks(events: seq<Event>)
    requires NoTicks(events)
    ensures OnlyTicks(events) == []
    decreases |events|
  {
    if |events| > 0 {
      assert events[0] in events;
      NoneTicks(events[1..]);
    }
  }

  lemma {:induction false} RemoveNoTicks(l: List, k: nat, self: bool)
    requires k < |l|
    ensures NoTicks(TempRemove(l, k, self).events)
    decreases |l| - k
  {
    var j := NextActive(l, k + 1);
    if j < |l| { RemoveNoTicks(l, j, true); }
  }

  lemma {:induction false} ReaddNoTicks(l: List, from: nat, last: nat)
    requires from <= |l|
    ensures NoTicks(TempReadd(l, from, last).events)
    decreases |l| - from
  {
    if from < |l| {
      var e := if Inactive(l[from]) then Flip(l[from]) else l[from];
      ReaddNoTicks(l[from := e], from + 1, last);
    }
  }

  lemma KillNoTicks(l: List, k: nat, denied: bool)
    requires k < |l|
    ensures OnlyTicks(Kill(l, k, denied).events) == []
  {
    hide TempRemove, TempReadd;
    var e := l[k];
    RemoveNoTicks(l, k, false);
    var removed := if Active(e) then TempRemove(l, k, false)
                   else Change(l, if e.hasStart && e.prio != 1 then [Started(e.number, true)] else [], None);
    var own := removed.list[k];
    var l1 := removed.list[k := if own.hasStop && denied then own else own.(prio := 0)];
    if removed.last.Some? { ReaddNoTicks(l1, k + 1, removed.last.value); }
    NoneTicks(Kill(l, k, denied).events);
  }

  /** Where no other effect is disturbed, a kill changes one effect. */
  lemma KillsOne(l: List, k: nat, denied: bool)
    requires Sorted(l) && k < |l| && (l[k].prio > 1 ==> !Stranded(l, k)) && l[k].prio != 0
    ensures Kill(l, k, denied).list == l[k := if l[k].hasStop && denied then l[k] else l[k].(prio := 0)]
  {
    BetweenIsStranded(l, k);
    var r := Kill(l, k, denied).list;
    if Active(l[k]) {
      KillLeavesOthers(l, k, denied);
      KillActiveDoes(l, k, denied);
    } else {
      KillInactive(l, k, denied);
      InactiveDies(l, k, denied);
    }
    assert r == l[k := r[k]];
  }

  lemma InactiveDies(l: List, k: nat, denied: bool)
    requires k < |l| && !Active(l[k])
    ensures Kill(l, k, denied).list[k] == if l[k].hasStop && denied then l[k] else l[k].(prio := 0)
  {
  }

  // ----- a sweep -----

  lemma QuietBehind(l: List, l1: List, k: nat, k1: nat, ticks: nat -> Tick)
    requires k <= |l| && k1 <= |l1| && l1[k1..] == l[k..]
    requires forall j :: k <= j < |l| ==> Quiet(l, j, ticks)
    ensures forall j :: k1 <= j < |l1| ==> Quiet(l1, j, ticks)
  {
    forall j | k1 <= j < |l1| ensures Quiet(l1, j, ticks) {
      var d := j - k1;
      assert l1[j] == l1[k1..][d] == l[k..][d] == l[k + d];
      assert Quiet(l, k + d, ticks);
      if x, y :| j < x < y < |l1| && Inactive(l1[x]) && Active(l1[y]) {
        assert l1[k1..][x - k1] == l[k..][x - k1] && l1[k1..][y - k1] == l[k..][y - k1];
        assert k + d < k + (x - k1) < k + (y - k1) < |l| && Inactive(l[k + (x - k1)]) && Active(l[k + (y - k1)]);
      }
    }
  }

  /** Where no kill changes another effect, a sweep does this to the effects from `k` on. */
  lemma {:induction false} SweepsFrom(l: List, k: nat, ticks: nat -> Tick)
    requires k <= |l| && Sorted(l) && Numbered(l) && forall j :: k <= j < |l| ==> Quiet(l, j, ticks)
    ensures Sweep(l, k, ticks).list == l[..k] + Aged(l[k..], ticks)
    ensures OnlyTicks(Sweep(l, k, ticks).events) == Timers(l[k..])
    decreases |l| - k
  {
    hide Kill, Sorted, Numbered, Quiet;
    if k == |l| {
      assert l[k..] == [] && l[..k] == l;
    } else if Dead(l[k]) {
      var l1 := l[..k] + l[k + 1..];
      assert l1[k..] == l[k + 1..] == l[k..][1..] && l1[..k] == l[..k];
      DropKeeps(l, k);
      QuietBehind(l, l1, k + 1, k, ticks);
      SweepsFrom(l1, k, ticks);
    } else {
      SweepsLive(l, k, ticks);
    }
  }

  lemma SweepsLive(l: List, k: nat, ticks: nat -> Tick)
    requires k < |l| && Sorted(l) && Numbered(l) && !Dead(l[k]) && forall j :: k <= j < |l| ==> Quiet(l, j, ticks)
    ensures Sweep(l, k, ticks).list == l[..k] + Aged(l[k..], ticks)
    ensures OnlyTicks(Sweep(l, k, ticks).events) == Timers(l[k..])
    decreases |l| - k, 0
  {
    hide *;
    var killed := OneLive(l, k, ticks);
    QuietAfter(l, k, killed.list, ticks);
    SweepsFrom(killed.list, k + 1, ticks);
    Combined(l, k, killed, Sweep(killed.list, k + 1, ticks), ticks);
  }

  lemma QuietAfter(l: List, k: nat, l1: List, ticks: nat -> Tick)
    requires k < |l| && |l1| == |l| && l1 == l[k := l1[k]] && forall j :: k <= j < |l| ==> Quiet(l, j, ticks)
    ensures forall j :: k + 1 <= j < |l1| ==> Quiet(l1, j, ticks)
  {
    hide Quiet;
    assert l1[k + 1..] == l[k + 1..];
    QuietBehind(l, l1, k + 1, k + 1, ticks);
  }

  lemma Combined(l: List, k: nat, killed: Change, rest: Change, ticks: nat -> Tick)
    requires k < |l| == |killed.list| && !Dead(l[k])
    requires killed.list == l[k := l[k].(time := l[k].time + 1, prio := if Dies(l[k], ticks) then 0 else l[k].prio)]
    requires OnlyTicks(killed.events) == [] && OnlyTicks(rest.events) == Timers(killed.list[k + 1..])
    requires rest.list == killed.list[..k + 1] + Aged(killed.list[k + 1..], ticks)
    ensures rest.list == l[..k] + Aged(l[k..], ticks)
    ensures OnlyTicks(LiveCall(l[k]) + killed.events + rest.events) == Timers(l[k..])
  {
    hide Dies;
    AgedHead(l[k..], ticks);
    OneCall(LiveCall(l[k]), killed.events, rest.events);
    hide Aged, Timers, LiveCall, OnlyTicks;
    var own := killed.list[k];
    assert killed.list[k + 1..] == l[k + 1..] == l[k..][1..];
    assert killed.list[..k + 1] == l[..k] + [own] && l[k..][0] == l[k];
    assert l[..k] + [own] + Aged(l[k + 1..], ticks) == l[..k] + ([own] + Aged(l[k + 1..], ticks));
  }

  lemma AgedHead(l: List, ticks: nat -> Tick)
    requires |l| > 0 && !Dead(l[0])
    ensures Timers(l) == LiveCall(l[0]) + Timers(l[1..])
    ensures Aged(l, ticks)
            == [l[0].(time := l[0].time + 1, prio := if Dies(l[0], ticks) then 0 else l[0].prio)] + Aged(l[1..], ticks)
    ensures |LiveCall(l[0])| <= 1 && NoneBut(LiveCall(l[0]))
  {
    hide Rings, Dies, Timers;
    TimersHead(l);
  }

  lemma TimersHead(l: List)
    requires |l| > 0 && !Dead(l[0])
    ensures Timers(l) == LiveCall(l[0]) + Timers(l[1..])
  {
    hide Rings;
  }

  ghost function LiveCall(e: Effect): seq<Event> {
    if e.hasTimer && Rings(e) then [Ticked(e.number, e.time + 1)] else []
  }

  /** One live effect. */
  lemma OneLive(l: List, k: nat, ticks: nat -> Tick) returns (killed: Change)
    requires k < |l| && Sorted(l) && Numbered(l) && !Dead(l[k]) && Quiet(l, k, ticks)
    ensures killed.list == l[k := l[k].(time := l[k].time + 1, prio := if Dies(l[k], ticks) then 0 else l[k].prio)]
    ensures Sorted(killed.list) && Numbered(killed.list) && OnlyTicks(killed.events) == []
    ensures var rest := Sweep(killed.list, k + 1, ticks);
            Sweep(l, k, ticks) == Change(rest.list, LiveCall(l[k]) + killed.events + rest.events, None)
  {
    hide Kill, Sorted, Numbered, Quiet;
    var e := l[k].(time := l[k].time + 1);
    var l1, t := l[k := e], ticks(e.number);
    RingsIsDue(l[k]);
    OrderKept(l, l1);
    killed := if Due(e) && (t.kill || !e.hasTimer) then Kill(l1, k, t.denied) else Change(l1, [], None);
    if Due(e) && (t.kill || !e.hasTimer) {
      KillKeeps(l1, k, t.denied);
      QuietHere(l, l1, k, ticks);
      KillsOne(l1, k, t.denied);
      KillNoTicks(l1, k, t.denied);
    }
    var own := e.(prio := if Dies(l[k], ticks) then 0 else e.prio);
    assert killed.list == l[k := own];
  }

  lemma OneCall(call: seq<Event>, kill: seq<Event>, rest: seq<Event>)
    requires |call| <= 1 && NoneBut(call) && OnlyTicks(kill) == []
    ensures OnlyTicks(call + kill + rest) == call + OnlyTicks(rest)
  {
    TicksJoin(call, kill);
    TicksJoin(call + kill, rest);
    if |call| == 1 {
      TicksHead(call);
      assert call[1..] == [] && call[0] in call;
    }
    NoneTicks([]);
    hide OnlyTicks;
    assert OnlyTicks(call) == call;
    assert call + [] + OnlyTicks(rest) == call + OnlyTicks(rest);
  }

  predicate NoneBut(call: seq<Event>) { forall x :: x in call ==> x.Ticked? }

  lemma QuietHere(l: List, l1: List, k: nat, ticks: nat -> Tick)
    requires k < |l| && Quiet(l, k, ticks) && Asked(l[k], ticks) && |l1| == |l|
    requires l1[k].prio == l[k].prio && forall j :: k < j < |l| ==> l1[j] == l[j]
    ensures l1[k].prio > 1 ==> !Stranded(l1, k)
  {
    if i, j :| k < i < j < |l1| && Inactive(l1[i]) && Active(l1[j]) {
      assert Inactive(l[i]) && Active(l[j]);
    }
  }

  /** A whole sweep. It is enough that nothing has stepped aside. */
  lemma SweepDoes(l: List, ticks: nat -> Tick)
    requires Sorted(l) && Numbered(l)
    requires (forall j :: 0 <= j < |l| ==> Quiet(l, j, ticks)) || (forall j :: 0 <= j < |l| ==> !Inactive(l[j]))
    ensures Sweep(l, 0, ticks).list == Aged(l, ticks) && OnlyTicks(Sweep(l, 0, ticks).events) == Timers(l)
  {
    SweepsFrom(l, 0, ticks);
    assert l[0..] == l && l[..0] == [] && [] + Aged(l, ticks) == Aged(l, ticks);
  }

  // ----- an effect comes -----

  /** Whether an effect above `k` that has stepped aside is called back with the active ones above it. */
  ghost predicate CalledBack(l: List, i: nat)
    requires i < |l|
  {
    Inactive(l[i]) && exists j :: i < j < |l| && Active(l[j])
  }

  /** The new effect stands at its place, alive with its priority unless its start call denies; every
      other is as before: those that were active above it are so again, and so is what had stepped aside
      below one of them. */
  lemma CreateDoes(l: List, e: Effect, prio: int, answers: Answers)
    requires Sorted(l) && prio > 0 && (e.hasStart ==> !answers.start.Throws?)
    requires answers.verdict.Agree? || prio == 1 || Place(l, prio) == |l|
    ensures var k, r := Place(l, prio), Create(l, e, prio, answers).list;
            && |r| == |l| + 1
            && r[k] == e.(number := NewNumber(l), time := 0,
                          prio := if e.hasStart && answers.start == Denies then 0 else prio)
            && (forall i :: 0 <= i < k ==> r[i] == l[i])
            && (forall i :: k <= i < |l| ==>
                  r[i + 1] == if prio > 1 && e.hasStart && CalledBack(l, i) then Flip(l[i]) else l[i])
  {
    hide NewNumber, TempRemove, Readd, Sorted, Place;
    var k := Place(l, prio);
    var l0 := l[..k] + [e.(number := NewNumber(l), prio := 0, time := 0)] + l[k..];
    if prio > 1 && k + 1 < |l0| && e.hasStart { StartsBetween(l, l0, k, prio, answers.start == Denies); }
  }

  lemma StartsBetween(l: List, l0: List, k: nat, prio: int, denied: bool)
    requires Sorted(l) && prio > 1 && k == Place(l, prio) && |l0| == |l| + 1 && k < |l| && l0[k].prio == 0
    requires (forall i :: 0 <= i < k ==> l0[i] == l[i]) && (forall i :: k <= i < |l| ==> l0[i + 1] == l[i])
    ensures var removed := TempRemove(l0, k, false);
            var l1 := removed.list[k := removed.list[k].(prio := if denied then 0 else prio)];
            var r := Readd(l1, k, removed.last).list;
            && r[k] == l0[k].(prio := if denied then 0 else prio)
            && (forall i :: 0 <= i < k ==> r[i] == l[i])
            && (forall i :: k <= i < |l| ==> r[i + 1] == if CalledBack(l, i) then Flip(l[i]) else l[i])
  {
    AboveTakesPart(l, l0, k, prio);
    hide Sorted, Place, TempRemove, Readd, CalledBack, LastActive;
    AsideAndBack(l0, k, if denied then 0 else prio);
    forall i | k <= i < |l| ensures l0[i + 1] == l[i]
        && (LastActive(l0, k).Some? && i + 1 < LastActive(l0, k).value && Inactive(l[i]) <==> CalledBack(l, i)) {
      IsCalledBack(l, l0, k, i);
    }
  }

  lemma IsCalledBack(l: List, l0: List, k: nat, i: nat)
    requires k <= i < |l| && |l0| == |l| + 1 && forall i :: k <= i < |l| ==> l0[i + 1] == l[i]
    ensures var last := LastActive(l0, k);
            CalledBack(l, i) <==> Inactive(l[i]) && last.Some? && i + 1 < last.value
  {
    var last := LastActive(l0, k);
    if last.Some? { assert l0[last.value] == l[last.value - 1]; }
    forall j | i < j < |l| && Active(l[j]) ensures last.Some? && j + 1 <= last.value { assert l0[j + 1] == l[j]; }
  }

  lemma AboveTakesPart(l: List, l0: List, k: nat, prio: int)
    requires Sorted(l) && prio > 1 && k == Place(l, prio) && |l0| == |l| + 1 && k < |l| && l0[k].prio == 0
    requires forall i :: k <= i < |l| ==> l0[i + 1] == l[i]
    ensures TakesPart(l0, k, false)
  {
    forall j | k < j < |l0| ensures l0[j].prio != 1 {
      assert l0[j] == l[j - 1];
      if !Dead(l[j - 1]) && j - 1 > k { assert Abs(l[k].prio) <= Abs(l[j - 1].prio); }
    }
  }

  /** Where an effect above refuses, only a dead entry is left. */
  lemma CreateRefused(l: List, e: Effect, prio: int, answers: Answers)
    requires prio > 1 && answers.verdict.Refuse? && Place(l, prio) < |l|
    ensures var k, r := Place(l, prio), Create(l, e, prio, answers);
            r.events == []
            && r.list == l[..k] + [e.(number := NewNumber(l), time := 0, prio := 0)] + l[k..]
  {
    hide NewNumber, TempRemove, Readd, Place;
  }

  /** Where the start call throws, the new effect is out again, and those above have stepped aside. */
  lemma CreateThrown(l: List, e: Effect, prio: int, answers: Answers)
    requires Sorted(l) && prio > 1 && answers.verdict.Agree? && e.hasStart && answers.start.Throws?
    ensures var k, r := Place(l, prio), Create(l, e, prio, answers).list;
            |r| == |l| && forall i :: 0 <= i < |l| ==> r[i] == if i >= k && Active(l[i]) then Flip(l[i]) else l[i]
  {
    hide *;
    var k, own := Place(l, prio), e.(number := NewNumber(l), prio := 0, time := 0);
    var l0 := l[..k] + [own] + l[k..];
    Shifted(l, k, own);
    ThrownOpened(l, e, prio, answers);
    if k < |l| { AllAside(l, l0, k, prio); }
    OutAgain(l, l0, if k < |l| then TempRemove(l0, k, false).list else l0, k);
  }

  lemma Shifted(l: List, k: nat, own: Effect)
    requires k <= |l|
    ensures var l0 := l[..k] + [own] + l[k..];
            |l0| == |l| + 1 && l0[k] == own
            && (forall i :: 0 <= i < |l| ==> l0[if i < k then i else i + 1] == l[i])
            && (forall i :: k <= i < |l| ==> l0[i + 1] == l[i])
  {
  }

  lemma AllAside(l: List, l0: List, k: nat, prio: int)
    requires Sorted(l) && prio > 1 && k == Place(l, prio) && |l0| == |l| + 1 && k < |l| && l0[k].prio == 0
    requires forall i :: k <= i < |l| ==> l0[i + 1] == l[i]
    ensures var l1 := TempRemove(l0, k, false).list;
            |l1| == |l0| && forall j :: 0 <= j < |l0| ==> l1[j] == if j > k && Active(l0[j]) then Flip(l0[j]) else l0[j]
  {
    hide Sorted, Place, TempRemove, TakesPart;
    AboveTakesPart(l, l0, k, prio);
    RemoveFlips(l0, k, false);
    SameSize(l0, k);
  }

  lemma ThrownOpened(l: List, e: Effect, prio: int, answers: Answers)
    requires prio > 1 && answers.verdict.Agree? && e.hasStart && answers.start.Throws?
    ensures var k := Place(l, prio);
            var l0 := l[..k] + [e.(number := NewNumber(l), prio := 0, time := 0)] + l[k..];
            var l1 := if k < |l| then TempRemove(l0, k, false).list else l0;
            |l1| == |l0| && Create(l, e, prio, answers).list == l1[..k] + l1[k + 1..]
  {
    hide NewNumber, TempRemove, Readd, Place;
  }

  lemma OutAgain(l: List, l0: List, l1: List, k: nat)
    requires k <= |l| && |l0| == |l1| == |l| + 1
    requires forall i :: 0 <= i < |l| ==> l0[if i < k then i else i + 1] == l[i]
    requires forall j :: 0 <= j < |l0| && j != k ==> l1[j] == if j > k && Active(l0[j]) then Flip(l0[j]) else l0[j]
    ensures var r := l1[..k] + l1[k + 1..];
            |r| == |l| && forall i :: 0 <= i < |l| ==> r[i] == if i >= k && Active(l[i]) then Flip(l[i]) else l[i]
  {
    var r := l1[..k] + l1[k + 1..];
    forall i | 0 <= i < |l| ensures r[i] == if i >= k && Active(l[i]) then Flip(l[i]) else l[i] {
      var j := if i < k then i else i + 1;
      assert r[i] == l1[j] && l0[j] == l[i];
    }
  }

  /** Where an effect takes up a new one without dying of it, all are as before, but for what had stepped
      aside below an active one. It is told between the calls of those above, where there are such calls. */
  lemma AddToDoes(l: List, to: nat, calls: bool, denied: bool)
    requires Sorted(l) && to < |l| && Active(l[to])
    ensures var r := AddTo(l, to, calls, false, denied).list;
            |r| == |l| && forall j :: 0 <= j < |l| ==>
              r[j] == if calls && l[to].prio > 1 && j > to && CalledBack(l, j) then Flip(l[j]) else l[j]
  {
    hide Sorted, CalledBack;
    if calls && to + 1 < |l| && l[to].prio > 1 {
      SortedTakesPart(l, to);
      AsideAndBack(l, to, l[to].prio);
      RemoveFlips(l, to, false);
      var removed := TempRemove(l, to, false);
      assert removed.list[to := removed.list[to].(prio := l[to].prio)] == removed.list;
      hide TempRemove, Readd, LastActive;
      forall j | to < j < |l| ensures LastActive(l, to).Some? && j < LastActive(l, to).value && Inactive(l[j])
          <==> CalledBack(l, j) {
        CalledBackBelow(l, to, j);
      }
    }
  }

  lemma CalledBackBelow(l: List, k: nat, j: nat)
    requires k < j < |l|
    ensures var last := LastActive(l, k);
            last.Some? && j < last.value && Inactive(l[j]) <==> CalledBack(l, j)
  {
    LastAbove(l, k);
  }

  /** Its calls, where nothing had stepped aside: stops from high to low, the new one is taken up, starts
      from low to high. */
  lemma AddToCalls(l: List, to: nat, denied: bool)
    requires Sorted(l) && to < |l| && l[to].prio > 1 && forall j :: 0 <= j < |l| ==> !Inactive(l[j])
    ensures var last := LastActive(l, to);
            AddTo(l, to, true, false, denied).events ==
            StopsDown(l, to + 1) + [Added(l[to].number)] + if last.Some? then StartsUp(l, to + 1, last.value) else []
  {
    SortedTakesPart(l, to);
    RemoveFlips(l, to, false);
    RemoveCalls(l, to, false);
    RemoveLast(l, to, false);
    hide TempRemove, StopsDown, StartsUp, TempReadd, TakesPart, AddTo;
    var removed, last := TempRemove(l, to, false), LastActive(l, to);
    LastAbove(l, to);
    if last.Some? { ReaddCalls(removed.list, l, to + 1, last.value); }
    AddToOpened(l, to, denied);
    hide LastActive, Sorted;
    if to + 1 == |l| { NoStops(l); }
  }

  lemma AddToOpened(l: List, to: nat, denied: bool)
    requires to < |l|
    ensures var removed := TempRemove(l, to, false);
            AddTo(l, to, true, false, denied).events ==
            if to + 1 == |l| then [Added(l[to].number)]
            else removed.events + [Added(l[to].number)] + Readd(removed.list, to, removed.last).events
  {
    hide TempRemove, Readd;
    assert [] + [Added(l[to].number)] + [] + [] == [Added(l[to].number)];
  }

  lemma NoStops(l: List)
    ensures StopsDown(l, |l|) == []
  {
  }

  /** Where the live effect `to` above the place of the new one takes it up, the new one stays dead at its
      place, and all others are as before, but for what had stepped aside below an active one. */
  lemma CreateAnnulled(l: List, e: Effect, prio: int, to: nat, calls: bool, denied: bool, start: Start)
    requires Sorted(l) && prio > 1 && Place(l, prio) <= to < |l| && l[to].prio > 1
    ensures var k, r := Place(l, prio), Create(l, e, prio, Answers(Annul(to + 1, calls, false, denied), start)).list;
            && |r| == |l| + 1 && r[k] == e.(number := NewNumber(l), time := 0, prio := 0)
            && (forall i :: 0 <= i < k ==> r[i] == l[i])
            && (forall i :: k <= i < |l| ==>
                  r[i + 1] == if calls && i > to && CalledBack(l, i) then Flip(l[i]) else l[i])
  {
    hide *;
    var k, own := Place(l, prio), e.(number := NewNumber(l), time := 0, prio := 0);
    var l0 := l[..k] + [own] + l[k..];
    Shifted(l, k, own);
    DeadStaysSorted(l, l0, k);
    AnnulOpened(l, e, prio, to, calls, denied, start);
    AddToDoes(l0, to + 1, calls, denied);
    forall i | k <= i < |l| ensures l0[i + 1] == l[i] && CalledBack(l0, i + 1) == CalledBack(l, i) {
      SameCalledBack(l, l0, k, i);
    }
    forall i | 0 <= i < k ensures l0[i] == l[i] {
      assert l0[if i < k then i else i + 1] == l[i];
    }
  }

  lemma AnnulOpened(l: List, e: Effect, prio: int, to: nat, calls: bool, denied: bool, start: Start)
    requires prio > 1 && Place(l, prio) <= to < |l| && l[to].prio > 1
    ensures var k := Place(l, prio);
            var l0 := l[..k] + [e.(number := NewNumber(l), prio := 0, time := 0)] + l[k..];
            to + 1 < |l0| && Active(l0[to + 1]) && l0[to + 1].prio == l[to].prio
            && Create(l, e, prio, Answers(Annul(to + 1, calls, false, denied), start))
               == AddTo(l0, to + 1, calls, false, denied)
  {
    hide NewNumber, TempRemove, Readd, Place, AddTo;
  }

  lemma SameCalledBack(l: List, l0: List, k: nat, i: nat)
    requires k <= i < |l| && |l0| == |l| + 1 && forall i :: k <= i < |l| ==> l0[i + 1] == l[i]
    ensures l0[i + 1] == l[i] && CalledBack(l0, i + 1) == CalledBack(l, i)
  {
    if j :| i < j < |l| && Active(l[j]) { assert Active(l0[j + 1]); }
    if j :| i + 1 < j < |l0| && Active(l0[j]) { assert l0[j - 1 + 1] == l[j - 1] && Active(l[j - 1]); }
  }

  lemma DeadStaysSorted(l: List, l0: List, k: nat)
    requires Sorted(l) && k <= |l| && |l0| == |l| + 1 && l0[k].prio == 0
    requires forall i :: 0 <= i < |l| ==> l0[if i < k then i else i + 1] == l[i]
    ensures Sorted(l0)
  {
    forall i, j | 0 <= i < j < |l0| && !Dead(l0[i]) && !Dead(l0[j]) ensures Abs(l0[i].prio) <= Abs(l0[j].prio) {
      var a, b := if i < k then i else i - 1, if j < k then j else j - 1;
      assert l0[if a < k then a else a + 1] == l[a] && l0[if b < k then b else b + 1] == l[b];
    }
  }
}
