/** The effects of an object: a list sorted by priority, in which a lower effect that comes or
    goes first makes the higher ones step aside for the time of its own calls. */
module Effects {
  import opened Wrappers

  // ----- effects -----

  /** A priority of 0 marks a dead effect, a negative one an effect that has stepped aside. */
  datatype Effect = Effect(number: nat, prio: int, time: nat, interval: nat, hasStart: bool, hasStop: bool,
      hasTimer: bool)

  type List = seq<Effect>

  function Abs(x: int): nat { if x < 0 then -x else x }

  predicate Dead(e: Effect) { e.prio == 0 }
  predicate Active(e: Effect) { e.prio > 0 }
  predicate Inactive(e: Effect) { e.prio < 0 }

  function Flip(e: Effect): Effect { e.(prio := -e.prio) }

  /** Live effects stand in the order of their priorities; dead ones anywhere between them. */
  predicate Sorted(l: List) {
    forall i, j :: 0 <= i < j < |l| && !Dead(l[i]) && !Dead(l[j]) ==> Abs(l[i].prio) <= Abs(l[j].prio)
  }

  predicate Numbered(l: List) { forall i, j :: 0 <= i < j < |l| ==> l[i].number != l[j].number }

  // ----- calls -----

  /** Calls of an effect's functions. With `temp` it only steps aside or back. */
  datatype Event = Started(number: nat, temp: bool) | Stopped(number: nat, temp: bool) | Ticked(number: nat, time: nat)
    | Added(number: nat)

  function StopCall(e: Effect): seq<Event> { if e.hasStop then [Stopped(e.number, true)] else [] }
  function StartCall(e: Effect): seq<Event> { if e.hasStart then [Started(e.number, true)] else [] }

  // ----- stepping aside and back -----

  function NextActive(l: List, from: nat): (r: nat)
    requires from <= |l|
    ensures from <= r <= |l|
    ensures r < |l| ==> Active(l[r])
    ensures forall j :: from <= j < r ==> !Active(l[j])
    decreases |l| - from
  {
    if from == |l| then from else if Active(l[from]) then from else NextActive(l, from + 1)
  }

  datatype Change = Change(list: List, events: seq<Event>, last: Option<nat>)

  /** The active effects above `k` step aside, the highest first; with `self`, then `k` does. */
  function TempRemove(l: List, k: nat, self: bool): (r: Change)
    requires k < |l|
    ensures |r.list| == |l|
    decreases |l| - k
  {
    if l[k].prio == 1 then Change(l, [], None)
    else
      var j := NextActive(l, k + 1);
      var up := if j < |l| then TempRemove(l, j, true) else Change(l, [], None);
      if !self then up
      else
        var e := Flip(up.list[k]);
        Change(up.list[k := e], up.events + (if e.prio != 1 then StopCall(e) else []), if up.last == None then Some(k)
            else up.last)
  }

  /** The effects from `from` to `last` that had stepped aside step back. */
  function TempReadd(l: List, from: nat, last: nat): (r: Change)
    requires from <= |l|
    ensures |r.list| == |l|
    decreases |l| - from
  {
    if from == |l| then Change(l, [], None)
    else
      var e := if Inactive(l[from]) then Flip(l[from]) else l[from];
      var l1 := l[from := e];
      var ev := if Inactive(l[from]) && e.prio != 1 then StartCall(e) else [];
      if from == last then Change(l1, ev, None)
      else
        var up := TempReadd(l1, from + 1, last);
        Change(up.list, ev + up.events, None)
  }

  function Readd(l: List, k: nat, last: Option<nat>): (r: Change)
    requires k < |l|
    ensures |r.list| == |l|
  {
    if last == None then Change(l, [], None) else TempReadd(l, k + 1, last.value)
  }

  // ----- what they do -----

  /** The last active effect above `k`. */
  function LastActive(l: List, k: nat): (r: Option<nat>)
    requires k < |l|
    ensures r.Some? ==> k < r.value < |l| && Active(l[r.value]) && forall j :: r.value < j < |l| ==> !Active(l[j])
    ensures r.None? ==> forall j :: k < j < |l| ==> !Active(l[j])
  {
    LastActiveFrom(l, k + 1, |l|)
  }

  function LastActiveFrom(l: List, from: nat, end: nat): (r: Option<nat>)
    requires from <= end <= |l|
    ensures r.Some? ==> from <= r.value < end && Active(l[r.value]) && forall j :: r.value < j < end ==> !Active(l[j])
    ensures r.None? ==> forall j :: from <= j < end ==> !Active(l[j])
    decreases end
  {
    if from == end then None else if Active(l[end - 1]) then Some(end - 1) else LastActiveFrom(l, from, end - 1)
  }

  /** Stop calls from the highest active effect down to effect `from`. */
  function StopsDown(l: List, from: nat): seq<Event>
    requires from <= |l|
    decreases |l| - from
  {
    if from == |l| then []
    else StopsDown(l, from + 1) + if Active(l[from]) && l[from].hasStop then [Stopped(l[from].number, true)] else []
  }

  /** Start calls of the active effects from `from` up to `last`. */
  function StartsUp(l: List, from: nat, last: nat): seq<Event>
    requires last < |l|
    decreases |l| - from
  {
    if from > last then []
    else (if Active(l[from]) && l[from].hasStart then [Started(l[from].number, true)] else []) + StartsUp(l, from + 1,
        last)
  }

  lemma {:induction false} StopsSkip(l: List, from: nat, j: nat)
    requires from <= j <= |l| && forall i :: from <= i < j ==> !Active(l[i])
    ensures StopsDown(l, from) == StopsDown(l, j)
    decreases j - from
  {
    if from < j { StopsSkip(l, from + 1, j); }
  }

  /** Effects of priority 1 take no part. */
  predicate TakesPart(l: List, k: nat, self: bool)
    requires k < |l|
  {
    l[k].prio != 1 && (self ==> Active(l[k])) && forall j :: k < j < |l| ==> l[j].prio != 1
  }

  /** Everything active above `k` has stepped aside. */
  lemma {:induction false} RemoveFlips(l: List, k: nat, self: bool)
    requires k < |l| && TakesPart(l, k, self)
    ensures var r := TempRemove(l, k, self);
            forall j :: 0 <= j < |l| ==>
              r.list[j] == if (j > k && Active(l[j])) || (j == k && self) then Flip(l[j]) else l[j]
    decreases |l| - k
  {
    var j := NextActive(l, k + 1);
    if j < |l| { RemoveFlips(l, j, true); }
  }

  /** The calls came from high to low. */
  lemma {:induction false} RemoveCalls(l: List, k: nat, self: bool)
    requires k < |l| && TakesPart(l, k, self)
    ensures TempRemove(l, k, self).events == StopsDown(l, if self then k else k + 1)
    decreases |l| - k
  {
    var j := NextActive(l, k + 1);
    StopsSkip(l, k + 1, j);
    if j < |l| {
      RemoveCalls(l, j, true);
      RemoveFlips(l, j, true);
    }
  }

  lemma {:induction false} RemoveLast(l: List, k: nat, self: bool)
    requires k < |l| && TakesPart(l, k, self)
    ensures TempRemove(l, k, self).last == if self && LastActive(l, k).None? then Some(k) else LastActive(l, k)
    decreases |l| - k
  {
    var j := NextActive(l, k + 1);
    if j < |l| {
      RemoveLast(l, j, true);
      SameLast(l, k, j);
    }
  }

  lemma SameLast(l: List, k: nat, j: nat)
    requires k < j < |l| && Active(l[j]) && forall i :: k < i < j ==> !Active(l[i])
    ensures LastActive(l, k) == if LastActive(l, j).None? then Some(j) else LastActive(l, j)
  {
    assert LastActive(l, k).Some?;
  }

  /** What has stepped aside from `from` to `last` is back. */
  lemma {:induction false} ReaddDoes(l: List, from: nat, last: nat)
    requires from <= last < |l|
    ensures var r := TempReadd(l, from, last);
            && (forall j :: 0 <= j < |l| ==>
                  r.list[j] == if from <= j <= last && Inactive(l[j]) then Flip(l[j]) else l[j])
    decreases |l| - from
  {
    if from < last {
      var e := if Inactive(l[from]) then Flip(l[from]) else l[from];
      ReaddDoes(l[from := e], from + 1, last);
    }
  }

  /** The calls came from low to high. */
  lemma {:induction false} ReaddCalls(l: List, orig: List, from: nat, last: nat)
    requires from <= last < |l| == |orig|
    requires forall j :: from <= j <= last ==> orig[j].prio != 1 && (Active(orig[j]) <==> Inactive(l[j]))
    requires forall j :: from <= j <= last && Active(orig[j]) ==> l[j] == Flip(orig[j])
    ensures TempReadd(l, from, last).events == StartsUp(orig, from, last)
    decreases |l| - from
  {
    var e := if Inactive(l[from]) then Flip(l[from]) else l[from];
    if from < last {
      ReaddCalls(l[from := e], orig, from + 1, last);
    } else {
      assert StartsUp(orig, from + 1, last) == [];
    }
  }

  // ----- an effect goes -----

  /** Kills effect `k`; `denied`: its stop call may refuse. */
  function Kill(l: List, k: nat, denied: bool): (r: Change)
    requires k < |l|
    ensures |r.list| == |l|
  {
    var e := l[k];
    var removed := if Active(e) then TempRemove(l, k, false)
                   else Change(l, if e.hasStart && e.prio != 1 then [Started(e.number, true)] else [], None);
    var own := removed.list[k];
    var l1 := removed.list[k := if own.hasStop && denied then own else own.(prio := 0)];
    var back := Readd(l1, k, removed.last);
    Change(back.list, removed.events + (if own.hasStop then [Stopped(own.number, false)] else []) + back.events, None)
  }

  /** An effect has stepped aside between `k` and the last active effect. */
  predicate Between(l: List, k: nat)
    requires k < |l|
  {
    var last := LastActive(l, k);
    last.Some? && exists j :: k < j < last.value && Inactive(l[j])
  }

  lemma SortedTakesPart(l: List, k: nat)
    requires Sorted(l) && k < |l| && Active(l[k]) && l[k].prio != 1
    ensures TakesPart(l, k, false)
  {
    forall j | k < j < |l| ensures l[j].prio != 1 {
      if !Dead(l[j]) { assert Abs(l[k].prio) <= Abs(l[j].prio); }
    }
  }

  /** Aside and back, with a change to effect `k` between. */
  lemma AsideAndBack(l: List, k: nat, prio: int)
    requires k < |l| && TakesPart(l, k, false)
    ensures var removed, last := TempRemove(l, k, false), LastActive(l, k);
            var r := Readd(removed.list[k := removed.list[k].(prio := prio)], k, removed.last).list;
            && r[k] == l[k].(prio := prio)
            && forall j :: 0 <= j < |l| && j != k ==>
                 r[j] == if last.Some? && k < j < last.value && Inactive(l[j]) then Flip(l[j]) else l[j]
  {
    RemoveFlips(l, k, false);
    RemoveLast(l, k, false);
    hide TempRemove, TakesPart, LastActive;
    var removed, last := TempRemove(l, k, false), LastActive(l, k);
    var l1 := removed.list[k := removed.list[k].(prio := prio)];
    LastAbove(l, k);
    if last.Some? { ReaddDoes(l1, k + 1, last.value); }
    hide TempReadd;
  }

  lemma LastAbove(l: List, k: nat)
    requires k < |l|
    ensures var last := LastActive(l, k);
            && (last.Some? ==> k < last.value < |l| && Active(l[last.value]) && forall j :: last.value < j < |l| ==>
                !Active(l[j]))
            && (last.None? ==> forall j :: k < j < |l| ==> !Active(l[j]))
  {
  }

  /** What killing an active effect does to all others: whatever was active above it is active
      again, but so is everything between that had stepped aside before. */
  lemma KillActiveDoes(l: List, k: nat, denied: bool)
    requires Sorted(l) && k < |l| && Active(l[k])
    ensures var last, r := LastActive(l, k), Kill(l, k, denied);
            && r.list[k] == (if l[k].hasStop && denied then l[k] else l[k].(prio := 0))
            && forall j :: 0 <= j < |l| && j != k ==>
                 r.list[j] == if l[k].prio != 1 && last.Some? && k < j < last.value && Inactive(l[j]) then Flip(l[j])
                     else l[j]
  {
    if l[k].prio != 1 {
      hide Sorted, Readd, LastActive;
      SortedTakesPart(l, k);
      RemoveFlips(l, k, false);
      AsideAndBack(l, k, if l[k].hasStop && denied then l[k].prio else 0);
      hide TempRemove, TakesPart;
    }
  }

  /** Stepping aside and back cancel out exactly if no effect between had stepped aside before. */
  lemma KillLeavesOthers(l: List, k: nat, denied: bool)
    requires Sorted(l) && k < |l| && Active(l[k])
    ensures (forall j :: 0 <= j < |l| && j != k ==> Kill(l, k, denied).list[j] == l[j])
            <==> l[k].prio == 1 || !Between(l, k)
  {
    KillActiveDoes(l, k, denied);
    if l[k].prio != 1 && Between(l, k) {
      var last := LastActive(l, k);
      var j :| k < j < last.value && Inactive(l[j]);
      assert Kill(l, k, denied).list[j] != l[j];
    }
  }

  /** On a list where nothing has stepped aside: stop calls from high to low, the effect's own
      stop call, start calls from low to high. */
  lemma KillCalls(l: List, k: nat, denied: bool)
    requires Sorted(l) && k < |l| && Active(l[k]) && l[k].prio != 1 && forall j :: 0 <= j < |l| ==> !Inactive(l[j])
    ensures var last := LastActive(l, k);
            Kill(l, k, denied).events ==
            StopsDown(l, k + 1) + (if l[k].hasStop then [Stopped(l[k].number, false)] else [])
            + if last.Some? then StartsUp(l, k + 1, last.value) else []
  {
    SortedTakesPart(l, k);
    RemoveFlips(l, k, false);
    RemoveCalls(l, k, false);
    RemoveLast(l, k, false);
    SameSize(l, k);
    hide TempRemove, StopsDown, StartsUp, TempReadd;
    var removed := TempRemove(l, k, false);
    var own := removed.list[k];
    var l1 := removed.list[k := if own.hasStop && denied then own else own.(prio := 0)];
    var last := LastActive(l, k);
    if last.Some? { ReaddCalls(l1, l, k + 1, last.value); }
  }

  /** Killing an effect that has stepped aside touches no other; it is called back to be stopped. */
  lemma KillInactive(l: List, k: nat, denied: bool)
    requires k < |l| && !Active(l[k])
    ensures forall j :: 0 <= j < |l| && j != k ==> Kill(l, k, denied).list[j] == l[j]
    ensures l[k].prio != 1 ==>
              Kill(l, k, denied).events == (if l[k].hasStart then [Started(l[k].number, true)] else [])
                                           + (if l[k].hasStop then [Stopped(l[k].number, false)] else [])
  {
  }

  // ----- an effect comes -----

  /** The place of a new effect: before all of at least its priority. */
  function Place(l: List, prio: int): (r: nat)
    ensures r <= |l|
    ensures forall i :: 0 <= i < r ==> Abs(l[i].prio) < prio
    ensures r < |l| ==> Abs(l[r].prio) >= prio
    decreases |l|
  {
    if |l| == 0 || Abs(l[0].prio) >= prio then 0 else 1 + Place(l[1..], prio)
  }

  function NewNumber(l: List): (r: nat)
    ensures r >= 1 && forall i :: 0 <= i < |l| ==> l[i].number < r
    decreases |l|
  {
    if |l| == 0 then 1
    else
      var n, e := NewNumber(l[..|l| - 1]), l[|l| - 1];
      if e.number >= n then e.number + 1 else n
  }

  /** What the effects above say to a new one. `Annul`: the live effect `to` takes it up, with the
      effects above it aside if `calls`, and may die of it. */
  datatype Verdict = Agree | Refuse | Annul(to: nat, calls: bool, dies: bool, denied: bool)

  /** What the new effect's own start call says. */
  datatype Start = Accepts | Denies | Throws

  datatype Answers = Answers(verdict: Verdict, start: Start)

  /** Effect `to` takes up a new one. */
  function AddTo(l: List, to: nat, calls: bool, dies: bool, denied: bool): (r: Change)
    requires to < |l|
    ensures |r.list| == |l|
  {
    var temp := calls && to + 1 < |l|;
    var removed := if temp then TempRemove(l, to, false) else Change(l, [], None);
    var back := if temp then Readd(removed.list, to, removed.last) else Change(removed.list, [], None);
    var killed := if dies then Kill(back.list, to, denied) else Change(back.list, [], None);
    Change(killed.list, removed.events + [Added(l[to].number)] + back.events + killed.events, None)
  }

  /** Adds `e` with priority `prio`. It is dead until the effects above have agreed and have stepped
      aside; its own start call may refuse. An error in that call takes it out of the list again,
      and those above stay aside. */
  function Create(l: List, e: Effect, prio: int, answers: Answers): (r: Change)
    ensures |l| <= |r.list| <= |l| + 1
  {
    var k := Place(l, prio);
    var l0 := l[..k] + [e.(number := NewNumber(l), prio := 0, time := 0)] + l[k..];
    var upper := prio != 1 && k + 1 < |l0|;
    var v := answers.verdict;
    if upper && v.Refuse? then Change(l0, [], None)
    else if upper && v.Annul? && k < v.to < |l0| && !Dead(l0[v.to]) then AddTo(l0, v.to, v.calls, v.dies, v.denied)
    else
      var calls := upper && e.hasStart;
      var removed := if calls then TempRemove(l0, k, false) else Change(l0, [], None);
      var own := removed.list[k];
      if e.hasStart && answers.start.Throws? then
        Change(removed.list[..k] + removed.list[k + 1..], removed.events + [Started(own.number, false)], None)
      else
        var l1 := removed.list[k := own.(prio := if e.hasStart && answers.start.Denies? then 0 else prio)];
        var back := if calls then Readd(l1, k, removed.last) else Change(l1, [], None);
        Change(back.list, removed.events + (if e.hasStart then [Started(own.number, false)] else []) + back.events,
            None)
  }

  // ----- what stays true -----

  /** Same effects in the same places, with their priorities, possibly turned around or zero. */
  predicate SameOrder(a: List, b: List) {
    |a| == |b| &&
    forall i :: 0 <= i < |a| ==> a[i].number == b[i].number && (Dead(b[i]) || Abs(a[i].prio) == Abs(b[i].prio))
  }

  lemma OrderKept(a: List, b: List)
    requires SameOrder(a, b) && (forall i :: 0 <= i < |a| && Dead(a[i]) ==> Dead(b[i]))
    ensures Sorted(a) ==> Sorted(b)
    ensures Numbered(a) ==> Numbered(b)
  {
  }

  lemma {:induction false} RemoveSame(l: List, k: nat, self: bool)
    requires k < |l|
    ensures SameOrder(l, TempRemove(l, k, self).list)
    ensures forall i :: 0 <= i < |l| ==> Abs(TempRemove(l, k, self).list[i].prio) == Abs(l[i].prio)
    decreases |l| - k
  {
    var j := NextActive(l, k + 1);
    if l[k].prio != 1 && j < |l| { RemoveSame(l, j, true); }
  }

  lemma {:induction false} ReaddSame(l: List, from: nat, last: nat)
    requires from <= |l|
    ensures SameOrder(l, TempReadd(l, from, last).list)
    ensures forall i :: 0 <= i < |l| ==> Abs(TempReadd(l, from, last).list[i].prio) == Abs(l[i].prio)
    decreases |l| - from
  {
    if from < |l| {
      var e := if Inactive(l[from]) then Flip(l[from]) else l[from];
      if from != last { ReaddSame(l[from := e], from + 1, last); }
    }
  }

  /** Killing any effect, active or not, keeps order and numbers. */
  lemma KillKeeps(l: List, k: nat, denied: bool)
    requires k < |l| && Sorted(l) && Numbered(l)
    ensures Sorted(Kill(l, k, denied).list) && Numbered(Kill(l, k, denied).list)
  {
    RemoveSame(l, k, false);
    var removed := if Active(l[k]) then TempRemove(l, k, false).list else l;
    var own := removed[k];
    var l1 := removed[k := if own.hasStop && denied then own else own.(prio := 0)];
    ReaddSame(l1, k + 1, if TempRemove(l, k, false).last.Some? then TempRemove(l, k, false).last.value else 0);
    OrderKept(l, Kill(l, k, denied).list);
  }

  /** Inserted at its place, the new effect leaves the list sorted, with a number of its own. */
  lemma InsertSorted(l: List, e: Effect, prio: int)
    requires Sorted(l) && Numbered(l) && prio > 0
    ensures var k := Place(l, prio);
            var l0 := l[..k] + [e.(number := NewNumber(l), prio := prio)] + l[k..];
            Sorted(l0) && Numbered(l0)
  {
    hide Sorted, Numbered;
    Inserted(l, Place(l, prio), e.(number := NewNumber(l), prio := prio));
  }

  lemma Inserted(l: List, k: nat, own: Effect)
    requires Sorted(l) && Numbered(l) && k <= |l| && own.prio > 0
    requires (forall i :: 0 <= i < k ==> Abs(l[i].prio) < own.prio) && (k < |l| ==> Abs(l[k].prio) >= own.prio)
    requires forall i :: 0 <= i < |l| ==> l[i].number < own.number
    ensures Sorted(l[..k] + [own] + l[k..]) && Numbered(l[..k] + [own] + l[k..])
  {
    hide Sorted, Numbered;
    InsertedAt(l, k, own);
    InsertedOrder(l, k, own, l[..k] + [own] + l[k..]);
  }

  lemma InsertedAt(l: List, k: nat, own: Effect)
    requires k <= |l|
    ensures var l0 := l[..k] + [own] + l[k..];
            forall i :: 0 <= i < |l0| ==> l0[i] == Moved(l, k, own, i)
  {
  }

  /** Effect `i` of the list with `own` inserted at `k`. */
  function Moved(l: List, k: nat, own: Effect, i: nat): Effect
    requires k <= |l| && i <= |l|
  {
    if i < k then l[i] else if i == k then own else l[i - 1]
  }

  lemma InsertedOrder(l: List, k: nat, own: Effect, l0: List)
    requires Sorted(l) && Numbered(l) && k <= |l| && own.prio > 0 && |l0| == |l| + 1
    requires forall i :: 0 <= i < |l0| ==> l0[i] == Moved(l, k, own, i)
    requires (forall i :: 0 <= i < k ==> Abs(l[i].prio) < own.prio) && (k < |l| ==> Abs(l[k].prio) >= own.prio)
    requires forall i :: 0 <= i < |l| ==> l[i].number < own.number
    ensures Sorted(l0) && Numbered(l0)
  {
    forall i, j | 0 <= i < j < |l0| && !Dead(l0[i]) && !Dead(l0[j]) ensures Abs(l0[i].prio) <= Abs(l0[j].prio) {
      var a, b := if i < k then i else i - 1, if j < k then j else j - 1;
      if i == k {
        assert l0[j] == l[b] && !Dead(l[k]);
        assert b == k || Abs(l[k].prio) <= Abs(l[b].prio);
      } else if j == k {
        assert l0[i] == l[i];
      } else {
        assert l0[i] == l[a] && l0[j] == l[b];
        assert Abs(l[a].prio) <= Abs(l[b].prio);
      }
    }
    forall i, j | 0 <= i < j < |l0| ensures l0[i].number != l0[j].number {
      var a, b := if i < k then i else i - 1, if j < k then j else j - 1;
      if i == k {
        assert l0[j] == l[b];
      } else if j == k {
        assert l0[i] == l[i];
      } else {
        assert l0[i] == l[a] && l0[j] == l[b];
      }
    }
  }

  /** However it is answered, creating an effect keeps order and numbers. */
  lemma CreateKeeps(l: List, e: Effect, prio: int, answers: Answers)
    requires Sorted(l) && Numbered(l) && prio > 0
    ensures Sorted(Create(l, e, prio, answers).list) && Numbered(Create(l, e, prio, answers).list)
  {
    hide Sorted, Numbered, AddTo, TempRemove, Readd, NewNumber, Place;
    InsertSorted(l, e, prio);
    var k := Place(l, prio);
    var own := e.(number := NewNumber(l), prio := 0, time := 0);
    var live := l[..k] + [e.(number := NewNumber(l), prio := prio)] + l[k..];
    var l0 := l[..k] + [own] + l[k..];
    CreateOrder(l0, k, own, e.hasStart, prio, answers.start.Denies?, live);
    var v := answers.verdict;
    if v.Annul? && v.to < |l0| { AddToKeeps(l0, v.to, v.calls, v.dies, v.denied); }
    ThrownKeeps(l0, k);
  }

  lemma AddToKeeps(l: List, to: nat, calls: bool, dies: bool, denied: bool)
    requires to < |l| && Sorted(l) && Numbered(l)
    ensures Sorted(AddTo(l, to, calls, dies, denied).list) && Numbered(AddTo(l, to, calls, dies, denied).list)
  {
    hide Sorted, Numbered, TempRemove, TempReadd, Kill;
    var temp := calls && to + 1 < |l|;
    RemoveSame(l, to, false);
    var removed := if temp then TempRemove(l, to, false) else Change(l, [], None);
    KeptDead(l, removed.list);
    OrderKept(l, removed.list);
    ReaddSame(removed.list, to + 1, if removed.last.Some? then removed.last.value else 0);
    var back := if temp then Readd(removed.list, to, removed.last) else Change(removed.list, [], None);
    KeptDead(removed.list, back.list);
    OrderKept(removed.list, back.list);
    if dies { KillKeeps(back.list, to, denied); }
  }

  /** What was dead stays dead where priorities only turn around. */
  lemma KeptDead(a: List, b: List)
    requires |a| == |b| && forall i :: 0 <= i < |a| ==> Abs(a[i].prio) == Abs(b[i].prio)
    ensures forall i :: 0 <= i < |a| && Dead(a[i]) ==> Dead(b[i])
  {
  }

  /** Those above have stepped aside, and the new effect is taken out. */
  lemma ThrownKeeps(l0: List, k: nat)
    requires k < |l0| && Sorted(l0) && Numbered(l0)
    ensures var l1 := TempRemove(l0, k, false).list;
            Sorted(l1[..k] + l1[k + 1..]) && Numbered(l1[..k] + l1[k + 1..])
    ensures Sorted(l0[..k] + l0[k + 1..]) && Numbered(l0[..k] + l0[k + 1..])
  {
    hide TempRemove, Sorted, Numbered;
    RemoveSame(l0, k, false);
    KeptDead(l0, TempRemove(l0, k, false).list);
    OrderKept(l0, TempRemove(l0, k, false).list);
    DropKeeps(l0, k);
    DropKeeps(TempRemove(l0, k, false).list, k);
  }

  lemma CreateOrder(l0: List, k: nat, own: Effect, hasStart: bool, prio: int, denied: bool, live: List)
    requires k < |l0| == |live| && l0[k] == own && own.prio == 0 && own.hasStart == hasStart && prio > 0
    requires Sorted(live) && Numbered(live) && live[k].prio == prio
    requires forall i :: 0 <= i < |l0| ==> live[i].number == l0[i].number && (i != k ==> live[i] == l0[i])
    ensures var upper := prio != 1 && k + 1 < |l0|;
            var calls := upper && hasStart;
            var removed := if calls then TempRemove(l0, k, false) else Change(l0, [], None);
            var l1 := removed.list[k := removed.list[k].(prio := if hasStart && denied then 0 else prio)];
            var back := if calls then Readd(l1, k, removed.last) else Change(l1, [], None);
            Sorted(back.list) && Numbered(back.list) && Sorted(l0) && Numbered(l0)
  {
    OrderKept(live, l0);
    RemoveSame(l0, k, false);
    hide Sorted, Numbered, TempRemove, Readd, SameOrder;
    var calls := prio != 1 && k + 1 < |l0| && hasStart;
    var removed := if calls then TempRemove(l0, k, false) else Change(l0, [], None);
    assert forall i :: 0 <= i < |l0| ==> removed.list[i].number == l0[i].number by { SameNumbers(l0, k); }
    StartOrder(live, removed, k, if hasStart && denied then 0 else prio, calls);
  }

  lemma SameNumbers(l: List, k: nat)
    requires k < |l|
    ensures forall i :: 0 <= i < |l| ==> TempRemove(l, k, false).list[i].number == l[i].number
  {
    RemoveSame(l, k, false);
  }

  lemma StartOrder(live: List, removed: Change, k: nat, own: int, calls: bool)
    requires k < |live| == |removed.list| && Sorted(live) && Numbered(live) && (own == 0 || own == live[k].prio)
    requires forall i :: 0 <= i < |live| ==>
               removed.list[i].number == live[i].number && (i != k ==> Abs(removed.list[i].prio) == Abs(live[i].prio))
    ensures var l1 := removed.list[k := removed.list[k].(prio := own)];
            var back := if calls then Readd(l1, k, removed.last) else Change(l1, [], None);
            Sorted(back.list) && Numbered(back.list)
  {
    hide Sorted, Numbered, TempReadd;
    var l1 := removed.list[k := removed.list[k].(prio := own)];
    OrderKept(live, l1);
    ReaddSame(l1, k + 1, if removed.last.Some? then removed.last.value else 0);
    var back := if calls then Readd(l1, k, removed.last) else Change(l1, [], None);
    OrderKept(l1, back.list);
  }

  // ----- the clock -----

  /** What the timer call of an effect says: that the effect is to be killed, and whether its stop
      call then refuses. */
  datatype Tick = Tick(kill: bool, denied: bool)

  function Due(e: Effect): bool { e.interval > 0 && e.time % e.interval == 0 }

  /** One sweep from effect `k` on: dead effects go, the others grow older. */
  function Sweep(l: List, k: nat, ticks: nat -> Tick): (r: Change)
    requires k <= |l|
    decreases |l| - k
  {
    if k == |l| then Change(l, [], None)
    else if Dead(l[k]) then Sweep(l[..k] + l[k + 1..], k, ticks)
    else
      var e := l[k].(time := l[k].time + 1);
      var l1 := l[k := e];
      var t := ticks(e.number);
      var call := if Due(e) && e.hasTimer then [Ticked(e.number, e.time)] else [];
      var killed := if Due(e) && (t.kill || !e.hasTimer) then Kill(l1, k, t.denied) else Change(l1, [], None);
      var rest := Sweep(killed.list, k + 1, ticks);
      Change(rest.list, call + killed.events + rest.events, None)
  }

  lemma DropKeeps(l: List, k: nat)
    requires k < |l| && Sorted(l) && Numbered(l)
    ensures Sorted(l[..k] + l[k + 1..]) && Numbered(l[..k] + l[k + 1..])
  {
    var d := l[..k] + l[k + 1..];
    forall i | 0 <= i < |d| ensures d[i] == l[if i < k then i else i + 1] {
    }
  }

  lemma {:induction false} SweepKeeps(l: List, k: nat, ticks: nat -> Tick)
    requires k <= |l| && Sorted(l) && Numbered(l)
    ensures Sorted(Sweep(l, k, ticks).list) && Numbered(Sweep(l, k, ticks).list)
    decreases |l| - k
  {
    hide Kill;
    if k < |l| {
      if Dead(l[k]) {
        DropKeeps(l, k);
        SweepKeeps(l[..k] + l[k + 1..], k, ticks);
      } else {
        var e := l[k].(time := l[k].time + 1);
        var l1 := l[k := e];
        OrderKept(l, l1);
        KillKeeps(l1, k, ticks(e.number).denied);
        var t := ticks(e.number);
        var killed := if Due(e) && (t.kill || !e.hasTimer) then Kill(l1, k, t.denied).list else l1;
        SweepKeeps(killed, k + 1, ticks);
      }
    }
  }

  // ----- any sequence of operations -----

  datatype Operation =
    | Add(e: Effect, prio: int, answers: Answers)
    | Remove(k: nat, denied: bool)
    | Execute(ticks: nat -> Tick)

  function Apply(l: List, op: Operation): List {
    match op
    case Add(e, prio, answers) => if prio > 0 then Create(l, e, prio, answers).list else l
    case Remove(k, denied) => if k < |l| then Kill(l, k, denied).list else l
    case Execute(ticks) => Sweep(l, 0, ticks).list
  }

  function ApplyAll(l: List, ops: seq<Operation>): List
    decreases |ops|
  {
    if |ops| == 0 then l else ApplyAll(Apply(l, ops[0]), ops[1..])
  }

  /** Through any sequence of effects added with positive priority, killed and executed, whatever
      their calls answer, the list stays sorted and no two effects have the same number. */
  lemma {:induction false} AlwaysSorted(l: List, ops: seq<Operation>)
    requires Sorted(l) && Numbered(l)
    ensures Sorted(ApplyAll(l, ops)) && Numbered(ApplyAll(l, ops))
    decreases |ops|
  {
    hide Create, Kill, Sweep;
    if |ops| > 0 {
      match ops[0] {
        case Add(e, prio, answers) => if prio > 0 { CreateKeeps(l, e, prio, answers); }
        case Remove(k, denied) => if k < |l| { KillKeeps(l, k, denied); }
        case Execute(ticks) => SweepKeeps(l, 0, ticks);
      }
      AlwaysSorted(Apply(l, ops[0]), ops[1..]);
    }
  }

  lemma SameSize(l: List, k: nat)
    requires k < |l|
    ensures |TempRemove(l, k, false).list| == |l|
    ensures forall l1: List, last :: |l1| == |l| ==> |Readd(l1, k, last).list| == |l1|
  {
  }

  // ----- the list at work -----

  /** The effects of one object. Each method walks the list from one effect to the next. */
  class EffectList {
    var list: List
    var events: seq<Event>

    constructor ()
      ensures list == [] && events == []
    {
      list, events := [], [];
    }

    /** Inserts a new effect, still dead, before all of at least its priority. */
    method Insert(e: Effect, prio: int) returns (k: nat)
      modifies this
      ensures k == Place(old(list), prio) && events == old(events)
      ensures list == old(list)[..k] + [e.(number := NewNumber(old(list)), prio := 0, time := 0)] + old(list)[k..]
    {
      var number := 1;
      for i := 0 to |list|
        invariant number == NewNumber(list[..i])
      {
        assert list[..i + 1][..i] == list[..i];
        if list[i].number >= number { number := list[i].number + 1; }
      }
      assert list[..|list|] == list;
      k := 0;
      while k < |list| && Abs(list[k].prio) < prio
        invariant k <= |list| && Place(list, prio) == k + Place(list[k..], prio)
      {
        assert list[k..][1..] == list[k + 1..];
        k := k + 1;
      }
      list := list[..k] + [e.(number := number, prio := 0, time := 0)] + list[k..];
    }

    /** The active effects above `k` step aside, from high to low, then `k` if `self`. */
    method TempRemoveUpperEffects(k: nat, self: bool) returns (last: Option<nat>)
      requires k < |list|
      modifies this
      ensures var r := TempRemove(old(list), k, self);
              list == r.list && events == old(events) + r.events && last == r.last
      decreases |list| - k
    {
      if list[k].prio == 1 { return None; }
      last := None;
      var j := k + 1;
      while j < |list| && !Active(list[j])
        invariant k < j <= |list| && NextActive(list, k + 1) == NextActive(list, j)
      {
        j := j + 1;
      }
      if j < |list| { last := TempRemoveUpperEffects(j, true); }
      if self {
        var e := Flip(list[k]);
        list := list[k := e];
        if e.prio != 1 { events := events + StopCall(e); }
        if last == None { last := Some(k); }
      }
    }

    /** Those that have stepped aside step back, from low to high, up to `last`. */
    method TempReaddUpperEffects(k: nat, last: Option<nat>)
      requires k < |list|
      modifies this
      ensures var r := Readd(old(list), k, last);
              list == r.list && events == old(events) + r.events
    {
      if last == None { return; }
      ghost var whole, before := Readd(list, k, last), events;
      var j := k + 1;
      while j < |list|
        invariant k < j <= |list| == |old(list)|
        invariant TempReadd(list, j, last.value).list == whole.list
        invariant events + TempReadd(list, j, last.value).events == before + whole.events
      {
        ghost var l, ev := list, events;
        var called: seq<Event> := [];
        if Inactive(list[j]) {
          var e := Flip(list[j]);
          list := list[j := e];
          if e.prio != 1 { called := StartCall(e); }
        }
        events := events + called;
        OneReadd(l, j, last.value, list, called, ev);
        if j == last.value { return; }
        j := j + 1;
      }
    }

    method KillEffect(k: nat, denied: bool)
      requires k < |list|
      modifies this
      ensures |list| == |old(list)|
      ensures var r := Kill(old(list), k, denied);
              list == r.list && events == old(events) + r.events
    {
      hide TempRemove, Readd;
      SameSize(list, k);
      ghost var ev := events;
      var last := None;
      if Active(list[k]) {
        last := TempRemoveUpperEffects(k, false);
      } else if list[k].hasStart && list[k].prio != 1 {
        events := events + [Started(list[k].number, true)];
      }
      ghost var ev1, mid := events, list;
      var e := list[k];
      list := list[k := e.(prio := 0)];
      var own: seq<Event> := [];
      if e.hasStop {
        own := [Stopped(e.number, false)];
        if denied { list := list[k := e]; }
      }
      events := events + own;
      assert list == mid[k := if e.hasStop && denied then e else e.(prio := 0)];
      ghost var back := Readd(list, k, last);
      TempReaddUpperEffects(k, last);
      assert ev1 + own + back.events == ev1 + (own + back.events);
      assert list == back.list;
    }

    /** Adds an effect and lets it start. */
    method CreateEffect(e: Effect, prio: int, answers: Answers)
      modifies this
      ensures var r := Create(old(list), e, prio, answers);
              list == r.list && events == old(events) + r.events
    {
      hide TempRemove, Readd, NewNumber;
      ghost var ev := events;
      var k := Insert(e, prio);
      var upper := prio != 1 && k + 1 < |list|;
      var v := answers.verdict;
      if upper && v.Refuse? {
        assert ev + [] == ev;
        return;
      }
      SameSize(list, k);
      if upper && v.Annul? && k < v.to < |list| && !Dead(list[v.to]) {
        AddToEffect(v.to, v.calls, v.dies, v.denied);
      } else if e.hasStart && answers.start.Throws? {
        StartThrows(k, upper);
      } else {
        StartEffect(k, e.hasStart, upper && e.hasStart, prio, answers.start.Denies?);
      }
    }

    /** Effect `to` takes up the new one. */
    method AddToEffect(to: nat, calls: bool, dies: bool, denied: bool)
      requires to < |list|
      modifies this
      ensures var r := AddTo(old(list), to, calls, dies, denied);
              list == r.list && events == old(events) + r.events
    {
      hide TempRemove, Readd, Kill;
      ghost var l, ev := list, events;
      SameSize(list, to);
      var temp := calls && to + 1 < |list|;
      var last := None;
      var number := list[to].number;
      if temp { last := TempRemoveUpperEffects(to, false); }
      ghost var removed := if temp then TempRemove(l, to, false) else Change(l, [], None);
      assert ev + [] == ev;
      events := events + [Added(number)];
      ghost var back := if temp then Readd(list, to, last) else Change(list, [], None);
      SameSize(list, to);
      if temp { TempReaddUpperEffects(to, last); }
      ghost var killed := if dies then Kill(back.list, to, denied) else Change(back.list, [], None);
      assert events == ev + (removed.events + [Added(number)] + back.events);
      if dies { KillEffect(to, denied); }
      assert events == ev + (removed.events + [Added(number)] + back.events + killed.events);
    }

    /** An error in the start call of the new effect takes it out of the list; those above stay
        aside. */
    method StartThrows(k: nat, calls: bool)
      requires k < |list|
      modifies this
      ensures var removed := if calls then TempRemove(old(list), k, false) else Change(old(list), [], None);
              list == removed.list[..k] + removed.list[k + 1..]
              && events == old(events) + (removed.events + [Started(removed.list[k].number, false)])
    {
      hide TempRemove;
      SameSize(list, k);
      ghost var l, ev := list, events;
      if calls { var last := TempRemoveUpperEffects(k, false); }
      ghost var removed := if calls then TempRemove(l, k, false) else Change(l, [], None);
      assert ev + [] == ev;
      events := events + [Started(list[k].number, false)];
      list := list[..k] + list[k + 1..];
      assert events == ev + (removed.events + [Started(removed.list[k].number, false)]);
    }

    /** The new effect starts, while those above are aside if `calls`. */
    method StartEffect(k: nat, hasStart: bool, calls: bool, prio: int, denied: bool)
      requires k < |list|
      modifies this
      ensures var removed := if calls then TempRemove(old(list), k, false) else Change(old(list), [], None);
              var own := removed.list[k];
              var l1 := removed.list[k := own.(prio := if hasStart && denied then 0 else prio)];
              var back := if calls then Readd(l1, k, removed.last) else Change(l1, [], None);
              list == back.list
              && events == old(events) + (removed.events + (if hasStart then [Started(own.number, false)]
                  else []) + back.events)
    {
      hide TempRemove, Readd;
      SameSize(list, k);
      ghost var ev, l := events, list;
      var last := None;
      if calls { last := TempRemoveUpperEffects(k, false); }
      ghost var removed := if calls then TempRemove(l, k, false) else Change(l, [], None);
      assert ev + [] == ev;
      var e := list[k];
      list := list[k := e.(prio := prio)];
      var own: seq<Event> := [];
      if hasStart {
        own := [Started(e.number, false)];
        if denied { list := list[k := e.(prio := 0)]; }
      }
      events := events + own;
      assert list == removed.list[k := e.(prio := if hasStart && denied then 0 else prio)];
      ghost var back := if calls then Readd(list, k, last) else Change(list, [], None);
      if calls { TempReaddUpperEffects(k, last); }
      assert ev + removed.events + own + back.events == ev + (removed.events + own + back.events);
      assert ev + removed.events + own + [] == ev + removed.events + own;
    }

    /** One sweep over all effects. */
    method ExecuteAll(ticks: nat -> Tick)
      modifies this
      ensures var r := Sweep(old(list), 0, ticks);
              list == r.list && events == old(events) + r.events
    {
      hide Kill, Due;
      ghost var whole, before := Sweep(list, 0, ticks), events;
      var k := 0;
      while k < |list|
        invariant k <= |list|
        invariant Sweep(list, k, ticks).list == whole.list
        invariant events + Sweep(list, k, ticks).events == before + whole.events
        decreases |list| - k
      {
        ghost var l, ev := list, events;
        if Dead(list[k]) {
          list := list[..k] + list[k + 1..];
        } else {
          var e := list[k].(time := list[k].time + 1);
          list := list[k := e];
          var called: seq<Event> := [];
          var kill := false;
          if Due(e) {
            if e.hasTimer { called := [Ticked(e.number, e.time)]; }
            kill := !e.hasTimer || ticks(e.number).kill;
          }
          events := events + called;
          if kill { KillEffect(k, ticks(e.number).denied); }
          OneSweep(l, k, ticks, list, called, events, ev);
          k := k + 1;
        }
      }
    }
  }

  lemma OneReadd(l: List, j: nat, last: nat, l1: List, called: seq<Event>, ev: seq<Event>)
    requires j < |l| && l1 == l[j := if Inactive(l[j]) then Flip(l[j]) else l[j]]
    requires called == if Inactive(l[j]) && Flip(l[j]).prio != 1 then StartCall(Flip(l[j])) else []
    ensures var up := if j == last then Change(l1, [], None) else TempReadd(l1, j + 1, last);
            TempReadd(l, j, last).list == up.list && ev + TempReadd(l, j, last).events == ev + called + up.events
  {
    if j != last {
      var up := TempReadd(l1, j + 1, last);
      assert ev + (called + up.events) == ev + called + up.events;
    } else {
      assert ev + called + [] == ev + called;
    }
  }

  lemma OneSweep(l: List, k: nat, ticks: nat -> Tick, l1: List, called: seq<Event>, events: seq<Event>, ev: seq<Event>)
    requires k < |l| && !Dead(l[k])
    requires var e := l[k].(time := l[k].time + 1);
             var t := ticks(e.number);
             var killed := if Due(e) && (t.kill || !e.hasTimer) then Kill(l[k := e], k, t.denied)
                 else Change(l[k := e], [], None);
             called == (if Due(e) && e.hasTimer then [Ticked(e.number, e.time)] else [])
             && l1 == killed.list && events == ev + called + killed.events
    ensures Sweep(l, k, ticks).list == Sweep(l1, k + 1, ticks).list
    ensures ev + Sweep(l, k, ticks).events == events + Sweep(l1, k + 1, ticks).events
  {
    hide Kill;
    var e := l[k].(time := l[k].time + 1);
    var t := ticks(e.number);
    var killed := if Due(e) && (t.kill || !e.hasTimer) then Kill(l[k := e], k, t.denied)
        else Change(l[k := e], [], None);
    var rest := Sweep(l1, k + 1, ticks);
    assert ev + (called + killed.events + rest.events) == ev + called + killed.events + rest.events;
  }
}
