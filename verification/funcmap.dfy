/** The index of all functions by name: chains hung into a table by hash value, which grows. It
    agrees with the lists the owners keep, through any insertions and removals. */
module FuncIndex {
  import opened Wrappers

  // ----- names and functions -----

  type Name = seq<bv8>

  /** `id` tells functions of the same name and owner apart. */
  datatype Func = Func(name: Name, owner: nat, id: nat)

  /** Fowler/Noll/Vo. A character above 127 counts as negative. */
  function HashStep(h: bv32, x: bv8): bv32 {
    var c: bv32 := if x < 128 then x as bv32 else (x as bv32) | 0xFFFF_FF00;
    (h ^ c) * 16777619
  }

  function HashFrom(h: bv32, name: Name): bv32
    decreases |name|
  {
    if |name| == 0 then h else HashFrom(HashStep(h, name[0]), name[1..])
  }

  function Hash(name: Name): nat { HashFrom(2166136261, name) as nat }

  /** Two of the published values of the hash: of "a" and of "foobar". */
  lemma HashIsFnv1a()
    ensures HashFrom(0x811C9DC5, [97]) == 0xE40C292C && HashFrom(0x811C9DC5, [102, 111, 111, 98, 97, 114]) == 0xBF9CF968
    ensures Hash([97]) == 0xE40C292C && Hash([102, 111, 111, 98, 97, 114]) == 0xBF9CF968
  {
    var a: Name, none: Name := [97], [];
    HashStart(0x811C9DC5, a);
    assert a[1..] == none;
    var n0: Name, n1: Name, n2: Name, n3: Name, n4: Name, n5: Name :=
      [102, 111, 111, 98, 97, 114], [111, 111, 98, 97, 114], [111, 98, 97, 114], [98, 97, 114], [97, 114], [114];
    HashStart(0x811C9DC5, n0);
    HashStart(0xE30C2799, n1);
    HashStart(0x6222E842, n2);
    HashStart(0xA9F37ED7, n3);
    HashStart(0x3F5076EF, n4);
    HashStart(0x39AAA18A, n5);
    assert n0[1..] == n1 && n1[1..] == n2 && n2[1..] == n3 && n3[1..] == n4 && n4[1..] == n5 && n5[1..] == none;
    HashEnd();
    HashSteps();
    hide HashFrom, HashStep;
  }

  lemma HashSteps()
    ensures HashStep(0x811C9DC5, 97) == 0xE40C292C
    ensures HashStep(0x811C9DC5, 102) == 0xE30C2799
            && HashStep(0xE30C2799, 111) == 0x6222E842 && HashStep(0x6222E842, 111) == 0xA9F37ED7
    ensures HashStep(0xA9F37ED7, 98) == 0x3F5076EF
            && HashStep(0x3F5076EF, 97) == 0x39AAA18A && HashStep(0x39AAA18A, 114) == 0xBF9CF968
  {
  }

  lemma HashStart(h: bv32, name: Name)
    requires |name| > 0
    ensures HashFrom(h, name) == HashFrom(HashStep(h, name[0]), name[1..])
  {
    hide HashStep;
  }

  lemma HashEnd()
    ensures forall h: bv32 :: HashFrom(h, []) == h
  {
  }

  const CAPACITY_INC: nat := 1024

  function Place(name: Name, capacity: nat): (r: nat)
    requires capacity > 0
    ensures r < capacity
  {
    Hash(name) % capacity
  }

  // ----- chains -----

  type Chain = seq<Func>

  /** The functions of one name and owner, in their order. */
  function Select(s: Chain, name: Name, owner: nat): Chain
    decreases |s|
  {
    if |s| == 0 then []
    else (if s[0].name == name && s[0].owner == owner then [s[0]] else []) + Select(s[1..], name, owner)
  }

  function Reverse(s: Chain): (r: Chain)
    ensures |r| == |s|
    decreases |s|
  {
    if |s| == 0 then [] else Reverse(s[1..]) + [s[0]]
  }

  /** Takes away the first occurrence. */
  function Without(s: Chain, f: Func): Chain
    decreases |s|
  {
    if |s| == 0 then [] else if s[0] == f then s[1..] else [s[0]] + Without(s[1..], f)
  }

  predicate Distinct(s: Chain) { forall i, j :: 0 <= i < j < |s| ==> s[i] != s[j] }

  lemma {:induction false} SelectJoin(a: Chain, b: Chain, name: Name, owner: nat)
    ensures Select(a + b, name, owner) == Select(a, name, owner) + Select(b, name, owner)
    decreases |a|
  {
    hide Select;
    if |a| == 0 {
      SelectNone(name, owner);
      assert a + b == b && a == [];
      assert [] + Select(b, name, owner) == Select(b, name, owner);
    } else {
      var x, y := Select(a[1..], name, owner), Select(b, name, owner);
      SelectJoin(a[1..], b, name, owner);
      SelectHead(a, name, owner);
      SelectHead(a + b, name, owner);
      assert (a + b)[1..] == a[1..] + b;
      if a[0].name == name && a[0].owner == owner {
        assert [a[0]] + (x + y) == [a[0]] + x + y;
      }
    }
  }

  lemma SelectHead(s: Chain, name: Name, owner: nat)
    requires |s| > 0
    ensures Select(s, name, owner) ==
            if s[0].name == name && s[0].owner == owner then [s[0]] + Select(s[1..], name, owner)
                else Select(s[1..], name, owner)
  {
    assert [] + Select(s[1..], name, owner) == Select(s[1..], name, owner);
  }

  lemma SelectOne(f: Func, name: Name, owner: nat)
    ensures Select([f], name, owner) == if f.name == name && f.owner == owner then [f] else []
  {
    assert [f][1..] == [];
  }

  lemma {:induction false} ReverseJoin(a: Chain, b: Chain)
    ensures Reverse(a + b) == Reverse(b) + Reverse(a)
    decreases |a|
  {
    if |a| == 0 {
      assert a + b == b;
    } else {
      assert (a + b)[1..] == a[1..] + b;
      ReverseJoin(a[1..], b);
    }
  }

  lemma {:induction false} SelectFrom(s: Chain, name: Name, owner: nat, f: Func)
    ensures f in Select(s, name, owner) <==> f in s && f.name == name && f.owner == owner
    decreases |s|
  {
    if |s| > 0 { SelectFrom(s[1..], name, owner, f); }
  }

  lemma {:induction false} SelectWithout(s: Chain, f: Func, name: Name, owner: nat)
    ensures Select(Without(s, f), name, owner) ==
            if f.name == name && f.owner == owner then Without(Select(s, name, owner), f) else Select(s, name, owner)
    decreases |s|
  {
    if |s| > 0 {
      var rest := Select(s[1..], name, owner);
      SelectWithout(s[1..], f, name, owner);
      if s[0] != f {
        assert ([s[0]] + Without(s[1..], f))[1..] == Without(s[1..], f);
        assert ([s[0]] + rest)[1..] == rest;
        assert [] + rest == rest;
      } else {
        assert ([f] + rest)[1..] == rest;
        assert [] + rest == rest;
      }
    }
  }

  lemma {:induction false} WithoutJoin(a: Chain, b: Chain, f: Func)
    ensures Without(a + b, f) == if f in a then Without(a, f) + b else a + Without(b, f)
    decreases |a|
  {
    if |a| == 0 {
      assert a + b == b;
      assert a + Without(b, f) == Without(b, f);
    } else {
      assert (a + b)[1..] == a[1..] + b;
      assert a == [a[0]] + a[1..];
      if a[0] != f {
        WithoutJoin(a[1..], b, f);
        var x, y := Without(a[1..], f), Without(b, f);
        assert [a[0]] + (x + b) == [a[0]] + x + b;
        assert [a[0]] + (a[1..] + y) == a + y;
      }
    }
  }

  lemma DistinctTail(s: Chain)
    requires |s| > 0 && Distinct(s)
    ensures Distinct(s[1..]) && s[0] !in s[1..]
  {
  }

  lemma {:induction false} ReverseHas(s: Chain, f: Func)
    ensures f in Reverse(s) <==> f in s
    decreases |s|
  {
    if |s| > 0 { ReverseHas(s[1..], f); }
  }

  lemma {:induction false} ReverseWithout(s: Chain, f: Func)
    requires Distinct(s)
    ensures Reverse(Without(s, f)) == Without(Reverse(s), f)
    decreases |s|
  {
    if |s| > 0 {
      DistinctTail(s);
      ReverseHas(s[1..], f);
      WithoutJoin(Reverse(s[1..]), [s[0]], f);
      assert [s[0]][1..] == [];
      if s[0] != f {
        ReverseWithout(s[1..], f);
        assert ([s[0]] + Without(s[1..], f))[1..] == Without(s[1..], f);
        NotThere(s[1..], f);
      } else {
        assert Without([f], f) == [];
      }
    }
  }

  lemma {:induction false} NotThere(s: Chain, f: Func)
    ensures f !in s ==> Without(s, f) == s
    decreases |s|
  {
    if |s| > 0 { NotThere(s[1..], f); }
  }

  // ----- the table -----

  type Table = seq<Chain>

  /** Every function hangs in the chain of its hash value. */
  predicate InPlace(t: Table) {
    |t| > 0 && forall i, k :: 0 <= i < |t| && 0 <= k < |t[i]| ==> Place(t[i][k].name, |t|) == i
  }

  function ChainOf(t: Table, name: Name): Chain
    requires |t| > 0
  {
    t[Place(name, |t|)]
  }

  /** The functions of one chain that go to place `j` of a larger table. */
  function Going(s: Chain, j: nat, capacity: nat): Chain
    requires capacity > 0
    decreases |s|
  {
    if |s| == 0 then []
    else (if Place(s[0].name, capacity) == j then [s[0]] else []) + Going(s[1..], j, capacity)
  }

  function Gathered(t: Table, j: nat, capacity: nat): Chain
    requires capacity > 0
    decreases |t|
  {
    if |t| == 0 then [] else Gathered(t[..|t| - 1], j, capacity) + Going(t[|t| - 1], j, capacity)
  }

  /** The table with more places: chain by chain, function by function, each goes to the end of
      its new chain. */
  function Grown(t: Table, capacity: nat): (r: Table)
    requires capacity > 0
    ensures |r| == capacity
  {
    seq(capacity, j requires 0 <= j < capacity => Gathered(t, j, capacity))
  }

  /** The functions of one name, whoever owns them. */
  function Named(s: Chain, name: Name): Chain
    decreases |s|
  {
    if |s| == 0 then [] else (if s[0].name == name then [s[0]] else []) + Named(s[1..], name)
  }

  lemma {:induction false} NamedJoin(a: Chain, b: Chain, name: Name)
    ensures Named(a + b, name) == Named(a, name) + Named(b, name)
    decreases |a|
  {
    if |a| == 0 {
      assert a + b == b;
    } else {
      NamedHead(a, name);
      NamedHead(a + b, name);
      NamedJoin(a[1..], b, name);
      hide Named;
      assert (a + b)[0] == a[0] && (a + b)[1..] == a[1..] + b;
      var head: Chain := if a[0].name == name then [a[0]] else [];
      assert head + (Named(a[1..], name) + Named(b, name)) == head + Named(a[1..], name) + Named(b, name);
    }
  }

  lemma NamedHead(s: Chain, name: Name)
    requires |s| > 0
    ensures Named(s, name) == (if s[0].name == name then [s[0]] else []) + Named(s[1..], name)
  {
  }

  lemma {:induction false} NamedSelect(s: Chain, name: Name, owner: nat)
    ensures Select(Named(s, name), name, owner) == Select(s, name, owner)
    decreases |s|
  {
    if |s| > 0 {
      NamedSelect(s[1..], name, owner);
      if s[0].name == name {
        SelectJoin([s[0]], Named(s[1..], name), name, owner);
        SelectOne(s[0], name, owner);
      } else {
        assert [] + Named(s[1..], name) == Named(s[1..], name);
      }
    }
  }

  lemma {:induction false} NamedNone(s: Chain, name: Name)
    requires forall k :: 0 <= k < |s| ==> s[k].name != name
    ensures Named(s, name) == []
    decreases |s|
  {
    if |s| > 0 { NamedNone(s[1..], name); }
  }

  lemma {:induction false} NamedGoing(s: Chain, j: nat, capacity: nat, name: Name)
    requires capacity > 0
    ensures Named(Going(s, j, capacity), name) == if Place(name, capacity) == j then Named(s, name) else []
    decreases |s|
  {
    hide Place;
    if |s| > 0 {
      NamedGoing(s[1..], j, capacity, name);
      var head := if Place(s[0].name, capacity) == j then [s[0]] else [];
      NamedJoin(head, Going(s[1..], j, capacity), name);
      assert [s[0]][1..] == [];
    }
  }

  lemma {:induction false} NamedGathered(t: Table, j: nat, capacity: nat, name: Name, place: nat)
    requires capacity > 0 && Place(name, capacity) == j
    requires forall i :: 0 <= i < |t| && i != place ==> Named(t[i], name) == []
    ensures Named(Gathered(t, j, capacity), name) == if place < |t| then Named(t[place], name) else []
    decreases |t|
  {
    hide Place, Going;
    if |t| > 0 {
      hide Named;
      var u, last := t[..|t| - 1], t[|t| - 1];
      NamedGathered(u, j, capacity, name, place);
      NamedJoin(Gathered(u, j, capacity), Going(last, j, capacity), name);
      NamedGoing(last, j, capacity, name);
    }
  }

  /** Growing keeps the order of all functions of one name, whoever owns them. */
  lemma GrowKeeps(t: Table, capacity: nat, name: Name)
    requires InPlace(t) && capacity > 0
    ensures Named(ChainOf(Grown(t, capacity), name), name) == Named(ChainOf(t, name), name)
  {
    hide Place, Named, Gathered;
    forall i | 0 <= i < |t| && i != Place(name, |t|) ensures Named(t[i], name) == [] {
      NamedNone(t[i], name);
    }
    NamedGathered(t, Place(name, capacity), capacity, name, Place(name, |t|));
  }

  lemma SelectNone(name: Name, owner: nat)
    ensures Select([], name, owner) == []
  {
  }

  lemma {:induction false} GoingInPlace(s: Chain, j: nat, capacity: nat, f: Func)
    requires capacity > 0
    ensures f in Going(s, j, capacity) <==> f in s && Place(f.name, capacity) == j
    decreases |s|
  {
    hide Place;
    if |s| > 0 { GoingInPlace(s[1..], j, capacity, f); }
  }

  lemma {:induction false} GatheredInPlace(t: Table, j: nat, capacity: nat, f: Func)
    requires capacity > 0 && f in Gathered(t, j, capacity)
    ensures Place(f.name, capacity) == j
    decreases |t|
  {
    hide Place;
    if |t| > 0 {
      GoingInPlace(t[|t| - 1], j, capacity, f);
      if f in Gathered(t[..|t| - 1], j, capacity) { GatheredInPlace(t[..|t| - 1], j, capacity, f); }
    }
  }

  lemma GrownInPlace(t: Table, capacity: nat)
    requires capacity > 0
    ensures InPlace(Grown(t, capacity))
  {
    hide Place, Gathered;
    var r: Table := Grown(t, capacity);
    forall i, k | 0 <= i < |r| && 0 <= k < |r[i]| ensures Place(r[i][k].name, |r|) == i {
      GatheredInPlace(t, i, capacity, r[i][k]);
    }
  }

  // ----- lists and index -----

  type Lists = map<nat, Chain>

  function ListOf(lists: Lists, owner: nat): Chain { if owner in lists then lists[owner] else [] }

  /** For every owner and name the chain has the owner's functions in the reverse of the order
      of its list. */
  ghost predicate Agree(lists: Lists, t: Table) {
    && InPlace(t)
    && (forall owner, name ::
          Select(ChainOf(t, name), name, owner) == Reverse(Select(ListOf(lists, owner), name, owner)))
    && (forall owner :: Distinct(ListOf(lists, owner)))
    && (forall owner, f :: f in ListOf(lists, owner) ==> f.owner == owner)
  }

  function AddToList(lists: Lists, f: Func, atEnd: bool): Lists {
    var l := ListOf(lists, f.owner);
    lists[f.owner := if atEnd then l + [f] else [f] + l]
  }

  /** At the end of the list is at the start of the chain. */
  function AddToTable(t: Table, f: Func, atStart: bool): Table
    requires |t| > 0
  {
    var i := Place(f.name, |t|);
    t[i := if atStart then [f] + t[i] else t[i] + [f]]
  }

  lemma AddAgrees(lists: Lists, t: Table, f: Func, atEnd: bool)
    requires Agree(lists, t) && f !in ListOf(lists, f.owner)
    ensures Agree(AddToList(lists, f, atEnd), AddToTable(t, f, atEnd))
  {
    hide Place, Select, Reverse;
    var lists': Lists := AddToList(lists, f, atEnd);
    var t': Table := AddToTable(t, f, atEnd);
    AddInPlace(t, f, atEnd);
    forall owner ensures Distinct(ListOf(lists', owner))
        && forall g :: g in ListOf(lists', owner) ==> g.owner == owner {
      DistinctWith(ListOf(lists, owner), f);
    }
    forall owner, name ensures Select(ChainOf(t', name), name, owner)
        == Reverse(Select(ListOf(lists', owner), name, owner)) {
      AddSelects(lists, t, f, atEnd, owner, name);
    }
  }

  lemma AddInPlace(t: Table, f: Func, atStart: bool)
    requires InPlace(t)
    ensures InPlace(AddToTable(t, f, atStart))
  {
    hide Place;
    var t': Table := AddToTable(t, f, atStart);
    forall i, k | 0 <= i < |t'| && 0 <= k < |t'[i]| ensures Place(t'[i][k].name, |t'|) == i {
      assert t'[i][k] == f || t'[i][k] in t[i];
    }
  }

  lemma DistinctWith(s: Chain, f: Func)
    ensures Distinct(s) && f !in s ==> Distinct(s + [f]) && Distinct([f] + s)
  {
  }

  lemma AddSelects(lists: Lists, t: Table, f: Func, atEnd: bool, owner: nat, name: Name)
    requires Agree(lists, t)
    ensures Select(ChainOf(AddToTable(t, f, atEnd), name), name, owner)
            == Reverse(Select(ListOf(AddToList(lists, f, atEnd), owner), name, owner))
  {
    hide Place, Select, Reverse, InPlace, Distinct;
    var c, l := ChainOf(t, name), ListOf(lists, owner);
    SelectOne(f, name, owner);
    SelectJoin([f], c, name, owner);
    SelectJoin(c, [f], name, owner);
    SelectJoin([f], l, name, owner);
    SelectJoin(l, [f], name, owner);
    var s := Select(l, name, owner);
    ReverseJoin(s, [f]);
    ReverseJoin([f], s);
    ReverseOne(f);
    assert [] + Select(c, name, owner) == Select(c, name, owner) == Select(c, name, owner) + [];
    assert [] + s == s == s + [];
  }

  lemma ReverseOne(f: Func)
    ensures Reverse([f]) == [f]
  {
    assert [f][1..] == [];
  }

  lemma GrowAgrees(lists: Lists, t: Table, capacity: nat)
    requires Agree(lists, t) && capacity > 0
    ensures Agree(lists, Grown(t, capacity))
  {
    assert |t| > 0;
    hide Place, Select, Named, Reverse, Gathered, Distinct, InPlace, ChainOf;
    GrownInPlace(t, capacity);
    forall owner, name
      ensures Select(ChainOf(Grown(t, capacity), name), name, owner)
              == Reverse(Select(ListOf(lists, owner), name, owner))
    {
      GrowKeeps(t, capacity, name);
      NamedSelect(ChainOf(Grown(t, capacity), name), name, owner);
      NamedSelect(ChainOf(t, name), name, owner);
    }
  }

  function TakeFromList(lists: Lists, f: Func): Lists { lists[f.owner := Without(ListOf(lists, f.owner), f)] }

  function TakeFromTable(t: Table, f: Func): Table
    requires |t| > 0
  {
    var i := Place(f.name, |t|);
    t[i := Without(t[i], f)]
  }

  lemma {:induction false} SelectDistinct(s: Chain, name: Name, owner: nat)
    requires Distinct(s)
    ensures Distinct(Select(s, name, owner))
    decreases |s|
  {
    if |s| > 0 {
      DistinctTail(s);
      SelectDistinct(s[1..], name, owner);
      SelectFrom(s[1..], name, owner, s[0]);
    }
  }

  lemma {:induction false} WithoutHas(s: Chain, f: Func, g: Func)
    ensures g in Without(s, f) ==> g in s
    ensures Distinct(s) ==> Distinct(Without(s, f))
    decreases |s|
  {
    if |s| > 0 {
      WithoutHas(s[1..], f, g);
      WithoutHas(s[1..], f, s[0]);
      if Distinct(s) { DistinctTail(s); }
    }
  }

  lemma RemoveAgrees(lists: Lists, t: Table, f: Func)
    requires Agree(lists, t)
    ensures Agree(TakeFromList(lists, f), TakeFromTable(t, f))
  {
    hide Place, Select, Reverse, Without, Distinct;
    var lists': Lists := TakeFromList(lists, f);
    var t': Table := TakeFromTable(t, f);
    forall owner, name ensures Select(ChainOf(t', name), name, owner)
        == Reverse(Select(ListOf(lists', owner), name, owner)) {
      RemoveSelects(lists, t, f, owner, name);
    }
    forall owner ensures Distinct(ListOf(lists', owner)) {
      WithoutHas(ListOf(lists, owner), f, f);
    }
    forall owner, g | g in ListOf(lists', owner) ensures g.owner == owner {
      WithoutHas(ListOf(lists, owner), f, g);
    }
    forall i, k | 0 <= i < |t'| && 0 <= k < |t'[i]| ensures Place(t'[i][k].name, |t'|) == i {
      WithoutHas(t[i], f, t'[i][k]);
    }
  }

  lemma RemoveSelects(lists: Lists, t: Table, f: Func, owner: nat, name: Name)
    requires Agree(lists, t)
    ensures Select(ChainOf(TakeFromTable(t, f), name), name, owner)
            == Reverse(Select(ListOf(TakeFromList(lists, f), owner), name, owner))
  {
    assert |t| > 0;
    hide Place, Select, Reverse, InPlace, Without, Distinct;
    var c, l := ChainOf(t, name), ListOf(lists, owner);
    SelectWithout(c, f, name, owner);
    SelectWithout(l, f, name, owner);
    SelectDistinct(l, name, owner);
    ReverseWithout(Select(l, name, owner), f);
  }

  // ----- looking up -----

  /** The chain behind function `f`. */
  function Behind(s: Chain, f: Func): Chain
    decreases |s|
  {
    if |s| == 0 then [] else if s[0] == f then s[1..] else Behind(s[1..], f)
  }

  function FirstOf(s: Chain, name: Name, owner: nat): Option<Func>
    decreases |s|
  {
    if |s| == 0 then None
    else if s[0].owner == owner && s[0].name == name then Some(s[0])
    else FirstOf(s[1..], name, owner)
  }

  /** The look-up: behind `after`, if it is given. */
  function GetFunc(t: Table, name: Name, owner: nat, after: Option<Func>): Option<Func>
    requires |t| > 0
  {
    var c := ChainOf(t, name);
    FirstOf(if after.Some? then Behind(c, after.value) else c, name, owner)
  }

  /** The walk: from the end of the owner's list back, starting before `after`, if it is given. */
  function WalkBack(l: Chain, name: Name, after: Option<Func>): Option<Func>
    decreases |l|
  {
    if |l| == 0 then None
    else
      var last, rest := l[|l| - 1], l[..|l| - 1];
      if after.Some? then WalkBack(rest, name, if last == after.value then None else after)
      else if last.name == name then Some(last) else WalkBack(rest, name, None)
  }

  lemma {:induction false} FirstSelected(s: Chain, name: Name, owner: nat)
    ensures FirstOf(s, name, owner) == if |Select(s, name, owner)| > 0 then Some(Select(s, name, owner)[0]) else None
    decreases |s|
  {
    if |s| > 0 { FirstSelected(s[1..], name, owner); }
  }

  lemma {:induction false} BehindSelected(s: Chain, name: Name, owner: nat, f: Func)
    requires f.name == name && f.owner == owner
    ensures Select(Behind(s, f), name, owner) == Behind(Select(s, name, owner), f)
    decreases |s|
  {
    if |s| > 0 {
      BehindSelected(s[1..], name, owner, f);
      var head := if s[0].name == name && s[0].owner == owner then [s[0]] else [];
      var rest := Select(s[1..], name, owner);
      if head == [] { assert [] + rest == rest; } else { assert ([s[0]] + rest)[1..] == rest; }
    }
  }

  lemma {:induction false} BehindJoin(a: Chain, b: Chain, f: Func)
    ensures Behind(a + b, f) == if f in a then Behind(a, f) + b else Behind(b, f)
    decreases |a|
  {
    if |a| == 0 {
      assert a + b == b;
    } else {
      assert (a + b)[1..] == a[1..] + b;
      BehindJoin(a[1..], b, f);
    }
  }

  /** The walk sees the functions of its name from the last to the first. */
  lemma {:induction false} WalkSelected(l: Chain, name: Name, owner: nat, after: Option<Func>)
    requires forall f :: f in l ==> f.owner == owner
    requires after.Some? ==> Distinct(l) && after.value.name == name && after.value.owner == owner
    ensures var r := Reverse(Select(l, name, owner));
            var s := if after.Some? then Behind(r, after.value) else r;
            WalkBack(l, name, after) == if |s| > 0 then Some(s[0]) else None
    decreases |l|
  {
    hide Select, Reverse, Behind;
    if |l| == 0 {
      SelectNone(name, owner);
      ReverseNone();
      BehindNone();
    } else {
      var last, rest := l[|l| - 1], l[..|l| - 1];
      assert l == rest + [last];
      SelectJoin(rest, [last], name, owner);
      SelectOne(last, name, owner);
      var s := Select(rest, name, owner);
      ReverseJoin(s, [last]);
      ReverseOne(last);
      assert s + [] == s;
      if last.name == name {
        WalkLast(l, name, owner, after);
      } else {
        WalkSelected(rest, name, owner, after);
      }
    }
  }

  lemma ReverseNone()
    ensures Reverse([]) == []
  {
  }

  lemma BehindNone()
    ensures forall f :: Behind([], f) == []
  {
  }

  lemma WalkLast(l: Chain, name: Name, owner: nat, after: Option<Func>)
    requires |l| > 0 && l[|l| - 1].name == name && forall f :: f in l ==> f.owner == owner
    requires after.Some? ==> Distinct(l) && after.value.name == name && after.value.owner == owner
    requires Reverse(Select(l, name, owner)) == [l[|l| - 1]] + Reverse(Select(l[..|l| - 1], name, owner))
    ensures var r := Reverse(Select(l, name, owner));
            var s := if after.Some? then Behind(r, after.value) else r;
            WalkBack(l, name, after) == if |s| > 0 then Some(s[0]) else None
    decreases |l|, 0
  {
    hide Select, Reverse;
    var last, rest := l[|l| - 1], l[..|l| - 1];
    if after.Some? {
      var r := Reverse(Select(rest, name, owner));
      assert ([last] + r)[1..] == r;
      WalkSelected(rest, name, owner, if last == after.value then None else after);
    }
  }

  /** The index and the list give the same answer: from the start, and behind any function of
      that name and owner. */
  lemma LookUpIsWalk(lists: Lists, t: Table, name: Name, owner: nat, after: Option<Func>)
    requires |t| > 0 && Agree(lists, t)
    requires after.Some? ==> after.value.name == name && after.value.owner == owner
    ensures GetFunc(t, name, owner, after) == WalkBack(ListOf(lists, owner), name, after)
  {
    hide Place, Select, Reverse, Distinct, FirstOf, Behind, WalkBack;
    var c := ChainOf(t, name);
    WalkSelected(ListOf(lists, owner), name, owner, after);
    if after.Some? {
      BehindSelected(c, name, owner, after.value);
      FirstSelected(Behind(c, after.value), name, owner);
    } else {
      FirstSelected(c, name, owner);
    }
  }

  // ----- any sequence of changes -----

  datatype Change = Add(f: Func, atEnd: bool) | Remove(f: Func)

  datatype State = State(lists: Lists, table: Table, count: nat)

  const EMPTY: State := State(map[], seq(CAPACITY_INC, _ => []), 0)

  function Apply(s: State, c: Change): (r: State)
    requires |s.table| > 0
    ensures |r.table| > 0
  {
    match c
    case Add(f, atEnd) =>
      var count := s.count + 1;
      var t := if count > |s.table| then Grown(s.table, |s.table| + CAPACITY_INC) else s.table;
      State(AddToList(s.lists, f, atEnd), AddToTable(t, f, atEnd), count)
    case Remove(f) =>
      State(TakeFromList(s.lists, f), TakeFromTable(s.table, f), if s.count > 0 then s.count - 1 else 0)
  }

  /** New functions are new, and only functions that are there go. */
  predicate Fitting(s: State, c: Change) { c.f in ListOf(s.lists, c.f.owner) <==> c.Remove? }

  function ApplyAll(s: State, cs: seq<Change>): (r: State)
    requires |s.table| > 0
    ensures |r.table| > 0
    decreases |cs|
  {
    if |cs| == 0 then s else ApplyAll(Apply(s, cs[0]), cs[1..])
  }

  predicate FittingAll(s: State, cs: seq<Change>)
    requires |s.table| > 0
    decreases |cs|
  {
    |cs| > 0 ==> Fitting(s, cs[0]) && FittingAll(Apply(s, cs[0]), cs[1..])
  }

  /** The table grows by 1024 places, exactly when there would be more functions than places. */
  lemma TableGrows(s: State, f: Func, atEnd: bool)
    requires |s.table| > 0
    ensures var s1 := Apply(s, Change.Add(f, atEnd));
            s1.count == s.count + 1 && |s1.table| ==
                if s.count == |s.table| || s.count > |s.table| then |s.table| + 1024
                                                    else |s.table|
  {
    hide Place, Gathered;
  }

  /** So through any sequence of changes there are no fewer places than functions. */
  lemma {:induction false} NeverFuller(s: State, cs: seq<Change>)
    requires |s.table| > 0 && s.count <= |s.table| && |s.table| % 1024 == 0
    ensures var r := ApplyAll(s, cs); r.count <= |r.table| && |r.table| % 1024 == 0 && |r.table| >= |s.table|
    decreases |cs|
  {
    hide Place, Grown;
    if |cs| > 0 { NeverFuller(Apply(s, cs[0]), cs[1..]); }
  }

  lemma EmptyAgrees()
    ensures Agree(EMPTY.lists, EMPTY.table)
  {
    hide Place;
  }

  lemma {:induction false} AlwaysAgrees(s: State, cs: seq<Change>)
    requires |s.table| > 0 && Agree(s.lists, s.table) && FittingAll(s, cs)
    ensures Agree(ApplyAll(s, cs).lists, ApplyAll(s, cs).table)
    decreases |cs|
  {
    hide Agree, Place, Grown, AddToList, AddToTable, TakeFromList, TakeFromTable;
    if |cs| > 0 {
      StepAgrees(s, cs[0]);
      AlwaysAgrees(Apply(s, cs[0]), cs[1..]);
    }
  }

  lemma StepAgrees(s: State, c: Change)
    requires |s.table| > 0 && Agree(s.lists, s.table) && Fitting(s, c)
    ensures Agree(Apply(s, c).lists, Apply(s, c).table)
  {
    hide Place, AddToList, AddToTable, TakeFromList, TakeFromTable, Agree;
    match c
    case Add(f, atEnd) =>
      if s.count + 1 > |s.table| {
        GrowAgrees(s.lists, s.table, |s.table| + CAPACITY_INC);
        AddAgrees(s.lists, Grown(s.table, |s.table| + CAPACITY_INC), f, atEnd);
      } else {
        AddAgrees(s.lists, s.table, f, atEnd);
      }
    case Remove(f) =>
      RemoveAgrees(s.lists, s.table, f);
  }

  /** Through any sequence of insertions at either end and removals, with all the growing they
      cause, looking up in the index is walking the list. */
  lemma IndexIsList(cs: seq<Change>, name: Name, owner: nat, after: Option<Func>)
    requires FittingAll(EMPTY, cs)
    requires after.Some? ==> after.value.name == name && after.value.owner == owner
    ensures var s := ApplyAll(EMPTY, cs);
            GetFunc(s.table, name, owner, after) == WalkBack(ListOf(s.lists, owner), name, after)
  {
    hide Agree, GetFunc, WalkBack, ApplyAll, FittingAll;
    EmptyAgrees();
    AlwaysAgrees(EMPTY, cs);
    var s := ApplyAll(EMPTY, cs);
    LookUpIsWalk(s.lists, s.table, name, owner, after);
  }

  lemma AddedSelect(t: Table, f: Func, atStart: bool, name: Name, owner: nat)
    requires |t| > 0
    ensures var was := Select(ChainOf(t, name), name, owner);
            Select(ChainOf(AddToTable(t, f, atStart), name), name, owner)
            == if f.name != name || f.owner != owner then was else if atStart then [f] + was else was + [f]
  {
    hide Place, Select;
    var c := ChainOf(t, name);
    SelectOne(f, name, owner);
    SelectJoin([f], c, name, owner);
    SelectJoin(c, [f], name, owner);
    var was := Select(c, name, owner);
    assert [] + was == was == was + [];
  }

  lemma GrownSelect(t: Table, capacity: nat, name: Name, owner: nat)
    requires InPlace(t) && capacity > 0
    ensures Select(ChainOf(Grown(t, capacity), name), name, owner) == Select(ChainOf(t, name), name, owner)
  {
    hide Place, Select, Named, Gathered;
    GrowKeeps(t, capacity, name);
    NamedSelect(ChainOf(Grown(t, capacity), name), name, owner);
    NamedSelect(ChainOf(t, name), name, owner);
  }

  lemma FoundSelected(t: Table, name: Name, owner: nat)
    requires |t| > 0
    ensures var s := Select(ChainOf(t, name), name, owner);
            GetFunc(t, name, owner, None) == if |s| > 0 then Some(s[0]) else None
    ensures forall f: Func :: f.name == name && f.owner == owner ==>
              var s := Behind(Select(ChainOf(t, name), name, owner), f);
              GetFunc(t, name, owner, Some(f)) == if |s| > 0 then Some(s[0]) else None
  {
    hide Place, Select, Behind, FirstOf;
    var c := ChainOf(t, name);
    FirstSelected(c, name, owner);
    forall f: Func | f.name == name && f.owner == owner
      ensures var s := Behind(Select(c, name, owner), f);
              GetFunc(t, name, owner, Some(f)) == if |s| > 0 then Some(s[0]) else None
    {
      FirstSelected(Behind(c, f), name, owner);
      BehindSelected(c, name, owner, f);
    }
  }

  /** A function added at the end is found from then on, and behind it what was found before; one added at
      the start is found where there was none. Look-ups of other names and owners are left alone. */
  lemma AddedFound(s: State, f: Func, atEnd: bool, name: Name, owner: nat)
    requires |s.table| > 0 && Agree(s.lists, s.table) && f !in ListOf(s.lists, f.owner)
    ensures var t, was := Apply(s, Change.Add(f, atEnd)).table, GetFunc(s.table, name, owner, None);
            && GetFunc(t, name, owner, None)
               == (if f.name == name && f.owner == owner && (atEnd || was == None) then Some(f) else was)
            && (f.name == name && f.owner == owner ==>
                  GetFunc(t, name, owner, Some(f)) == if atEnd then was else None)
  {
    var was := Select(ChainOf(s.table, name), name, owner);
    var grown := if s.count + 1 > |s.table| then Grown(s.table, |s.table| + CAPACITY_INC) else s.table;
    var t := Apply(s, Change.Add(f, atEnd)).table;
    GrownSelect(s.table, |s.table| + CAPACITY_INC, name, owner);
    AddedSelect(grown, f, atEnd, name, owner);
    FoundSelected(s.table, name, owner);
    FoundSelected(t, name, owner);
    SelectFrom(ListOf(s.lists, owner), name, owner, f);
    ReverseHas(Select(ListOf(s.lists, owner), name, owner), f);
    hide Agree, Select, GetFunc, Reverse, Grown, AddToTable;
    if f.name == name && f.owner == owner {
      assert f !in was;
      BehindJoin(was, [f], f);
      BehindOne(f, was);
    }
  }

  lemma BehindOne(f: Func, s: Chain)
    ensures Behind([f] + s, f) == s && Behind([f], f) == []
  {
    assert ([f] + s)[1..] == s && [f][1..] == [];
  }

  /** A function taken away is found no more, but what was found behind it; all else is left alone. */
  lemma RemovedFound(s: State, f: Func, name: Name, owner: nat)
    requires |s.table| > 0 && Agree(s.lists, s.table)
    ensures var t, was := Apply(s, Change.Remove(f)).table, GetFunc(s.table, name, owner, None);
            && GetFunc(t, name, owner, None)
               == (if was == Some(f) then GetFunc(s.table, name, owner, Some(f)) else was)
            && GetFunc(t, name, owner, None) != Some(f)
  {
    var was := Select(ChainOf(s.table, name), name, owner);
    var t := TakeFromTable(s.table, f);
    RemovedSelect(s.table, f, name, owner);
    FoundSelected(s.table, name, owner);
    FoundSelected(t, name, owner);
    ChainDistinct(s, name, owner);
    WithoutFirst(was, f);
    SelectFrom(ChainOf(s.table, name), name, owner, f);
    hide Agree, Select, GetFunc, TakeFromTable, Without, Behind, Distinct;
    if f.name != name || f.owner != owner { assert |was| > 0 ==> was[0] in was; }
  }

  lemma RemovedSelect(t: Table, f: Func, name: Name, owner: nat)
    requires |t| > 0
    ensures var was := Select(ChainOf(t, name), name, owner);
            Select(ChainOf(TakeFromTable(t, f), name), name, owner)
            == if f.name == name && f.owner == owner then Without(was, f) else was
  {
    hide Place, Select, Without;
    SelectWithout(ChainOf(t, name), f, name, owner);
  }

  lemma ChainDistinct(s: State, name: Name, owner: nat)
    requires |s.table| > 0 && Agree(s.lists, s.table)
    ensures Distinct(Select(ChainOf(s.table, name), name, owner))
  {
    hide Place, Select, Reverse, Distinct, InPlace;
    SelectDistinct(ListOf(s.lists, owner), name, owner);
    ReverseDistinct(Select(ListOf(s.lists, owner), name, owner));
  }

  lemma WithoutFirst(s: Chain, f: Func)
    requires Distinct(s)
    ensures |s| > 0 && s[0] == f ==> Without(s, f) == s[1..] == Behind(s, f) && f !in s[1..]
    ensures |s| > 0 && s[0] != f ==> |Without(s, f)| > 0 && Without(s, f)[0] == s[0]
    ensures |s| == 0 ==> Without(s, f) == []
  {
  }

  /** Every function of a list is on exactly one chain, once. */
  lemma OnOneChain(lists: Lists, t: Table, f: Func)
    requires Agree(lists, t) && f in ListOf(lists, f.owner)
    ensures f in ChainOf(t, f.name)
    ensures forall i, k :: 0 <= i < |t| && 0 <= k < |t[i]| && t[i][k] == f ==> i == Place(f.name, |t|)
    ensures forall k, l :: 0 <= k < l < |ChainOf(t, f.name)| ==> !(ChainOf(t, f.name)[k] == f == ChainOf(t, f.name)[l])
  {
    hide Place, Select, Reverse, Distinct;
    var c, l := ChainOf(t, f.name), ListOf(lists, f.owner);
    SelectFrom(l, f.name, f.owner, f);
    ReverseHas(Select(l, f.name, f.owner), f);
    SelectFrom(c, f.name, f.owner, f);
    SelectDistinct(l, f.name, f.owner);
    ReverseDistinct(Select(l, f.name, f.owner));
    forall k, m | 0 <= k < m < |c| ensures !(c[k] == f == c[m]) {
      if c[k] == f == c[m] {
        TwiceSelected(c, f, k, m);
        assert false;
      }
    }
  }

  lemma {:induction false} ReverseDistinct(s: Chain)
    requires Distinct(s)
    ensures Distinct(Reverse(s))
    decreases |s|
  {
    if |s| > 0 {
      DistinctTail(s);
      ReverseDistinct(s[1..]);
      ReverseHas(s[1..], s[0]);
    }
  }

  lemma TwiceSelected(s: Chain, f: Func, k: nat, l: nat)
    requires k < l < |s| && s[k] == f == s[l]
    ensures !Distinct(Select(s, f.name, f.owner))
  {
    hide Select;
    var a, b := s[..l], s[l..];
    assert s == a + b;
    SelectJoin(a, b, f.name, f.owner);
    SelectFrom(a, f.name, f.owner, f);
    SelectFrom(b, f.name, f.owner, f);
    assert a[k] == f && b[0] == f;
    var x, y := Select(a, f.name, f.owner), Select(b, f.name, f.owner);
    var i :| 0 <= i < |x| && x[i] == f;
    var j :| 0 <= j < |y| && y[j] == f;
    assert (x + y)[i] == (x + y)[|x| + j];
  }

  // ----- the index at work -----

  /** The lists of all owners and the index of their functions. */
  class Registry {
    var lists: Lists
    var funcs: array<Chain>
    var count: nat

    ghost predicate Valid()
      reads this, funcs
    {
      funcs.Length > 0 && Agree(lists, funcs[..])
    }

    function Model(): State
      reads this, funcs
    {
      State(lists, funcs[..], count)
    }

    constructor ()
      ensures Valid() && Model() == EMPTY && fresh(funcs)
    {
      lists := map[];
      funcs := new Chain[CAPACITY_INC](_ => []);
      count := 0;
      new;
      assert funcs[..] == EMPTY.table;
      EmptyAgrees();
    }

    /** Moves every function to the end of its new chain. */
    method Grow(capacity: nat)
      requires funcs.Length > 0 && capacity > 0
      modifies this`funcs, funcs
      ensures fresh(funcs) && funcs[..] == Grown(old(funcs[..]), capacity)
    {
      hide Place;
      ghost var t: Table := funcs[..];
      var larger := new Chain[capacity](_ => []);
      for i := 0 to funcs.Length
        invariant larger.Length == capacity && funcs == old(funcs) && funcs.Length == |t| && larger != funcs
        invariant funcs[i..] == t[i..]
        invariant forall j :: 0 <= j < capacity ==> larger[j] == Gathered(t[..i], j, capacity)
      {
        ghost var before := larger[..];
        MoveChain(i, larger);
        forall j | 0 <= j < capacity ensures larger[j] == Gathered(t[..i + 1], j, capacity) {
          GatherNext(t, i, j, capacity);
          assert before[j] == Gathered(t[..i], j, capacity);
        }
      }
      assert t[..|t|] == t;
      funcs := larger;
    }

    /** The functions of one chain, one after the other. */
    method MoveChain(i: nat, larger: array<Chain>)
      requires i < funcs.Length && larger.Length > 0 && larger != funcs
      modifies funcs, larger
      ensures forall j :: 0 <= j < larger.Length ==>
              larger[j] == old(larger[j]) + Going(old(funcs[i]), j, larger.Length)
      ensures forall k :: 0 <= k < funcs.Length && k != i ==> funcs[k] == old(funcs[k])
    {
      hide Place;
      ghost var moved: Chain := [];
      while |funcs[i]| > 0
        invariant moved + funcs[i] == old(funcs[i])
        invariant forall k :: 0 <= k < funcs.Length && k != i ==> funcs[k] == old(funcs[k])
        invariant forall j :: 0 <= j < larger.Length ==> larger[j] == old(larger[j]) + Going(moved, j, larger.Length)
        decreases |funcs[i]|
      {
        var f := funcs[i][0];
        var j := Place(f.name, larger.Length);
        forall k | 0 <= k < larger.Length
          ensures Going(moved + [f], k, larger.Length) == Going(moved, k, larger.Length) + if k == j then [f] else []
        {
          GoingJoin(moved, f, k, larger.Length);
        }
        larger[j] := larger[j] + [f];
        funcs[i] := funcs[i][1..];
        moved := moved + [f];
      }
      assert moved + [] == moved;
    }

    /** At the start of its chain is at the end of the owner's list. */
    method Add(f: Func, atStart: bool)
      requires funcs.Length > 0
      modifies this`funcs, this`count, funcs
      ensures funcs == old(funcs) || fresh(funcs)
      ensures count == old(count) + 1
      ensures var t := if count > old(funcs.Length) then Grown(old(funcs[..]), old(funcs.Length) + CAPACITY_INC)
              else old(funcs[..]);
              funcs[..] == AddToTable(t, f, atStart)
    {
      hide Place;
      count := count + 1;
      if count > funcs.Length { Grow(funcs.Length + CAPACITY_INC); }
      var i := Place(f.name, funcs.Length);
      if atStart {
        funcs[i] := [f] + funcs[i];
      } else {
        funcs[i] := funcs[i] + [f];
      }
    }

    /** A new function, at either end of its owner's list. */
    method NewFunc(f: Func, atEnd: bool)
      requires Valid() && f !in ListOf(lists, f.owner)
      modifies this, funcs
      ensures Valid() && Model() == Apply(old(Model()), Change.Add(f, atEnd))
      ensures funcs == old(funcs) || fresh(funcs)
    {
      hide Agree, Place, Grown;
      ghost var s := Model();
      lists := AddToList(lists, f, atEnd);
      Add(f, atEnd);
      StepAgrees(s, Change.Add(f, atEnd));
    }

    method DeleteFunc(f: Func)
      requires Valid() && f in ListOf(lists, f.owner)
      modifies this, funcs
      ensures Valid() && Model() == Apply(old(Model()), Change.Remove(f))
      ensures funcs == old(funcs)
    {
      hide Agree, Place, Without;
      ghost var s := Model();
      StepAgrees(s, Change.Remove(f));
      lists := TakeFromList(lists, f);
      OnOneChain(s.lists, s.table, f);
      var i := Place(f.name, funcs.Length);
      var c := funcs[i];
      var k := 0;
      while c[k] != f
        invariant 0 <= k < |c| && f !in c[..k] && f in c[k..]
        decreases |c| - k
      {
        assert c[..k + 1] == c[..k] + [c[k]] && c[k..] == [c[k]] + c[k + 1..];
        k := k + 1;
      }
      WithoutAt(c, f, k);
      funcs[i] := c[..k] + c[k + 1..];
      if count > 0 { count := count - 1; }
    }

    /** The chain is followed from behind `after`, or from its start. */
    method Find(name: Name, owner: nat, after: Option<Func>) returns (r: Option<Func>)
      requires Valid()
      requires after.Some? ==> after.value.name == name && after.value.owner == owner
      ensures r == GetFunc(funcs[..], name, owner, after) == WalkBack(ListOf(lists, owner), name, after)
    {
      hide Agree, Place, WalkBack;
      LookUpIsWalk(lists, funcs[..], name, owner, after);
      var c := funcs[Place(name, funcs.Length)];
      assert c == ChainOf(funcs[..], name);
      ghost var whole := c;
      if after.Some? {
        while |c| > 0 && c[0] != after.value
          invariant Behind(c, after.value) == Behind(whole, after.value)
          decreases |c|
        {
          c := c[1..];
        }
        if |c| > 0 { c := c[1..]; }
      }
      ghost var start := c;
      while |c| > 0 && (c[0].owner != owner || c[0].name != name)
        invariant FirstOf(c, name, owner) == FirstOf(start, name, owner)
        decreases |c|
      {
        c := c[1..];
      }
      r := if |c| == 0 then None else Some(c[0]);
    }
  }

  lemma GatherNext(t: Table, i: nat, j: nat, capacity: nat)
    requires i < |t| && capacity > 0
    ensures Gathered(t[..i + 1], j, capacity) == Gathered(t[..i], j, capacity) + Going(t[i], j, capacity)
  {
    hide Place, Going;
    assert t[..i + 1][..i] == t[..i];
  }

  lemma {:induction false} GoingJoin(s: Chain, f: Func, j: nat, capacity: nat)
    requires capacity > 0
    ensures Going(s + [f], j, capacity) == Going(s, j, capacity) + if Place(f.name, capacity) == j then [f] else []
    decreases |s|
  {
    hide Place;
    var last := if Place(f.name, capacity) == j then [f] else [];
    if |s| == 0 {
      assert [f][1..] == [];
      assert s + [f] == [f];
      assert last + [] == [] + last;
    } else {
      assert (s + [f])[1..] == s[1..] + [f];
      GoingJoin(s[1..], f, j, capacity);
      var head, rest := if Place(s[0].name, capacity) == j then [s[0]] else [], Going(s[1..], j, capacity);
      assert head + (rest + last) == head + rest + last;
    }
  }

  lemma {:induction false} WithoutAt(s: Chain, f: Func, k: nat)
    requires k < |s| && s[k] == f && f !in s[..k]
    ensures Without(s, f) == s[..k] + s[k + 1..]
    decreases k
  {
    if k > 0 {
      assert s[1..][..k - 1] == s[..k][1..];
      assert s[0] == s[..k][0];
      WithoutAt(s[1..], f, k - 1);
      assert s[1..][k..] == s[k + 1..];
      assert [s[0]] + (s[1..k] + s[k + 1..]) == s[..k] + s[k + 1..];
    }
  }
}
