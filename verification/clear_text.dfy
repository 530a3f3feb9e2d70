/** Indices from which the way back is found, told from their text. */
module ClearText {
  import opened Wrappers
  import opened Access

  // ----- the text -----

  /** A literal that is written as a null, with any plus signs before it. */
  predicate Zero(strict: nat, e: Expr) {
    strict < 3
    && (e == Int(0) || e == Bool(false)
        || (e.Operator? && e.id == PLUS && e.operands.More? && Zero(strict, e.operands.last)))
  }

  /** A call `global->F(...)`, with any plus signs before it. */
  predicate GlobalLast(e: Expr) {
    e.GlobalCall? || (e.Operator? && e.id == PLUS && e.operands.More? && GlobalLast(e.operands.last))
  }

  /** The first thing the expression does is to push nulls. */
  predicate NullFirst(strict: nat, e: Expr)
    decreases e
  {
    match e
    case Int(x) => x == 0 && strict < 3
    case Bool(b) => !b && strict < 3
    case Operator(_, operands) => NullsFirst(strict, operands)
    case Index(a, _, _) => NullFirst(strict, a)
    case Member(a, _, _) => NullFirst(strict, a)
    case Append(a) => NullFirst(strict, a)
    case Array(items) => NullsFirst(strict, items)
    case Map(_, entries) => NullsFirst(strict, entries)
    case Dyn(_, i, _) => NullFirst(strict, i)
    case Call(_, pars, args) => if args.NoExprs? then pars > 0 else NullsFirst(strict, args)
    case GlobalCall(_, _) => true
    case ObjectCall(_, target, _, _) => NullFirst(strict, target)
    case SpaceCall(_, target, _, _) => NullFirst(strict, target)
    case _ => false
  }

  predicate NullsFirst(strict: nat, es: Exprs)
    decreases es
  {
    match es
    case NoExprs => false
    case More(init, last) => if init.NoExprs? then NullFirst(strict, last) else NullsFirst(strict, init)
  }

  /** Behind a null that is an operand itself may stand another such null, or what begins with
      something else. */
  predicate Next(strict: nat, afterNull: bool, e: Expr) { afterNull ==> Zero(strict, e) || !NullFirst(strict, e) }

  /** No nil, no operators that jump, no call of nobody, no more parameters than the callee takes; no
      null next to the nulls of another taker; no call with ten parameters the last of which is
      `global->F(...)`. */
  predicate Plain(strict: nat, e: Expr)
    decreases e
  {
    match e
    case Int(_) => true
    case Bool(_) => true
    case Text(_) => true
    case Slot(_, _, _) => true
    case Operator(_, operands) => PlainAll(strict, operands, false)
    case Index(a, i, _) => Plain(strict, a) && Plain(strict, i) && Next(strict, Zero(strict, a), i)
    case Member(a, _, _) => Plain(strict, a)
    case Append(a) => Plain(strict, a)
    case Array(items) => PlainAll(strict, items, false)
    case Map(_, entries) => PlainAll(strict, entries, false)
    case Dyn(_, i, _) => Plain(strict, i)
    case Call(_, pars, args) => PlainAll(strict, args, false) && Count(args) <= pars
    case GlobalCall(_, args) => PlainAll(strict, args, true) && Enough(args)
    case ObjectCall(_, target, _, args) =>
      Plain(strict, target) && PlainAll(strict, args, Zero(strict, target)) && Enough(args)
    case SpaceCall(_, target, _, args) => Plain(strict, target) && PlainAll(strict, args, false) && Count(args) <= 10
    case _ => false
  }

  predicate Enough(args: Exprs) { Count(args) <= 10 && (Count(args) == 10 ==> !GlobalLast(args.last)) }

  /** `afterNull`: a null that goes to the same taker stands before the first one. */
  predicate PlainAll(strict: nat, es: Exprs, afterNull: bool)
    decreases es
  {
    match es
    case NoExprs => true
    case More(init, last) =>
      && PlainAll(strict, init, afterNull) && Plain(strict, last)
      && Next(strict, if init.NoExprs? then afterNull else Zero(strict, init.last), last)
  }

  // ----- clear code grows -----

  /** From chunk `p` to its end the code pushes `n` values, and the way back over them is clear. */
  ghost predicate Pushed(code: Code, p: nat, n: nat) {
    0 < p <= |code| && Clear(code, p, |code|, n) && (n == 0 ==> |code| == p)
  }

  lemma Nothing(code: Code)
    requires |code| > 0
    ensures Pushed(code, |code|, 0)
  {
  }

  /** Clear code behind clear code. */
  lemma PushedMore(code: Code, w: Code, p: nat, n: nat, k: nat)
    requires Pushed(code, p, n) && Pushed(code + w, |code|, k) && k > 0
    ensures Pushed(code + w, p, n + k)
  {
    hide Height, Delta, See, ClearAt;
    var all, q := code + w, |code|;
    forall j: nat | j <= q ensures Height(all, j) == Height(code, j) { SameHeight(all, code, j); }
    forall i: nat | p <= i < |all| ensures ClearAt(all, p, i) {
      if i < q { ClearAtPrefix(code, w, p, i); } else { ClearWider(all, p, q, i); }
    }
  }

  /** More nulls for the same taker. */
  lemma NullsJoined(code: Code, p: nat, n: nat, k: nat)
    requires Pushed(code, p, n) && n > 0 && Last(code).STACK? && Last(code).n > 0 && k > 0
    ensures Pushed(code[|code| - 1 := STACK(Last(code).n + k)], p, n + k)
  {
    hide Height, Delta, ClearAt;
    var i := |code| - 1;
    var code1 := code[i := STACK(Last(code).n + k)];
    forall j: nat | j <= i ensures Height(code1, j) == Height(code, j) { SameHeight(code1, code, j); }
    HeightNext(code, i);
    HeightNext(code1, i);
    DeltaStack(code[i]);
    DeltaStack(code1[i]);
    assert p <= i;
    forall m: nat | p <= m < |code1| ensures ClearAt(code1, p, m) {
      assert ClearAt(code, p, m);
      if m < i { ClearAtSame(code, code1, p, m); } else { NullsClear(code1, p, m); }
    }
  }

  lemma DeltaStack(x: Chunk)
    requires x.STACK?
    ensures Delta(x) == x.n
  {
  }

  lemma NullsClear(code: Code, p: nat, i: nat)
    requires 0 < i < |code| && code[i].STACK? && code[i].n > 0
    ensures ClearAt(code, p, i)
  {
  }

  lemma ClearAtSame(a: Code, b: Code, p: nat, i: nat)
    requires 0 < i && i + 1 < |a| == |b| && (forall j :: 0 <= j <= i ==> a[j] == b[j]) && ClearAt(a, p, i)
    ensures ClearAt(b, p, i)
  {
    hide Height, Delta, See;
    SameSight(a, b, i);
    forall j: nat | j <= i ensures Height(a, j) == Height(b, j) { SameHeight(a, b, j); }
    var x := See(a, i);
    if x.Result? {
      var c :| p <= c && Begins(a, c, i, x.takes);
      assert Begins(b, c, i, x.takes);
    }
  }

  /** A chunk that pushes something of its own. */
  lemma OneMore(code: Code, x: Chunk)
    requires |code| > 0 && (See(code + [x], |code|).Value? || (x.STACK? && x.n > 0))
    ensures Pushed(code + [x], |code|, if x.STACK? then x.n else 1)
  {
    var all, q := code + [x], |code|;
    HeightNext(all, q);
  }

  /** A chunk that takes them all. */
  lemma Taken(code: Code, p: nat, n: nat, x: Chunk)
    requires Pushed(code, p, n) && See(code + [x], |code|) == Result(n) && Delta(x) == 1 - n
    ensures Pushed(code + [x], p, 1)
  {
    hide Delta, See, ClearAt;
    var all, q := code + [x], |code|;
    forall j: nat | j <= q ensures Height(all, j) == Height(code, j) { SameHeight(all, code, j); }
    HeightNext(all, q);
    assert Begins(all, p, q, n);
    forall i: nat | p <= i < |all| ensures ClearAt(all, p, i) {
      if i < q { ClearAtPrefix(code, [x], p, i); } else { ClearTaken(all, p, q, n); }
    }
  }

  lemma ClearTaken(code: Code, p: nat, i: nat, n: nat)
    requires 0 < i < |code| && See(code, i) == Result(n) && Delta(code[i]) == 1 - n && Begins(code, p, i, n)
    ensures ClearAt(code, p, i)
  {
  }

  /** A chunk that is passed over. */
  lemma PassedOver(code: Code, p: nat, n: nat, x: Chunk)
    requires Pushed(code, p, n) && n > 0 && x.CALLNS?
    ensures Pushed(code + [x], p, n)
  {
    hide ClearAt;
    var all, q := code + [x], |code|;
    forall j: nat | j <= q ensures Height(all, j) == Height(code, j) { SameHeight(all, code, j); }
    HeightNext(all, q);
    forall i: nat | p <= i < |all| ensures ClearAt(all, p, i) {
      if i < q { ClearAtPrefix(code, [x], p, i); } else { ClearPassed(all, p, q); }
    }
  }

  lemma ClearPassed(code: Code, p: nat, i: nat)
    requires 0 < i < |code| && code[i].CALLNS?
    ensures ClearAt(code, p, i)
  {
  }

  // ----- what is written is clear -----

  /** Values for one taker have been pushed; where nulls come last, `afterNull`. */
  ghost predicate Stands(s: State, p: nat, n: nat, afterNull: bool) {
    Pushed(s.code, p, n)
    && (n > 0 ==> !s.jump && (Last(s.code).STACK? ==> afterNull && Last(s.code).n > 0))
  }

  /** A null that is pushed next would stand on its own. */
  predicate Apart(s: State) { s.jump || (|s.code| > 0 && !Last(s.code).STACK?) }

  predicate EndsGlobal(code: Code) { |code| > 0 && Last(code).CALL? && Last(code).how.Global? }

  /** One value has been pushed. */
  ghost predicate Done(strict: nat, s: State, t: State, e: Expr) {
    && s.code <= t.code && Stands(t, |s.code|, 1, Zero(strict, e))
    && (EndsGlobal(t.code) ==> GlobalLast(e))
  }

  lemma PutApart(strict: nat, s: State, x: Chunk)
    requires Converted(strict, x).STACK? ==> Apart(s)
    ensures Put(strict, s, x) == State(s.code + [Converted(strict, x)], false)
  {
  }

  /** A literal or a variable. */
  lemma OneDone(strict: nat, s: State, e: Expr, x: Chunk)
    requires |s.code| > 0 && Write(strict, s, e) == Put(strict, s, x)
    requires x.INT? || x.BOOL? || x.TEXT? || x.SLOT?
    requires Converted(strict, x).STACK? ==> Apart(s) && Zero(strict, e)
    ensures Done(strict, s, Write(strict, s, e), e)
  {
    hide Write, Put, Clear;
    var c := Converted(strict, x);
    PutApart(strict, s, x);
    assert (s.code + [c])[|s.code|] == c;
    OneMore(s.code, c);
  }

  lemma PutTaker(strict: nat, s: State, p: nat, n: nat, afterNull: bool, x: Chunk)
    requires Stands(s, p, n, afterNull) && !x.INT? && !x.BOOL? && !x.STACK?
    requires See(s.code + [x], |s.code|) == Result(n) && Delta(x) == 1 - n
    ensures var t := Put(strict, s, x); t == State(s.code + [x], false) && Stands(t, p, 1, false)
  {
    hide Put, Clear, See, Delta;
    PutApart(strict, s, x);
    Taken(s.code, p, n, x);
  }

  /** The chunk that takes what has been pushed makes one value of it. */
  lemma TakerDone(strict: nat, s: State, s1: State, e: Expr, n: nat, afterNull: bool, x: Chunk)
    requires |s.code| > 0 && s.code <= s1.code && Stands(s1, |s.code|, n, afterNull)
    requires !x.INT? && !x.BOOL? && !x.STACK? && (x.CALL? && x.how.Global? ==> GlobalLast(e))
    requires See(s1.code + [x], |s1.code|) == Result(n) && Delta(x) == 1 - n
    ensures Done(strict, s, Put(strict, s1, x), e)
  {
    hide Put, Pushed, See, Delta;
    PutTaker(strict, s1, |s.code|, n, afterNull, x);
  }

  /** A null literal is a null. */
  lemma {:induction false} ZeroWritten(strict: nat, s: State, e: Expr)
    requires Zero(strict, e) && Proper(e)
    ensures Write(strict, s, e) == Put(strict, s, STACK(1)) && NullFirst(strict, e)
    decreases e
  {
    hide Put;
    if e.Operator? {
      var x := e.operands.last;
      PlusOne();
      OnlyOne(e.operands);
      ZeroWritten(strict, s, x);
      OpenPlus(strict, s, x);
      assert e == Operator(PLUS, More(NoExprs, x));
    } else {
      ZeroPut(strict, s);
    }
  }

  lemma OpenPlus(strict: nat, s: State, x: Expr)
    ensures var e := Operator(PLUS, More(NoExprs, x));
            Write(strict, s, e) == Write(strict, s, x) && NullFirst(strict, e) == NullFirst(strict, x)
  {
    OneListed(strict, s, x);
    hide Put, WriteAll, NullsFirst;
  }

  lemma OneListed(strict: nat, s: State, x: Expr)
    ensures var es := More(NoExprs, x);
            WriteAll(strict, s, es) == Write(strict, s, x) && NullsFirst(strict, es) == NullFirst(strict, x)
  {
    hide Write, NullFirst;
    assert WriteAll(strict, s, NoExprs) == s;
  }

  lemma OnlyOne(es: Exprs)
    requires Count(es) == 1
    ensures es.init.NoExprs?
  {
  }

  lemma PlusOne()
    ensures Operands(PLUS) == 1 == Operands(MINUS)
  {
  }

  lemma ZeroPut(strict: nat, s: State)
    requires strict < 3
    ensures Put(strict, s, INT(0)) == Put(strict, s, BOOL(false)) == Put(strict, s, STACK(1))
  {
  }

  lemma HasValues(code: Code, p: nat, n: nat)
    requires Pushed(code, p, n) && n > 0
    ensures p < |code|
  {
    hide ClearAt;
  }

  /** `k` nulls for the taker of what stands there. */
  lemma NullsPut(strict: nat, s: State, p: nat, n: nat, afterNull: bool, k: nat)
    requires Stands(s, p, n, afterNull) && k > 0 && (n == 0 ==> Apart(s))
    ensures var t := Put(strict, s, STACK(k));
            Stands(t, p, n + k, true) && t.code[..p] == s.code[..p] && Last(t.code).STACK?
  {
    hide Clear;
    if n > 0 && Last(s.code).STACK? {
      HasValues(s.code, p, n);
      NullsJoined(s.code, p, n, k);
    } else {
      OneMore(s.code, STACK(k));
      if n > 0 { PushedMore(s.code, [STACK(k)], p, n, k); }
    }
  }

  /** One more value for the taker. */
  lemma ItemClear(strict: nat, s: State, p: nat, n: nat, afterNull: bool, e: Expr)
    requires Stands(s, p, n, afterNull) && Plain(strict, e) && Proper(e) && Next(strict, afterNull, e)
    requires n == 0 && NullFirst(strict, e) ==> Apart(s)
    ensures var t := Write(strict, s, e);
            Stands(t, p, n + 1, Zero(strict, e)) && t.code[..p] == s.code[..p] && (EndsGlobal(t.code) ==> GlobalLast(e))
    decreases e, 3
  {
    hide Write, Put, Clear, Plain, Zero, NullFirst;
    if n > 0 && Last(s.code).STACK? && Zero(strict, e) {
      ZeroWritten(strict, s, e);
      NullsPut(strict, s, p, n, afterNull, 1);
    } else {
      WriteClear(strict, s, e);
      var t := Write(strict, s, e);
      var w := t.code[|s.code|..];
      assert t.code == s.code + w;
      if n > 0 { PushedMore(s.code, w, p, n, 1); }
    }
  }

  lemma {:induction false} ItemsClear(strict: nat, s: State, p: nat, n: nat, afterNull: bool, es: Exprs)
    requires Stands(s, p, n, afterNull) && PlainAll(strict, es, afterNull) && ProperAll(es)
    requires n == 0 && NullsFirst(strict, es) ==> Apart(s)
    requires n == 0 ==> !afterNull
    ensures var t := WriteAll(strict, s, es);
            Stands(t, p, n + Count(es), if es.NoExprs? then afterNull else Zero(strict, es.last))
            && t.code[..p] == s.code[..p] && (es.More? && EndsGlobal(t.code) ==> GlobalLast(es.last))
    decreases es
  {
    hide Write, Pushed, Plain, Zero, NullFirst;
    match es
    case NoExprs =>
    case More(init, last) =>
      ItemsClear(strict, s, p, n, afterNull, init);
      ItemClear(strict, WriteAll(strict, s, init), p, n + Count(init),
          if init.NoExprs? then afterNull else Zero(strict, init.last), last);
  }

  lemma Begun(s: State)
    requires |s.code| > 0
    ensures Stands(s, |s.code|, 0, false)
  {
    hide Clear;
    Nothing(s.code);
  }

  lemma {:induction false} WriteClear(strict: nat, s: State, e: Expr)
    requires |s.code| > 0 && Plain(strict, e) && Proper(e) && (NullFirst(strict, e) ==> Apart(s))
    ensures Done(strict, s, Write(strict, s, e), e)
    decreases e, 2
  {
    hide Put, PutAll, Negate, Balance, Operands, Stands, Zero, GlobalLast, See, Delta;
    Begun(s);
    match e
    case Int(x) => LiteralDone(strict, s, e);
    case Bool(b) => LiteralDone(strict, s, e);
    case Text(t) => LiteralDone(strict, s, e);
    case Slot(kind, i, ref) => LiteralDone(strict, s, e);
    case Operator(id, operands) =>
      ItemsClear(strict, s, |s.code|, 0, false, operands);
      OperatorDone(strict, s, e);
    case Index(a, i, ref) =>
      var s1 := Write(strict, s, a);
      ItemClear(strict, s, |s.code|, 0, false, a);
      ItemClear(strict, s1, |s.code|, 1, Zero(strict, a), i);
      AccessDone(strict, s, Write(strict, s1, i), e, 2, Zero(strict, i), ARRAYA(ref));
    case Member(a, key, ref) =>
      ItemClear(strict, s, |s.code|, 0, false, a);
      AccessDone(strict, s, Write(strict, s, a), e, 1, Zero(strict, a), MAPA(key, ref));
    case Append(a) =>
      ItemClear(strict, s, |s.code|, 0, false, a);
      AccessDone(strict, s, Write(strict, s, a), e, 1, Zero(strict, a), APPEND);
    case Dyn(isVar, i, ref) =>
      ItemClear(strict, s, |s.code|, 0, false, i);
      AccessDone(strict, s, Write(strict, s, i), e, 1, Zero(strict, i), DYN(isVar, ref));
    case Array(items) =>
      ItemsClear(strict, s, |s.code|, 0, false, items);
      AccessDone(strict, s, WriteAll(strict, s, items), e, Count(items),
          if items.NoExprs? then false else Zero(strict, items.last), ARRAY(Count(items)));
    case Map(size, entries) =>
      ItemsClear(strict, s, |s.code|, 0, false, entries);
      AccessDone(strict, s, WriteAll(strict, s, entries), e, 2 * size,
          if entries.NoExprs? then false else Zero(strict, entries.last), MAP(size));
    case Call(_, _, _) => CallDone(strict, s, e);
    case GlobalCall(_, _) => CallDone(strict, s, e);
    case ObjectCall(_, _, _, _) => CallDone(strict, s, e);
    case SpaceCall(_, _, _, _) => CallDone(strict, s, e);
    case _ =>
  }

  lemma LiteralDone(strict: nat, s: State, e: Expr)
    requires |s.code| > 0 && (e.Int? || e.Bool? || e.Text? || e.Slot?) && (NullFirst(strict, e) ==> Apart(s))
    ensures Done(strict, s, Write(strict, s, e), e)
  {
    hide Put, Done;
    match e
    case Int(x) => OneDone(strict, s, e, INT(x));
    case Bool(b) => OneDone(strict, s, e, BOOL(b));
    case Text(t) => OneDone(strict, s, e, TEXT(t));
    case Slot(kind, i, ref) => OneDone(strict, s, e, SLOT(kind, i, ref));
  }

  lemma PrefixSame(s: State, t: State)
    requires |s.code| <= |t.code| && t.code[..|s.code|] == s.code[..|s.code|]
    ensures s.code <= t.code
  {
  }

  /** Accesses, arrays and maps. */
  lemma AccessDone(strict: nat, s: State, s1: State, e: Expr, n: nat, afterNull: bool, x: Chunk)
    requires |s.code| > 0 && Stands(s1, |s.code|, n, afterNull) && s1.code[..|s.code|] == s.code[..|s.code|]
    requires match x
             case MAPA(_, _) => n == 1
             case APPEND => n == 1
             case DYN(_, _) => n == 1
             case ARRAYA(_) => n == 2
             case ARRAY(size) => n == size
             case MAP(size) => n == 2 * size
             case _ => false
    ensures Done(strict, s, Put(strict, s1, x), e)
  {
    hide Put, Pushed, Done;
    PrefixOf(s, s1, n, afterNull);
    assert (s1.code + [x])[|s1.code|] == x;
    TakerDone(strict, s, s1, e, n, afterNull, x);
  }

  lemma StandsLength(s: State, p: nat, n: nat, afterNull: bool)
    requires Stands(s, p, n, afterNull)
    ensures p <= |s.code|
  {
  }

  lemma PrefixOf(s: State, s1: State, n: nat, afterNull: bool)
    requires Stands(s1, |s.code|, n, afterNull) && s1.code[..|s.code|] == s.code[..|s.code|]
    ensures s.code <= s1.code
  {
    PrefixSame(s, s1);
  }

  lemma OperatorDone(strict: nat, s: State, e: Expr)
    requires |s.code| > 0 && e.Operator? && Proper(e)
    requires var s1, es := WriteAll(strict, s, e.operands), e.operands;
             Stands(s1, |s.code|, Count(es), if es.NoExprs? then false else Zero(strict, es.last))
             && s1.code[..|s.code|] == s.code[..|s.code|] && (es.More? && EndsGlobal(s1.code) ==> GlobalLast(es.last))
    ensures Done(strict, s, Write(strict, s, e), e)
  {
    hide Put, Pushed, WriteAll;
    var s1, n := WriteAll(strict, s, e.operands), Count(e.operands);
    PrefixOf(s, s1, n, Zero(strict, e.operands.last));
    PlusOne();
    if e.id == PLUS {
      assert e.operands.More?;
    } else if e.id == MINUS && EndsInInt(s1.code) {
      NegatedStands(s1, |s.code|);
    } else {
      assert (s1.code + [OPERATOR(e.id)])[|s1.code|] == OPERATOR(e.id);
      TakerDone(strict, s, s1, e, n, Zero(strict, e.operands.last), OPERATOR(e.id));
    }
  }

  lemma NegatedStands(s: State, p: nat)
    requires Pushed(s.code, p, 1) && EndsInInt(s.code) && !s.jump
    ensures Stands(Negate(s), p, 1, false) && s.code[..p] == Negate(s).code[..p]
  {
    hide Height, Delta, ClearAt;
    var a, b, i := s.code, Negate(s).code, |s.code| - 1;
    forall j: nat | j <= i ensures Height(a, j) == Height(b, j) { SameHeight(b, a, j); }
    HeightNext(a, i);
    HeightNext(b, i);
    DeltaInt(a[i]);
    DeltaInt(b[i]);
    assert Begins(a, p, |a|, 1);
    assert p <= i;
    forall m: nat | p <= m < |b| ensures ClearAt(b, p, m) {
      assert ClearAt(a, p, m);
      if m < i { ClearAtSame(a, b, p, m); } else { IntClear(b, p, m); }
    }
  }

  lemma DeltaInt(x: Chunk)
    requires x.INT?
    ensures Delta(x) == 1
  {
  }

  lemma IntClear(code: Code, p: nat, i: nat)
    requires 0 < i < |code| && code[i].INT?
    ensures ClearAt(code, p, i)
  {
  }

  // ----- calls -----

  /** What is pushed before the parameters, for the call. */
  lemma TargetClear(strict: nat, s: State, e: Expr) returns (n: nat, afterNull: bool)
    requires |s.code| > 0 && IsCall(e) && Plain(strict, e) && Proper(e) && (NullFirst(strict, e) ==> Apart(s))
    ensures var t := Before(strict, s, e);
            Stands(t, |s.code|, n, afterNull) && t.code[..|s.code|] == s.code[..|s.code|]
            && n == (if e.Call? then 0 else 1) && (e.Call? ==> t == s)
            && afterNull == (e.GlobalCall? || (e.ObjectCall? && Zero(strict, e.target)))
    decreases e, 0
  {
    hide Write, Put, Pushed, Zero, Negate;
    Begun(s);
    n, afterNull := 0, false;
    match e {
      case GlobalCall(_, _) =>
        NullsPut(strict, s, |s.code|, 0, false, 1);
        n, afterNull := 1, true;
      case ObjectCall(_, target, _, _) =>
        ItemClear(strict, s, |s.code|, 0, false, target);
        n, afterNull := 1, Zero(strict, target);
      case SpaceCall(space, target, _, _) =>
        ItemClear(strict, s, |s.code|, 0, false, target);
        SpacePassed(strict, Write(strict, s, target), |s.code|, Zero(strict, target), space);
        n := 1;
      case _ =>
    }
  }

  lemma SpacePassed(strict: nat, s: State, p: nat, afterNull: bool, space: nat)
    requires Stands(s, p, 1, afterNull)
    ensures var t := Put(strict, s, CALLNS(space));
            t == State(s.code + [CALLNS(space)], false) && Stands(t, p, 1, false) && t.code[..p] == s.code[..p]
  {
    hide Clear;
    PassedOver(s.code, p, 1, CALLNS(space));
  }

  lemma CallDone(strict: nat, s: State, e: Expr)
    requires |s.code| > 0 && IsCall(e) && Plain(strict, e) && Proper(e) && (NullFirst(strict, e) ==> Apart(s))
    ensures Done(strict, s, Write(strict, s, e), e)
    decreases e, 1
  {
    hide Write, Put, PutAll, Stands, Balance, Before, After, Zero, GlobalLast, Done;
    var n, afterNull := TargetClear(strict, s, e);
    var s1 := Before(strict, s, e);
    CallNulls(strict, s, e);
    ItemsClear(strict, s1, |s.code|, n, afterNull, e.args);
    OpenCall(strict, s, e);
    CallEnd(strict, s, WriteAll(strict, s1, e.args), e, n, if e.args.NoExprs? then afterNull else Zero(strict,
            e.args.last));
  }

  lemma CallNulls(strict: nat, s: State, e: Expr)
    requires IsCall(e) && Plain(strict, e) && Proper(e) && (NullFirst(strict, e) ==> Apart(s))
    ensures PlainAll(strict, e.args, e.GlobalCall? || (e.ObjectCall? && Zero(strict, e.target))) && ProperAll(e.args)
    ensures e.Call? && NullsFirst(strict, e.args) ==> Apart(s)
    ensures e.Call? && e.args.NoExprs? && e.pars > 0 ==> Apart(s)
    ensures Count(e.args) <= if e.Call? then e.pars else 10
    ensures (e.GlobalCall? || e.ObjectCall?) && Count(e.args) == 10 ==> !GlobalLast(e.args.last)
  {
    hide Zero;
  }

  /** The parameters are there: nulls for missing ones, and the call. */
  lemma CallEnd(strict: nat, s: State, s1: State, e: Expr, n: nat, afterNull: bool)
    requires |s.code| > 0 && IsCall(e) && (e.Call? || e.GlobalCall? || e.ObjectCall? || e.SpaceCall?)
    requires n == (if e.Call? then 0 else 1) && Stands(s1, |s.code|, n + Count(e.args), afterNull)
    requires s1.code[..|s.code|] == s.code[..|s.code|] && Count(e.args) <= (if e.Call? then e.pars else 10)
    requires e.Call? && e.args.NoExprs? ==> s1 == s && (e.pars > 0 ==> Apart(s))
    requires e.args.More? && EndsGlobal(s1.code) ==> GlobalLast(e.args.last)
    requires (e.GlobalCall? || e.ObjectCall?) && Count(e.args) == 10 ==> !GlobalLast(e.args.last)
    ensures Done(strict, s, PutAll(strict, s1, After(e)), e)
  {
    hide Put, Pushed, GlobalLast, Zero, Done, See, Delta;
    var have, want := Count(e.args), if e.Call? then e.pars else 10;
    var s2 := if have == want then s1 else Put(strict, s1, STACK(want - have));
    var last := afterNull || have != want;
    if have != want { NullsPut(strict, s1, |s.code|, n + have, afterNull, want - have); }
    assert Stands(s2, |s.code|, n + want, last);
    StandsLength(s2, |s.code|, n + want, last);
    assert s2.code[..|s.code|] == s.code[..|s.code|];
    AfterPut(strict, s1, e);
    PrefixOf(s, s2, n + want, last);
    if e.SpaceCall? {
      PassedStands(strict, s2, |s.code|, 11, last, e.space);
      var s3 := Put(strict, s2, CALLNS(e.space));
      SeesCall(s3.code, CALL(Direct, e.f), 0);
      TakerDone(strict, s, s3, e, 11, false, CALL(Direct, e.f));
    } else if e.Call? {
      SeesCall(s2.code, FUNC(e.f, e.pars), e.pars);
      TakerDone(strict, s, s2, e, e.pars, last, FUNC(e.f, e.pars));
    } else {
      var x := CALL(if e.GlobalCall? then Global else if e.failSafe then FailSafe else Direct, e.f);
      assert !EndsGlobal(s2.code);
      SeesCall(s2.code, x, 0);
      IsGlobalLast(e);
      TakerDone(strict, s, s2, e, 11, last, x);
    }
  }

  lemma IsGlobalLast(e: Expr)
    ensures e.GlobalCall? ==> GlobalLast(e)
  {
  }

  lemma PassedStands(strict: nat, s: State, p: nat, n: nat, afterNull: bool, space: nat)
    requires Stands(s, p, n, afterNull) && n > 0
    ensures var t := Put(strict, s, CALLNS(space));
            t == State(s.code + [CALLNS(space)], false) && Stands(t, p, n, false)
  {
    hide Clear;
    PassedOver(s.code, p, n, CALLNS(space));
  }

  lemma SeesCall(code: Code, x: Chunk, pars: nat)
    requires |code| > 0 && (x == FUNC(if x.FUNC? then x.f else 0, pars) || x.CALL?)
    ensures x.FUNC? ==> See(code + [x], |code|) == Result(pars) && Delta(x) == 1 - pars
    ensures x.CALL? && !EndsGlobal(code) ==> See(code + [x], |code|) == Result(11) && Delta(x) == 1 - 11
  {
  }

  /** What stands behind the parameters, one by one. */
  lemma AfterPut(strict: nat, s: State, e: Expr)
    requires e.Call? || e.GlobalCall? || e.ObjectCall? || e.SpaceCall?
    ensures var have, want := Count(e.args), if e.Call? then e.pars else 10;
            var s2 := if have == want then s else Put(strict, s, STACK(want - have));
            PutAll(strict, s, After(e)) ==
            match e
            case Call(f, pars, _) => Put(strict, s2, FUNC(f, pars))
            case GlobalCall(f, _) => Put(strict, s2, CALL(Global, f))
            case ObjectCall(failSafe, _, f, _) => Put(strict, s2, CALL(if failSafe then FailSafe else Direct, f))
            case SpaceCall(space, _, f, _) => Put(strict, Put(strict, s2, CALLNS(space)), CALL(Direct, f))
            case _ => s
  {
    hide Put;
    var have, want := Count(e.args), if e.Call? then e.pars else 10;
    var push: Code := [STACK(want - have)];
    assert Balance(have, want) == if have == want then [] else push;
    match e
    case Call(f, pars, _) => OneBehind(strict, s, have == want, push, FUNC(f, pars));
    case GlobalCall(f, _) => OneBehind(strict, s, have == want, push, CALL(Global, f));
    case ObjectCall(failSafe, _, f, _) =>
      OneBehind(strict, s, have == want, push, CALL(if failSafe then FailSafe else Direct, f));
    case SpaceCall(space, _, f, _) =>
      TwoBehind(strict, s, have == want, push, CALLNS(space), CALL(Direct, f));
    case _ =>
  }

  lemma OneBehind(strict: nat, s: State, none: bool, push: Code, x: Chunk)
    requires |push| == 1
    ensures PutAll(strict, s, (if none then [] else push) + [x])
            == Put(strict, if none then s else Put(strict, s, push[0]), x)
  {
    hide Put;
    if none { assert [] + [x] == [x]; } else { assert push + [x] == [push[0]] + [x]; TwoPuts(strict, s, push[0], x); }
  }

  lemma TwoBehind(strict: nat, s: State, none: bool, push: Code, x: Chunk, y: Chunk)
    requires |push| == 1
    ensures PutAll(strict, s, (if none then [] else push) + [x, y])
            == Put(strict, Put(strict, if none then s else Put(strict, s, push[0]), x), y)
  {
    hide Put;
    assert [x, y] == [x] + [y];
    if none {
      assert [] + [x, y] == [x] + [y];
      TwoPuts(strict, s, x, y);
    } else {
      var all := push + [x, y];
      assert all[0] == push[0] && all[1..] == [x] + [y];
      TwoPuts(strict, Put(strict, s, push[0]), x, y);
    }
  }

  // ----- the way back -----

  /** Going back over any such expression finds the chunk before it. */
  lemma PlainUndone(strict: nat, s: State, e: Expr)
    requires |s.code| > 0 && Plain(strict, e) && Proper(e) && (NullFirst(strict, e) ==> Apart(s))
    ensures var code := Write(strict, s, e).code;
            s.code <= code && Skip(code, |code| - 1, 1) == At(|s.code| - 1)
  {
    hide Write, Skip, Clear, Plain;
    WriteClear(strict, s, e);
    var code := Write(strict, s, e).code;
    ClearLeads(code, |s.code|, |code|, 1);
  }

  /** All indices of the place are of this kind. */
  predicate PlainPlace(strict: nat, e: Expr)
    requires IsPlace(e)
  {
    match e
    case Index(a, i, _) => Plain(strict, i) && PlainPlace(strict, a)
    case Member(a, _, _) => PlainPlace(strict, a)
    case _ => true
  }

  lemma {:induction false} PlainChain(strict: nat, s: State, e: Expr)
    requires IsPlace(e) && Proper(e) && |s.code| > 0 && Total(s.code) >= 0 && PlainPlace(strict, e)
    ensures ChainClear(strict, s, e)
    decreases e
  {
    hide Write, Clear, Plain, Total;
    match e
    case Index(a, i, _) =>
      PlainChain(strict, s, a);
      PlaceCode(strict, s, a);
      WriteClear(strict, Write(strict, s, a), i);
    case Member(a, _, _) => PlainChain(strict, s, a);
    case _ =>
  }

  /** Any chain of accesses with such indices becomes the chain of values, and nothing before it changes. */
  lemma PlainSetsNoRef(strict: nat, s: State, e: Expr)
    requires IsPlace(e) && Proper(e) && |s.code| > 0 && Total(s.code) >= 0 && PlainPlace(strict, e)
    ensures var code := Write(strict, s, e).code;
            |code| > 0 && SetNoRef(code, |code| - 1) == Option.Some(Write(strict, s, ValueOf(e)).code)
  {
    hide Write, SetNoRef, ChainClear, Total;
    PlainChain(strict, s, e);
    ClearSetsNoRef(strict, s, e);
  }
}
