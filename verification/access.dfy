/** Accesses `a[i][j].m` leave references until it is known that a value is wanted. Then the
    compiler goes back over the code it has written, skipping the index expressions. */
module Access {
  import Grammar
  import opened Wrappers

  // ----- chunks and expressions -----

  const MAX_PAR: nat := 10

  datatype Kind = Direct | FailSafe | Global

  datatype Chunk =
    | INT(x: int)
    | BOOL(b: bool)
    | TEXT(s: nat)                         // a string or an id
    | NIL
    | SLOT(kind: nat, i: nat, ref: bool)   // a parameter, variable, local or global
    | OPERATOR(id: Grammar.OpId)
    | MAPA(key: nat, ref: bool)
    | ARRAYA(ref: bool)
    | APPEND
    | ARRAY(size: nat)
    | MAP(size: nat)
    | DYN(isVar: bool, ref: bool)          // Var(i) and Par(i)
    | FUNC(f: nat, pars: nat)
    | CALL(how: Kind, cf: nat)
    | CALLNS(space: nat)
    | STACK(n: int)
    | JUMP(logic: nat, off: int)           // of `&&`, `||` and `??`
    | SETJUMP(off: int)                    // of `??=`

  type Code = seq<Chunk>

  datatype Expr =
    | Int(x: int)
    | Bool(b: bool)
    | Text(s: nat)
    | Nil
    | Slot(kind: nat, slot: nat, ref: bool)
    | Operator(id: Grammar.OpId, operands: Exprs)
    | Short(logic: nat, l: Expr, r: Expr)
    | NilAssign(l: Expr, r: Expr)
    | Index(a: Expr, i: Expr, ref: bool)
    | Member(a: Expr, key: nat, ref: bool)
    | Append(a: Expr)
    | Array(items: Exprs)
    | Map(size: nat, entries: Exprs)       // keys and values in turn
    | Dyn(isVar: bool, i: Expr, ref: bool)
    | Call(f: nat, pars: nat, args: Exprs)
    | NoInherited(args: Exprs)             // `_inherited(...)` with nothing overloaded
    | GlobalCall(f: nat, args: Exprs)
    | ObjectCall(failSafe: bool, target: Expr, f: nat, args: Exprs)
    | SpaceCall(space: nat, target: Expr, f: nat, args: Exprs)
    | Nobody(target: Expr, args: Exprs)    // `target->~F(...)` when no function F exists
    | GlobalNobody(args: Exprs)

  datatype Exprs = NoExprs | More(init: Exprs, last: Expr)

  function Count(es: Exprs): nat {
    match es
    case NoExprs => 0
    case More(init, _) => Count(init) + 1
  }

  /** How many values the operator takes, read off the operator table. */
  function Operands(id: Grammar.OpId): nat {
    if Grammar.Table(id).single || !Grammar.Table(id).postfix then 1 else 2
  }

  const PLUS: Grammar.OpId := 4
  const MINUS: Grammar.OpId := 5
  const SET: Grammar.OpId := 44

  // ----- writing -----

  /** The code, and whether the next chunk is a jump target. */
  datatype State = State(code: Code, jump: bool)

  /** Below strict 3 a zero becomes "push one null". */
  function Converted(strict: nat, x: Chunk): Chunk {
    if (x == INT(0) || x == BOOL(false)) && strict < 3 then STACK(1) else x
  }

  function Last(code: Code): Chunk
    requires |code| > 0
  {
    code[|code| - 1]
  }

  predicate Joins(code: Code, x: Chunk) {
    x.STACK? && |code| > 0 && Last(code).STACK? && (x.n <= 0 || Last(code).n >= 0)
  }

  /** Stack chunks are joined, except at a jump target. */
  function Put(strict: nat, s: State, x: Chunk): State {
    var c := Converted(strict, x);
    if !s.jump && Joins(s.code, c) then
      var sum := Last(s.code).n + c.n;
      State(if sum == 0 then s.code[..|s.code| - 1] else s.code[|s.code| - 1 := STACK(sum)], false)
    else State(s.code + [c], false)
  }

  function PutAll(strict: nat, s: State, xs: Code): State
    decreases |xs|
  {
    if |xs| == 0 then s else PutAll(strict, Put(strict, s, xs[0]), xs[1..])
  }

  /** The minus sign changes a number that was just written. */
  function Negate(s: State): State
    requires |s.code| > 0 && Last(s.code).INT?
  {
    s.(code := s.code[|s.code| - 1 := INT(-Last(s.code).x)])
  }

  predicate EndsInInt(code: Code) { |code| > 0 && Last(code).INT? }

  /** The jump at `at` leads behind the code. */
  function Lead(s: State, at: nat): State {
    State(if at < |s.code| && s.code[at].JUMP? then s.code[at := JUMP(s.code[at].logic, |s.code| - at)]
          else if at < |s.code| && s.code[at].SETJUMP? then s.code[at := SETJUMP(|s.code| - at)]
          else s.code,
          true)
  }

  function Balance(have: nat, want: nat): Code { if have == want then [] else [STACK(want - have)] }

  function Write(strict: nat, s: State, e: Expr): State
    decreases e
  {
    match e
    case Int(x) => Put(strict, s, INT(x))
    case Bool(b) => Put(strict, s, BOOL(b))
    case Text(t) => Put(strict, s, TEXT(t))
    case Nil => Put(strict, s, NIL)
    case Slot(kind, i, ref) => Put(strict, s, SLOT(kind, i, ref))
    case Operator(id, operands) =>
      var s1 := WriteAll(strict, s, operands);
      if id == PLUS then s1
      else if id == MINUS && EndsInInt(s1.code) then Negate(s1)
      else Put(strict, s1, OPERATOR(id))
    case Short(logic, l, r) =>
      var s1 := Write(strict, s, l);
      Lead(Write(strict, Put(strict, s1, JUMP(logic, 0)), r), |s1.code|)
    case NilAssign(l, r) =>
      var s1 := Write(strict, s, l);
      Lead(Put(strict, Write(strict, Put(strict, s1, SETJUMP(0)), r), OPERATOR(SET)), |s1.code|)
    case Index(a, i, ref) => Put(strict, Write(strict, Write(strict, s, a), i), ARRAYA(ref))
    case Member(a, key, ref) => Put(strict, Write(strict, s, a), MAPA(key, ref))
    case Append(a) => Put(strict, Write(strict, s, a), APPEND)
    case Array(items) => Put(strict, WriteAll(strict, s, items), ARRAY(Count(items)))
    case Map(size, entries) => Put(strict, WriteAll(strict, s, entries), MAP(size))
    case Dyn(isVar, i, ref) => Put(strict, Write(strict, s, i), DYN(isVar, ref))
    case Call(f, pars, args) => PutAll(strict, WriteAll(strict, s, args), Balance(Count(args), pars) + [FUNC(f, pars)])
    case NoInherited(args) => PutAll(strict, WriteAll(strict, s, args), Balance(Count(args), 0) + [STACK(1)])
    case GlobalCall(f, args) =>
      PutAll(strict, WriteAll(strict, Put(strict, s, STACK(1)), args),
          Balance(Count(args), MAX_PAR) + [CALL(Global, f)])
    case ObjectCall(failSafe, target, f, args) =>
      var x := CALL(if failSafe then FailSafe else Direct, f);
      PutAll(strict, WriteAll(strict, Write(strict, s, target), args), Balance(Count(args), MAX_PAR) + [x])
    case SpaceCall(space, target, f, args) =>
      var s1 := Put(strict, Write(strict, s, target), CALLNS(space));
      PutAll(strict, WriteAll(strict, s1, args), Balance(Count(args), MAX_PAR) + [CALLNS(space), CALL(Direct, f)])
    case Nobody(target, args) =>
      PutAll(strict, WriteAll(strict, Write(strict, s, target), args), Balance(Count(args), 0) + [STACK(-1), STACK(1)])
    case GlobalNobody(args) =>
      PutAll(strict, WriteAll(strict, Put(strict, s, STACK(1)), args), Balance(Count(args), 0) + [STACK(-1), STACK(1)])
  }

  function WriteAll(strict: nat, s: State, es: Exprs): State
    decreases es
  {
    match es
    case NoExprs => s
    case More(init, last) => Write(strict, WriteAll(strict, s, init), last)
  }

  // ----- heights -----

  /** Change of the number of values on the stack. */
  function Delta(x: Chunk): int {
    match x
    case OPERATOR(id) => 1 - Operands(id)
    case MAPA(_, _) => 0
    case ARRAYA(_) => -1
    case APPEND => 0
    case ARRAY(size) => 1 - size
    case MAP(size) => 1 - 2 * size
    case DYN(_, _) => 0
    case FUNC(_, pars) => 1 - pars
    case CALL(_, _) => 0 - MAX_PAR as int
    case CALLNS(_) => 0
    case STACK(n) => n
    case JUMP(_, _) => -1
    case SETJUMP(_) => 0
    case _ => 1
  }

  /** The number of values on the stack before chunk `i`. */
  function Height(code: Code, i: nat): int
    requires i <= |code|
    decreases i
  {
    if i == 0 then 0 else Height(code, i - 1) + Delta(code[i - 1])
  }

  // ----- going back over expressions -----

  /** What the way back makes of a chunk. For a call it looks at the chunk before the call, for the
      jump of `??=` it takes the distance for the number of an operator; entry 46 ends the table. */
  datatype Seen = Value | Values(n: int) | Passed | Result(takes: nat) | Unknown | Outside

  function See(code: Code, pos: nat): Seen
    requires 0 < pos < |code|
  {
    match code[pos]
    case STACK(n) => Values(n)
    case INT(_) => Value
    case BOOL(_) => Value
    case TEXT(_) => Value
    case SLOT(_, _, _) => Value
    case MAPA(_, _) => Result(1)
    case APPEND => Result(1)
    case ARRAYA(_) => Result(2)
    case ARRAY(size) => Result(size)
    case MAP(size) => Result(2 * size)
    case DYN(_, _) => Result(1)
    case FUNC(_, pars) => Result(pars)
    case CALLNS(_) => Passed
    case CALL(_, _) => Result(MAX_PAR + if code[pos - 1].CALL? && code[pos - 1].how.Global? then 0 else 1)
    case OPERATOR(id) => Result(Operands(id))
    case SETJUMP(off) => if 0 <= off < 46 then Result(Operands(off)) else if off == 46 then Result(1) else Outside
    case _ => Unknown
  }

  /** `Lost`: it has read behind the end of the operator table. */
  datatype Skipped = At(pos: int) | Hangs | Lost

  /** Goes back over `n` values from chunk `pos`. At a STACK that pushes nothing it stays for
      ever; at chunks it does not know it stops. */
  function Skip(code: Code, pos: int, n: int): (r: Skipped)
    requires pos < |code|
    ensures r.At? ==> r.pos <= pos && (pos >= 0 ==> r.pos >= 0) && (pos < 0 ==> r.pos == pos)
    decreases if pos < 0 then 0 else pos
  {
    if n <= 0 || pos <= 0 then At(pos)
    else
      match See(code, pos)
      case Value => Skip(code, pos - 1, n - 1)
      case Values(k) => if k > 0 then Skip(code, pos - 1, n - k) else Hangs
      case Passed => Skip(code, pos - 1, n)
      case Result(k) =>
        var inner := Skip(code, pos - 1, k);
        if inner.At? then Skip(code, inner.pos, n - 1) else inner
      case Unknown => At(pos)
      case Outside => Lost
  }

  // ----- when it finds the way -----

  /** The `k` values on top before chunk `i` were pushed from chunk `b` on. */
  predicate Begins(code: Code, b: nat, i: nat, k: nat)
    requires i <= |code|
  {
    b <= i && Height(code, b) == Height(code, i) - k && forall j :: b < j <= i ==> Height(code, j) > Height(code, b)
  }

  /** Chunk `i` is counted as what it is: it pushes values, or what it takes begins with a chunk. */
  ghost predicate ClearAt(code: Code, from: nat, i: nat)
    requires 0 < i < |code|
  {
    match See(code, i)
    case Value => true
    case Values(k) => k > 0
    case Passed => true
    case Result(k) => Delta(code[i]) == 1 - k && exists b :: from <= b && Begins(code, b, i, k)
    case Unknown => false
    case Outside => false
  }

  /** From chunk `p` to chunk `q` the code pushes `n` values. No STACK on the way pops, or pushes
      at once for two that take from it. */
  ghost predicate Clear(code: Code, p: nat, q: nat, n: int)
    requires q <= |code|
  {
    && 0 < p && n >= 0 && Begins(code, p, q, n)
    && forall i: nat :: p <= i < q ==> ClearAt(code, p, i)
  }

  lemma HeightNext(code: Code, i: nat)
    requires i < |code|
    ensures Height(code, i + 1) == Height(code, i) + Delta(code[i])
  {
  }

  /** What a chunk inside takes begins inside. */
  lemma ClearInside(code: Code, p: nat, b: nat, q: nat, i: nat)
    requires 0 < b <= i < q <= |code| && ClearAt(code, p, i)
    requires forall j :: b < j <= q ==> Height(code, j) > Height(code, b)
    ensures ClearAt(code, b, i)
  {
    hide Delta, Operands;
    HeightNext(code, i);
    var x := See(code, i);
    if x.Result? {
      var c :| p <= c && Begins(code, c, i, x.takes);
      assert Height(code, c) == Height(code, i + 1) - 1;
      assert b <= c;
    }
  }

  /** Where the way is clear it leads to the chunk before the values. */
  lemma {:induction false} ClearLeads(code: Code, p: nat, q: nat, n: int)
    requires q <= |code| && Clear(code, p, q, n)
    ensures Skip(code, q - 1, n) == At(p - 1)
    decreases q
  {
    hide Height, Delta, Operands, ClearAt;
    if n > 0 {
      var i := q - 1;
      HeightNext(code, i);
      assert ClearAt(code, p, i);
      ClearSeen(code, p, i);
      match See(code, i)
      case Value => ClearLeads(code, p, i, n - 1);
      case Values(k) => ClearLeads(code, p, i, n - k);
      case Passed => ClearLeads(code, p, i, n);
      case Result(k) =>
        var b :| p <= b && Begins(code, b, i, k);
        forall j: nat | b <= j < i ensures ClearAt(code, b, j) { ClearInside(code, p, b, i, j); }
        ClearLeads(code, b, i, k);
        ClearLeads(code, p, b, n - 1);
    }
  }

  lemma ClearSeen(code: Code, from: nat, i: nat)
    requires 0 < i < |code| && ClearAt(code, from, i)
    ensures match See(code, i)
            case Value => Delta(code[i]) == 1
            case Values(k) => Delta(code[i]) == k > 0
            case Passed => Delta(code[i]) == 0
            case Result(k) => Delta(code[i]) == 1 - k && exists b :: from <= b && Begins(code, b, i, k)
            case Unknown => false
            case Outside => false
  {
  }

  /** A call whose last parameter is a global call: one value too few is skipped for it. */
  predicate Undercounted(code: Code, i: nat)
    requires 0 < i < |code|
  {
    code[i].CALL? && code[i - 1].CALL? && code[i - 1].how.Global?
  }

  ghost predicate Counts(code: Code, p: nat, q: nat)
    requires q <= |code|
  {
    0 < p && forall i: nat :: p <= i < q ==> !Undercounted(code, i)
  }

  /** The walk goes on at this chunk if there is anything left to skip. */
  predicate GoesOn(code: Code, pos: nat)
    requires 0 < pos < |code|
  {
    var x := See(code, pos);
    !x.Unknown? && !x.Outside? && !(x.Values? && x.n <= 0)
  }

  /** The walk from chunk `q` has come to chunk `r`: at least `n` values lie between, and if there
      are no more the way was clear. */
  ghost predicate Far(code: Code, r: nat, q: nat, n: int)
    requires 0 < r <= q <= |code|
  {
    Height(code, r) <= Height(code, q) - n && (Height(code, r) == Height(code, q) - n ==> Clear(code, r, q, n))
  }

  /** Where the walk ends at a chunk where it could go on, nothing was skipped too little. */
  lemma {:induction false} LeadsFar(code: Code, q: nat, n: int, r: nat)
    requires 2 <= r <= q <= |code| && Skip(code, q - 1, n) == At(r - 1)
    requires GoesOn(code, r - 1) && Counts(code, r, q)
    ensures Far(code, r, q, n)
    decreases q
  {
    hide Height, Delta, Operands, ClearAt, GoesOn, Far, Undercounted;
    if n <= 0 {
      FarNot(code, q, n);
    } else {
      var i := q - 1;
      SeenStops(code, i);
      match See(code, i)
      case Value =>
        LeadsFar(code, i, n - 1, r);
        FarPush(code, r, q, n, 1);
      case Values(k) =>
        LeadsFar(code, i, n - k, r);
        FarPush(code, r, q, n, k);
      case Passed =>
        LeadsFar(code, i, n, r);
        FarPush(code, r, q, n, 0);
      case Result(k) =>
        var b := Skip(code, i - 1, k).pos + 1;
        if !GoesOn(code, b - 1) { StopsHere(code, b - 1, n - 1); }
        LeadsFar(code, i, k, b);
        LeadsFar(code, b, n - 1, r);
        FarResult(code, r, b, q, n, k);
      case _ =>
    }
  }

  lemma StopsHere(code: Code, pos: nat, n: int)
    requires 0 < pos < |code| && !GoesOn(code, pos)
    ensures Skip(code, pos, n).At? ==> Skip(code, pos, n) == At(pos)
  {
  }

  lemma SeenStops(code: Code, i: nat)
    requires 0 < i < |code|
    ensures match See(code, i)
            case Value => Delta(code[i]) == 1
            case Values(k) => Delta(code[i]) == k
            case Passed => Delta(code[i]) == 0
            case Result(k) => Undercounted(code, i) || Delta(code[i]) >= 1 - k
            case Unknown => !GoesOn(code, i)
            case Outside => true
  {
  }

  lemma FarNot(code: Code, q: nat, n: int)
    requires 0 < q <= |code| && n <= 0
    ensures Far(code, q, q, n)
  {
  }

  lemma FarPush(code: Code, r: nat, q: nat, n: int, k: int)
    requires 0 < r < q <= |code| && n > 0 && Far(code, r, q - 1, n - k)
    requires k >= 0 && Delta(code[q - 1]) == k
    requires See(code, q - 1) in {Value, Passed} || (See(code, q - 1) == Values(k) && k > 0)
    requires See(code, q - 1) == Passed || k > 0
    ensures Far(code, r, q, n)
  {
    hide Delta, Operands;
    HeightNext(code, q - 1);
  }

  lemma FarResult(code: Code, r: nat, b: nat, q: nat, n: int, k: nat)
    requires 0 < r <= b < q <= |code| && n > 0 && Far(code, b, q - 1, k) && Far(code, r, b, n - 1)
    requires See(code, q - 1) == Result(k) && Delta(code[q - 1]) >= 1 - k
    ensures Far(code, r, q, n)
  {
    hide Delta, Operands;
    HeightNext(code, q - 1);
    if Height(code, r) == Height(code, q) - n {
      assert Begins(code, b, q - 1, k) && Clear(code, r, b, n - 1) && Clear(code, b, q - 1, k);
      forall i: nat | b <= i < q - 1 ensures ClearAt(code, r, i) { ClearWider(code, r, b, i); }
    }
  }

  lemma ClearWider(code: Code, p: nat, b: nat, i: nat)
    requires 0 < p <= b && i < |code| && 0 < i && ClearAt(code, b, i)
    ensures ClearAt(code, p, i)
  {
  }

  /** Exactly when the walk finds the chunk before `n` values. That chunk must not be the first, and
      not one at which the walk gets stuck anyway. */
  lemma SkipExact(code: Code, p: nat, q: nat, n: int)
    requires 2 <= p <= q <= |code| && n >= 0 && Height(code, p) == Height(code, q) - n
    requires GoesOn(code, p - 1) && Counts(code, p, q)
    ensures Skip(code, q - 1, n) == At(p - 1) <==> Clear(code, p, q, n)
  {
    hide Skip, Height;
    if Clear(code, p, q, n) { ClearLeads(code, p, q, n); }
    if Skip(code, q - 1, n) == At(p - 1) { LeadsFar(code, q, n, p); }
  }

  // ----- what is written behind a chunk -----

  /** Nothing is joined to the last chunk, and no minus sign changes it. */
  predicate Solid(code: Code) { |code| > 0 && !Last(code).STACK? && !Last(code).INT? }

  /** The same has been written behind `a` and behind `b`. */
  predicate Behind(a: Code, b: Code, w: Code, s: State, s': State) {
    Solid(a) && Solid(b) && |a| == |b| && s.code == a + w && s'.code == b + w && s.jump == s'.jump
  }

  lemma PutBehind(strict: nat, a: Code, b: Code, w: Code, s: State, s': State, x: Chunk) returns (v: Code)
    requires Behind(a, b, w, s, s')
    ensures Behind(a, b, v, Put(strict, s, x), Put(strict, s', x)) && !Put(strict, s, x).jump
  {
    var c := Converted(strict, x);
    if !s.jump && Joins(s.code, c) {
      assert |w| > 0 && Last(s.code) == Last(w) == Last(s'.code);
      var sum := Last(w).n + c.n;
      v := if sum == 0 then w[..|w| - 1] else w[|w| - 1 := STACK(sum)];
      assert a + v == Put(strict, s, x).code && b + v == Put(strict, s', x).code;
    } else {
      assert Joins(s'.code, c) == Joins(s.code, c) by { SameLast(a, b, w); }
      v := w + [c];
    }
  }

  lemma SameLast(a: Code, b: Code, w: Code)
    requires Solid(a) && Solid(b)
    ensures |w| > 0 ==> Last(a + w) == Last(b + w) == Last(w)
    ensures |w| == 0 ==> a + w == a && b + w == b
  {
  }

  lemma {:induction false} PutAllBehind(strict: nat, a: Code, b: Code, w: Code, s: State, s': State, xs: Code)
    returns (v: Code)
    requires Behind(a, b, w, s, s')
    ensures Behind(a, b, v, PutAll(strict, s, xs), PutAll(strict, s', xs))
    decreases |xs|
  {
    hide Put, Solid;
    v := w;
    if |xs| > 0 {
      v := PutBehind(strict, a, b, w, s, s', xs[0]);
      v := PutAllBehind(strict, a, b, v, Put(strict, s, xs[0]), Put(strict, s', xs[0]), xs[1..]);
    }
  }

  lemma NegateBehind(a: Code, b: Code, w: Code, s: State, s': State) returns (v: Code)
    requires Behind(a, b, w, s, s')
    ensures EndsInInt(s.code) == EndsInInt(s'.code)
    ensures EndsInInt(s.code) ==> Behind(a, b, v, Negate(s), Negate(s'))
  {
    SameLast(a, b, w);
    v := w;
    if EndsInInt(s.code) {
      v := w[|w| - 1 := INT(-Last(w).x)];
      assert a + v == Negate(s).code && b + v == Negate(s').code;
    }
  }

  lemma LeadBehind(a: Code, b: Code, w: Code, s: State, s': State, at: nat) returns (v: Code)
    requires Behind(a, b, w, s, s') && at >= |a|
    ensures Behind(a, b, v, Lead(s, at), Lead(s', at))
  {
    v := w;
    if at < |s.code| {
      var i := at - |a|;
      assert s.code[at] == w[i] == s'.code[at];
      if w[i].JUMP? {
        v := w[i := JUMP(w[i].logic, |s.code| - at)];
      } else if w[i].SETJUMP? {
        v := w[i := SETJUMP(|s.code| - at)];
      }
      assert a + v == Lead(s, at).code && b + v == Lead(s', at).code;
    }
  }

  /** Expressions are written the same way behind any such chunk. */
  lemma {:induction false} WriteBehind(strict: nat, a: Code, b: Code, w: Code, s: State, s': State, e: Expr)
    returns (v: Code)
    requires Behind(a, b, w, s, s')
    ensures Behind(a, b, v, Write(strict, s, e), Write(strict, s', e))
    decreases e
  {
    hide Put, PutAll, Negate, Lead, Behind, Balance, Operands;
    match e
    case Int(x) => v := PutBehind(strict, a, b, w, s, s', INT(x));
    case Bool(x) => v := PutBehind(strict, a, b, w, s, s', BOOL(x));
    case Text(t) => v := PutBehind(strict, a, b, w, s, s', TEXT(t));
    case Nil => v := PutBehind(strict, a, b, w, s, s', NIL);
    case Slot(kind, i, ref) => v := PutBehind(strict, a, b, w, s, s', SLOT(kind, i, ref));
    case Operator(id, operands) =>
      v := WriteAllBehind(strict, a, b, w, s, s', operands);
      var s1, s1' := WriteAll(strict, s, operands), WriteAll(strict, s', operands);
      if id != PLUS {
        var u := NegateBehind(a, b, v, s1, s1');
        if id == MINUS && EndsInInt(s1.code) {
          v := u;
        } else {
          v := PutBehind(strict, a, b, v, s1, s1', OPERATOR(id));
        }
      }
    case Short(logic, l, r) => v := JumpBehind(strict, a, b, w, s, s', e, l, r);
    case NilAssign(l, r) => v := JumpBehind(strict, a, b, w, s, s', e, l, r);
    case Index(x, i, ref) =>
      v := WriteBehind(strict, a, b, w, s, s', x);
      v := WriteBehind(strict, a, b, v, Write(strict, s, x), Write(strict, s', x), i);
      v := PutBehind(strict, a, b, v, Write(strict, Write(strict, s, x), i), Write(strict, Write(strict, s', x), i),
          ARRAYA(ref));
    case Member(x, key, ref) =>
      v := WriteBehind(strict, a, b, w, s, s', x);
      v := PutBehind(strict, a, b, v, Write(strict, s, x), Write(strict, s', x), MAPA(key, ref));
    case Append(x) =>
      v := WriteBehind(strict, a, b, w, s, s', x);
      v := PutBehind(strict, a, b, v, Write(strict, s, x), Write(strict, s', x), APPEND);
    case Array(items) =>
      v := WriteAllBehind(strict, a, b, w, s, s', items);
      v := PutBehind(strict, a, b, v, WriteAll(strict, s, items), WriteAll(strict, s', items), ARRAY(Count(items)));
    case Map(size, entries) =>
      v := WriteAllBehind(strict, a, b, w, s, s', entries);
      v := PutBehind(strict, a, b, v, WriteAll(strict, s, entries), WriteAll(strict, s', entries), MAP(size));
    case Dyn(isVar, i, ref) =>
      v := WriteBehind(strict, a, b, w, s, s', i);
      v := PutBehind(strict, a, b, v, Write(strict, s, i), Write(strict, s', i), DYN(isVar, ref));
    case _ => v := CallBehind(strict, a, b, w, s, s', e);
  }

  lemma JumpBehind(strict: nat, a: Code, b: Code, w: Code, s: State, s': State, e: Expr, l: Expr, r: Expr)
    returns (v: Code)
    requires Behind(a, b, w, s, s') && (e == NilAssign(l, r) || (e.Short? && e == Short(e.logic, l, r)))
    ensures Behind(a, b, v, Write(strict, s, e), Write(strict, s', e))
    decreases e, 0
  {
    hide Put, Lead, Solid;
    v := WriteBehind(strict, a, b, w, s, s', l);
    var s1, s1' := Write(strict, s, l), Write(strict, s', l);
    var x := if e.Short? then JUMP(e.logic, 0) else SETJUMP(0);
    v := PutBehind(strict, a, b, v, s1, s1', x);
    var s2, s2' := Put(strict, s1, x), Put(strict, s1', x);
    v := WriteBehind(strict, a, b, v, s2, s2', r);
    var s3, s3' := Write(strict, s2, r), Write(strict, s2', r);
    if e.NilAssign? {
      v := PutBehind(strict, a, b, v, s3, s3', OPERATOR(SET));
      s3, s3' := Put(strict, s3, OPERATOR(SET)), Put(strict, s3', OPERATOR(SET));
    }
    v := LeadBehind(a, b, v, s3, s3', |s1.code|);
  }

  /** What stands before the parameters of a call, the parameters, and what stands behind them. */
  function Before(strict: nat, s: State, e: Expr): State {
    match e
    case GlobalCall(_, _) => Put(strict, s, STACK(1))
    case GlobalNobody(_) => Put(strict, s, STACK(1))
    case ObjectCall(_, target, _, _) => Write(strict, s, target)
    case SpaceCall(space, target, _, _) => Put(strict, Write(strict, s, target), CALLNS(space))
    case Nobody(target, _) => Write(strict, s, target)
    case _ => s
  }

  predicate IsCall(e: Expr) {
    e.Call? || e.NoInherited? || e.GlobalCall? || e.ObjectCall? || e.SpaceCall? || e.Nobody? || e.GlobalNobody?
  }

  function After(e: Expr): Code
    requires IsCall(e)
  {
    var n := Count(e.args);
    match e
    case Call(f, pars, args) => Balance(n, pars) + [FUNC(f, pars)]
    case NoInherited(args) => Balance(n, 0) + [STACK(1)]
    case GlobalCall(f, args) => Balance(n, MAX_PAR) + [CALL(Global, f)]
    case ObjectCall(failSafe, target, f, args) => Balance(n, MAX_PAR) + [CALL(if failSafe then FailSafe else Direct, f)]
    case SpaceCall(space, target, f, args) => Balance(n, MAX_PAR) + [CALLNS(space), CALL(Direct, f)]
    case Nobody(target, args) => Balance(n, 0) + [STACK(-1), STACK(1)]
    case GlobalNobody(args) => Balance(n, 0) + [STACK(-1), STACK(1)]
  }

  lemma OpenCall(strict: nat, s: State, e: Expr)
    requires IsCall(e)
    ensures Write(strict, s, e) == PutAll(strict, WriteAll(strict, Before(strict, s, e), e.args), After(e))
  {
    hide Put, PutAll, Balance;
  }

  lemma CallBehind(strict: nat, a: Code, b: Code, w: Code, s: State, s': State, e: Expr) returns (v: Code)
    requires Behind(a, b, w, s, s') && IsCall(e)
    ensures Behind(a, b, v, Write(strict, s, e), Write(strict, s', e))
    decreases e, 0
  {
    hide Put, PutAll, Behind, After;
    OpenCall(strict, s, e);
    OpenCall(strict, s', e);
    hide Write;
    match e {
      case GlobalCall(_, _) => v := PutBehind(strict, a, b, w, s, s', STACK(1));
      case GlobalNobody(_) => v := PutBehind(strict, a, b, w, s, s', STACK(1));
      case ObjectCall(_, target, _, _) => v := WriteBehind(strict, a, b, w, s, s', target);
      case SpaceCall(space, target, _, _) =>
        v := WriteBehind(strict, a, b, w, s, s', target);
        v := PutBehind(strict, a, b, v, Write(strict, s, target), Write(strict, s', target), CALLNS(space));
      case Nobody(target, _) => v := WriteBehind(strict, a, b, w, s, s', target);
      case _ => v := w;
    }
    var s1, s1' := Before(strict, s, e), Before(strict, s', e);
    assert Behind(a, b, v, s1, s1');
    v := WriteAllBehind(strict, a, b, v, s1, s1', e.args);
    v := PutAllBehind(strict, a, b, v, WriteAll(strict, s1, e.args), WriteAll(strict, s1', e.args), After(e));
  }

  lemma {:induction false} WriteAllBehind(strict: nat, a: Code, b: Code, w: Code, s: State, s': State, es: Exprs)
    returns (v: Code)
    requires Behind(a, b, w, s, s')
    ensures Behind(a, b, v, WriteAll(strict, s, es), WriteAll(strict, s', es))
    decreases es
  {
    hide Write, Behind;
    v := w;
    match es
    case NoExprs =>
    case More(init, last) =>
      v := WriteAllBehind(strict, a, b, w, s, s', init);
      v := WriteBehind(strict, a, b, v, WriteAll(strict, s, init), WriteAll(strict, s', init), last);
  }

  // ----- heights of what is written -----

  /** Operators have their operands. */
  predicate Proper(e: Expr)
    decreases e
  {
    match e
    case Operator(id, operands) => Count(operands) == Operands(id) && ProperAll(operands)
    case Short(_, l, r) => Proper(l) && Proper(r)
    case NilAssign(l, r) => Proper(l) && Proper(r)
    case Index(a, i, _) => Proper(a) && Proper(i)
    case Member(a, _, _) => Proper(a)
    case Append(a) => Proper(a)
    case Array(items) => ProperAll(items)
    case Map(size, entries) => Count(entries) == 2 * size && ProperAll(entries)
    case Dyn(_, i, _) => Proper(i)
    case Call(_, _, args) => ProperAll(args)
    case NoInherited(args) => ProperAll(args)
    case GlobalCall(_, args) => ProperAll(args)
    case ObjectCall(_, target, _, args) => Proper(target) && ProperAll(args)
    case SpaceCall(_, target, _, args) => Proper(target) && ProperAll(args)
    case Nobody(target, args) => Proper(target) && ProperAll(args)
    case GlobalNobody(args) => ProperAll(args)
    case _ => true
  }

  predicate ProperAll(es: Exprs)
    decreases es
  {
    es.More? ==> ProperAll(es.init) && Proper(es.last)
  }

  function Total(code: Code): int { Height(code, |code|) }

  lemma {:induction false} SameHeight(a: Code, b: Code, i: nat)
    requires i <= |a| && i <= |b| && forall j :: 0 <= j < i ==> Delta(a[j]) == Delta(b[j])
    ensures Height(a, i) == Height(b, i)
    decreases i
  {
    hide Delta;
    if i > 0 { SameHeight(a, b, i - 1); }
  }

  lemma PutTotal(strict: nat, s: State, x: Chunk)
    ensures Total(Put(strict, s, x).code) == Total(s.code) + Delta(x)
  {
    var c, n := Converted(strict, x), |s.code|;
    var code := Put(strict, s, x).code;
    if !s.jump && Joins(s.code, c) {
      SameHeight(s.code, code, n - 1);
    } else {
      SameHeight(s.code, code, n);
    }
  }

  function Sum(xs: Code): int
    decreases |xs|
  {
    if |xs| == 0 then 0 else Delta(xs[0]) + Sum(xs[1..])
  }

  lemma {:induction false} PutAllTotal(strict: nat, s: State, xs: Code)
    ensures Total(PutAll(strict, s, xs).code) == Total(s.code) + Sum(xs)
    decreases |xs|
  {
    hide Put, Delta, Height;
    if |xs| > 0 {
      PutTotal(strict, s, xs[0]);
      PutAllTotal(strict, Put(strict, s, xs[0]), xs[1..]);
    }
  }

  lemma ChangeTotal(a: Code, b: Code)
    requires |a| == |b| && forall j :: 0 <= j < |a| ==> Delta(a[j]) == Delta(b[j])
    ensures Total(a) == Total(b)
  {
    SameHeight(a, b, |a|);
  }

  lemma AfterSum(e: Expr)
    requires IsCall(e)
    ensures Sum(After(e)) == (if e.Call? || e.NoInherited? then 1 else 0) - Count(e.args)
  {
    var n := Count(e.args);
    match e
    case Call(f, pars, _) => SumBehind(n, pars, [FUNC(f, pars)]);
    case NoInherited(_) => SumBehind(n, 0, [STACK(1)]);
    case GlobalCall(f, _) => SumBehind(n, MAX_PAR, [CALL(Global, f)]);
    case ObjectCall(failSafe, _, f, _) => SumBehind(n, MAX_PAR, [CALL(if failSafe then FailSafe else Direct, f)]);
    case SpaceCall(space, _, f, _) =>
      SumBehind(n, MAX_PAR, [CALLNS(space), CALL(Direct, f)]);
      assert [CALLNS(space), CALL(Direct, f)][1..] == [CALL(Direct, f)] && [CALL(Direct, f)][1..] == [];
    case Nobody(_, _) => NobodySum(n);
    case GlobalNobody(_) => NobodySum(n);
  }

  lemma SumBehind(have: nat, want: nat, xs: Code)
    requires |xs| > 0
    ensures Sum(Balance(have, want) + xs) == want - have + Sum(xs)
    ensures Sum([xs[0]]) == Delta(xs[0])
  {
    var b := Balance(have, want);
    assert (b + xs)[|b|..] == xs;
    if have == want { assert b + xs == xs; }
  }

  lemma NobodySum(n: nat)
    ensures Sum(Balance(n, 0) + [STACK(-1), STACK(1)]) == 0 - n
  {
    SumBehind(n, 0, [STACK(-1), STACK(1)]);
    assert [STACK(-1), STACK(1)][1..] == [STACK(1)];
  }

  /** Every expression pushes one value. */
  lemma {:induction false} WriteTotal(strict: nat, s: State, e: Expr)
    requires Proper(e)
    ensures Total(Write(strict, s, e).code) == Total(s.code) + 1
    decreases e
  {
    hide Put, PutAll, Negate, Lead, Balance, Operands, Height, After;
    match e
    case Int(x) => PutTotal(strict, s, INT(x));
    case Bool(x) => PutTotal(strict, s, BOOL(x));
    case Text(t) => PutTotal(strict, s, TEXT(t));
    case Nil => PutTotal(strict, s, NIL);
    case Slot(kind, i, ref) => PutTotal(strict, s, SLOT(kind, i, ref));
    case Operator(id, operands) =>
      var s1 := WriteAll(strict, s, operands);
      WriteAllTotal(strict, s, operands);
      SignOperands();
      if id != PLUS && !(id == MINUS && EndsInInt(s1.code)) {
        PutTotal(strict, s1, OPERATOR(id));
      } else if id == MINUS {
        NegateTotal(s1);
      }
    case Short(logic, l, r) => JumpTotal(strict, s, e, l, r);
    case NilAssign(l, r) => JumpTotal(strict, s, e, l, r);
    case Index(a, i, ref) =>
      WriteTotal(strict, s, a);
      WriteTotal(strict, Write(strict, s, a), i);
      PutTotal(strict, Write(strict, Write(strict, s, a), i), ARRAYA(ref));
    case Member(a, key, ref) =>
      WriteTotal(strict, s, a);
      PutTotal(strict, Write(strict, s, a), MAPA(key, ref));
    case Append(a) =>
      WriteTotal(strict, s, a);
      PutTotal(strict, Write(strict, s, a), APPEND);
    case Array(items) =>
      WriteAllTotal(strict, s, items);
      PutTotal(strict, WriteAll(strict, s, items), ARRAY(Count(items)));
    case Map(size, entries) =>
      WriteAllTotal(strict, s, entries);
      PutTotal(strict, WriteAll(strict, s, entries), MAP(size));
    case Dyn(isVar, i, ref) =>
      WriteTotal(strict, s, i);
      PutTotal(strict, Write(strict, s, i), DYN(isVar, ref));
    case _ => CallTotal(strict, s, e);
  }

  lemma SignOperands()
    ensures Operands(PLUS) == 1 == Operands(MINUS)
    ensures Operands(SET) == 2
  {
  }

  lemma NegateTotal(s: State)
    ensures EndsInInt(s.code) ==> Total(Negate(s).code) == Total(s.code)
  {
    if EndsInInt(s.code) { ChangeTotal(s.code, Negate(s).code); }
  }

  lemma JumpTotal(strict: nat, s: State, e: Expr, l: Expr, r: Expr)
    requires Proper(l) && Proper(r) && (e == NilAssign(l, r) || (e.Short? && e == Short(e.logic, l, r)))
    ensures Total(Write(strict, s, e).code) == Total(s.code) + 1
    decreases e, 0
  {
    hide Put, Height, Operands;
    SignOperands();
    var s1 := Write(strict, s, l);
    var x := if e.Short? then JUMP(e.logic, 0) else SETJUMP(0);
    var s2 := Put(strict, s1, x);
    var s3 := Write(strict, s2, r);
    WriteTotal(strict, s, l);
    PutTotal(strict, s1, x);
    WriteTotal(strict, s2, r);
    PutTotal(strict, s3, OPERATOR(SET));
    var s4 := if e.Short? then s3 else Put(strict, s3, OPERATOR(SET));
    ChangeTotal(s4.code, Lead(s4, |s1.code|).code);
  }

  lemma CallTotal(strict: nat, s: State, e: Expr)
    requires Proper(e) && IsCall(e)
    ensures Total(Write(strict, s, e).code) == Total(s.code) + 1
    decreases e, 0
  {
    hide Put, PutAll, After, Height;
    OpenCall(strict, s, e);
    hide Write;
    var s1 := Before(strict, s, e);
    match e {
      case GlobalCall(_, _) => PutTotal(strict, s, STACK(1));
      case GlobalNobody(_) => PutTotal(strict, s, STACK(1));
      case ObjectCall(_, target, _, _) => WriteTotal(strict, s, target);
      case SpaceCall(space, target, _, _) =>
        WriteTotal(strict, s, target);
        PutTotal(strict, Write(strict, s, target), CALLNS(space));
      case Nobody(target, _) => WriteTotal(strict, s, target);
      case _ =>
    }
    WriteAllTotal(strict, s1, e.args);
    PutAllTotal(strict, WriteAll(strict, s1, e.args), After(e));
    AfterSum(e);
  }

  lemma {:induction false} WriteAllTotal(strict: nat, s: State, es: Exprs)
    requires ProperAll(es)
    ensures Total(WriteAll(strict, s, es).code) == Total(s.code) + Count(es)
    decreases es
  {
    hide Write, Height;
    match es
    case NoExprs =>
    case More(init, last) =>
      WriteAllTotal(strict, s, init);
      WriteTotal(strict, WriteAll(strict, s, init), last);
  }

  /** Exactly when going back over one value undoes the writing of an expression: every STACK on the
      way pushes, none pushes at once for two that take from it, and no chunk is miscounted. */
  lemma SkipUndoesWrite(strict: nat, s: State, e: Expr)
    requires Proper(e) && |s.code| >= 2 && Solid(s.code) && GoesOn(s.code, |s.code| - 1)
    requires Counts(Write(strict, s, e).code, |s.code|, |Write(strict, s, e).code|)
    ensures var code, p := Write(strict, s, e).code, |s.code|;
            p <= |code| && (Skip(code, |code| - 1, 1) == At(p - 1) <==> Clear(code, p, |code|, 1))
  {
    hide Write, Height, Skip, Clear, Counts;
    var code, p := Write(strict, s, e).code, |s.code|;
    var w := WriteBehind(strict, s.code, s.code, [], s, s, e) by { assert s.code + [] == s.code; }
    assert code == s.code + w;
    WriteTotal(strict, s, e);
    SameHeight(s.code, code, p);
    SameSight(s.code, code, p - 1);
    SkipExact(code, p, |code|, 1);
  }

  lemma SameSight(a: Code, b: Code, i: nat)
    requires 0 < i < |a| && i < |b| && a[i] == b[i] && a[i - 1] == b[i - 1]
    ensures See(a, i) == See(b, i) && GoesOn(a, i) == GoesOn(b, i)
  {
  }

  // ----- from references to values -----

  /** Turns the accesses at the end of the code, and the variable they start from, from references
      into values. `None` if it never comes to an end, or reads outside the operator table. */
  function SetNoRef(code: Code, pos: int): (r: Option<Code>)
    requires -1 <= pos < |code|
    ensures r.Some? ==> |r.value| == |code|
    decreases pos + 1
  {
    if pos < 0 then Option.Some(code)
    else
      match code[pos]
      case MAPA(key, true) => SetNoRef(code[pos := MAPA(key, false)], pos - 1)
      case ARRAYA(true) =>
        var code1 := code[pos := ARRAYA(false)];
        var r := Skip(code1, pos - 1, 1);
        if r.At? then SetNoRef(code1, r.pos) else Option.None
      case DYN(isVar, true) => Option.Some(code[pos := DYN(isVar, false)])
      case SLOT(kind, i, true) => Option.Some(code[pos := SLOT(kind, i, false)])
      case _ => Option.Some(code)
  }

  /** Accesses to a variable: a place that can be assigned to. */
  predicate IsPlace(e: Expr) {
    match e
    case Index(a, _, true) => IsPlace(a)
    case Member(a, _, true) => IsPlace(a)
    case Dyn(_, _, ref) => ref
    case Slot(_, _, ref) => ref
    case _ => false
  }

  /** The place whose value is wanted. */
  function ValueOf(e: Expr): Expr
    requires IsPlace(e)
  {
    match e
    case Index(a, i, _) => Index(ValueOf(a), i, false)
    case Member(a, key, _) => Member(ValueOf(a), key, false)
    case Dyn(isVar, i, _) => Dyn(isVar, i, false)
    case Slot(kind, slot, _) => Slot(kind, slot, false)
  }

  /** The way back over every index of the place is clear. */
  ghost predicate ChainClear(strict: nat, s: State, e: Expr)
    requires IsPlace(e)
  {
    match e
    case Index(a, i, _) =>
      var base := Write(strict, s, a);
      var code := Write(strict, base, i).code;
      Clear(code, |base.code|, |code|, 1) && ChainClear(strict, s, a)
    case Member(a, _, _) => ChainClear(strict, s, a)
    case _ => true
  }

  /** No object call in an index has a global call as its last parameter. */
  ghost predicate ChainCounts(strict: nat, s: State, e: Expr)
    requires IsPlace(e)
  {
    match e
    case Index(a, i, _) =>
      var base := Write(strict, s, a);
      var code := Write(strict, base, i).code;
      Counts(code, |base.code|, |code|) && ChainCounts(strict, s, a)
    case Member(a, _, _) => ChainCounts(strict, s, a)
    case _ => true
  }

  predicate RefChunk(x: Chunk) { (x.SLOT? && x.ref) || (x.DYN? && x.ref) || (x.MAPA? && x.ref) || (x.ARRAYA? && x.ref) }

  predicate ValueChunk(x: Chunk, y: Chunk) {
    match x
    case SLOT(kind, i, _) => y == SLOT(kind, i, false)
    case DYN(isVar, _) => y == DYN(isVar, false)
    case MAPA(key, _) => y == MAPA(key, false)
    case ARRAYA(_) => y == ARRAYA(false)
    case _ => false
  }

  /** The code of a place ends with a reference; that of its value differs in this chunk, too. */
  lemma {:induction false} PlaceCode(strict: nat, s: State, e: Expr)
    requires IsPlace(e) && Proper(e) && |s.code| > 0 && Total(s.code) >= 0
    ensures var c, v := Write(strict, s, e), Write(strict, s, ValueOf(e));
            Solid(c.code) && Solid(v.code) && |c.code| == |v.code| >= 2 && !c.jump && !v.jump
            && RefChunk(Last(c.code)) && ValueChunk(Last(c.code), Last(v.code))
    decreases e
  {
    hide Put, Total, Solid, Height;
    match e
    case Index(a, i, _) =>
      PlaceCode(strict, s, a);
      var c, v := Write(strict, s, a), Write(strict, s, ValueOf(a));
      var w := WriteBehind(strict, c.code, v.code, [], c, v, i) by {
        assert c.code + [] == c.code && v.code + [] == v.code;
      }
      PutSolid(strict, Write(strict, c, i), ARRAYA(true));
      PutSolid(strict, Write(strict, v, i), ARRAYA(false));
    case Member(a, key, _) =>
      PlaceCode(strict, s, a);
      PutSolid(strict, Write(strict, s, a), MAPA(key, true));
      PutSolid(strict, Write(strict, s, ValueOf(a)), MAPA(key, false));
    case Dyn(isVar, i, _) =>
      WriteTotal(strict, s, i);
      NotEmpty(Write(strict, s, i).code);
      PutSolid(strict, Write(strict, s, i), DYN(isVar, true));
      PutSolid(strict, Write(strict, s, i), DYN(isVar, false));
    case Slot(kind, slot, _) =>
      PutSolid(strict, s, SLOT(kind, slot, true));
      PutSolid(strict, s, SLOT(kind, slot, false));
  }

  lemma NotEmpty(code: Code)
    requires Total(code) > 0
    ensures |code| > 0
  {
  }

  lemma PutSolid(strict: nat, s: State, x: Chunk)
    requires x.SLOT? || x.DYN? || x.MAPA? || x.ARRAYA?
    ensures Put(strict, s, x) == State(s.code + [x], false) && Solid(s.code + [x]) && Last(s.code + [x]) == x
  {
  }

  lemma {:induction false} SetNoRefLeaves(code: Code, pos: int, k: nat)
    requires -1 <= pos < k < |code|
    ensures SetNoRef(code, pos).Some? ==> SetNoRef(code, pos).value[k] == code[k]
    decreases pos + 1
  {
    hide Skip;
    if pos >= 0 {
      match code[pos]
      case MAPA(key, true) => SetNoRefLeaves(code[pos := MAPA(key, false)], pos - 1, k);
      case ARRAYA(true) =>
        var code1 := code[pos := ARRAYA(false)];
        var r := Skip(code1, pos - 1, 1);
        SkipBack(code1, pos - 1, 1);
        if r.At? { SetNoRefLeaves(code1, r.pos, k); }
      case _ =>
    }
  }

  lemma SkipBack(code: Code, pos: int, n: int)
    requires -1 <= pos < |code|
    ensures Skip(code, pos, n).At? ==> -1 <= Skip(code, pos, n).pos <= pos
  {
  }

  /** It changes the chunk it begins with, or nothing. */
  lemma SetNoRefFirst(code: Code, pos: nat)
    requires pos < |code|
    ensures var r := SetNoRef(code, pos);
            r.Some? ==> if RefChunk(code[pos]) then r.value[pos] != code[pos] else r.value == code
  {
    hide Skip;
    match code[pos]
    case MAPA(key, true) => SetNoRefLeaves(code[pos := MAPA(key, false)], pos - 1, pos);
    case ARRAYA(true) =>
      var code1 := code[pos := ARRAYA(false)];
      SkipBack(code1, pos - 1, 1);
      if Skip(code1, pos - 1, 1).At? { SetNoRefLeaves(code1, Skip(code1, pos - 1, 1).pos, pos); }
    case _ =>
  }

  /** Begun anywhere but at the end of `c`, it does not turn `c` into `v` and leave the rest alone. */
  lemma WrongStart(c: Code, v: Code, rest: Code, pos: int)
    requires |c| == |v| > 0 && RefChunk(Last(c)) && Last(v) != Last(c) && -1 <= pos < |c + rest| && pos != |c| - 1
    ensures SetNoRef(c + rest, pos) != Option.Some(v + rest)
  {
    hide SetNoRef, RefChunk;
    var code, want, k := c + rest, v + rest, |c| - 1;
    assert code[k] == Last(c) && want[k] == Last(v);
    if pos < k {
      SetNoRefLeaves(code, pos, k);
    } else {
      assert code[pos] == want[pos];
      SetNoRefFirst(code, pos);
    }
  }

  ghost predicate Converts(strict: nat, s: State, e: Expr, rest: Code)
    requires IsPlace(e)
  {
    var c, v := Write(strict, s, e).code, Write(strict, s, ValueOf(e)).code;
    |c| > 0 && SetNoRef(c + rest, |c| - 1) == Option.Some(v + rest)
  }

  lemma {:induction false} ConvertChain(strict: nat, s: State, e: Expr, rest: Code)
    requires IsPlace(e) && Proper(e) && |s.code| > 0 && Total(s.code) >= 0
    ensures ChainClear(strict, s, e) ==> Converts(strict, s, e, rest)
    ensures ChainCounts(strict, s, e) && Converts(strict, s, e, rest) ==> ChainClear(strict, s, e)
    decreases e
  {
    hide Write, SetNoRef, Skip, Put, Clear, Counts, Solid, Total, Height;
    PlaceCode(strict, s, e);
    match e
    case Index(a, i, _) =>
      var c := Write(strict, s, a).code;
      var w := IndexCode(strict, s, a, i);
      ConvertChain(strict, s, a, w + ([ARRAYA(false)] + rest));
      ConvertIndex(strict, s, a, i, w, rest);
    case Member(a, key, _) =>
      PlaceCode(strict, s, a);
      ConvertChain(strict, s, a, [MAPA(key, false)] + rest);
      ConvertMember(strict, s, a, key, rest);
    case _ => ConvertVariable(strict, s, e, rest);
  }

  lemma ConvertVariable(strict: nat, s: State, e: Expr, rest: Code)
    requires (e.Dyn? || e.Slot?) && IsPlace(e)
    ensures Converts(strict, s, e, rest)
  {
    hide Put;
    var b := if e.Dyn? then Write(strict, s, e.i) else s;
    var x := if e.Dyn? then DYN(e.isVar, true) else SLOT(e.kind, e.slot, true);
    var y := if e.Dyn? then DYN(e.isVar, false) else SLOT(e.kind, e.slot, false);
    PutSolid(strict, b, x);
    PutSolid(strict, b, y);
    assert (b.code + [x] + rest)[|b.code|] == x;
    assert (b.code + [x] + rest)[|b.code| := y] == b.code + [y] + rest;
  }

  lemma ConvertMember(strict: nat, s: State, a: Expr, key: nat, rest: Code)
    requires IsPlace(a) && |Write(strict, s, a).code| > 0
    ensures Converts(strict, s, Member(a, key, true), rest) == Converts(strict, s, a, [MAPA(key, false)] + rest)
  {
    hide Put, SetNoRef, Solid;
    var c, v := Write(strict, s, a), Write(strict, s, ValueOf(a));
    PutSolid(strict, c, MAPA(key, true));
    PutSolid(strict, v, MAPA(key, false));
    hide Write, Converts;
    LastMember(c.code, key, rest);
    assert v.code + [MAPA(key, false)] + rest == v.code + ([MAPA(key, false)] + rest);
    ConvertsIs(strict, s, Member(a, key, true), rest, c.code + [MAPA(key, true)], v.code + [MAPA(key, false)]);
    ConvertsIs(strict, s, a, [MAPA(key, false)] + rest, c.code, v.code);
  }

  lemma LastMember(c: Code, key: nat, rest: Code)
    ensures SetNoRef(c + [MAPA(key, true)] + rest, |c|) == SetNoRef(c + ([MAPA(key, false)] + rest), |c| - 1)
  {
    hide SetNoRef;
    OneChanged(c, MAPA(key, true), MAPA(key, false), rest);
    OpenMember(c + [MAPA(key, true)] + rest, |c|, key);
  }

  lemma OneChanged(c: Code, x: Chunk, y: Chunk, rest: Code)
    ensures var code := c + [x] + rest; |c| < |code| && code[|c|] == x && code[|c| := y] == c + ([y] + rest)
  {
  }

  lemma OpenMember(code: Code, pos: nat, key: nat)
    requires pos < |code| && code[pos] == MAPA(key, true)
    ensures SetNoRef(code, pos) == SetNoRef(code[pos := MAPA(key, false)], pos - 1)
  {
  }

  /** The index is written the same way behind the reference and behind the value. */
  lemma IndexCode(strict: nat, s: State, a: Expr, i: Expr) returns (w: Code)
    requires IsPlace(a) && Proper(a) && |s.code| > 0 && Total(s.code) >= 0
    ensures Write(strict, Write(strict, s, a), i).code == Write(strict, s, a).code + w
    ensures Write(strict, s, Index(a, i, true)).code == Write(strict, s, a).code + w + [ARRAYA(true)]
    ensures Write(strict, s, ValueOf(Index(a, i, true))).code == Write(strict, s, ValueOf(a)).code + w + [ARRAYA(false)]
  {
    hide Put, Total, Solid, Height;
    PlaceCode(strict, s, a);
    var c, v := Write(strict, s, a), Write(strict, s, ValueOf(a));
    w := WriteBehind(strict, c.code, v.code, [], c, v, i) by { assert c.code + [] == c.code && v.code + [] == v.code; }
    PutSolid(strict, Write(strict, c, i), ARRAYA(true));
    PutSolid(strict, Write(strict, v, i), ARRAYA(false));
  }

  lemma ConvertIndex(strict: nat, s: State, a: Expr, i: Expr, w: Code, rest: Code)
    requires IsPlace(a) && Proper(a) && Proper(i) && |s.code| > 0 && Total(s.code) >= 0
    requires Write(strict, Write(strict, s, a), i).code == Write(strict, s, a).code + w
    requires Write(strict, s, Index(a, i, true)).code == Write(strict, s, a).code + w + [ARRAYA(true)]
    requires Write(strict, s, ValueOf(Index(a, i, true))).code
             == Write(strict, s, ValueOf(a)).code + w + [ARRAYA(false)]
    ensures var c, e := Write(strict, s, a).code, Index(a, i, true);
            var way := Clear(c + w, |c|, |c + w|, 1);
            var more := Converts(strict, s, a, w + ([ARRAYA(false)] + rest));
            (way && more ==> Converts(strict, s, e, rest))
            && (Counts(c + w, |c|, |c + w|) && Converts(strict, s, e, rest) ==> way && more)
  {
    hide Write, SetNoRef, Skip, Put, Clear, Counts, Solid, Total, Height, RefChunk, ValueChunk, Converts;
    var c, v := Write(strict, s, a).code, Write(strict, s, ValueOf(a)).code;
    PlaceCode(strict, s, a);
    ValueDiffers(Last(c), Last(v));
    WriteTotal(strict, Write(strict, s, a), i);
    ConvertBack(c, v, w, rest);
    ConvertsIs(strict, s, a, w + ([ARRAYA(false)] + rest), c, v);
    ConvertsIs(strict, s, Index(a, i, true), rest, c + w + [ARRAYA(true)], v + w + [ARRAYA(false)]);
  }

  lemma ConvertsIs(strict: nat, s: State, e: Expr, rest: Code, c: Code, v: Code)
    requires IsPlace(e) && c == Write(strict, s, e).code && v == Write(strict, s, ValueOf(e)).code && |c| > 0
    ensures Converts(strict, s, e, rest) <==> SetNoRef(c + rest, |c| - 1) == Option.Some(v + rest)
  {
    hide Write, SetNoRef;
  }

  lemma ConvertBack(c: Code, v: Code, w: Code, rest: Code)
    requires |c| == |v| >= 2 && RefChunk(Last(c)) && Last(v) != Last(c) && Total(c + w) == Total(c) + 1
    ensures var tail := w + ([ARRAYA(false)] + rest);
            var way := Clear(c + w, |c|, |c + w|, 1);
            var more := SetNoRef(c + tail, |c| - 1) == Option.Some(v + tail);
            var all := SetNoRef(c + w + [ARRAYA(true)] + rest, |c| + |w|)
                == Option.Some(v + w + [ARRAYA(false)] + rest);
            (way && more ==> all) && (Counts(c + w, |c|, |c + w|) && all ==> way && more)
  {
    hide SetNoRef, Skip, Clear, Counts, Total, RefChunk;
    var tail := w + ([ARRAYA(false)] + rest);
    var code1, pos := c + tail, |c| + |w|;
    assert c + tail == c + w + ([ARRAYA(false)] + rest) && v + tail == v + w + [ARRAYA(false)] + rest;
    FirstIndex(c, w, rest);
    WayBack(c, w, [ARRAYA(false)] + rest);
    SkipBack(code1, pos - 1, 1);
    var r := Skip(code1, pos - 1, 1);
    if r.At? && r.pos != |c| - 1 { WrongStart(c, v, tail, r.pos); }
  }

  lemma ValueDiffers(x: Chunk, y: Chunk)
    requires RefChunk(x) && ValueChunk(x, y)
    ensures x != y
  {
  }

  /** The last access becomes a value, and the way goes back over the index. */
  lemma FirstIndex(c: Code, w: Code, rest: Code)
    ensures var code, code1, pos := c + w + [ARRAYA(true)] + rest, c + (w + ([ARRAYA(false)] + rest)), |c| + |w|;
            |c + w + [ARRAYA(true)]| - 1 == pos && pos < |code| == |code1|
            && var r := Skip(code1, pos - 1, 1);
               SetNoRef(code, pos) == if r.At? then SetNoRef(code1, r.pos) else Option.None
  {
    hide Skip;
    var code, code1, pos := c + w + [ARRAYA(true)] + rest, c + (w + ([ARRAYA(false)] + rest)), |c| + |w|;
    assert code[pos] == ARRAYA(true);
    assert code[pos := ARRAYA(false)] == code1;
  }

  /** Where the way back over the index leads. */
  lemma WayBack(c: Code, w: Code, rest: Code)
    requires |c| >= 2 && RefChunk(Last(c)) && Total(c + w) == Total(c) + 1
    ensures var code, p, q := c + w + rest, |c|, |c| + |w|;
            (Clear(c + w, p, q, 1) ==> Skip(code, q - 1, 1) == At(p - 1))
            && (Counts(c + w, p, q) && Skip(code, q - 1, 1) == At(p - 1) ==> Clear(c + w, p, q, 1))
  {
    hide Skip, Clear, Counts, Delta;
    var code, p, q := c + w + rest, |c|, |c| + |w|;
    SameHeight(c, code, p);
    SameHeight(c + w, code, q);
    ClearPrefix(c + w, rest, p, q);
    assert code[p - 1] == Last(c);
    RefGoesOn(code, p - 1);
    if Clear(code, p, q, 1) { ClearLeads(code, p, q, 1); }
    if Counts(code, p, q) { SkipExact(code, p, q, 1); }
  }

  lemma RefGoesOn(code: Code, i: nat)
    requires 0 < i < |code| && RefChunk(code[i])
    ensures GoesOn(code, i)
  {
  }

  /** Whether the way is clear does not depend on what comes later. */
  lemma ClearPrefix(code: Code, rest: Code, p: nat, q: nat)
    requires p <= q == |code|
    ensures Clear(code + rest, p, q, 1) == Clear(code, p, q, 1)
    ensures Counts(code + rest, p, q) == Counts(code, p, q)
  {
    hide Height, Delta, See, ClearAt, Undercounted, Begins;
    var all := code + rest;
    BeginsPrefix(code, rest, p, q, 1);
    forall i: nat | 0 < i < q ensures ClearAt(all, p, i) == ClearAt(code, p, i)
        && Undercounted(all, i) == Undercounted(code, i) {
      ClearAtPrefix(code, rest, p, i);
    }
  }

  lemma BeginsPrefix(code: Code, rest: Code, b: nat, i: nat, k: nat)
    requires i <= |code|
    ensures Begins(code + rest, b, i, k) == Begins(code, b, i, k)
  {
    hide Height, Delta;
    forall j: nat | j <= i ensures Height(code + rest, j) == Height(code, j) { SameHeight(code + rest, code, j); }
  }

  lemma ClearAtPrefix(code: Code, rest: Code, p: nat, i: nat)
    requires 0 < i < |code|
    ensures ClearAt(code + rest, p, i) == ClearAt(code, p, i) && Undercounted(code + rest, i) == Undercounted(code, i)
  {
    hide Height, Delta, See, Begins;
    SameSight(code, code + rest, i);
    forall b: nat, k: nat ensures Begins(code + rest, b, i, k) == Begins(code, b, i, k) {
      BeginsPrefix(code, rest, b, i, k);
    }
  }

  /** For every place: the whole chain of accesses becomes the chain of values, and no other chunk
      changes, exactly if the way back over every index is clear. */
  lemma SetNoRefExact(strict: nat, s: State, e: Expr)
    requires IsPlace(e) && Proper(e) && |s.code| > 0 && Total(s.code) >= 0 && ChainCounts(strict, s, e)
    ensures var code := Write(strict, s, e).code;
            |code| > 0
            && (SetNoRef(code, |code| - 1) == Option.Some(Write(strict, s, ValueOf(e)).code)
                <==> ChainClear(strict, s, e))
  {
    hide Write, SetNoRef, ChainClear, ChainCounts, Total;
    ConvertChain(strict, s, e, []);
    PlaceCode(strict, s, e);
    var c, v := Write(strict, s, e).code, Write(strict, s, ValueOf(e)).code;
    assert c + [] == c && v + [] == v;
  }

  /** Where the way is clear, the calls of global functions do not matter. */
  lemma ClearSetsNoRef(strict: nat, s: State, e: Expr)
    requires IsPlace(e) && Proper(e) && |s.code| > 0 && Total(s.code) >= 0 && ChainClear(strict, s, e)
    ensures var code := Write(strict, s, e).code;
            |code| > 0 && SetNoRef(code, |code| - 1) == Option.Some(Write(strict, s, ValueOf(e)).code)
  {
    hide Write, SetNoRef, ChainClear, Total;
    ConvertChain(strict, s, e, []);
    PlaceCode(strict, s, e);
    var c, v := Write(strict, s, e).code, Write(strict, s, ValueOf(e)).code;
    assert c + [] == c && v + [] == v;
  }

  // ----- where it goes wrong -----

  const B: Chunk := SLOT(0, 0, true)
  const A: Chunk := SLOT(0, 1, true)

  /** `b = a[0 + f()]` below strict 3, where `f` takes ten parameters. The 0 and the parameters are
      pushed at once, so the way back leads over `a` to `b`: the place to assign to becomes a value,
      and `a` stays a reference. */
  lemma ZeroBeforeCall()
    ensures var e := Index(Slot(0, 1, true), Operator(13, More(More(NoExprs, Int(0)), Call(7, 10, NoExprs))), true);
            var code := Write(2, State([B], false), e).code;
            code == [B, A, STACK(11), FUNC(7, 10), OPERATOR(13), ARRAYA(true)]
            && SetNoRef(code, 5) == Option.Some([SLOT(0, 0, false), A, STACK(11), FUNC(7, 10), OPERATOR(13),
                ARRAYA(false)])
  {
    hide Write, Operands;
    ZeroCode();
    OneOrTwo(13);
    var code := [B, A, STACK(11), FUNC(7, 10), OPERATOR(13), ARRAYA(true)];
    var code1 := code[5 := ARRAYA(false)];
    assert Skip(code1, 2, 10) == At(1);
    assert Skip(code1, 3, 2) == At(0);
    assert Skip(code1, 4, 1) == At(0);
    var code2 := [SLOT(0, 0, false), A, STACK(11), FUNC(7, 10), OPERATOR(13), ARRAYA(false)];
    assert code1[0 := SLOT(0, 0, false)] == code2;
    assert SetNoRef(code1, 0) == Option.Some(code2);
    assert SetNoRef(code, 5) == SetNoRef(code1, 0);
  }

  /** Some expressions written out. */
  lemma Opened(strict: nat, s: State, a: Expr, i: Expr, es: Exprs, n: int, f: nat, pars: nat)
    ensures Write(strict, s, Index(a, i, true)) == Put(strict, Write(strict, Write(strict, s, a), i), ARRAYA(true))
    ensures Write(strict, s, Slot(0, 1, true)) == Put(strict, s, A)
    ensures Write(strict, s, Int(n)) == Put(strict, s, INT(n))
    ensures Write(strict, s, Operator(13, es)) == Put(strict, WriteAll(strict, s, es), OPERATOR(13))
    ensures Count(es) != pars ==> Write(strict, s, Call(f, pars, es))
                                  == Put(strict, Put(strict, WriteAll(strict, s, es), STACK(pars - Count(es))),
                                      FUNC(f, pars))
    ensures WriteAll(strict, s, NoExprs) == s
  {
    hide Put;
    if Count(es) != pars { TwoPuts(strict, WriteAll(strict, s, es), STACK(pars - Count(es)), FUNC(f, pars)); }
  }

  lemma PutNext(strict: nat, code: Code, x: Chunk)
    ensures !Converted(strict, x).STACK? ==> Put(strict, State(code, false), x) == State(code + [x], false)
    ensures strict < 3 && x == INT(0) && |code| > 0 && !Last(code).STACK?
            ==> Put(strict, State(code, false), x) == State(code + [STACK(1)], false)
    ensures x.STACK? && |code| > 0 && !Last(code).STACK?
            ==> Put(strict, State(code, false), x) == State(code + [x], false)
  {
  }

  lemma PutJoined(strict: nat, code: Code, n: nat, m: nat)
    requires n + m > 0
    ensures Put(strict, State(code + [STACK(n)], false), STACK(m)) == State(code + [STACK(n + m)], false)
  {
    assert (code + [STACK(n)])[|code| := STACK(n + m)] == code + [STACK(n + m)];
  }

  lemma ZeroCode()
    ensures Write(2, State([B], false), Index(Slot(0, 1, true),
            Operator(13, More(More(NoExprs, Int(0)), Call(7, 10, NoExprs))), true)).code
            == [B, A, STACK(11), FUNC(7, 10), OPERATOR(13), ARRAYA(true)]
  {
    hide Put, PutAll, Write, WriteAll, Balance;
    var c2: Code, c3: Code, c4: Code := [B, A], [B, A, STACK(1)], [B, A, STACK(11)];
    var c5: Code, c6: Code := [B, A, STACK(11), FUNC(7, 10)], [B, A, STACK(11), FUNC(7, 10), OPERATOR(13)];
    PutNext(2, [B], A);
    assert [B] + [A] == c2;
    PutNext(2, c2, INT(0));
    assert c2 + [STACK(1)] == c3 && c2 + [STACK(11)] == c4;
    PutJoined(2, c2, 1, 10);
    PutNext(2, c4, FUNC(7, 10));
    assert c4 + [FUNC(7, 10)] == c5 && c5 + [OPERATOR(13)] == c6;
    PutNext(2, c5, OPERATOR(13));
    PutNext(2, c6, ARRAYA(true));
    var call, sum := Call(7, 10, NoExprs), More(More(NoExprs, Int(0)), Call(7, 10, NoExprs));
    OneByOne(2, State(c2, false), Int(0), call);
    Opened(2, State([B], false), Slot(0, 1, true), Operator(13, sum), NoExprs, 0, 7, 10);
    Opened(2, State(c2, false), Int(0), call, sum, 0, 7, 10);
    Opened(2, State(c3, false), Int(0), call, NoExprs, 0, 7, 10);
  }

  lemma TwoPuts(strict: nat, s: State, x: Chunk, y: Chunk)
    ensures PutAll(strict, s, [x] + [y]) == Put(strict, Put(strict, s, x), y)
  {
    hide Put;
    assert ([x] + [y])[1..] == [y] && [y][1..] == [];
    assert PutAll(strict, Put(strict, s, x), [y]) == Put(strict, Put(strict, s, x), y);
  }

  lemma OneByOne(strict: nat, s: State, a: Expr, b: Expr)
    ensures WriteAll(strict, s, More(More(NoExprs, a), b)) == Write(strict, Write(strict, s, a), b)
  {
    hide Write;
    assert WriteAll(strict, s, More(NoExprs, a)) == Write(strict, s, a);
  }

  /** `a[f(1, 2)]`, where `f` takes one parameter: the compiler never comes back. */
  lemma TooManyParametersHang()
    ensures var e := Index(Slot(0, 1, true), Call(7, 1, More(More(NoExprs, Int(1)), Int(2))), true);
            var code := Write(3, State([B], false), e).code;
            code == [B, A, INT(1), INT(2), STACK(-1), FUNC(7, 1), ARRAYA(true)] && SetNoRef(code, 6) == Option.None
  {
    hide Write;
    HangingCode();
    var code := [B, A, INT(1), INT(2), STACK(-1), FUNC(7, 1), ARRAYA(true)];
    var code1 := code[6 := ARRAYA(false)];
    assert Skip(code1, 4, 1) == Hangs;
    assert Skip(code1, 5, 1) == Hangs;
  }

  lemma HangingCode()
    ensures Write(3, State([B], false), Index(Slot(0, 1, true), Call(7, 1, More(More(NoExprs, Int(1)), Int(2))),
            true)).code
            == [B, A, INT(1), INT(2), STACK(-1), FUNC(7, 1), ARRAYA(true)]
  {
    hide Put, PutAll, Write, WriteAll, Balance;
    var c2: Code, c3: Code, c4: Code := [B, A], [B, A, INT(1)], [B, A, INT(1), INT(2)];
    var c5: Code, c6: Code := [B, A, INT(1), INT(2), STACK(-1)], [B, A, INT(1), INT(2), STACK(-1), FUNC(7, 1)];
    PutNext(3, [B], A);
    assert [B] + [A] == c2;
    PutNext(3, c2, INT(1));
    PutNext(3, c3, INT(2));
    assert c2 + [INT(1)] == c3 && c3 + [INT(2)] == c4;
    PutNext(3, c4, STACK(-1));
    PutNext(3, c5, FUNC(7, 1));
    assert c4 + [STACK(-1)] == c5 && c5 + [FUNC(7, 1)] == c6;
    PutNext(3, c6, ARRAYA(true));
    var two := More(More(NoExprs, Int(1)), Int(2));
    OneByOne(3, State(c2, false), Int(1), Int(2));
    Opened(3, State([B], false), Slot(0, 1, true), Call(7, 1, two), NoExprs, 0, 7, 1);
    Opened(3, State(c2, false), Int(1), Int(2), two, 1, 7, 1);
    Opened(3, State(c3, false), Int(1), Int(2), NoExprs, 2, 7, 1);
    assert Count(two) == 2;
  }

  /** `a[b ??= c]`: the jump's distance is taken for the number of an operator. From 8 on that
      operator has two operands, and one value too many is skipped; behind 46, the entry that ends
      the table, there is none. */
  lemma NilAssignSkipped(pre: Code, c: Code, off: int)
    requires |pre| >= 2 && off > 0
    ensures var code := pre + [B, SETJUMP(off)];
            Skip(code, |pre| + 1, 1) ==
            if off > 46 then Lost else if off < 8 || off == 46 then At(|pre| - 1)
                else Skip(pre + [B, SETJUMP(off)], |pre| - 1, 1)
  {
    hide Operands;
    var code, n := pre + [B, SETJUMP(off)], |pre|;
    assert code[n] == B && code[n + 1] == SETJUMP(off);
    if off <= 46 {
      if off < 46 { OneOrTwo(off); }
      assert Skip(code, n, 1) == Skip(code, n - 1, 0) == At(n - 1);
      assert Skip(code, n, 2) == Skip(code, n - 1, 1);
      SkipDone(code, n - 1);
    }
  }

  lemma SkipDone(code: Code, pos: int)
    requires pos < |code|
    ensures forall r: int :: r < |code| ==> Skip(code, r, 0) == At(r)
  {
  }

  lemma OneOrTwo(id: Grammar.OpId)
    ensures Operands(id) == if id < 8 then 1 else 2
  {
  }

  /** `a[x->f(1, ..., 9, global->g())]`: for the outer call one value too few is skipped. The way
      ends at `x`, and `a` stays a reference. */
  lemma GlobalCallLast(strict: nat)
    ensures var x := SLOT(0, 2, false);
            var nine: Code := [INT(1), INT(2), INT(3), INT(4), INT(5), INT(6), INT(7), INT(8), INT(9)];
            var code := [B, A, x] + nine + [STACK(11), CALL(Global, 8), CALL(Direct, 7), ARRAYA(true)];
            SetNoRef(code, 15) == Option.Some(code[15 := ARRAYA(false)])
  {
    var x := SLOT(0, 2, false);
    var nine: Code := [INT(1), INT(2), INT(3), INT(4), INT(5), INT(6), INT(7), INT(8), INT(9)];
    var code := [B, A, x] + nine + [STACK(11), CALL(Global, 8), CALL(Direct, 7), ARRAYA(false)];
    assert [B, A, x] + nine + [STACK(11), CALL(Global, 8), CALL(Direct, 7), ARRAYA(true)] == code[15 := ARRAYA(true)];
    IntsSkipped(code, 11, 9, 9);
    assert Skip(code, 12, 11) == At(11);
    assert Skip(code, 13, 10) == Skip(code, 11, 9) == At(2);
    assert Skip(code, 14, 1) == At(2);
  }

  lemma {:induction false} IntsSkipped(code: Code, pos: nat, n: nat, k: nat)
    requires k <= n && k <= pos < |code| && forall i :: pos - k < i <= pos ==> code[i].INT?
    ensures Skip(code, pos, n) == Skip(code, pos - k, n - k)
    decreases k
  {
    if k > 0 { IntsSkipped(code, pos - 1, n - 1, k - 1); }
  }

  /** `a[0->f(0, 1, ..., 8, global->g())]` below strict 3: the 0 and the first parameter are pushed at
      once, which makes up for the one value too few. Where a call is counted so, the way can be found
      without being clear. */
  lemma MiscountsCancel()
    ensures var eight: Code := [INT(1), INT(2), INT(3), INT(4), INT(5), INT(6), INT(7), INT(8)];
            var code := [B, A, STACK(2)] + eight + [STACK(11), CALL(Global, 8), CALL(Direct, 7)];
            Skip(code, 13, 1) == At(1) && Height(code, 14) == Height(code, 2) + 1 && !Counts(code, 2, 14)
            && !Clear(code, 2, 14, 1)
  {
    hide Height, Begins, Operands;
    var eight: Code := [INT(1), INT(2), INT(3), INT(4), INT(5), INT(6), INT(7), INT(8)];
    var code := [B, A, STACK(2)] + eight + [STACK(11), CALL(Global, 8), CALL(Direct, 7)];
    IntsSkipped(code, 10, 9, 8);
    assert Skip(code, 2, 1) == At(1);
    assert Skip(code, 11, 11) == At(10);
    assert Skip(code, 12, 10) == Skip(code, 10, 9) == At(1);
    assert Undercounted(code, 13) && !ClearAt(code, 2, 13);
    MiscountsHeight(code);
  }

  lemma MiscountsHeight(code: Code)
    requires |code| == 14 && code[2] == STACK(2) && (forall j :: 3 <= j < 11 ==> code[j].INT?)
    requires code[11] == STACK(11) && code[12].CALL? && code[13].CALL?
    ensures Height(code, 14) == Height(code, 2) + 1
  {
    hide Height, Operands;
    HeightNext(code, 2);
    IntsHeight(code, 3, 8);
    HeightNext(code, 11);
    HeightNext(code, 12);
    HeightNext(code, 13);
  }

  lemma {:induction false} IntsHeight(code: Code, i: nat, k: nat)
    requires i + k <= |code| && forall j :: i <= j < i + k ==> code[j].INT?
    ensures Height(code, i + k) == Height(code, i) + k
    decreases k
  {
    if k > 0 { IntsHeight(code, i, k - 1); }
  }

  // ----- the compiler at work -----

  /** The written code, and the way back over it. Where the compiler would not come back, or would
      read outside the operator table, the methods return `lost`. */
  class Chunks {
    const code: array<Chunk>

    constructor (chunks: Code)
      ensures code[..] == chunks && fresh(code)
    {
      code := new Chunk[|chunks|](i requires 0 <= i < |chunks| => chunks[i]);
    }

    method SkipExpressions(n: int, from: int) returns (pos: int, lost: bool)
      requires from < code.Length
      ensures if lost then !Skip(code[..], from, n).At? else Skip(code[..], from, n) == At(pos)
      decreases if from < 0 then 0 else from
    {
      hide Skip, See;
      var left := n;
      pos := from;
      while left > 0 && pos > 0
        invariant pos <= from && Skip(code[..], pos, left) == Skip(code[..], from, n)
        decreases if pos < 0 then 0 else pos
      {
        SkipStep(code[..], pos, left);
        match See(code[..], pos) {
          case Values(k) =>
            if k <= 0 { return pos, true; }
            left := left - k;
            pos := pos - 1;
          case Value =>
            left := left - 1;
            pos := pos - 1;
          case Passed => pos := pos - 1;
          case Result(k) =>
            pos, lost := SkipExpressions(k, pos - 1);
            if lost { return pos, true; }
            left := left - 1;
          case Unknown => return pos, false;
          case Outside => return pos, true;
        }
      }
      SkipNothing(code[..], pos, left);
      lost := false;
    }

    method NoRef() returns (lost: bool)
      modifies code
      ensures SetNoRef(old(code[..]), code.Length - 1) == if lost then Option.None else Option.Some(code[..])
    {
      var pos := code.Length - 1;
      while pos >= 0
        invariant -1 <= pos < code.Length
        invariant SetNoRef(code[..], pos) == SetNoRef(old(code[..]), code.Length - 1)
      {
        ghost var before := code[..];
        match code[pos] {
          case MAPA(key, true) =>
            code[pos] := MAPA(key, false);
            assert code[..] == before[pos := MAPA(key, false)];
            pos := pos - 1;
          case ARRAYA(true) =>
            code[pos] := ARRAYA(false);
            assert code[..] == before[pos := ARRAYA(false)];
            pos, lost := SkipExpressions(1, pos - 1);
            if lost { return true; }
          case DYN(isVar, true) =>
            code[pos] := DYN(isVar, false);
            assert code[..] == before[pos := DYN(isVar, false)];
            return false;
          case SLOT(kind, i, true) =>
            code[pos] := SLOT(kind, i, false);
            assert code[..] == before[pos := SLOT(kind, i, false)];
            return false;
          case _ => return false;
        }
      }
      lost := false;
    }
  }

  lemma SkipStep(code: Code, pos: int, n: int)
    requires 0 < pos < |code| && n > 0
    ensures Skip(code, pos, n) ==
            match See(code, pos)
            case Value => Skip(code, pos - 1, n - 1)
            case Values(k) => if k > 0 then Skip(code, pos - 1, n - k) else Hangs
            case Passed => Skip(code, pos - 1, n)
            case Result(k) =>
              (var inner := Skip(code, pos - 1, k);
               if inner.At? then Skip(code, inner.pos, n - 1) else inner)
            case Unknown => At(pos)
            case Outside => Lost
  {
    hide See;
  }

  lemma SkipNothing(code: Code, pos: int, n: int)
    requires pos < |code| && (n <= 0 || pos <= 0)
    ensures Skip(code, pos, n) == At(pos)
  {
  }
}
