/** Expressions as text: the operator table, the parser that climbs its priorities, and a printer
    that writes parentheses only where priority and associativity need them. */
module Grammar {
  import opened Wrappers

  // ----- operators -----

  /** `postfix`: stands behind its first operand; `single`: it has no second one. */
  datatype Op = Op(prio: int, name: string, postfix: bool, right: bool, single: bool)

  type OpId = i: nat | i < 46 witness 0

  function Table(id: OpId): Op {
    match id
    case 0 => Op(16, "++", false, true, false)
    case 1 => Op(16, "--", false, true, false)
    case 2 => Op(16, "~", false, true, false)
    case 3 => Op(16, "!", false, true, false)
    case 4 => Op(16, "+", false, true, false)
    case 5 => Op(16, "-", false, true, false)
    case 6 => Op(17, "++", true, true, true)
    case 7 => Op(17, "--", true, true, true)
    case 8 => Op(15, "**", true, false, false)
    case 9 => Op(14, "/", true, false, false)
    case 10 => Op(14, "*", true, false, false)
    case 11 => Op(14, "%", true, false, false)
    case 12 => Op(13, "-", true, false, false)
    case 13 => Op(13, "+", true, false, false)
    case 14 => Op(12, "<<", true, false, false)
    case 15 => Op(12, ">>", true, false, false)
    case 16 => Op(11, "<", true, false, false)
    case 17 => Op(11, "<=", true, false, false)
    case 18 => Op(11, ">", true, false, false)
    case 19 => Op(11, ">=", true, false, false)
    case 20 => Op(10, "..", true, false, false)
    case 21 => Op(9, "==", true, false, false)
    case 22 => Op(9, "!=", true, false, false)
    case 23 => Op(9, "S=", true, false, false)
    case 24 => Op(9, "eq", true, false, false)
    case 25 => Op(9, "ne", true, false, false)
    case 26 => Op(8, "&", true, false, false)
    case 27 => Op(6, "^", true, false, false)
    case 28 => Op(6, "|", true, false, false)
    case 29 => Op(5, "&&", true, false, false)
    case 30 => Op(4, "||", true, false, false)
    case 31 => Op(3, "??", true, false, false)
    case 32 => Op(2, "**=", true, true, false)
    case 33 => Op(2, "*=", true, true, false)
    case 34 => Op(2, "/=", true, true, false)
    case 35 => Op(2, "%=", true, true, false)
    case 36 => Op(2, "+=", true, true, false)
    case 37 => Op(2, "-=", true, true, false)
    case 38 => Op(2, "<<=", true, true, false)
    case 39 => Op(2, ">>=", true, true, false)
    case 40 => Op(2, "..=", true, true, false)
    case 41 => Op(2, "&=", true, true, false)
    case 42 => Op(2, "|=", true, true, false)
    case 43 => Op(2, "^=", true, true, false)
    case 44 => Op(2, "??=", true, true, false)
    case _ => Op(2, "=", true, true, false)
  }

  /** The lexer finds the first operator of a name; behind an operand the parser takes the next
      one of that name that may stand there. */
  function Search(id: OpId, i: nat): Option<OpId>
    decreases 46 - i
  {
    if i >= 46 then None
    else if Table(i).name == Table(id).name && Table(i).postfix then Some(i)
    else Search(id, i + 1)
  }

  function Behind(id: OpId): Option<OpId> { if Table(id).postfix then Some(id) else Search(id, id + 1) }

  /** The first operator with the same name. */
  function Spelled(id: OpId): OpId {
    if id == 6 then 0 else if id == 7 then 1 else if id == 12 then 5 else if id == 13 then 4 else id
  }

  /** Names shared by two operators are told apart by where they stand. */
  lemma Shared(id: OpId)
    ensures Table(Spelled(id)).name == Table(id).name
    ensures Table(id).postfix ==> Behind(Spelled(id)) == Some(id)
    ensures !Table(id).postfix ==> Spelled(id) == id
  {
    if id == 6 { assert Search(0, 6) == Some(6); }
    if id == 12 { assert Search(5, 12) == Some(12); }
  }

  // ----- expressions and tokens -----

  datatype Expr =
    | Nothing                                     // nil
    | Atom(n: nat)                                // a variable or another constant
    | Prefix(op: OpId, e: Expr)
    | Postfix(op: OpId, e: Expr)
    | Binary(op: OpId, l: Expr, r: Expr)
    | Call(f: nat, args: Args)
    | Index(e: Expr, i: Expr)
    | Member(e: Expr, m: nat)
    | Method(e: Expr, f: nat, args: Args)

  datatype Args = NoArgs | Arg(e: Expr, rest: Args)

  datatype Token =
    | TNil | TAtom(n: nat) | TOp(id: OpId) | TFunc(f: nat) | TArrow(f: nat) | TDot(m: nat)
    | TOpen | TClose | TOpen2 | TClose2 | TComma

  // ----- the parser -----

  datatype Parsed = Ok(e: Expr, rest: seq<Token>) | Err

  datatype ParsedArgs = OkArgs(args: Args, rest: seq<Token>) | ErrArgs

  /** An operator is left to the operators around if it binds less. */
  predicate Accepts(id: OpId, prio: int) {
    if Table(id).right then Table(id).prio >= prio else Table(id).prio > prio
  }

  predicate Starts(ts: seq<Token>, t: Token) { |ts| > 0 && ts[0] == t }

  function Parse(ts: seq<Token>, prio: int): (r: Parsed)
    ensures r.Ok? ==> |r.rest| < |ts|
    decreases |ts|, 1
  {
    if |ts| == 0 then Err
    else
      match ts[0]
      case TNil => More(Nothing, ts[1..], prio)
      case TAtom(n) => More(Atom(n), ts[1..], prio)
      case TFunc(f) =>
        var a := Params(ts[1..]);
        if a.ErrArgs? then Err else More(Call(f, a.args), a.rest, prio)
      case TOp(id) =>
        if Table(id).postfix then Err
        else
          var e := Parse(ts[1..], Table(id).prio);
          if e.Err? then Err else More(Prefix(id, e.e), e.rest, prio)
      case TOpen =>
        var e := Parse(ts[1..], -1);
        if e.Err? || !Starts(e.rest, TClose) then Err else More(e.e, e.rest[1..], prio)
      case _ => Err
  }

  /** What may follow an operand. */
  function More(e: Expr, ts: seq<Token>, prio: int): (r: Parsed)
    ensures r.Ok? ==> |r.rest| <= |ts|
    decreases |ts|, 0
  {
    if |ts| == 0 then Ok(e, ts)
    else
      match ts[0]
      case TOp(first) =>
        var id := Behind(first);
        if id.None? then Err
        else if !Accepts(id.value, prio) then Ok(e, ts)
        else if Table(id.value).single then More(Postfix(id.value, e), ts[1..], prio)
        else
          var r := Parse(ts[1..], Table(id.value).prio);
          if r.Err? then Err else More(Binary(id.value, e, r.e), r.rest, prio)
      case TOpen2 =>
        var i := Parse(ts[1..], -1);
        if i.Err? || !Starts(i.rest, TClose2) then Err else More(Index(e, i.e), i.rest[1..], prio)
      case TDot(m) => More(Member(e, m), ts[1..], prio)
      case TArrow(f) =>
        var a := Params(ts[1..]);
        if a.ErrArgs? then Err else More(Method(e, f, a.args), a.rest, prio)
      case _ => Ok(e, ts)
  }

  function Params(ts: seq<Token>): (r: ParsedArgs)
    ensures r.OkArgs? ==> |r.rest| < |ts|
    decreases |ts|, 0
  {
    if Starts(ts, TOpen) then Items(ts[1..], false) else ErrArgs
  }

  /** A missing parameter is nil. */
  function Items(ts: seq<Token>, some: bool): (r: ParsedArgs)
    ensures r.OkArgs? ==> |r.rest| < |ts|
    decreases |ts|, 2
  {
    if |ts| == 0 then ErrArgs
    else if ts[0] == TClose then OkArgs(if some then Arg(Nothing, NoArgs) else NoArgs, ts[1..])
    else if ts[0] == TComma then
      var a := Items(ts[1..], true);
      if a.ErrArgs? then ErrArgs else OkArgs(Arg(Nothing, a.args), a.rest)
    else
      var e := Parse(ts, -1);
      if e.Err? then ErrArgs
      else if Starts(e.rest, TClose) then OkArgs(Arg(e.e, NoArgs), e.rest[1..])
      else if Starts(e.rest, TComma) then
        var a := Items(e.rest[1..], true);
        if a.ErrArgs? then ErrArgs else OkArgs(Arg(e.e, a.args), a.rest)
      else ErrArgs
  }

  // ----- the printer -----

  /** The operators stand where the table says they may. */
  predicate Proper(e: Expr) {
    match e
    case Prefix(op, x) => !Table(op).postfix && Proper(x)
    case Postfix(op, x) => Table(op).postfix && Table(op).single && Proper(x)
    case Binary(op, l, r) => Table(op).postfix && !Table(op).single && Proper(l) && Proper(r)
    case Call(_, args) => ProperArgs(args)
    case Index(x, i) => Proper(x) && Proper(i)
    case Member(x, _) => Proper(x)
    case Method(x, _, args) => Proper(x) && ProperArgs(args)
    case _ => true
  }

  predicate ProperArgs(a: Args) { a.Arg? ==> Proper(a.e) && ProperArgs(a.rest) }

  /** An expression whose end takes no more operators or accesses. */
  predicate Closed(e: Expr) { !e.Prefix? && !e.Binary? }

  /** The priority with which the end of the expression was read. */
  function EndPrio(e: Expr): int
    requires !Closed(e)
  {
    Table(e.op).prio
  }

  /** Without parentheses, may `l` stand left of the operator? May `r` stand to the right of an
      operator of this priority? */
  predicate BareLeft(l: Expr, op: OpId) { Closed(l) || !Accepts(op, EndPrio(l)) }

  predicate BareRight(r: Expr, prio: int) { r.Binary? ==> Accepts(r.op, prio) }

  function Wrap(ts: seq<Token>, bare: bool): seq<Token> { if bare then ts else [TOpen] + ts + [TClose] }

  function Show(e: Expr): seq<Token>
    decreases e
  {
    match e
    case Nothing => [TNil]
    case Atom(n) => [TAtom(n)]
    case Prefix(op, x) => [TOp(op)] + Wrap(Show(x), BareRight(x, Table(op).prio))
    case Postfix(op, x) => Wrap(Show(x), BareLeft(x, op)) + [TOp(Spelled(op))]
    case Binary(op, l, r) =>
      Wrap(Show(l), BareLeft(l, op)) + [TOp(Spelled(op))] + Wrap(Show(r), BareRight(r, Table(op).prio))
    case Call(f, args) => [TFunc(f), TOpen] + ShowArgs(args) + [TClose]
    case Index(x, i) => Wrap(Show(x), Closed(x)) + [TOpen2] + Show(i) + [TClose2]
    case Member(x, m) => Wrap(Show(x), Closed(x)) + [TDot(m)]
    case Method(x, f, args) => Wrap(Show(x), Closed(x)) + [TArrow(f), TOpen] + ShowArgs(args) + [TClose]
  }

  function ShowArgs(a: Args): seq<Token>
    decreases a
  {
    match a
    case NoArgs => []
    case Arg(e, rest) => if rest.NoArgs? then Show(e) else Show(e) + [TComma] + ShowArgs(rest)
  }

  // ----- printing and parsing undo each other -----

  lemma Priorities(id: OpId)
    ensures var op := Table(id);
            if !op.postfix then op.prio == 16 && op.right else
                if op.single then op.prio == 17 && op.right else 2 <= op.prio <= 15
  {
  }

  /** These tokens do not continue an expression that was read with priority `prio`. */
  predicate Halts(ts: seq<Token>, prio: int) {
    |ts| == 0 ||
    match ts[0]
    case TOp(first) => Behind(first).Some? && !Accepts(Behind(first).value, prio)
    case TOpen2 => false
    case TDot(_) => false
    case TArrow(_) => false
    case _ => true
  }

  lemma Halt(e: Expr, ts: seq<Token>, prio: int)
    requires Halts(ts, prio)
    ensures More(e, ts, prio) == Ok(e, ts)
  {
    hide Table, Behind, Parse, Params;
  }

  lemma HaltsHigher(ts: seq<Token>, low: int, high: int)
    requires Halts(ts, low) && low <= high
    ensures Halts(ts, high)
  {
    hide Table, Behind;
  }

  /** `e` may be read with priority `prio` and ends before `rest`. */
  predicate Fits(e: Expr, rest: seq<Token>, prio: int) {
    prio <= 16 && (e.Binary? ==> Accepts(e.op, prio)) && (!Closed(e) ==> Halts(rest, EndPrio(e)))
  }

  /** What fits left of an operator fits wherever the operator does. */
  lemma LeftFits(l: Expr, op: OpId, tail: seq<Token>, prio: int)
    requires BareLeft(l, op) && Table(op).postfix && Accepts(op, prio) && prio <= 16
    requires Starts(tail, TOp(Spelled(op)))
    ensures Fits(l, tail, prio)
  {
    Shared(op);
    hide Table, Behind;
  }

  lemma RightFits(r: Expr, rest: seq<Token>, prio: int)
    requires BareRight(r, prio) && Halts(rest, prio) && prio <= 16 && Proper(r)
    ensures Fits(r, rest, prio)
  {
    if !Closed(r) {
      Priorities(r.op);
      HaltsHigher(rest, prio, EndPrio(r));
    }
  }

  lemma {:induction false} ShowParses(e: Expr, rest: seq<Token>, prio: int)
    requires Proper(e) && Fits(e, rest, prio)
    ensures Parse(Show(e) + rest, prio) == More(e, rest, prio)
    decreases e, 2
  {
    hide Table, Behind, More, Parse, Params, Items, Halts, Accepts, Spelled;
    match e
    case Prefix(op, x) => PrefixParses(e, op, x, rest, prio);
    case Postfix(op, x) => PostfixParses(e, op, x, rest, prio);
    case Binary(op, l, r) => BinaryParses(e, op, l, r, rest, prio);
    case Call(f, args) => CallParses(e, f, args, rest, prio);
    case Index(x, i) => IndexParses(e, x, i, rest, prio);
    case Member(x, m) => MemberParses(e, x, m, rest, prio);
    case Method(x, f, args) => MethodParses(e, x, f, args, rest, prio);
    case _ => AtomParses(e, rest, prio);
  }

  lemma AtomParses(e: Expr, rest: seq<Token>, prio: int)
    requires e.Nothing? || e.Atom?
    ensures Parse(Show(e) + rest, prio) == More(e, rest, prio)
  {
    hide More;
    var ts := Show(e) + rest;
    assert ts[1..] == rest;
  }

  // one step of the parser each

  lemma ReadsPrefix(op: OpId, body: seq<Token>, x: Expr, rest: seq<Token>, prio: int)
    requires !Table(op).postfix && Parse(body, Table(op).prio) == Ok(x, rest)
    ensures Parse([TOp(op)] + body, prio) == More(Prefix(op, x), rest, prio)
  {
    hide More, Params, Table;
    assert ([TOp(op)] + body)[1..] == body;
  }

  lemma ReadsGroup(body: seq<Token>, x: Expr, rest: seq<Token>, prio: int)
    requires Parse(body, -1) == Ok(x, [TClose] + rest)
    ensures Parse([TOpen] + body, prio) == More(x, rest, prio)
  {
    hide More, Params, Table;
    assert ([TOpen] + body)[1..] == body && ([TClose] + rest)[1..] == rest;
  }

  lemma ReadsParams(body: seq<Token>, args: Args, rest: seq<Token>)
    requires Items(body, false) == OkArgs(args, rest)
    ensures Params([TOpen] + body) == OkArgs(args, rest)
  {
    hide Items;
    assert ([TOpen] + body)[1..] == body;
  }

  lemma ReadsCall(f: nat, body: seq<Token>, args: Args, rest: seq<Token>, prio: int)
    requires Params(body) == OkArgs(args, rest)
    ensures Parse([TFunc(f)] + body, prio) == More(Call(f, args), rest, prio)
  {
    hide More, Params, Table;
    assert ([TFunc(f)] + body)[1..] == body;
  }

  lemma GoesOnBinary(e: Expr, op: OpId, body: seq<Token>, r: Expr, rest: seq<Token>, prio: int)
    requires Table(op).postfix && !Table(op).single && Accepts(op, prio) && Parse(body, Table(op).prio) == Ok(r, rest)
    ensures More(e, [TOp(Spelled(op))] + body, prio) == More(Binary(op, e, r), rest, prio)
  {
    Shared(op);
    hide Parse, Params, Table, Behind, Accepts, Spelled;
    assert ([TOp(Spelled(op))] + body)[1..] == body;
  }

  lemma GoesOnPostfix(e: Expr, op: OpId, rest: seq<Token>, prio: int)
    requires Table(op).postfix && Table(op).single && Accepts(op, prio)
    ensures More(e, [TOp(Spelled(op))] + rest, prio) == More(Postfix(op, e), rest, prio)
  {
    Shared(op);
    hide Parse, Params, Table, Behind, Accepts, Spelled;
    assert ([TOp(Spelled(op))] + rest)[1..] == rest;
  }

  lemma GoesOnIndex(e: Expr, body: seq<Token>, i: Expr, rest: seq<Token>, prio: int)
    requires Parse(body, -1) == Ok(i, [TClose2] + rest)
    ensures More(e, [TOpen2] + body, prio) == More(Index(e, i), rest, prio)
  {
    hide Parse, Params, Table, Behind;
    assert ([TOpen2] + body)[1..] == body && ([TClose2] + rest)[1..] == rest;
  }

  lemma GoesOnMember(e: Expr, m: nat, rest: seq<Token>, prio: int)
    ensures More(e, [TDot(m)] + rest, prio) == More(Member(e, m), rest, prio)
  {
    hide Parse, Params, Table, Behind;
    assert ([TDot(m)] + rest)[1..] == rest;
  }

  lemma GoesOnMethod(e: Expr, f: nat, body: seq<Token>, args: Args, rest: seq<Token>, prio: int)
    requires Params(body) == OkArgs(args, rest)
    ensures More(e, [TArrow(f)] + body, prio) == More(Method(e, f, args), rest, prio)
  {
    hide Parse, Params, Table, Behind;
    assert ([TArrow(f)] + body)[1..] == body;
  }

  /** In parentheses or not. */
  lemma WrapParses(e: Expr, bare: bool, rest: seq<Token>, prio: int)
    requires Proper(e) && (bare ==> Fits(e, rest, prio))
    ensures Parse(Wrap(Show(e), bare) + rest, prio) == More(e, rest, prio)
    decreases e, 3
  {
    hide Table, Behind, More, Params, Items, Show, Parse;
    if bare {
      ShowParses(e, rest, prio);
    } else {
      var inner := [TClose] + rest;
      if e.Binary? { Priorities(e.op); }
      ShowParses(e, inner, -1);
      Halt(e, inner, -1);
      ReadsGroup(Show(e) + inner, e, rest, prio);
      assert Wrap(Show(e), false) + rest == [TOpen] + (Show(e) + inner);
    }
  }

  lemma PrefixParses(e: Expr, op: OpId, x: Expr, rest: seq<Token>, prio: int)
    requires e == Prefix(op, x) && Proper(e) && Fits(e, rest, prio)
    ensures Parse([TOp(op)] + Wrap(Show(x), BareRight(x, Table(op).prio)) + rest, prio) == More(e, rest, prio)
    decreases e, 0
  {
    hide Behind, More, Params, Items, Halts, Table, Parse, Show, Wrap;
    Priorities(op);
    var p := Table(op).prio;
    var operand := Wrap(Show(x), BareRight(x, p));
    if BareRight(x, p) { RightFits(x, rest, p); }
    WrapParses(x, BareRight(x, p), rest, p);
    Halt(x, rest, p);
    ReadsPrefix(op, operand + rest, x, rest, prio);
    assert [TOp(op)] + operand + rest == [TOp(op)] + (operand + rest);
  }

  lemma PostfixParses(e: Expr, op: OpId, x: Expr, rest: seq<Token>, prio: int)
    requires e == Postfix(op, x) && Proper(e) && Fits(e, rest, prio)
    ensures Parse(Wrap(Show(x), BareLeft(x, op)) + [TOp(Spelled(op))] + rest, prio) == More(e, rest, prio)
    decreases e, 0
  {
    hide Behind, Parse, Params, Items, Halts, Table, More, Show, Wrap, Spelled;
    Priorities(op);
    var tail := [TOp(Spelled(op))] + rest;
    if BareLeft(x, op) { LeftFits(x, op, tail, prio); }
    WrapParses(x, BareLeft(x, op), tail, prio);
    GoesOnPostfix(x, op, rest, prio);
    assert Wrap(Show(x), BareLeft(x, op)) + [TOp(Spelled(op))] + rest == Wrap(Show(x), BareLeft(x, op)) + tail;
  }

  lemma BinaryParses(e: Expr, op: OpId, l: Expr, r: Expr, rest: seq<Token>, prio: int)
    requires e == Binary(op, l, r) && Proper(e) && Fits(e, rest, prio)
    ensures Parse(Wrap(Show(l), BareLeft(l, op)) + [TOp(Spelled(op))] + Wrap(Show(r),
            BareRight(r, Table(op).prio)) + rest, prio)
            == More(e, rest, prio)
    decreases e, 0
  {
    hide Behind, Parse, Params, Items, Halts, Table, Spelled, More, Show, Wrap, Accepts;
    Priorities(op);
    var p := Table(op).prio;
    var left, right := Wrap(Show(l), BareLeft(l, op)), Wrap(Show(r), BareRight(r, p));
    var tail := [TOp(Spelled(op))] + (right + rest);
    if BareLeft(l, op) { LeftFits(l, op, tail, prio); }
    WrapParses(l, BareLeft(l, op), tail, prio);
    if BareRight(r, p) { RightFits(r, rest, p); }
    WrapParses(r, BareRight(r, p), rest, p);
    Halt(r, rest, p);
    GoesOnBinary(l, op, right + rest, r, rest, prio);
    assert left + [TOp(Spelled(op))] + right + rest == left + tail;
  }

  lemma ClosedFits(e: Expr, rest: seq<Token>, prio: int)
    requires Closed(e) && prio <= 16
    ensures Fits(e, rest, prio)
  {
  }

  lemma IndexParses(e: Expr, x: Expr, i: Expr, rest: seq<Token>, prio: int)
    requires e == Index(x, i) && Proper(e) && prio <= 16
    ensures Parse(Wrap(Show(x), Closed(x)) + [TOpen2] + Show(i) + [TClose2] + rest, prio) == More(e, rest, prio)
    decreases e, 0
  {
    hide Behind, Parse, Params, Items, Table, More, Show, Wrap;
    var after := [TClose2] + rest;
    var tail := [TOpen2] + (Show(i) + after);
    if Closed(x) { ClosedFits(x, tail, prio); }
    WrapParses(x, Closed(x), tail, prio);
    if i.Binary? { Priorities(i.op); }
    ShowParses(i, after, -1);
    Halt(i, after, -1);
    GoesOnIndex(x, Show(i) + after, i, rest, prio);
    assert Wrap(Show(x), Closed(x)) + [TOpen2] + Show(i) + [TClose2] + rest == Wrap(Show(x), Closed(x)) + tail;
  }

  lemma MemberParses(e: Expr, x: Expr, m: nat, rest: seq<Token>, prio: int)
    requires e == Member(x, m) && Proper(e) && prio <= 16
    ensures Parse(Wrap(Show(x), Closed(x)) + [TDot(m)] + rest, prio) == More(e, rest, prio)
    decreases e, 0
  {
    hide Behind, Parse, Params, Items, Table, More, Show, Wrap;
    var tail := [TDot(m)] + rest;
    if Closed(x) { ClosedFits(x, tail, prio); }
    WrapParses(x, Closed(x), tail, prio);
    GoesOnMember(x, m, rest, prio);
    assert Wrap(Show(x), Closed(x)) + [TDot(m)] + rest == Wrap(Show(x), Closed(x)) + tail;
  }

  lemma CallParses(e: Expr, f: nat, args: Args, rest: seq<Token>, prio: int)
    requires e == Call(f, args) && Proper(e)
    ensures Parse([TFunc(f), TOpen] + ShowArgs(args) + [TClose] + rest, prio) == More(e, rest, prio)
    decreases e, 0
  {
    hide Behind, More, Items, Table, Parse, ShowArgs, Params;
    var body := ShowArgs(args) + [TClose] + rest;
    ArgsParse(args, rest, false);
    ReadsParams(body, args, rest);
    ReadsCall(f, [TOpen] + body, args, rest, prio);
    assert [TFunc(f), TOpen] + ShowArgs(args) + [TClose] + rest == [TFunc(f)] + ([TOpen] + body);
  }

  lemma MethodParses(e: Expr, x: Expr, f: nat, args: Args, rest: seq<Token>, prio: int)
    requires e == Method(x, f, args) && Proper(e) && prio <= 16
    ensures Parse(Wrap(Show(x), Closed(x)) + [TArrow(f), TOpen] + ShowArgs(args) + [TClose] + rest, prio)
            == More(e, rest, prio)
    decreases e, 0
  {
    hide Behind, Parse, Items, Table, More, Show, ShowArgs, Wrap, Params;
    var body := ShowArgs(args) + [TClose] + rest;
    var tail := [TArrow(f)] + ([TOpen] + body);
    if Closed(x) { ClosedFits(x, tail, prio); }
    WrapParses(x, Closed(x), tail, prio);
    ArgsParse(args, rest, false);
    ReadsParams(body, args, rest);
    GoesOnMethod(x, f, [TOpen] + body, args, rest, prio);
    assert Wrap(Show(x), Closed(x)) + [TArrow(f), TOpen] + ShowArgs(args) + [TClose] + rest
        == Wrap(Show(x), Closed(x)) + tail;
  }

  /** An expression never begins like the end of a list. */
  lemma {:induction false} ShowStarts(e: Expr)
    ensures |Show(e)| > 0 && Show(e)[0] != TClose && Show(e)[0] != TComma
    decreases e
  {
    hide BareLeft, BareRight, Spelled, ShowArgs;
    match e
    case Postfix(_, x) => ShowStarts(x);
    case Binary(_, l, _) => ShowStarts(l);
    case Index(x, _) => ShowStarts(x);
    case Member(x, _) => ShowStarts(x);
    case Method(x, _, _) => ShowStarts(x);
    case _ =>
  }

  lemma ReadsLast(ts: seq<Token>, e: Expr, rest: seq<Token>, some: bool)
    requires |ts| > 0 && ts[0] != TClose && ts[0] != TComma && Parse(ts, -1) == Ok(e, [TClose] + rest)
    ensures Items(ts, some) == OkArgs(Arg(e, NoArgs), rest)
  {
    hide Parse;
    assert ([TClose] + rest)[1..] == rest;
  }

  lemma ReadsItem(ts: seq<Token>, e: Expr, more: seq<Token>, args: Args, rest: seq<Token>, some: bool)
    requires |ts| > 0 && ts[0] != TClose && ts[0] != TComma && Parse(ts, -1) == Ok(e, [TComma] + more)
    requires Items(more, true) == OkArgs(args, rest)
    ensures Items(ts, some) == OkArgs(Arg(e, args), rest)
  {
    hide Parse;
    assert ([TComma] + more)[1..] == more;
  }

  lemma {:induction false} ArgsParse(a: Args, rest: seq<Token>, some: bool)
    requires ProperArgs(a) && (a.NoArgs? ==> !some)
    ensures Items(ShowArgs(a) + [TClose] + rest, some) == OkArgs(a, rest)
    decreases a, 3
  {
    match a
    case NoArgs =>
      hide Parse, Show, Table;
      assert ([] + [TClose] + rest)[1..] == rest;
    case Arg(e, next) =>
      hide Show, Parse, Table, Items;
      ShowStarts(e);
      if next.NoArgs? {
        var after := [TClose] + rest;
        LastItem(e, after);
        ReadsLast(Show(e) + after, e, rest, some);
        assert ShowArgs(a) + [TClose] + rest == Show(e) + after;
      } else {
        ShowNext(e, next, rest);
        var more := ShowArgs(next) + [TClose] + rest;
        LastItem(e, [TComma] + more);
        ArgsParse(next, rest, true);
        ReadsItem(Show(e) + ([TComma] + more), e, more, next, rest, some);
      }
  }

  lemma ShowNext(e: Expr, next: Args, rest: seq<Token>)
    requires next.Arg?
    ensures ShowArgs(Arg(e, next)) + [TClose] + rest == Show(e) + ([TComma] + (ShowArgs(next) + [TClose] + rest))
  {
    hide Show;
    var x := ShowArgs(next);
    assert ShowArgs(Arg(e, next)) == Show(e) + [TComma] + x;
  }

  lemma LastItem(e: Expr, after: seq<Token>)
    requires Proper(e) && (Starts(after, TClose) || Starts(after, TComma))
    ensures Parse(Show(e) + after, -1) == Ok(e, after)
    decreases e, 4
  {
    hide Table, Show, Parse;
    if e.Binary? { Priorities(e.op); }
    ShowParses(e, after, -1);
    Halt(e, after, -1);
  }

  /** For every expression: reading what was printed gives the expression back. */
  lemma RoundTrip(e: Expr)
    requires Proper(e)
    ensures Parse(Show(e), -1) == Ok(e, [])
  {
    hide Table, Show, Parse;
    if e.Binary? { Priorities(e.op); }
    ShowParses(e, [], -1);
    Halt(e, [], -1);
    assert Show(e) + [] == Show(e);
  }

  // ----- every pair of parentheses is needed -----

  /** `l op r`, where no parentheses are written around `l`. */
  function AttachLeft(l: Expr, op: OpId, r: Expr): Expr {
    if BareLeft(l, op) then Binary(op, l, r)
    else
      match l
      case Binary(q, a, b) => Binary(q, a, if BareRight(b, Table(q).prio) then AttachLeft(b, op, r)
          else Binary(op, b, r))
      case Prefix(q, x) => Prefix(q, if BareRight(x, Table(q).prio) then AttachLeft(x, op, r) else Binary(op, x, r))
      case _ => Binary(op, l, r)
  }

  function Tail(op: OpId, r: Expr): seq<Token> { [TOp(Spelled(op))] + Wrap(Show(r), BareRight(r, Table(op).prio)) }

  predicate IsBinary(op: OpId) { Table(op).postfix && !Table(op).single }

  lemma {:induction false} LeftTokens(l: Expr, op: OpId, r: Expr)
    requires Proper(l) && Proper(r) && IsBinary(op)
    ensures var e := AttachLeft(l, op, r);
            Proper(e) && Show(e) == Show(l) + Tail(op, r)
            && (BareLeft(l, op) ==> e == Binary(op, l, r))
                && (!BareLeft(l, op) && l.Binary? ==> e.Binary? && e.op == l.op && e.l == l.l)
            && (!BareLeft(l, op) && l.Prefix? ==> e.Prefix?)
    decreases l, 2
  {
    hide Table, Accepts, Spelled, Show, Wrap;
    if BareLeft(l, op) {
      ShowBinary(op, l, r);
      assert Show(l) + [TOp(Spelled(op))] + Wrap(Show(r), BareRight(r, Table(op).prio)) == Show(l) + Tail(op, r);
    } else {
      LeftTokensEnd(l, op, r);
    }
  }

  lemma ShowBinary(op: OpId, l: Expr, r: Expr)
    ensures BareLeft(l, op) ==>
              Show(Binary(op, l, r)) == Show(l) + [TOp(Spelled(op))] + Wrap(Show(r), BareRight(r, Table(op).prio))
    ensures Show(Binary(op, l, r)) == Wrap(Show(l), BareLeft(l, op)) + Tail(op, r)
  {
    hide Table, Accepts, Spelled;
    var a, b, c := Wrap(Show(l), BareLeft(l, op)), [TOp(Spelled(op))], Wrap(Show(r), BareRight(r, Table(op).prio));
    assert a + b + c == a + (b + c);
  }

  /** The operand at the right end takes the operator, bare or in its parentheses. */
  lemma LeftTokensEnd(l: Expr, op: OpId, r: Expr)
    requires Proper(l) && Proper(r) && IsBinary(op) && !BareLeft(l, op)
    ensures var e := AttachLeft(l, op, r);
            Proper(e) && Show(e) == Show(l) + Tail(op, r)
            && (if l.Binary? then e.Binary? && e.op == l.op && e.l == l.l else e.Prefix?)
    decreases l, 1
  {
    hide Table, Accepts, Spelled, Show, Tail;
    var q, x := l.op, if l.Binary? then l.r else l.e;
    var p := Table(q).prio;
    var y := if BareRight(x, p) then AttachLeft(x, op, r) else Binary(op, x, r);
    if BareRight(x, p) {
      LeftTokens(x, op, r);
    } else {
      LowerAccepts(op, q, x.op);
      ShowBinary(op, x, r);
    }
    assert BareRight(y, p);
    WrapTail(x, y, BareRight(x, p), Tail(op, r));
    var operand := Wrap(Show(x), BareRight(x, p));
    if l.Binary? {
      ShowBinary(q, l.l, y);
      ShowBinary(q, l.l, x);
      BinaryEnd(l.l, q, x, y, Tail(op, r));
    } else {
      assert Show(Prefix(q, y)) == [TOp(q)] + Wrap(Show(y), true) by { ShowPrefix(q, y); }
      ShowPrefix(q, x);
      assert [TOp(q)] + (operand + Tail(op, r)) == [TOp(q)] + operand + Tail(op, r);
    }
  }

  lemma ShowPrefix(q: OpId, x: Expr)
    ensures Show(Prefix(q, x)) == [TOp(q)] + Wrap(Show(x), BareRight(x, Table(q).prio))
  {
  }

  lemma LowerAccepts(op: OpId, q: OpId, low: OpId)
    requires Accepts(op, Table(q).prio) && !Accepts(low, Table(q).prio)
    ensures Accepts(op, Table(low).prio)
  {
    hide Table;
  }

  lemma WrapTail(x: Expr, y: Expr, bare: bool, tail: seq<Token>)
    requires Show(y) == Wrap(Show(x), bare) + tail
    ensures Wrap(Show(y), true) == Wrap(Show(x), bare) + tail
  {
    hide Show;
  }

  lemma BinaryEnd(l: Expr, q: OpId, x: Expr, y: Expr, tail: seq<Token>)
    requires var p := Table(q).prio;
             BareRight(y, p) && Wrap(Show(y), true) == Wrap(Show(x), BareRight(x, p)) + tail
    ensures Show(Binary(q, l, y)) == Show(Binary(q, l, x)) + tail
  {
    hide Table, Accepts, Spelled, Show, Wrap, BareRight;
    var p := Table(q).prio;
    ShowBinary(q, l, y);
    ShowBinary(q, l, x);
    var head, operand := Wrap(Show(l), BareLeft(l, q)), Wrap(Show(x), BareRight(x, p));
    assert head + ([TOp(Spelled(q))] + (operand + tail)) == head + ([TOp(Spelled(q))] + operand) + tail;
  }

  /** Left of an operator that a bare `l` would lose to its own end, leaving the parentheses away
      gives another expression. */
  lemma LeftParenthesesNeeded(l: Expr, op: OpId, r: Expr)
    requires Proper(l) && Proper(r) && IsBinary(op) && !BareLeft(l, op)
    ensures Parse(Show(l) + Tail(op, r), -1) == Ok(AttachLeft(l, op, r), []) && AttachLeft(l, op, r) != Binary(op, l, r)
  {
    hide Table, Accepts, Spelled, Show, Wrap, Tail, Parse, AttachLeft;
    LeftTokens(l, op, r);
    RoundTrip(AttachLeft(l, op, r));
  }

  /** `l op r`, where no parentheses are written around `r`. */
  function AttachRight(l: Expr, op: OpId, r: Expr): Expr
    decreases r
  {
    if BareRight(r, Table(op).prio) then Binary(op, l, r)
    else Binary(r.op, if BareLeft(r.l, r.op) then AttachRight(l, op, r.l) else Binary(op, l, r.l), r.r)
  }

  function Head(l: Expr, op: OpId): seq<Token> { Wrap(Show(l), BareLeft(l, op)) + [TOp(Spelled(op))] }

  lemma ShowHead(op: OpId, l: Expr, r: Expr)
    ensures Show(Binary(op, l, r)) == Head(l, op) + Wrap(Show(r), BareRight(r, Table(op).prio))
  {
    hide Table, Accepts, Spelled;
  }

  lemma {:induction false} RightTokens(l: Expr, op: OpId, r: Expr)
    requires Proper(l) && Proper(r) && IsBinary(op)
    ensures var e := AttachRight(l, op, r);
            Proper(e) && e.Binary? && Show(e) == Head(l, op) + Show(r)
            && e.op == if BareRight(r, Table(op).prio) then op else r.op
    decreases r, 1
  {
    hide Table, Accepts, Spelled, Show, Head, Wrap;
    if BareRight(r, Table(op).prio) {
      ShowHead(op, l, r);
      BareIsSame(Show(r));
    } else {
      var q, a := r.op, r.l;
      var y := if BareLeft(a, q) then AttachRight(l, op, a) else Binary(op, l, a);
      ShowHead(q, a, r.r);
      ShowHead(q, y, r.r);
      RightTokensStart(l, op, r);
      var right := Wrap(Show(r.r), BareRight(r.r, Table(q).prio));
      assert Head(l, op) + (Head(a, q) + right) == Head(l, op) + Head(a, q) + right;
    }
  }

  /** The operand at the left end of `r` becomes an operand of `op`, bare or in its parentheses. */
  lemma RightTokensStart(l: Expr, op: OpId, r: Expr)
    requires Proper(l) && Proper(r) && IsBinary(op) && !BareRight(r, Table(op).prio)
    ensures var q, a := r.op, r.l;
            var y := if BareLeft(a, q) then AttachRight(l, op, a) else Binary(op, l, a);
            Proper(y) && Head(y, q) == Head(l, op) + Head(a, q)
    decreases r, 0
  {
    hide Table, Accepts, Spelled, Show, Wrap;
    var q, a := r.op, r.l;
    var sign := [TOp(Spelled(q))];
    BareIsSame(Show(a));
    if BareLeft(a, q) {
      RightTokens(l, op, a);
      var y := AttachRight(l, op, a);
      BareIsSame(Show(y));
      assert Head(l, op) + Show(a) + sign == Head(l, op) + (Show(a) + sign);
    } else {
      var y := Binary(op, l, a);
      BareIsSame(Show(y));
      Priorities(q);
      Priorities(a.op);
      LowerRejects(a, q, op);
      ShowHead(op, l, a);
      assert Head(l, op) + Wrap(Show(a), false) + sign == Head(l, op) + (Wrap(Show(a), false) + sign);
    }
  }

  lemma LowerRejects(a: Expr, q: OpId, op: OpId)
    requires !BareLeft(a, q) && IsBinary(q) && Proper(a) && !Accepts(q, Table(op).prio)
    ensures a.Binary? && !BareRight(a, Table(op).prio)
  {
    Priorities(q);
    Priorities(a.op);
    hide Table;
  }

  lemma BareIsSame(ts: seq<Token>)
    ensures Wrap(ts, true) == ts
  {
  }

  /** Right of an operator that would take the start of a bare `r` for itself, leaving the
      parentheses away gives another expression. */
  lemma RightParenthesesNeeded(l: Expr, op: OpId, r: Expr)
    requires Proper(l) && Proper(r) && IsBinary(op) && !BareRight(r, Table(op).prio)
    ensures Parse(Head(l, op) + Show(r), -1) == Ok(AttachRight(l, op, r), [])
            && AttachRight(l, op, r) != Binary(op, l, r)
  {
    hide Table, Spelled, Show, Wrap, Head, Parse;
    RightTokens(l, op, r);
    RoundTrip(AttachRight(l, op, r));
  }

  // ----- the parser at work -----

  /** Reads one token after the other; `pos` is the next. Parse errors come out as `None`. */
  class Parser {
    const tokens: seq<Token>
    var pos: nat

    constructor (tokens: seq<Token>)
      ensures this.tokens == tokens && pos == 0
    {
      this.tokens := tokens;
      pos := 0;
    }

    predicate Valid()
      reads this
    {
      pos <= |tokens|
    }

    function Rest(): seq<Token>
      requires Valid()
      reads this
    {
      tokens[pos..]
    }

    /** What was read, and that no more was read than that. */
    predicate Read(p: Parsed, r: Option<Expr>)
      requires Valid()
      reads this
    {
      match p
      case Ok(e, rest) => r == Some(e) && Rest() == rest
      case Err => r == None
    }

    predicate ReadArgs(p: ParsedArgs, r: Option<Args>)
      requires Valid()
      reads this
    {
      match p
      case OkArgs(args, rest) => r == Some(args) && Rest() == rest
      case ErrArgs => r == None
    }

    method Shift()
      requires Valid() && pos < |tokens|
      modifies this
      ensures Valid() && Rest() == old(Rest())[1..] && pos == old(pos) + 1
    {
      pos := pos + 1;
    }

    /** Skips the token that has to come here. */
    method Match(t: Token) returns (ok: bool)
      requires Valid()
      modifies this
      ensures Valid() && pos >= old(pos) && ok == Starts(old(Rest()), t)
      ensures if ok then Rest() == old(Rest())[1..] && pos == old(pos) + 1 else pos == old(pos)
    {
      ok := pos < |tokens| && tokens[pos] == t;
      if ok { Shift(); }
    }

    method ParseExpression(prio: int) returns (r: Option<Expr>)
      requires Valid()
      modifies this
      ensures Valid() && pos >= old(pos) && Read(Parse(old(Rest()), prio), r)
      ensures r.Some? ==> pos > old(pos)
      decreases |tokens| - pos, 2
    {
      hide Table, More, Params, Items;
      if pos == |tokens| { return None; }
      var t := tokens[pos];
      var e: Option<Expr>;
      match t {
        case TNil =>
          Shift();
          e := Some(Nothing);
        case TAtom(n) =>
          Shift();
          e := Some(Atom(n));
        case TFunc(f) =>
          Shift();
          var args := ParseParams();
          e := if args.None? then None else Some(Call(f, args.value));
        case TOp(id) =>
          if Table(id).postfix { return None; }
          Shift();
          var x := ParseExpression(Table(id).prio);
          e := if x.None? then None else Some(Prefix(id, x.value));
        case TOpen =>
          Shift();
          e := ParseExpression(-1);
          if e.None? { return None; }
          var ok := Match(TClose);
          if !ok { return None; }
        case _ => return None;
      }
      if e.None? { return None; }
      r := ParseExpression2(e.value, prio);
    }

    /** What may follow an operand. */
    method ParseExpression2(first: Expr, prio: int) returns (r: Option<Expr>)
      requires Valid()
      modifies this
      ensures Valid() && pos >= old(pos) && Read(More(first, old(Rest()), prio), r)
      decreases |tokens| - pos, 1
    {
      hide Table, Behind, Parse, Params, Items, Accepts;
      var e := first;
      while pos < |tokens|
        invariant Valid() && pos >= old(pos) && More(e, Rest(), prio) == More(first, old(Rest()), prio)
        decreases |tokens| - pos
      {
        var t := tokens[pos];
        match t {
          case TOp(named) =>
            var id := Behind(named);
            if id.None? { return None; }
            if !Accepts(id.value, prio) { return Some(e); }
            Shift();
            if Table(id.value).single {
              e := Postfix(id.value, e);
            } else {
              var x := ParseExpression(Table(id.value).prio);
              if x.None? { return None; }
              e := Binary(id.value, e, x.value);
            }
          case TOpen2 =>
            Shift();
            var i := ParseExpression(-1);
            if i.None? { return None; }
            var ok := Match(TClose2);
            if !ok { return None; }
            e := Index(e, i.value);
          case TDot(m) =>
            Shift();
            e := Member(e, m);
          case TArrow(f) =>
            Shift();
            var args := ParseParams();
            if args.None? { return None; }
            e := Method(e, f, args.value);
          case _ => return Some(e);
        }
      }
      r := Some(e);
    }

    method ParseParams() returns (r: Option<Args>)
      requires Valid()
      modifies this
      ensures Valid() && pos >= old(pos) && ReadArgs(Params(old(Rest())), r)
      decreases |tokens| - pos, 1
    {
      hide Items;
      var ok := Match(TOpen);
      if !ok { return None; }
      r := ParseItems(false);
    }

    method ParseItems(some: bool) returns (r: Option<Args>)
      requires Valid()
      modifies this
      ensures Valid() && pos >= old(pos) && ReadArgs(Items(old(Rest()), some), r)
      decreases |tokens| - pos, 3
    {
      hide Parse;
      if pos == |tokens| { return None; }
      var t := tokens[pos];
      if t == TClose {
        Shift();
        return Some(if some then Arg(Nothing, NoArgs) else NoArgs);
      }
      if t == TComma {
        Shift();
        var more := ParseItems(true);
        return if more.None? then None else Some(Arg(Nothing, more.value));
      }
      var e := ParseExpression(-1);
      if e.None? { return None; }
      var ok := Match(TClose);
      if ok { return Some(Arg(e.value, NoArgs)); }
      ok := Match(TComma);
      if !ok { return None; }
      var more := ParseItems(true);
      return if more.None? then None else Some(Arg(e.value, more.value));
    }
  }

  /** Prints an expression and reads it back. */
  method PrintAndParse(e: Expr) returns (r: Option<Expr>)
    requires Proper(e)
    ensures r == Some(e)
  {
    hide Table, Show, Parse;
    RoundTrip(e);
    var p := new Parser(Show(e));
    assert p.Rest() == Show(e);
    r := p.ParseExpression(-1);
  }
}
