/** From text to behaviour: an expression written out, read by the parser, compiled and run means
    what the evaluator says of it. */
module Text {
  import opened Bytecode
  import opened Source
  import Wrappers
  import Grammar
  import Emitter
  import EmitterCalm
  import Compiled
  import Meaning

  /** What names stand for: variables and constants, functions with their parameters, methods, and
      the parameters that stay references. */
  datatype Scope = Scope(atom: nat -> Expr, function_: nat -> Callee, method_: nat -> Method,
      keepRef: (nat, nat) -> bool)

  // ----- operators -----

  datatype Operator = OfOne(u: Unary) | OfTwo(b: BinOp) | Jumping(l: Logic) | NilSet

  /** The operators of the table. */
  function OperatorOf(id: Grammar.OpId): Operator {
    match id
    case 0 => OfOne(PreInc)
    case 1 => OfOne(PreDec)
    case 2 => OfOne(PreBitNot)
    case 3 => OfOne(PreNot)
    case 4 => OfOne(PrePlus)
    case 5 => OfOne(PreNeg)
    case 6 => OfOne(PostInc)
    case 7 => OfOne(PostDec)
    case 8 => OfTwo(Pow)
    case 9 => OfTwo(Div)
    case 10 => OfTwo(Mul)
    case 11 => OfTwo(Mod)
    case 12 => OfTwo(Sub)
    case 13 => OfTwo(Sum)
    case 14 => OfTwo(LeftShift)
    case 15 => OfTwo(RightShift)
    case 16 => OfTwo(LessThan)
    case 17 => OfTwo(LessThanEqual)
    case 18 => OfTwo(GreaterThan)
    case 19 => OfTwo(GreaterThanEqual)
    case 20 => OfTwo(Concat)
    case 21 => OfTwo(Equal)
    case 22 => OfTwo(NotEqual)
    case 23 => OfTwo(SEqual)
    case 24 => OfTwo(SEqual)
    case 25 => OfTwo(SNEqual)
    case 26 => OfTwo(BitAnd)
    case 27 => OfTwo(BitXOr)
    case 28 => OfTwo(BitOr)
    case 29 => Jumping(LAnd)
    case 30 => Jumping(LOr)
    case 31 => Jumping(LNil)
    case 32 => OfTwo(PowIt)
    case 33 => OfTwo(MulIt)
    case 34 => OfTwo(DivIt)
    case 35 => OfTwo(ModIt)
    case 36 => OfTwo(Inc)
    case 37 => OfTwo(BinOp.Dec)
    case 38 => OfTwo(LeftShiftIt)
    case 39 => OfTwo(RightShiftIt)
    case 40 => OfTwo(ConcatIt)
    case 41 => OfTwo(AndIt)
    case 42 => OfTwo(OrIt)
    case 43 => OfTwo(XOrIt)
    case 44 => NilSet
    case _ => OfTwo(BinOp.Set)
  }

  /** Operators of the table take as many operands as the grammar gives them. */
  lemma OperatorsMatch(id: Grammar.OpId)
    ensures OperatorOf(id).OfOne? <==> !Grammar.Table(id).postfix || Grammar.Table(id).single
  {
  }

  predicate Means(id: Grammar.OpId, name: string, what: Operator) {
    Grammar.Table(id).name == name && OperatorOf(id) == what
  }

  /** What the names stand for: in front of an operand, and behind it. */
  lemma OneOperandNames()
    ensures Means(0, "++", OfOne(PreInc)) && Means(1, "--", OfOne(PreDec)) && Means(2, "~", OfOne(PreBitNot))
            && Means(3, "!", OfOne(PreNot)) && Means(4, "+", OfOne(PrePlus)) && Means(5, "-", OfOne(PreNeg))
            && Means(6, "++", OfOne(PostInc)) && Means(7, "--", OfOne(PostDec))
  {
  }

  /** Between two operands, to compute a number. */
  lemma ComputingNames()
    ensures Means(8, "**", OfTwo(Pow)) && Means(9, "/", OfTwo(Div)) && Means(10, "*", OfTwo(Mul))
            && Means(11, "%", OfTwo(Mod)) && Means(12, "-", OfTwo(Sub)) && Means(13, "+", OfTwo(Sum))
            && Means(14, "<<", OfTwo(LeftShift)) && Means(15, ">>", OfTwo(RightShift))
  {
  }

  /** To compare numbers and values, and to join strings. */
  lemma ComparingNames()
    ensures Means(16, "<", OfTwo(LessThan)) && Means(17, "<=", OfTwo(LessThanEqual))
            && Means(18, ">", OfTwo(GreaterThan)) && Means(19, ">=", OfTwo(GreaterThanEqual))
            && Means(20, "..", OfTwo(Concat)) && Means(21, "==", OfTwo(Equal)) && Means(22, "!=", OfTwo(NotEqual))
            && Means(23, "S=", OfTwo(SEqual))
  {
  }

  /** Comparisons of strings, bits, and the operators that jump. */
  lemma LogicNames()
    ensures Means(24, "eq", OfTwo(SEqual)) && Means(25, "ne", OfTwo(SNEqual)) && Means(26, "&", OfTwo(BitAnd))
            && Means(27, "^", OfTwo(BitXOr)) && Means(28, "|", OfTwo(BitOr)) && Means(29, "&&", Jumping(LAnd))
            && Means(30, "||", Jumping(LOr)) && Means(31, "??", Jumping(LNil))
  {
  }

  /** The operators that assign a number computed. */
  lemma AssigningNames()
    ensures Means(32, "**=", OfTwo(PowIt)) && Means(33, "*=", OfTwo(MulIt)) && Means(34, "/=", OfTwo(DivIt))
            && Means(35, "%=", OfTwo(ModIt)) && Means(36, "+=", OfTwo(Inc)) && Means(37, "-=", OfTwo(BinOp.Dec))
            && Means(38, "<<=", OfTwo(LeftShiftIt))
  {
  }

  /** The other operators that assign. */
  lemma SettingNames()
    ensures Means(39, ">>=", OfTwo(RightShiftIt)) && Means(40, "..=", OfTwo(ConcatIt))
            && Means(41, "&=", OfTwo(AndIt)) && Means(42, "|=", OfTwo(OrIt)) && Means(43, "^=", OfTwo(XOrIt))
            && Means(44, "??=", NilSet) && Means(45, "=", OfTwo(BinOp.Set))
  {
  }

  // ----- from what was read to programs -----

  /** Accesses are not part of these programs. */
  predicate NoAccess(e: Grammar.Expr)
    decreases e
  {
    match e
    case Prefix(_, x) => NoAccess(x)
    case Postfix(_, x) => NoAccess(x)
    case Binary(_, l, r) => NoAccess(l) && NoAccess(r)
    case Call(_, args) => NoAccessAll(args)
    case Method(x, _, args) => NoAccess(x) && NoAccessAll(args)
    case Index(_, _) => false
    case Member(_, _) => false
    case _ => true
  }

  predicate NoAccessAll(a: Grammar.Args)
    decreases a
  {
    a.Arg? ==> NoAccess(a.e) && NoAccessAll(a.rest)
  }

  function ExprOf(sc: Scope, e: Grammar.Expr): Expr
    requires NoAccess(e) && Grammar.Proper(e)
    decreases e
  {
    match e
    case Nothing => EConst(CNil)
    case Atom(n) => sc.atom(n)
    case Prefix(op, x) =>
      OperatorsMatch(op);
      EUnary(OperatorOf(op).u, ExprOf(sc, x))
    case Postfix(op, x) =>
      OperatorsMatch(op);
      EUnary(OperatorOf(op).u, ExprOf(sc, x))
    case Binary(op, l, r) =>
      OperatorsMatch(op);
      (match OperatorOf(op)
       case OfTwo(b) => EBinary(b, ExprOf(sc, l), ExprOf(sc, r))
       case Jumping(j) => ELogic(j, ExprOf(sc, l), ExprOf(sc, r))
       case NilSet => ENilAssign(ExprOf(sc, l), ExprOf(sc, r)))
    case Call(f, args) => ECall(sc.function_(f), ArgsOf(sc, f, 0, args))
    case Method(x, f, args) => EMethod(sc.method_(f), ExprOf(sc, x), ArgsOf(sc, f, 0, args))
  }

  function ArgsOf(sc: Scope, f: nat, i: nat, a: Grammar.Args): Args
    requires NoAccessAll(a) && Grammar.ProperArgs(a)
    decreases a
  {
    match a
    case NoArgs => NoArgs
    case Arg(e, rest) => Arg(ExprOf(sc, e), sc.keepRef(f, i), ArgsOf(sc, f, i + 1, rest))
  }

  // ----- reading and compiling -----

  /** The function `return <text>;`, if the text can be read to its end. */
  function CompileText(strict: nat, sc: Scope, ts: seq<Grammar.Token>): Wrappers.Option<Code> {
    match Grammar.Parse(ts, -1)
    case Err => Wrappers.None
    case Ok(e, rest) =>
      if rest == [] && NoAccess(e) && Grammar.Proper(e) then
        Wrappers.Some(Emitter.GenFunction(strict, false, SReturn(ExprOf(sc, e))).code)
      else Wrappers.None
  }

  /** Whatever expression is written out: the text is read and compiled, and the code stops with an
      outcome exactly when the evaluator of that expression comes to it. */
  lemma TextMeaning(env: Env, sc: Scope, e: Grammar.Expr, m: Mem, o: Outcome)
    requires Grammar.Proper(e) && NoAccess(e) && EmitterCalm.Calm(ExprOf(sc, e)) && !env.fr.returnRef
    ensures var body, code := SReturn(ExprOf(sc, e)), CompileText(env.fr.strict, sc, Grammar.Show(e));
            code.Some?
            && (Stops(env, code.value, Config(0, [], m), o) <==>
                Meaning.ComesTo(env, Meaning.FoldS(env.fr.strict, body),
                    Emitter.FinalReturn(env.fr.strict, false, body), m, o))
  {
    hide Grammar.Parse, Emitter.GenFunction, Meaning.ComesTo, Meaning.FoldS, Emitter.FinalReturn, Stops,
         Compiled.Crosses, ExprOf,
         EmitterCalm.Calm;
    Grammar.RoundTrip(e);
    var body := SReturn(ExprOf(sc, e));
    Compiled.CalmNeverCrosses(env.fr.strict, false, body);
    Compiled.CompiledMeaning(env, body, m, o);
  }
}
