/** How operators group when no parentheses are written, told by ranges of the operator table. */
module Priorities {
  import opened Grammar
  import opened Wrappers

  // ----- the table in short -----

  /** The operators with two operands. */
  predicate Two(op: OpId) { op >= 8 }

  /** From the ones that bind least, which assign, to the power. */
  function Tier(op: OpId): nat
    requires Two(op)
  {
    if op >= 32 then 1        // the assigning ones
    else if op == 31 then 2   // ??
    else if op == 30 then 3   // ||
    else if op == 29 then 4   // &&
    else if op >= 27 then 5   // ^ and |
    else if op == 26 then 6   // &
    else if op >= 21 then 7   // ==, !=, S=, eq, ne
    else if op == 20 then 8   // ..
    else if op >= 16 then 9   // <, <=, >, >=
    else if op >= 14 then 10  // <<, >>
    else if op >= 12 then 11  // -, +
    else if op >= 9 then 12   // /, *, %
    else 13                   // **
  }

  /** The first of two operators takes the operand between them; assigning ones leave it to the second. */
  predicate LeftFirst(op1: OpId, op2: OpId)
    requires Two(op1) && Two(op2)
  {
    Tier(op1) > Tier(op2) || (Tier(op1) == Tier(op2) && Tier(op1) != 1)
  }

  /** The first operator of the name, which is what the lexer finds: the prefix one for the postfix
      increment and decrement, and for the minus and plus between operands. */
  function Token1(op: OpId): Token {
    TOp(if op == 6 then 0 else if op == 7 then 1 else if op == 12 then 5 else if op == 13 then 4 else op)
  }

  lemma TableIs(op: OpId)
    ensures Token1(op) == TOp(Spelled(op))
    ensures op < 6 ==> !Table(op).postfix && Table(op).prio == 16
    ensures op in {6, 7} ==> Table(op).postfix && Table(op).single && Table(op).prio == 17
    ensures Two(op) ==> Table(op).postfix && !Table(op).single && (Table(op).right <==> Tier(op) == 1)
    ensures Two(op) ==> Table(op).prio == if Tier(op) <= 5 then Tier(op) + 1 else Tier(op) + 2
  {
  }

  lemma Groups(op1: OpId, op2: OpId)
    requires Two(op1) && Two(op2)
    ensures Accepts(op2, Table(op1).prio) <==> !LeftFirst(op1, op2)
  {
    TableIs(op1);
    TableIs(op2);
    hide Table, Tier;
  }

  // ----- how text is read -----

  /** `a op1 b op2 c`, for all operators and all operands that need no parentheses. */
  lemma TwoOperators(op1: OpId, op2: OpId, a: nat, b: nat, c: nat)
    requires Two(op1) && Two(op2)
    ensures Parse([TAtom(a), Token1(op1), TAtom(b), Token1(op2), TAtom(c)], -1)
            == Ok(if LeftFirst(op1, op2) then Binary(op2, Binary(op1, Atom(a), Atom(b)), Atom(c))
                  else Binary(op1, Atom(a), Binary(op2, Atom(b), Atom(c))), [])
  {
    TableIs(op1);
    TableIs(op2);
    Groups(op1, op2);
    hide Table, Parse, Accepts, Spelled, LeftFirst;
    var ts := [TAtom(a), Token1(op1), TAtom(b), Token1(op2), TAtom(c)];
    if LeftFirst(op1, op2) {
      var l := Binary(op1, Atom(a), Atom(b));
      OneOperator(op1, a, b);
      ShowsAs(op2, l, Atom(c));
      assert Show(Binary(op2, l, Atom(c))) == ts;
      RoundTrip(Binary(op2, l, Atom(c)));
    } else {
      var r := Binary(op2, Atom(b), Atom(c));
      OneOperator(op2, b, c);
      ShowsAs(op1, Atom(a), r);
      assert Show(Binary(op1, Atom(a), r)) == ts;
      RoundTrip(Binary(op1, Atom(a), r));
    }
  }

  lemma OneOperator(op: OpId, a: nat, b: nat)
    requires Two(op)
    ensures Show(Binary(op, Atom(a), Atom(b))) == [TAtom(a), TOp(Spelled(op)), TAtom(b)]
    ensures Proper(Binary(op, Atom(a), Atom(b)))
  {
    TableIs(op);
    hide Table, Spelled;
  }

  lemma ShowsAs(op: OpId, l: Expr, r: Expr)
    requires Two(op) && BareLeft(l, op) && BareRight(r, Table(op).prio) && Proper(l) && Proper(r)
    ensures Show(Binary(op, l, r)) == Show(l) + [TOp(Spelled(op))] + Show(r) && Proper(Binary(op, l, r))
  {
    TableIs(op);
    hide Table, Spelled, Proper;
    assert Proper(Binary(op, l, r)) by { IsProper(op, l, r); }
  }

  lemma IsProper(op: OpId, l: Expr, r: Expr)
    requires Two(op) && Proper(l) && Proper(r)
    ensures Proper(Binary(op, l, r))
  {
    TableIs(op);
  }

  /** Prefix operators take the operand they stand at, whatever operator follows or goes before. */
  lemma PrefixFirst(pre: OpId, op: OpId, a: nat, b: nat)
    requires pre < 6 && Two(op)
    ensures Parse([TOp(pre), TAtom(a), Token1(op), TAtom(b)], -1) == Ok(Binary(op, Prefix(pre, Atom(a)), Atom(b)), [])
    ensures Parse([TAtom(a), Token1(op), TOp(pre), TAtom(b)], -1) == Ok(Binary(op, Atom(a), Prefix(pre, Atom(b))), [])
  {
    TableIs(pre);
    TableIs(op);
    assert Show(Prefix(pre, Atom(a))) == [TOp(pre), TAtom(a)] && Show(Prefix(pre, Atom(b))) == [TOp(pre), TAtom(b)];
    hide Table, Parse, Spelled;
    ShowsAs(op, Prefix(pre, Atom(a)), Atom(b));
    ShowsAs(op, Atom(a), Prefix(pre, Atom(b)));
    assert Show(Binary(op, Prefix(pre, Atom(a)), Atom(b))) == [TOp(pre), TAtom(a), Token1(op), TAtom(b)];
    assert Show(Binary(op, Atom(a), Prefix(pre, Atom(b)))) == [TAtom(a), Token1(op), TOp(pre), TAtom(b)];
    RoundTrip(Binary(op, Prefix(pre, Atom(a)), Atom(b)));
    RoundTrip(Binary(op, Atom(a), Prefix(pre, Atom(b))));
  }

  /** Postfix operators come before prefix ones and before the operators around. */
  lemma PostfixFirst(post: OpId, pre: OpId, op: OpId, a: nat, b: nat)
    requires post in {6, 7} && pre < 6 && Two(op)
    ensures Parse([TAtom(a), Token1(post), Token1(op), TAtom(b)], -1)
            == Ok(Binary(op, Postfix(post, Atom(a)), Atom(b)), [])
    ensures Parse([TAtom(a), Token1(op), TAtom(b), Token1(post)], -1)
            == Ok(Binary(op, Atom(a), Postfix(post, Atom(b))), [])
    ensures Parse([TOp(pre), TAtom(a), Token1(post)], -1) == Ok(Prefix(pre, Postfix(post, Atom(a))), [])
  {
    TableIs(pre);
    TableIs(op);
    TableIs(post);
    PostfixShows(post, a);
    PostfixShows(post, b);
    PrefixShows(pre, post, a);
    hide Table, Parse, Spelled, Show, Proper;
    ShowsAs(op, Postfix(post, Atom(a)), Atom(b));
    ShowsAs(op, Atom(a), Postfix(post, Atom(b)));
    AtomShows(a);
    AtomShows(b);
    assert Show(Binary(op, Postfix(post, Atom(a)), Atom(b))) == [TAtom(a), Token1(post), Token1(op), TAtom(b)];
    assert Show(Binary(op, Atom(a), Postfix(post, Atom(b)))) == [TAtom(a), Token1(op), TAtom(b), Token1(post)];
    RoundTrip(Binary(op, Postfix(post, Atom(a)), Atom(b)));
    RoundTrip(Binary(op, Atom(a), Postfix(post, Atom(b))));
    RoundTrip(Prefix(pre, Postfix(post, Atom(a))));
  }

  lemma AtomShows(a: nat)
    ensures Show(Atom(a)) == [TAtom(a)] && Proper(Atom(a))
  {
  }

  lemma PostfixShows(post: OpId, a: nat)
    requires post in {6, 7}
    ensures Show(Postfix(post, Atom(a))) == [TAtom(a), Token1(post)] && Proper(Postfix(post, Atom(a)))
  {
    TableIs(post);
  }

  lemma PrefixShows(pre: OpId, post: OpId, a: nat)
    requires post in {6, 7} && pre < 6
    ensures Show(Prefix(pre, Postfix(post, Atom(a)))) == [TOp(pre), TAtom(a), Token1(post)]
    ensures Proper(Prefix(pre, Postfix(post, Atom(a))))
  {
    TableIs(pre);
    PostfixShows(post, a);
  }

  // ----- parameters and errors -----

  /** Parameters between commas, some of them left out. */
  function Listing(ps: seq<Option<nat>>): seq<Token> {
    if |ps| == 0 then []
    else
      (if ps[0].Some? then [TAtom(ps[0].value)] else []) + (if |ps| > 1 then [TComma] + Listing(ps[1..]) else [])
  }

  /** What was left out is nil. */
  function Given(ps: seq<Option<nat>>): Args {
    if |ps| == 0 then NoArgs else Arg(if ps[0].Some? then Atom(ps[0].value) else Nothing, Given(ps[1..]))
  }

  lemma {:induction false} ListingRead(ps: seq<Option<nat>>, rest: seq<Token>, some: bool)
    requires |ps| > 1 || (|ps| == 1 && (some || ps[0].Some?))
    ensures Items(Listing(ps) + [TClose] + rest, some) == OkArgs(Given(ps), rest)
    decreases |ps|
  {
    hide Parse, Items;
    var ts := Listing(ps) + [TClose] + rest;
    if |ps| == 1 {
      assert Given(ps) == Arg(if ps[0].Some? then Atom(ps[0].value) else Nothing, NoArgs);
      if ps[0].Some? {
        assert ts == [TAtom(ps[0].value)] + ([TClose] + rest);
        AtomItem(ps[0].value, [TClose] + rest, some);
      } else {
        assert ts == [TClose] + rest;
        NoItem([TClose] + rest, some);
      }
    } else {
      var more := Listing(ps[1..]) + [TClose] + rest;
      ListingRead(ps[1..], rest, true);
      if ps[0].Some? {
        assert ts == [TAtom(ps[0].value)] + ([TComma] + more);
        AtomItem(ps[0].value, [TComma] + more, some);
      } else {
        assert ts == [TComma] + more;
        NoItem([TComma] + more, some);
      }
    }
  }

  /** A parameter and what was read behind it. */
  function Before(e: Expr, r: ParsedArgs): ParsedArgs {
    if r.ErrArgs? then ErrArgs else OkArgs(Arg(e, r.args), r.rest)
  }

  /** Nothing before a comma or the end of the list. */
  lemma NoItem(ts: seq<Token>, some: bool)
    requires |ts| > 0
    ensures ts[0] == TClose ==> Items(ts, some) == OkArgs(if some then Arg(Nothing, NoArgs) else NoArgs, ts[1..])
    ensures ts[0] == TComma ==> Items(ts, some) == Before(Nothing, Items(ts[1..], true))
  {
    hide Parse;
  }

  /** A variable and a comma or the end of the list. */
  lemma AtomItem(a: nat, next: seq<Token>, some: bool)
    requires |next| > 0 && (next[0] == TComma || next[0] == TClose)
    ensures next[0] == TClose ==> Items([TAtom(a)] + next, some) == OkArgs(Arg(Atom(a), NoArgs), next[1..])
    ensures next[0] == TComma ==> Items([TAtom(a)] + next, some) == Before(Atom(a), Items(next[1..], true))
  {
    AtomRead(a, next);
    hide Parse;
    var ts := [TAtom(a)] + next;
    assert ts[0] == TAtom(a);
  }

  lemma AtomRead(a: nat, next: seq<Token>)
    requires |next| > 0 && (next[0] == TComma || next[0] == TClose)
    ensures Parse([TAtom(a)] + next, -1) == Ok(Atom(a), next)
  {
    assert ([TAtom(a)] + next)[1..] == next;
    hide Table, Behind, Params;
  }

  /** A call with any parameters left out; `F()` has none, `F(,)` two. */
  lemma CallRead(f: nat, ps: seq<Option<nat>>)
    ensures Parse([TFunc(f), TOpen] + Listing(ps) + [TClose], -1)
            == Ok(Call(f, if |ps| == 1 && ps[0].None? then NoArgs else Given(ps)), [])
  {
    hide Items;
    var ts := [TFunc(f), TOpen] + Listing(ps) + [TClose];
    assert ts[1..] == [TOpen] + Listing(ps) + [TClose] && ts[1..][1..] == Listing(ps) + [TClose] + [];
    if |ps| == 0 || (|ps| == 1 && ps[0].None?) {
      NoneListed();
      assert Listing(ps) + [TClose] + [] == [TClose];
    } else {
      ListingRead(ps, [], false);
    }
  }

  lemma NoneListed()
    ensures Items([TClose], false) == OkArgs(NoArgs, [])
  {
    assert [TClose][1..] == [];
  }

  /** What the parser refuses: an operator with nothing behind it, two operands, a postfix operator at the
      beginning, a prefix operator behind an operand, brackets that are not closed. */
  lemma Refused(op: OpId, pre: OpId, a: nat, b: nat)
    requires Two(op) && pre in {2, 3}
    ensures Parse([TAtom(a), Token1(op)], -1) == Err
    ensures Parse([TAtom(a), TAtom(b)], -1) == Ok(Atom(a), [TAtom(b)])
    ensures op !in {12, 13} ==> Parse([TOp(op), TAtom(a)], -1) == Err
    ensures Parse([TAtom(a), TOp(pre), TAtom(b)], -1) == Err
    ensures Parse([TOpen, TAtom(a)], -1) == Err && Parse([TAtom(a), TOpen2, TAtom(b)], -1) == Err
    ensures Parse([TFunc(a)], -1) == Err && Parse([TFunc(a), TOpen, TAtom(b)], -1) == Err
  {
    RefusedOperators(op, pre, a, b);
    RefusedBrackets(a, b);
  }

  lemma RefusedOperators(op: OpId, pre: OpId, a: nat, b: nat)
    requires Two(op) && pre in {2, 3}
    ensures Parse([TAtom(a), Token1(op)], -1) == Err
    ensures Parse([TAtom(a), TAtom(b)], -1) == Ok(Atom(a), [TAtom(b)])
    ensures op !in {12, 13} ==> Parse([TOp(op), TAtom(a)], -1) == Err
    ensures Parse([TAtom(a), TOp(pre), TAtom(b)], -1) == Err
  {
    TableIs(op);
    Shared(op);
    OnlyPrefix(pre);
    hide Table, Behind;
    var last: seq<Token> := [Token1(op)];
    assert [TAtom(a), Token1(op)][1..] == last && last[1..] == [];
    assert Parse([], Table(op).prio) == Err;
    assert [TAtom(a), TAtom(b)][1..] == [TAtom(b)];
    assert [TAtom(a), TOp(pre), TAtom(b)][1..] == [TOp(pre), TAtom(b)];
  }

  lemma OnlyPrefix(pre: OpId)
    requires pre in {2, 3}
    ensures Behind(pre) == None
  {
    NotBehind(2, 3);
    NotBehind(3, 4);
  }

  lemma {:induction false} NotBehind(id: OpId, i: nat)
    requires id in {2, 3} && id < i
    ensures Search(id, i) == None
    decreases 46 - i
  {
    if i < 46 {
      OtherName(id, i);
      hide Table;
      NotBehind(id, i + 1);
    }
  }

  lemma OtherName(id: OpId, i: OpId)
    requires id in {2, 3} && id < i
    ensures Table(i).name != Table(id).name
  {
  }

  lemma RefusedBrackets(a: nat, b: nat)
    ensures Parse([TOpen, TAtom(a)], -1) == Err && Parse([TAtom(a), TOpen2, TAtom(b)], -1) == Err
    ensures Parse([TFunc(a)], -1) == Err && Parse([TFunc(a), TOpen, TAtom(b)], -1) == Err
  {
    hide Table, Behind;
    assert [TOpen, TAtom(a)][1..] == [TAtom(a)] && [TAtom(a)][1..] == [] && [TAtom(b)][1..] == [];
    assert Parse([TAtom(a)], -1) == Ok(Atom(a), []) && Parse([TAtom(b)], -1) == Ok(Atom(b), []);
    assert [TAtom(a), TOpen2, TAtom(b)][1..] == [TOpen2, TAtom(b)] && [TOpen2, TAtom(b)][1..] == [TAtom(b)];
    assert [TFunc(a), TOpen, TAtom(b)][1..] == [TOpen, TAtom(b)] && [TOpen, TAtom(b)][1..] == [TAtom(b)];
    assert [TFunc(a)][1..] == [];
    assert Items([TAtom(b)], false) == ErrArgs;
  }
}
