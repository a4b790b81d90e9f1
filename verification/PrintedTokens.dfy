/**
 Which trees the printer's parentheses suffice for, which tree should come back, and the
 tokens each kind of node prints as.
 */
module PrintedTokens {
  import opened Common
  import opened Ast
  import opened Lexer
  import opened Deparser
  import opened Printed
  import opened Parser

  // --- levels -----------------------------------------------------------------------------

  // How tightly a construct binds. Operators other than comparisons follow RANGE by precedence.
  const LIST: nat := 1
  const NEGATION: nat := 2
  const DISTINCTION: nat := 3
  const NULLTEST: nat := 4
  const COMPARISON: nat := 5
  const RANGE: nat := 6
  const TIGHT: nat := 7
  const PRIMARY: nat := 11

  function OperatorLevel(op: string): nat {
    if IsComparison(op) then COMPARISON else COMPARISON + Precedence(op)
  }

  /** The level of a tree written without parentheses around it. */
  function Rank(x: Node): nat {
    match x
    case Binary(op, _, _) => OperatorLevel(op)
    case DistinctFrom(_, _) => DISTINCTION
    case Between(_, _, _, _) => RANGE
    case InList(_, _, _) => RANGE
    case Quantified(_, _, _, _) => COMPARISON
    case NullTest(_, _) => NULLTEST
    case BoolExpr(op, _) => (match op case OrExpr => 0 case AndExpr => LIST case NotExpr => NEGATION)
    case _ => PRIMARY
  }

  /** An AND or OR list of one, which prints as its element. */
  predicate Lone(n: Node) { n.BoolExpr? && n.boolop != NotExpr && |n.args| == 1 }

  /** The level of what the printer prints for a tree. */
  function Level(n: Node): nat
    decreases n
  {
    if !Lone(n) then Rank(n)
    else if n.boolop == AndExpr && n.args[0].Is(OrExpr) then PRIMARY
    else Level(n.args[0])
  }

  /** The level of what the printer prints for an operand of an operator. */
  function OperandLevel(n: Node): nat { if n.IsAExpr() then PRIMARY else Level(n) }

  // The levels that the two sides of an operator must reach. Operators associate to the left,
  // comparisons do not associate.

  function LeftLevel(op: string): nat { if IsComparison(op) then RANGE else OperatorLevel(op) }

  function RightLevel(op: string): nat { OperatorLevel(op) + 1 }

  // --- which trees, and which tree comes back --------------------------------------

  /** The trees PostgreSQL has a syntax for: lists and names are not empty, operators are operators. */
  predicate WellSorted(n: Node) {
    match n
    case Column(fields) => fields != [] && forall f | f in fields :: f != []
    case Binary(op, l, r) => IsOperator(op) && WellSorted(l) && WellSorted(r)
    case DistinctFrom(l, r) => WellSorted(l) && WellSorted(r)
    case Between(_, x, low, high) => WellSorted(x) && WellSorted(low) && WellSorted(high)
    case InList(_, x, items) => WellSorted(x) && items != [] && forall i | i in items :: WellSorted(i)
    case Quantified(op, _, l, r) => IsComparison(op) && WellSorted(l) && WellSorted(r)
    case NullTest(x, _) => WellSorted(x)
    case BoolExpr(op, args) =>
      args != [] && (op == NotExpr ==> |args| == 1) && forall a | a in args :: WellSorted(a)
    case Exists(table, alias, condition) => table != [] && alias != [] && WellSorted(condition)
    case _ => true
  }

  /** Not empty, not one of the four reserved words the printer leaves bare, not cut by the server. */
  predicate Legible(name: string) { name != [] && !MisreadName(name) && Fits(name) }

  /** The trees whose printed parentheses suffice: every operand that stands without parentheses
      reaches the level of its place. */
  predicate Printable(n: Node) {
    match n
    case Column(fields) => fields != [] && Legible(fields[0]) && forall f | f in fields :: f != [] && Fits(f)
    case Binary(op, l, r) =>
      IsOperator(op) && OperandLevel(l) >= LeftLevel(op) && OperandLevel(r) >= RightLevel(op) &&
      Printable(l) && Printable(r)
    case DistinctFrom(l, r) =>
      OperandLevel(l) >= NULLTEST && OperandLevel(r) >= COMPARISON && Printable(l) && Printable(r)
    case Between(_, x, low, high) =>
      Level(x) >= TIGHT && Level(low) >= TIGHT && Level(high) >= TIGHT &&
      Printable(x) && Printable(low) && Printable(high)
    case InList(_, x, items) =>
      Level(x) >= TIGHT && Printable(x) && items != [] && forall i | i in items :: Printable(i)
    case Quantified(op, _, l, r) => IsComparison(op) && Level(l) >= RANGE && Printable(l) && Printable(r)
    case NullTest(x, _) => Level(x) >= NULLTEST && Printable(x)
    case BoolExpr(op, args) =>
      args != [] && (op == NotExpr ==> |args| == 1) && forall a | a in args :: Printable(a)
    case Exists(table, alias, condition) => Legible(table) && Legible(alias) && Printable(condition)
    case _ => true
  }

  function Flat(n: Node): Node
    decreases n, 1
  {
    match n
    case Binary(op, l, r) => Binary(CanonicalOp(op), Flat(l), Flat(r))
    case DistinctFrom(l, r) => DistinctFrom(Flat(l), Flat(r))
    case Between(negated, x, low, high) => Between(negated, Flat(x), Flat(low), Flat(high))
    case InList(negated, x, items) => InList(negated, Flat(x), FlatAll(items))
    case Quantified(op, all, l, r) => Quantified(CanonicalOp(op), all, Flat(l), Flat(r))
    case NullTest(x, isNull) => NullTest(Flat(x), isNull)
    case BoolExpr(op, args) =>
      if op == NotExpr then BoolExpr(NotExpr, FlatAll(args)) else MakeBool(op, FlatAll(args))
    case Exists(table, alias, condition) => Exists(table, alias, Flat(condition))
    case _ => n
  }

  function FlatAll(ns: seq<Node>): (r: seq<Node>)
    ensures |r| == |ns|
    decreases ns, 0
  {
    if ns == [] then [] else [Flat(ns[0])] + FlatAll(ns[1..])
  }

  // --- flattening as the parser meets it ---------------------------------------------

  /** The items an AND (or OR) list contributes once nested lists print without parentheses. */
  function Items(op: BoolOp, n: Node): seq<Node>
    decreases n, 1
  {
    if n.Is(op) then ItemsOfAll(op, n.args) else [Flat(n)]
  }

  function ItemsOfAll(op: BoolOp, ns: seq<Node>): seq<Node>
    decreases ns, 0
  {
    if ns == [] then [] else Items(op, ns[0]) + ItemsOfAll(op, ns[1..])
  }

  lemma {:induction false} SpreadConcat(op: BoolOp, a: seq<Node>, b: seq<Node>)
    ensures Spread(op, a + b) == Spread(op, a) + Spread(op, b)
  {
    if a == [] {
      assert a + b == b;
    } else {
      assert (a + b)[1..] == a[1..] + b;
      SpreadConcat(op, a[1..], b);
    }
  }

  lemma {:induction false} ItemsMakeFlat(op: BoolOp, n: Node)
    requires op != NotExpr && Printable(n)
    ensures Items(op, n) != [] && MakeBool(op, Items(op, n)) == Flat(n)
    ensures Spread(op, Items(op, n)) == Spread(op, [Flat(n)])
    decreases n, 1
  {
    if n.Is(op) {
      ItemsOfAllMakeFlat(op, n.args);
      assert Flat(n) == MakeBool(op, FlatAll(n.args));
      if |n.args| == 1 {
        ItemsMakeFlat(op, n.args[0]);
        assert n.args[1..] == [];
        assert ItemsOfAll(op, n.args) == Items(op, n.args[0]);
        assert FlatAll(n.args)[0] == Flat(n.args[0]);
      } else {
        assert Spread(op, [Flat(n)]) == Flat(n).args;
      }
    }
  }

  lemma {:induction false} ItemsOfAllMakeFlat(op: BoolOp, ns: seq<Node>)
    requires op != NotExpr && forall a | a in ns :: Printable(a)
    ensures |ItemsOfAll(op, ns)| >= |ns|
    ensures Spread(op, ItemsOfAll(op, ns)) == Spread(op, FlatAll(ns))
    decreases ns, 0
  {
    if ns != [] {
      assert ns[0] in ns;
      ItemsMakeFlat(op, ns[0]);
      ItemsOfAllMakeFlat(op, ns[1..]);
      SpreadConcat(op, Items(op, ns[0]), ItemsOfAll(op, ns[1..]));
      SpreadConcat(op, [Flat(ns[0])], FlatAll(ns[1..]));
    }
  }

  // --- tokens of a node ------------------------------------------------------------

  function Toks(n: Node): seq<Token> { TokensOf(Pieces(n)) }

  function OperandToks(n: Node): seq<Token> {
    if n.IsAExpr() then [LParen] + Toks(n) + [RParen] else Toks(n)
  }

  lemma TokensOfThree(a: seq<Piece>, b: seq<Piece>, c: seq<Piece>)
    ensures TokensOf(a + b + c) == TokensOf(a) + TokensOf(b) + TokensOf(c)
  {
    TokensConcat(a + b, c);
    TokensConcat(a, b);
  }

  /** Parts around a separator with these tokens. */
  lemma TokensAround(a: seq<Piece>, sep: seq<Piece>, b: seq<Piece>, ts: seq<Token>)
    requires TokensOf(sep) == ts
    ensures TokensOf(a + sep + b) == TokensOf(a) + ts + TokensOf(b)
  {
    TokensOfThree(a, sep, b);
  }

  lemma OneToken(p: Piece)
    ensures TokensOf([p]) == PieceTokens(p)
  {
    assert TokensOf([p][1..]) == [];
  }

  lemma WrappedTokens(ps: seq<Piece>)
    ensures TokensOf(Wrapped(ps)) == [LParen] + TokensOf(ps) + [RParen]
  {
    TokensOfThree(OPEN, ps, CLOSE);
    OneToken(Punct(LParen));
    OneToken(Punct(RParen));
  }

  lemma AndOrTokens(op: BoolOp)
    requires op != NotExpr
    ensures TokensOf(if op == AndExpr then AND else OR) == [Kw(if op == AndExpr then KAnd else KOr)]
  {
    if op == AndExpr {
      assert TokensOf(AND) == [Kw(KAnd)];
    } else {
      assert TokensOf(OR) == [Kw(KOr)];
    }
  }

  lemma CommaTokens()
    ensures TokensOf(COMMA) == [Comma]
  {
  }

  lemma IsTokens(isNull: bool)
    ensures TokensOf(if isNull then IS_NULL else IS_NOT_NULL) ==
            if isNull then [Kw(KIs), Kw(KNull)] else [Kw(KIs), Kw(KNot), Kw(KNull)]
  {
    if isNull {
      assert TokensOf(IS_NULL) == [Kw(KIs), Kw(KNull)];
    } else {
      assert TokensOf(IS_NOT_NULL) == [Kw(KIs), Kw(KNot), Kw(KNull)];
    }
  }

  lemma DistinctSeparatorTokens()
    ensures TokensOf(IS_DISTINCT_FROM) == [Kw(KIs), Kw(KDistinct), Kw(KFrom)]
  {
  }

  lemma RangeSeparatorTokens(negated: bool)
    ensures TokensOf(if negated then NOT_BETWEEN else BETWEEN) == NotIf(negated) + [Kw(KBetween)]
    ensures TokensOf(if negated then NOT_IN else IN) == NotIf(negated) + [Kw(KIn)]
  {
    if negated {
      assert TokensOf(NOT_BETWEEN) == [Kw(KNot), Kw(KBetween)];
      assert TokensOf(NOT_IN) == [Kw(KNot), Kw(KIn)];
    } else {
      assert TokensOf(BETWEEN) == [Kw(KBetween)];
      assert TokensOf(IN) == [Kw(KIn)];
    }
  }

  lemma QuantifierTokens(all: bool)
    ensures TokensOf(if all then ALL else ANY) == [Kw(if all then KAll else KAny)]
  {
    if all {
      assert TokensOf(ALL) == [Kw(KAll)];
    } else {
      assert TokensOf(ANY) == [Kw(KAny)];
    }
  }

  lemma PrefixTokens()
    ensures TokensOf(NOT) == [Kw(KNot)] && TokensOf(EXISTS) == [Kw(KExists)]
  {
  }

  lemma SubqueryTokens()
    ensures TokensOf(AS) == [Kw(KAs)] && TokensOf(WHERE) == [Kw(KWhere)]
    ensures TokensOf(SELECT_1_FROM) == [Kw(KSelect), IntTok(1), Kw(KFrom)]
  {
  }

  lemma OperandTokens(n: Node)
    ensures TokensOf(OperandPieces(n)) == OperandToks(n)
  {
    WrappedTokens(Pieces(n));
  }

  lemma InfixTokens(op: string)
    ensures TokensOf(Infix(op)) == [OpTok(CanonicalOp(op))]
  {
    assert Infix(op) == [Space] + [Operator(op)] + [Space];
    TokensOfThree([Space], [Operator(op)], [Space]);
    OneToken(Space);
    OneToken(Operator(op));
  }

  lemma BinaryTokens(op: string, l: Node, r: Node)
    ensures Toks(Binary(op, l, r)) == OperandToks(l) + [OpTok(CanonicalOp(op))] + OperandToks(r)
  {
    InfixTokens(op);
    OperandsAround(l, Infix(op), r, [OpTok(CanonicalOp(op))]);
  }

  lemma OperandsAround(l: Node, sep: seq<Piece>, r: Node, ts: seq<Token>)
    requires TokensOf(sep) == ts
    ensures TokensOf(OperandPieces(l) + sep + OperandPieces(r)) == OperandToks(l) + ts + OperandToks(r)
  {
    OperandTokens(l);
    OperandTokens(r);
    TokensAround(OperandPieces(l), sep, OperandPieces(r), ts);
  }

  lemma DistinctTokens(l: Node, r: Node)
    ensures Toks(DistinctFrom(l, r)) == OperandToks(l) + [Kw(KIs), Kw(KDistinct), Kw(KFrom)] + OperandToks(r)
  {
    DistinctPieces(l, r);
    DistinctSeparatorTokens();
    OperandsAround(l, IS_DISTINCT_FROM, r, [Kw(KIs), Kw(KDistinct), Kw(KFrom)]);
  }

  lemma DistinctPieces(l: Node, r: Node)
    ensures Pieces(DistinctFrom(l, r)) == OperandPieces(l) + IS_DISTINCT_FROM + OperandPieces(r)
  {
  }

  function NotIf(negated: bool): seq<Token> { if negated then [Kw(KNot)] else [] }

  lemma BetweenTokens(negated: bool, x: Node, low: Node, high: Node)
    ensures Toks(Between(negated, x, low, high)) ==
            Toks(x) + (NotIf(negated) + [Kw(KBetween)]) + Toks(low) + [Kw(KAnd)] + Toks(high)
  {
    var sep := if negated then NOT_BETWEEN else BETWEEN;
    TokensOfThree(Pieces(x) + sep + Pieces(low), AND, Pieces(high));
    TokensOfThree(Pieces(x), sep, Pieces(low));
    assert TokensOf(sep) == NotIf(negated) + [Kw(KBetween)] by { RangeSeparatorTokens(negated); }
    assert TokensOf(AND) == [Kw(KAnd)] by { AndOrTokens(AndExpr); }
  }

  function JoinTokens(parts: seq<seq<Token>>, sep: seq<Token>): seq<Token> {
    if parts == [] then []
    else if |parts| == 1 then parts[0]
    else parts[0] + sep + JoinTokens(parts[1..], sep)
  }

  function AllToks(ns: seq<Node>): (r: seq<seq<Token>>)
    ensures |r| == |ns| && forall i :: 0 <= i < |ns| ==> r[i] == Toks(ns[i])
  {
    seq(|ns|, i requires 0 <= i < |ns| => Toks(ns[i]))
  }

  function ArgToks(op: BoolOp, n: Node): seq<Token> {
    if op == AndExpr && n.Is(OrExpr) then [LParen] + Toks(n) + [RParen] else Toks(n)
  }

  function AllArgToks(op: BoolOp, ns: seq<Node>): (r: seq<seq<Token>>)
    ensures |r| == |ns| && forall i :: 0 <= i < |ns| ==> r[i] == ArgToks(op, ns[i])
  {
    seq(|ns|, i requires 0 <= i < |ns| => ArgToks(op, ns[i]))
  }

  lemma {:induction false} JoinedItemTokens(ns: seq<Node>)
    ensures TokensOf(JoinPieces(AllPieces(ns), COMMA)) == JoinTokens(AllToks(ns), [Comma])
  {
    if |ns| > 1 {
      assert AllPieces(ns)[1..] == AllPieces(ns[1..]);
      assert AllToks(ns)[1..] == AllToks(ns[1..]);
      JoinedItemTokens(ns[1..]);
      TokensOfThree(Pieces(ns[0]), COMMA, JoinPieces(AllPieces(ns[1..]), COMMA));
      CommaTokens();
    }
  }

  lemma {:induction false} JoinedArgTokens(op: BoolOp, ns: seq<Node>)
    requires op != NotExpr
    ensures TokensOf(JoinPieces(ArgPieces(op, ns), if op == AndExpr then AND else OR)) ==
            JoinTokens(AllArgToks(op, ns), [Kw(if op == AndExpr then KAnd else KOr)])
  {
    if ns != [] { WrappedTokens(Pieces(ns[0])); }
    if |ns| > 1 {
      assert ArgPieces(op, ns)[1..] == ArgPieces(op, ns[1..]);
      assert AllArgToks(op, ns)[1..] == AllArgToks(op, ns[1..]);
      JoinedArgTokens(op, ns[1..]);
      TokensOfThree(ArgPieces(op, ns)[0], if op == AndExpr then AND else OR,
                    JoinPieces(ArgPieces(op, ns[1..]), if op == AndExpr then AND else OR));
      AndOrTokens(op);
    }
  }

  /** A list of one prints and reads as its element. */
  lemma LoneTokens(n: Node)
    requires Lone(n)
    ensures Toks(n) == ArgToks(n.boolop, n.args[0]) && Flat(n) == Flat(n.args[0])
  {
    JoinedArgTokens(n.boolop, n.args);
    assert n.args[1..] == [] && FlatAll(n.args) == [Flat(n.args[0])];
  }

  lemma InListTokens(negated: bool, x: Node, items: seq<Node>)
    ensures Toks(InList(negated, x, items)) ==
            Toks(x) + (NotIf(negated) + [Kw(KIn)]) + ([LParen] + JoinTokens(AllToks(items), [Comma]) + [RParen])
  {
    var list := JoinPieces(AllPieces(items), COMMA);
    var sep := if negated then NOT_IN else IN;
    TokensOfThree(Pieces(x), sep, Wrapped(list));
    assert TokensOf(Wrapped(list)) == [LParen] + JoinTokens(AllToks(items), [Comma]) + [RParen] by {
      JoinedItemTokens(items);
      WrappedTokens(list);
    }
    assert TokensOf(sep) == NotIf(negated) + [Kw(KIn)] by { RangeSeparatorTokens(negated); }
  }

  lemma QuantifiedTokens(op: string, all: bool, l: Node, r: Node)
    ensures Toks(Quantified(op, all, l, r)) ==
            Toks(l) + [OpTok(CanonicalOp(op))] + [Kw(if all then KAll else KAny)] + ([LParen] + Toks(r) + [RParen])
  {
    QuantifierTokens(all);
    WrappedTokens(Pieces(r));
    SpacedOperatorTokens(op);
    TokensBehind(Pieces(l), [Space, Operator(op)], [OpTok(CanonicalOp(op))]);
    TokensAround(Pieces(l) + [Space, Operator(op)], if all then ALL else ANY, Wrapped(Pieces(r)),
                 [Kw(if all then KAll else KAny)]);
    QuantifiedPieces(op, all, l, r);
  }

  lemma QuantifiedPieces(op: string, all: bool, l: Node, r: Node)
    ensures Pieces(Quantified(op, all, l, r))
            == Pieces(l) + [Space, Operator(op)] + (if all then ALL else ANY) + Wrapped(Pieces(r))
  {
  }

  lemma TokensBehind(a: seq<Piece>, b: seq<Piece>, ts: seq<Token>)
    requires TokensOf(b) == ts
    ensures TokensOf(a + b) == TokensOf(a) + ts
  {
    TokensConcat(a, b);
  }

  lemma SpacedOperatorTokens(op: string)
    ensures TokensOf([Space, Operator(op)]) == [OpTok(CanonicalOp(op))]
  {
    assert [Space, Operator(op)] == [Space] + [Operator(op)];
    TokensConcat([Space], [Operator(op)]);
    OneToken(Space);
    OneToken(Operator(op));
  }

  lemma NullTestTokens(x: Node, isNull: bool)
    ensures Toks(NullTest(x, isNull)) ==
            Toks(x) + if isNull then [Kw(KIs), Kw(KNull)] else [Kw(KIs), Kw(KNot), Kw(KNull)]
  {
    IsTokens(isNull);
    NullTestPieces(x, isNull);
    TokensBehind(Pieces(x), if isNull then IS_NULL else IS_NOT_NULL,
                 if isNull then [Kw(KIs), Kw(KNull)] else [Kw(KIs), Kw(KNot), Kw(KNull)]);
  }

  lemma NullTestPieces(x: Node, isNull: bool)
    ensures Pieces(NullTest(x, isNull)) == Pieces(x) + if isNull then IS_NULL else IS_NOT_NULL
  {
  }

  lemma NotTokens(x: Node)
    ensures Toks(BoolExpr(NotExpr, [x])) == [Kw(KNot)] + ([LParen] + Toks(x) + [RParen])
  {
    assert Pieces(BoolExpr(NotExpr, [x])) == NOT + Wrapped(Pieces(x)) by { assert [x][0] == x; }
    TokensConcat(NOT, Wrapped(Pieces(x)));
    WrappedTokens(Pieces(x));
    assert TokensOf(NOT) == [Kw(KNot)] by { PrefixTokens(); }
  }

  lemma ExistsTokens(table: string, alias: string, condition: Node)
    ensures Toks(Exists(table, alias, condition)) ==
            [Kw(KExists)] + ([LParen] + (SelectHeadTokens(table, alias) + Toks(condition)) + [RParen])
  {
    var head := SELECT_1_FROM + [Name(table)] + AS + [Name(alias)] + WHERE;
    SelectHead(table, alias);
    TokensConcat(head, Pieces(condition));
    WrappedTokens(head + Pieces(condition));
    ExistsPieces(table, alias, condition);
    TokensConcat(EXISTS, Wrapped(head + Pieces(condition)));
    PrefixTokens();
  }

  lemma ExistsPieces(table: string, alias: string, condition: Node)
    ensures Pieces(Exists(table, alias, condition))
            == EXISTS + Wrapped(SELECT_1_FROM + [Name(table)] + AS + [Name(alias)] + WHERE + Pieces(condition))
  {
  }

  function SelectHeadTokens(table: string, alias: string): seq<Token> {
    [Kw(KSelect), IntTok(1), Kw(KFrom)] + [NameToken(table)] + [Kw(KAs)] + [NameToken(alias)] + [Kw(KWhere)]
  }

  lemma SelectHead(table: string, alias: string)
    ensures TokensOf(SELECT_1_FROM + [Name(table)] + AS + [Name(alias)] + WHERE) == SelectHeadTokens(table, alias)
  {
    var a := SELECT_1_FROM + [Name(table)];
    TokensOfThree(a + AS, [Name(alias)], WHERE);
    TokensConcat(a, AS);
    TokensConcat(SELECT_1_FROM, [Name(table)]);
    OneToken(Name(table));
    OneToken(Name(alias));
    SubqueryTokens();
  }

  function FieldToks(fields: seq<string>): seq<Token> {
    if fields == [] then [] else [Dot, NameToken(fields[0])] + FieldToks(fields[1..])
  }

  lemma {:induction false} ColumnTokens(fields: seq<string>)
    requires fields != []
    ensures Toks(Column(fields)) == [NameToken(fields[0])] + FieldToks(fields[1..])
  {
    if |fields| == 1 {
      OneToken(Name(fields[0]));
    } else {
      assert NamePieces(fields)[1..] == NamePieces(fields[1..]);
      ColumnTokens(fields[1..]);
      MoreFields(fields[0], JoinPieces(NamePieces(fields[1..]), DOT));
      DotAndFields(fields[1..]);
    }
  }

  lemma MoreFields(name: string, more: seq<Piece>)
    ensures TokensOf([Name(name)] + DOT + more) == [NameToken(name)] + ([Dot] + TokensOf(more))
  {
    OneToken(Name(name));
    OneToken(Punct(Dot));
    TokensAround([Name(name)], DOT, more, [Dot]);
    Associative([NameToken(name)], [Dot], TokensOf(more));
  }

  lemma DotAndFields(fields: seq<string>)
    requires fields != []
    ensures [Dot] + ([NameToken(fields[0])] + FieldToks(fields[1..])) == FieldToks(fields)
  {
    TwoInFront(Dot, NameToken(fields[0]), FieldToks(fields[1..]));
  }

  lemma TwoInFront(a: Token, b: Token, rest: seq<Token>)
    ensures [a] + ([b] + rest) == [a, b] + rest
  {
  }
}
