/**
 The printer's output as pieces: every stretch of printed text with the tokens it stands for.
 `Deparse` prints exactly these pieces, they never run together, and so lexing the printed
 SQL of any node gives exactly the node's tokens.
 */
module Printed {
  import opened Common
  import opened Ast
  import opened Deparser
  import opened Lexer

  const AND: seq<Piece> := [Space, Word(KAnd), Space]
  const OR: seq<Piece> := [Space, Word(KOr), Space]
  const IS_NULL: seq<Piece> := [Space, Word(KIs), Space, Word(KNull)]
  const IS_NOT_NULL: seq<Piece> := [Space, Word(KIs), Space, Word(KNot), Space, Word(KNull)]
  const IS_DISTINCT_FROM: seq<Piece> :=
    [Space, Word(KIs), Space, Word(KDistinct), Space, Word(KFrom), Space]
  const BETWEEN: seq<Piece> := [Space, Word(KBetween), Space]
  const NOT_BETWEEN: seq<Piece> := [Space, Word(KNot), Space, Word(KBetween), Space]
  const IN: seq<Piece> := [Space, Word(KIn), Space]
  const NOT_IN: seq<Piece> := [Space, Word(KNot), Space, Word(KIn), Space]
  const ANY: seq<Piece> := [Space, Word(KAny), Space]
  const ALL: seq<Piece> := [Space, Word(KAll), Space]
  const NOT: seq<Piece> := [Word(KNot), Space]
  const EXISTS: seq<Piece> := [Word(KExists), Space]
  const SELECT_1_FROM: seq<Piece> := [Word(KSelect), Space, Number(1), Space, Word(KFrom), Space]
  const AS: seq<Piece> := [Space, Word(KAs), Space]
  const WHERE: seq<Piece> := [Space, Word(KWhere), Space]
  const COMMA: seq<Piece> := [Punct(Comma), Space]
  const DOT: seq<Piece> := [Punct(Dot)]
  const OPEN: seq<Piece> := [Punct(LParen)]
  const CLOSE: seq<Piece> := [Punct(RParen)]

  function Infix(op: string): seq<Piece> { [Space, Operator(op), Space] }

  function JoinPieces(parts: seq<seq<Piece>>, sep: seq<Piece>): seq<Piece> {
    if parts == [] then []
    else if |parts| == 1 then parts[0]
    else parts[0] + sep + JoinPieces(parts[1..], sep)
  }

  function NamePieces(names: seq<string>): (r: seq<seq<Piece>>)
    ensures |r| == |names|
  {
    if names == [] then [] else [[Name(names[0])]] + NamePieces(names[1..])
  }

  function Wrapped(ps: seq<Piece>): seq<Piece> { OPEN + ps + CLOSE }

  function Pieces(n: Node): seq<Piece>
    decreases n, 1
  {
    match n
    case Column(fields) => JoinPieces(NamePieces(fields), DOT)
    case Param(k) => [Placeholder(k)]
    case NullConst => [Word(KNull)]
    case BoolConst(b) => [Word(if b then KTrue else KFalse)]
    case IntConst(k) => [Number(k)]
    case StringConst(s) => [Literal(s)]
    case Binary(op, l, r) => OperandPieces(l) + Infix(op) + OperandPieces(r)
    case DistinctFrom(l, r) => OperandPieces(l) + IS_DISTINCT_FROM + OperandPieces(r)
    case Between(negated, x, low, high) =>
      Pieces(x) + (if negated then NOT_BETWEEN else BETWEEN) + Pieces(low) + AND + Pieces(high)
    case InList(negated, x, items) =>
      Pieces(x) + (if negated then NOT_IN else IN) + Wrapped(JoinPieces(AllPieces(items), COMMA))
    case Quantified(op, all, l, r) =>
      Pieces(l) + [Space, Operator(op)] + (if all then ALL else ANY) + Wrapped(Pieces(r))
    case NullTest(x, isNull) => Pieces(x) + (if isNull then IS_NULL else IS_NOT_NULL)
    case BoolExpr(op, args) =>
      if op == NotExpr then NOT + Wrapped(if args == [] then [] else Pieces(args[0]))
      else JoinPieces(ArgPieces(op, args), if op == AndExpr then AND else OR)
    case Exists(table, alias, condition) =>
      EXISTS + Wrapped(SELECT_1_FROM + [Name(table)] + AS + [Name(alias)] + WHERE + Pieces(condition))
  }

  function OperandPieces(n: Node): seq<Piece>
    decreases n, 2
  {
    if n.IsAExpr() then Wrapped(Pieces(n)) else Pieces(n)
  }

  function AllPieces(ns: seq<Node>): (r: seq<seq<Piece>>)
    ensures |r| == |ns|
    decreases ns, 0
  {
    if ns == [] then [] else [Pieces(ns[0])] + AllPieces(ns[1..])
  }

  function ArgPieces(op: BoolOp, ns: seq<Node>): (r: seq<seq<Piece>>)
    ensures |r| == |ns|
    decreases ns, 0
  {
    if ns == [] then []
    else [if op == AndExpr && ns[0].Is(OrExpr) then Wrapped(Pieces(ns[0])) else Pieces(ns[0])]
         + ArgPieces(op, ns[1..])
  }

  // --- the pieces spell the printed text ---------------------------------------

  lemma TextOfTwo(a: seq<Piece>, b: seq<Piece>, c: seq<Piece>)
    ensures TextOf(a + b + c) == TextOf(a) + TextOf(b) + TextOf(c)
  {
    TextConcat(a + b, c);
    TextConcat(a, b);
  }

  lemma BooleanTexts()
    ensures TextOf(AND) == " AND " && TextOf(OR) == " OR " && TextOf(COMMA) == ", " && TextOf(NOT) == "NOT "
  {
  }

  lemma IsText(isNull: bool)
    ensures TextOf(if isNull then IS_NULL else IS_NOT_NULL) == if isNull then " IS NULL" else " IS NOT NULL"
  {
    if isNull {
      assert TextOf(IS_NULL) == " IS NULL";
    } else {
      assert TextOf(IS_NOT_NULL) == " IS NOT NULL";
    }
  }

  lemma DistinctText()
    ensures TextOf(IS_DISTINCT_FROM) == " IS DISTINCT FROM "
  {
  }

  lemma BetweenWords(negated: bool)
    ensures TextOf(if negated then NOT_BETWEEN else BETWEEN) == if negated then " NOT BETWEEN " else " BETWEEN "
  {
    if negated {
      assert TextOf(NOT_BETWEEN) == " NOT BETWEEN ";
    } else {
      assert TextOf(BETWEEN) == " BETWEEN ";
    }
  }

  lemma InWords(negated: bool)
    ensures TextOf(if negated then NOT_IN else IN) == if negated then " NOT IN " else " IN "
  {
    if negated {
      assert TextOf(NOT_IN) == " NOT IN ";
    } else {
      assert TextOf(IN) == " IN ";
    }
  }

  lemma QuantifierTexts(all: bool)
    ensures TextOf(if all then ALL else ANY) == if all then " ALL " else " ANY "
  {
    if all {
      assert TextOf(ALL) == " ALL ";
    } else {
      assert TextOf(ANY) == " ANY ";
    }
  }

  lemma SubqueryTexts()
    ensures TextOf(EXISTS) == "EXISTS " && TextOf(AS) == " AS " && TextOf(WHERE) == " WHERE "
  {
  }

  lemma SelectText()
    ensures TextOf(SELECT_1_FROM) == "SELECT 1 FROM "
  {
    assert PieceText(Number(1)) == "1";
  }

  lemma OneText(p: Piece)
    ensures TextOf([p]) == PieceText(p)
  {
    assert TextOf([p][1..]) == [];
  }

  lemma WrappedText(ps: seq<Piece>)
    ensures TextOf(Wrapped(ps)) == Parens(TextOf(ps))
  {
    TextOfTwo(OPEN, ps, CLOSE);
    OneText(Punct(LParen));
    OneText(Punct(RParen));
  }

  lemma InfixText(op: string)
    ensures TextOf(Infix(op)) == " " + op + " "
  {
    assert Infix(op) == [Space] + [Operator(op)] + [Space];
    TextOfTwo([Space], [Operator(op)], [Space]);
    OneText(Space);
    OneText(Operator(op));
  }

  /** The text of parts printed one by one. */
  function Texts(parts: seq<seq<Piece>>): (r: seq<string>)
    ensures |r| == |parts|
  {
    if parts == [] then [] else [TextOf(parts[0])] + Texts(parts[1..])
  }

  lemma {:induction false} JoinText(parts: seq<seq<Piece>>, sep: seq<Piece>)
    ensures TextOf(JoinPieces(parts, sep)) == Join(Texts(parts), TextOf(sep))
  {
    if |parts| > 1 {
      TextOfTwo(parts[0], sep, JoinPieces(parts[1..], sep));
      JoinText(parts[1..], sep);
      assert Texts(parts)[1..] == Texts(parts[1..]);
    } else if |parts| == 1 {
      assert Texts(parts) == [TextOf(parts[0])] + Texts(parts[1..]);
    }
  }

  lemma {:induction false} NamesText(names: seq<string>)
    ensures Texts(NamePieces(names)) == QuoteAll(names)
  {
    if names != [] {
      assert NamePieces(names)[1..] == NamePieces(names[1..]);
      OneText(Name(names[0]));
      NamesText(names[1..]);
    }
  }

  lemma {:induction false} AllText(ns: seq<Node>)
    ensures Texts(AllPieces(ns)) == DeparseAll(ns)
    decreases ns, 0
  {
    if ns != [] {
      assert AllPieces(ns)[1..] == AllPieces(ns[1..]);
      PiecesText(ns[0]);
      AllText(ns[1..]);
    }
  }

  lemma {:induction false} ArgsText(op: BoolOp, ns: seq<Node>)
    ensures Texts(ArgPieces(op, ns)) == DeparseArgs(op, ns)
    decreases ns, 0
  {
    if ns != [] {
      assert ArgPieces(op, ns)[1..] == ArgPieces(op, ns[1..]);
      PiecesText(ns[0]);
      WrappedText(Pieces(ns[0]));
      ArgsText(op, ns[1..]);
    }
  }

  lemma {:induction false} OperandText(n: Node)
    ensures TextOf(OperandPieces(n)) == DeparseOperand(n)
    decreases n, 2
  {
    PiecesText(n);
    WrappedText(Pieces(n));
  }

  lemma {:induction false} BinaryText(n: Node)
    requires n.Binary? || n.DistinctFrom?
    ensures TextOf(Pieces(n)) == Deparse(n)
    decreases n, 0
  {
    OperandText(n.left);
    OperandText(n.right);
    if n.Binary? {
      TextOfTwo(OperandPieces(n.left), Infix(n.op), OperandPieces(n.right));
      InfixText(n.op);
      InfixRegroups(DeparseOperand(n.left), n.op, DeparseOperand(n.right));
    } else {
      TextOfTwo(OperandPieces(n.left), IS_DISTINCT_FROM, OperandPieces(n.right));
      DistinctText();
    }
  }

  lemma InfixRegroups(a: string, op: string, b: string)
    ensures a + (" " + op + " ") + b == a + " " + op + " " + b
  {
  }

  lemma {:induction false} BetweenText(n: Node)
    requires n.Between?
    ensures TextOf(Pieces(n)) == Deparse(n)
    decreases n, 0
  {
    var sep := if n.negated then NOT_BETWEEN else BETWEEN;
    PiecesText(n.arg);
    PiecesText(n.low);
    PiecesText(n.high);
    TextOfTwo(Pieces(n.arg) + sep + Pieces(n.low), AND, Pieces(n.high));
    TextOfTwo(Pieces(n.arg), sep, Pieces(n.low));
    BetweenWords(n.negated);
    BooleanTexts();
  }

  lemma {:induction false} InListText(n: Node)
    requires n.InList?
    ensures TextOf(Pieces(n)) == Deparse(n)
    decreases n, 0
  {
    var sep := if n.negated then NOT_IN else IN;
    var list := JoinPieces(AllPieces(n.items), COMMA);
    PiecesText(n.arg);
    AllText(n.items);
    JoinText(AllPieces(n.items), COMMA);
    WrappedText(list);
    TextOfTwo(Pieces(n.arg), sep, Wrapped(list));
    InWords(n.negated);
    BooleanTexts();
  }

  lemma {:induction false} QuantifiedText(n: Node)
    requires n.Quantified?
    ensures TextOf(Pieces(n)) == Deparse(n)
    decreases n, 0
  {
    PiecesText(n.left);
    PiecesText(n.right);
    WrappedText(Pieces(n.right));
    TextOfTwo(Pieces(n.left) + [Space, Operator(n.op)], if n.all then ALL else ANY, Wrapped(Pieces(n.right)));
    TextConcat(Pieces(n.left), [Space, Operator(n.op)]);
    SpacedOperatorText(n.op);
    Associative(Deparse(n.left), " ", n.op);
    QuantifierTexts(n.all);
  }

  lemma SpacedOperatorText(op: string)
    ensures TextOf([Space, Operator(op)]) == " " + op
  {
    assert [Space, Operator(op)] == [Space] + [Operator(op)];
    TextConcat([Space], [Operator(op)]);
    OneText(Space);
    OneText(Operator(op));
  }

  lemma {:induction false} ExistsText(n: Node)
    requires n.Exists?
    ensures TextOf(Pieces(n)) == Deparse(n)
    decreases n, 0
  {
    var a := SELECT_1_FROM + [Name(n.table)];
    var b := a + AS + [Name(n.alias)];
    PiecesText(n.condition);
    TextConcat(EXISTS, Wrapped(b + WHERE + Pieces(n.condition)));
    WrappedText(b + WHERE + Pieces(n.condition));
    TextOfTwo(b, WHERE, Pieces(n.condition));
    TextOfTwo(a, AS, [Name(n.alias)]);
    TextConcat(SELECT_1_FROM, [Name(n.table)]);
    OneText(Name(n.table));
    OneText(Name(n.alias));
    SubqueryTexts();
    SelectText();
  }

  /** The pieces of a node spell exactly what the printer prints for it. */
  lemma {:induction false} PiecesText(n: Node)
    ensures TextOf(Pieces(n)) == Deparse(n)
    decreases n, 1
  {
    match n
    case Column(_) => ColumnText(n);
    case Param(k) => OneText(Placeholder(k));
    case NullConst => OneText(Word(KNull));
    case BoolConst(b) => OneText(Word(if b then KTrue else KFalse));
    case IntConst(k) => OneText(Number(k));
    case StringConst(s) => OneText(Literal(s));
    case Binary(_, _, _) => BinaryText(n);
    case DistinctFrom(_, _) => BinaryText(n);
    case Between(_, _, _, _) => BetweenText(n);
    case InList(_, _, _) => InListText(n);
    case Quantified(_, _, _, _) => QuantifiedText(n);
    case NullTest(_, _) => NullTestText(n);
    case BoolExpr(_, _) => BoolText(n);
    case Exists(_, _, _) => ExistsText(n);
  }

  lemma ColumnText(n: Node)
    requires n.Column?
    ensures TextOf(Pieces(n)) == Deparse(n)
  {
    JoinText(NamePieces(n.fields), DOT);
    NamesText(n.fields);
    OneText(Punct(Dot));
  }

  lemma {:induction false} NullTestText(n: Node)
    requires n.NullTest?
    ensures TextOf(Pieces(n)) == Deparse(n)
    decreases n, 0
  {
    PiecesText(n.arg);
    TextConcat(Pieces(n.arg), if n.isNull then IS_NULL else IS_NOT_NULL);
    IsText(n.isNull);
  }

  lemma {:induction false} BoolText(n: Node)
    requires n.BoolExpr?
    ensures TextOf(Pieces(n)) == Deparse(n)
    decreases n, 0
  {
    BooleanTexts();
    if n.boolop == NotExpr {
      var inner := if n.args == [] then [] else Pieces(n.args[0]);
      if n.args != [] { PiecesText(n.args[0]); }
      TextConcat(NOT, Wrapped(inner));
      WrappedText(inner);
    } else {
      JoinText(ArgPieces(n.boolop, n.args), if n.boolop == AndExpr then AND else OR);
      ArgsText(n.boolop, n.args);
    }
  }

  // --- the pieces never run together -------------------------------------------

  /** Every name is non-empty and every operator is one PostgreSQL token. */
  predicate Lexable(n: Node) {
    match n
    case Column(fields) => fields != [] && forall f | f in fields :: f != []
    case Binary(op, l, r) => IsOperator(op) && Lexable(l) && Lexable(r)
    case DistinctFrom(l, r) => Lexable(l) && Lexable(r)
    case Between(_, x, low, high) => Lexable(x) && Lexable(low) && Lexable(high)
    case InList(_, x, items) => Lexable(x) && forall i | i in items :: Lexable(i)
    case Quantified(op, _, l, r) => IsOperator(op) && Lexable(l) && Lexable(r)
    case NullTest(x, _) => Lexable(x)
    case BoolExpr(_, args) => forall a | a in args :: Lexable(a)
    case Exists(table, alias, condition) => table != [] && alias != [] && Lexable(condition)
    case _ => true
  }

  lemma SpacedConcat(a: seq<Piece>, b: seq<Piece>)
    requires Spaced(a) && Spaced(b)
    requires a == [] || b == [] || Separates(a[|a| - 1]) || Separates(b[0])
    ensures Spaced(a + b)
  {
    forall i | 0 <= i < |a + b| - 1 ensures Separates((a + b)[i]) || Separates((a + b)[i + 1]) {
      if i < |a| - 1 {
        assert Separates(a[i]) || Separates(a[i + 1]);
      } else if i >= |a| {
        assert Separates(b[i - |a|]) || Separates(b[i - |a| + 1]);
      }
    }
  }

  /** A stretch that may stand between any two others. */
  ghost predicate Fences(sep: seq<Piece>) {
    sep != [] && Spaced(sep) && Separates(sep[0]) && Separates(sep[|sep| - 1])
  }

  lemma SpacedAround(a: seq<Piece>, sep: seq<Piece>, b: seq<Piece>)
    requires Spaced(a) && Spaced(b) && Fences(sep)
    ensures Spaced(a + sep + b)
  {
    SpacedConcat(a, sep);
    SpacedConcat(a + sep, b);
  }

  lemma SpacedWrapped(ps: seq<Piece>)
    requires Spaced(ps)
    ensures Fences(Wrapped(ps))
  {
    SpacedConcat(OPEN, ps);
    SpacedConcat(OPEN + ps, CLOSE);
  }

  lemma {:induction false} SpacedJoin(parts: seq<seq<Piece>>, sep: seq<Piece>)
    requires Fences(sep) && forall i :: 0 <= i < |parts| ==> Spaced(parts[i])
    ensures Spaced(JoinPieces(parts, sep))
  {
    if |parts| > 1 {
      SpacedJoin(parts[1..], sep);
      SpacedAround(parts[0], sep, JoinPieces(parts[1..], sep));
    }
  }

  lemma {:induction false} SpacedNames(names: seq<string>)
    requires forall f | f in names :: f != []
    ensures forall i :: 0 <= i < |names| ==> Spaced(NamePieces(names)[i])
  {
    if names != [] {
      assert names[0] in names;
      assert forall f | f in names[1..] :: f in names;
      SpacedNames(names[1..]);
      assert Spaced([Name(names[0])]);
    }
  }

  lemma {:induction false} SpacedAll(ns: seq<Node>)
    requires forall a | a in ns :: Lexable(a)
    ensures forall i :: 0 <= i < |ns| ==> Spaced(AllPieces(ns)[i])
    decreases ns, 0
  {
    if ns != [] {
      SpacedPieces(ns[0]);
      SpacedAll(ns[1..]);
    }
  }

  lemma {:induction false} SpacedArgs(op: BoolOp, ns: seq<Node>)
    requires forall a | a in ns :: Lexable(a)
    ensures forall i :: 0 <= i < |ns| ==> Spaced(ArgPieces(op, ns)[i])
    decreases ns, 0
  {
    if ns != [] {
      SpacedPieces(ns[0]);
      SpacedWrapped(Pieces(ns[0]));
      SpacedArgs(op, ns[1..]);
    }
  }

  lemma {:induction false} SpacedOperand(n: Node)
    requires Lexable(n)
    ensures Spaced(OperandPieces(n))
    decreases n, 2
  {
    SpacedPieces(n);
    SpacedWrapped(Pieces(n));
  }

  lemma {:induction false} SpacedPieces(n: Node)
    requires Lexable(n)
    ensures Spaced(Pieces(n))
    decreases n, 1
  {
    match n
    case Column(fields) =>
      SpacedNames(fields);
      SpacedJoin(NamePieces(fields), DOT);
    case Binary(op, l, r) =>
      SpacedOperand(l);
      SpacedOperand(r);
      SpacedAround(OperandPieces(l), Infix(op), OperandPieces(r));
    case DistinctFrom(l, r) =>
      SpacedOperand(l);
      SpacedOperand(r);
      DistinctFences();
      SpacedAround(OperandPieces(l), IS_DISTINCT_FROM, OperandPieces(r));
    case Between(_, _, _, _) => SpacedBetween(n);
    case InList(_, _, _) => SpacedInList(n);
    case Quantified(_, _, _, _) => SpacedQuantified(n);
    case NullTest(x, isNull) =>
      SpacedPieces(x);
      SpacedConcat(Pieces(x), if isNull then IS_NULL else IS_NOT_NULL);
    case BoolExpr(_, _) => SpacedBool(n);
    case Exists(_, _, _) => SpacedExists(n);
    case _ =>
  }

  lemma DistinctFences()
    ensures Fences(IS_DISTINCT_FROM)
  {
  }

  lemma RangeFences(negated: bool)
    ensures Fences(if negated then NOT_BETWEEN else BETWEEN) && Fences(AND)
    ensures Fences(if negated then NOT_IN else IN)
  {
  }

  lemma {:induction false} SpacedBetween(n: Node)
    requires n.Between? && Lexable(n)
    ensures Spaced(Pieces(n))
    decreases n, 0
  {
    var sep := if n.negated then NOT_BETWEEN else BETWEEN;
    SpacedPieces(n.arg);
    SpacedPieces(n.low);
    SpacedPieces(n.high);
    RangeFences(n.negated);
    SpacedAround(Pieces(n.arg), sep, Pieces(n.low));
    SpacedAround(Pieces(n.arg) + sep + Pieces(n.low), AND, Pieces(n.high));
  }

  lemma {:induction false} SpacedInList(n: Node)
    requires n.InList? && Lexable(n)
    ensures Spaced(Pieces(n))
    decreases n, 0
  {
    var list := JoinPieces(AllPieces(n.items), COMMA);
    SpacedPieces(n.arg);
    SpacedAll(n.items);
    SpacedJoin(AllPieces(n.items), COMMA);
    SpacedWrapped(list);
    RangeFences(n.negated);
    SpacedAround(Pieces(n.arg), if n.negated then NOT_IN else IN, Wrapped(list));
  }

  lemma FencesOfQuantifier(op: string, all: bool)
    requires IsOperator(op)
    ensures Fences([Space, Operator(op)] + if all then ALL else ANY)
  {
    SpacedConcat([Space, Operator(op)], if all then ALL else ANY);
  }

  lemma {:induction false} SpacedQuantified(n: Node)
    requires n.Quantified? && Lexable(n)
    ensures Spaced(Pieces(n))
    decreases n, 0
  {
    var l, r, quantifier := Pieces(n.left), Wrapped(Pieces(n.right)), if n.all then ALL else ANY;
    SpacedPieces(n.left);
    SpacedPieces(n.right);
    SpacedWrapped(Pieces(n.right));
    FencesOfQuantifier(n.op, n.all);
    SpacedAround(l, [Space, Operator(n.op)] + quantifier, r);
    assert l + ([Space, Operator(n.op)] + quantifier) + r == l + [Space, Operator(n.op)] + quantifier + r;
  }

  lemma {:induction false} SpacedBool(n: Node)
    requires n.BoolExpr? && Lexable(n)
    ensures Spaced(Pieces(n))
    decreases n, 0
  {
    if n.boolop == NotExpr {
      if n.args != [] { SpacedPieces(n.args[0]); }
      var inner := if n.args == [] then [] else Pieces(n.args[0]);
      SpacedWrapped(inner);
      SpacedConcat(NOT, Wrapped(inner));
    } else {
      SpacedArgs(n.boolop, n.args);
      SpacedJoin(ArgPieces(n.boolop, n.args), if n.boolop == AndExpr then AND else OR);
    }
  }

  lemma {:induction false} SpacedExists(n: Node)
    requires n.Exists? && Lexable(n)
    ensures Spaced(Pieces(n))
    decreases n, 0
  {
    var a := SELECT_1_FROM + [Name(n.table)];
    var b := a + AS + [Name(n.alias)];
    SpacedPieces(n.condition);
    SpacedConcat(SELECT_1_FROM, [Name(n.table)]);
    SpacedAround(a, AS, [Name(n.alias)]);
    SpacedAround(b, WHERE, Pieces(n.condition));
    SpacedWrapped(b + WHERE + Pieces(n.condition));
    SpacedConcat(EXISTS, Wrapped(b + WHERE + Pieces(n.condition)));
  }

  /** Lexing the printed SQL of a node gives the tokens of its pieces. */
  lemma LexDeparse(n: Node)
    requires Lexable(n)
    ensures Lex(Deparse(n)) == TokensOf(Pieces(n))
  {
    PiecesText(n);
    SpacedPieces(n);
    LexText(Pieces(n));
  }
}
