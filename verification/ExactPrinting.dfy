/**
 The printer is faithful on a tree exactly when every operand that it leaves without parentheses
 reaches the level of its place and the server takes every name for what it is.
 */
module ExactPrinting {
  import opened Common
  import opened Ast
  import opened Lexer
  import opened Deparser
  import opened Printed
  import opened Parser
  import opened PrintedTokens
  import opened ParsedTrees
  import opened ParserReads
  import RoundTrip

  // --- the marks of printed trees -----------------------------------------------------------------

  function MarksOf(n: Node): seq<Mark> { Marks(Toks(n), 0) }

  function OperandMarks(n: Node): seq<Mark> { Marks(OperandToks(n), 0) }

  function ArgMarks(op: BoolOp, n: Node): seq<Mark> { Marks(ArgToks(op, n), 0) }

  lemma WordsAreNoParens(op: string, negated: bool, all: bool, isNull: bool)
    ensures forall t | t in [OpTok(op), Kw(if all then KAll else KAny)] :: !IsParen(t)
    ensures forall t | t in NotIf(negated) + [Kw(KBetween)] :: !IsParen(t)
    ensures forall t | t in NotIf(negated) + [Kw(KIn)] :: !IsParen(t)
    ensures forall t | t in (if isNull then [Kw(KIs), Kw(KNull)] else [Kw(KIs), Kw(KNot), Kw(KNull)]) :: !IsParen(t)
  {
  }

  lemma {:induction false} OperandSpells(n: Node)
    requires WellSorted(n)
    ensures Spells(OperandToks(n), OperandMarks(n)) && |OperandMarks(n)| == Width(Flat(n))
    ensures OperandMarks(n) == if n.IsAExpr() then Lift(MarksOf(n), 1) else MarksOf(n)
    decreases n, 2
  {
    ToksSpell(n);
    if n.IsAExpr() { SpellsInParens(Toks(n), MarksOf(n)); }
  }

  lemma {:induction false} ArgSpells(op: BoolOp, n: Node)
    requires WellSorted(n)
    ensures Spells(ArgToks(op, n), ArgMarks(op, n)) && |ArgMarks(op, n)| == Width(Flat(n))
    ensures ArgMarks(op, n) == if op == AndExpr && n.Is(OrExpr) then Lift(MarksOf(n), 1) else MarksOf(n)
    decreases n, 2
  {
    ToksSpell(n);
    if op == AndExpr && n.Is(OrExpr) { SpellsInParens(Toks(n), MarksOf(n)); }
  }

  lemma {:induction false} BinaryMarks(n: Node)
    requires WellSorted(n) && n.Binary?
    ensures Spells(Toks(n), MarksOf(n)) && |MarksOf(n)| == Width(Flat(n))
    ensures MarksOf(n) == OperandMarks(n.left) + AtZero([OpTok(CanonicalOp(n.op))]) + OperandMarks(n.right)
    decreases n, 0
  {
    OperandSpells(n.left);
    OperandSpells(n.right);
    BinaryTokens(n.op, n.left, n.right);
    SpellsAround(OperandToks(n.left), [OpTok(CanonicalOp(n.op))], OperandToks(n.right));
  }

  lemma {:induction false} DistinctMarks(n: Node)
    requires WellSorted(n) && n.DistinctFrom?
    ensures Spells(Toks(n), MarksOf(n)) && |MarksOf(n)| == Width(Flat(n))
    ensures MarksOf(n) ==
            OperandMarks(n.left) + AtZero([Kw(KIs), Kw(KDistinct), Kw(KFrom)]) + OperandMarks(n.right)
    decreases n, 0
  {
    OperandSpells(n.left);
    OperandSpells(n.right);
    DistinctTokens(n.left, n.right);
    DistinctWordsAreNoParens();
    SpellsAround(OperandToks(n.left), [Kw(KIs), Kw(KDistinct), Kw(KFrom)], OperandToks(n.right));
  }

  lemma DistinctWordsAreNoParens()
    ensures forall t | t in [Kw(KIs), Kw(KDistinct), Kw(KFrom)] :: !IsParen(t)
  {
  }

  lemma {:induction false} BetweenMarks(n: Node)
    requires WellSorted(n) && n.Between?
    ensures Spells(Toks(n), MarksOf(n)) && |MarksOf(n)| == Width(Flat(n))
    ensures MarksOf(n) == MarksOf(n.arg) + AtZero(NotIf(n.negated) + [Kw(KBetween)])
                          + (MarksOf(n.low) + AtZero([Kw(KAnd)]) + MarksOf(n.high))
    decreases n, 0
  {
    var ws := NotIf(n.negated) + [Kw(KBetween)];
    ToksSpell(n.arg);
    ToksSpell(n.low);
    ToksSpell(n.high);
    WordsAreNoParens("", n.negated, true, true);
    BetweenTokens(n.negated, n.arg, n.low, n.high);
    SpellsAround(Toks(n.low), [Kw(KAnd)], Toks(n.high));
    SpellsAround(Toks(n.arg), ws, Toks(n.low) + [Kw(KAnd)] + Toks(n.high));
    BoundsRegroup(Toks(n.arg), ws, Toks(n.low), [Kw(KAnd)], Toks(n.high));
  }

  lemma BoundsRegroup(x: seq<Token>, ws: seq<Token>, low: seq<Token>, sep: seq<Token>, high: seq<Token>)
    ensures x + ws + low + sep + high == x + ws + (low + sep + high)
  {
  }

  lemma {:induction false} InListMarks(n: Node)
    requires WellSorted(n) && n.InList?
    ensures Spells(Toks(n), MarksOf(n)) && |MarksOf(n)| == Width(Flat(n))
    ensures MarksOf(n) == MarksOf(n.arg) + AtZero(NotIf(n.negated) + [Kw(KIn)])
                          + Lift(Marks(JoinTokens(AllToks(n.items), [Comma]), 0), 1)
    decreases n, 0
  {
    var ws := NotIf(n.negated) + [Kw(KIn)];
    var items := JoinTokens(AllToks(n.items), [Comma]);
    ToksSpell(n.arg);
    ItemsSpell(n.items);
    SpellsInParens(items, Marks(items, 0));
    WordsAreNoParens("", n.negated, true, true);
    InListTokens(n.negated, n.arg, n.items);
    SpellsAround(Toks(n.arg), ws, [LParen] + items + [RParen]);
  }

  lemma {:induction false} QuantifiedMarks(n: Node)
    requires WellSorted(n) && n.Quantified?
    ensures Spells(Toks(n), MarksOf(n)) && |MarksOf(n)| == Width(Flat(n))
    ensures MarksOf(n) == MarksOf(n.left) + AtZero([OpTok(CanonicalOp(n.op)), Kw(if n.all then KAll else KAny)])
                          + Lift(MarksOf(n.right), 1)
    decreases n, 0
  {
    var op, word := OpTok(CanonicalOp(n.op)), Kw(if n.all then KAll else KAny);
    ToksSpell(n.left);
    ToksSpell(n.right);
    SpellsInParens(Toks(n.right), MarksOf(n.right));
    WordsAreNoParens(CanonicalOp(n.op), true, n.all, true);
    QuantifiedTokens(n.op, n.all, n.left, n.right);
    Associative(Toks(n.left), [op], [word]);
    assert [op] + [word] == [op, word];
    SpellsAround(Toks(n.left), [op, word], [LParen] + Toks(n.right) + [RParen]);
  }

  lemma {:induction false} NullTestMarks(n: Node)
    requires WellSorted(n) && n.NullTest?
    ensures Spells(Toks(n), MarksOf(n)) && |MarksOf(n)| == Width(Flat(n))
    ensures MarksOf(n) ==
            MarksOf(n.arg) + AtZero(if n.isNull then [Kw(KIs), Kw(KNull)] else [Kw(KIs), Kw(KNot), Kw(KNull)])
    decreases n, 0
  {
    ToksSpell(n.arg);
    NullTestTokens(n.arg, n.isNull);
    WordsAreNoParens("", true, true, n.isNull);
    SpellsAfter(Toks(n.arg), if n.isNull then [Kw(KIs), Kw(KNull)] else [Kw(KIs), Kw(KNot), Kw(KNull)]);
  }

  lemma {:induction false} NotMarks(n: Node)
    requires WellSorted(n) && n.Is(NotExpr)
    ensures Spells(Toks(n), MarksOf(n)) && MarksOf(n) == AtZero([Kw(KNot)]) + Lift(MarksOf(n.args[0]), 1)
    decreases n, 0
  {
    var x := n.args[0];
    assert n.args == [x];
    ToksSpell(x);
    SpellsInParens(Toks(x), MarksOf(x));
    NotTokens(x);
    SpellsBefore([Kw(KNot)], [LParen] + Toks(x) + [RParen]);
  }

  lemma HeadIsNoParens(table: string, alias: string)
    ensures |SelectHeadTokens(table, alias)| == 7
    ensures forall t | t in SelectHeadTokens(table, alias) :: !IsParen(t)
  {
    NameIsNoParen(table);
    NameIsNoParen(alias);
    HeadOfTokens(NameToken(table), NameToken(alias));
  }

  lemma HeadOfTokens(table: Token, alias: Token)
    requires !IsParen(table) && !IsParen(alias)
    ensures var head := [Kw(KSelect), IntTok(1), Kw(KFrom)] + [table] + [Kw(KAs)] + [alias] + [Kw(KWhere)];
      |head| == 7 && forall t | t in head :: !IsParen(t)
  {
    assert [Kw(KSelect), IntTok(1), Kw(KFrom)] + [table] + [Kw(KAs)] + [alias] + [Kw(KWhere)] ==
           [Kw(KSelect), IntTok(1), Kw(KFrom), table, Kw(KAs), alias, Kw(KWhere)];
  }

  lemma {:induction false} ExistsMarks(n: Node)
    requires WellSorted(n) && n.Exists?
    ensures Spells(Toks(n), MarksOf(n)) && |MarksOf(n)| == Width(Flat(n))
    ensures MarksOf(n) ==
            AtZero([Kw(KExists)]) + Lift(AtZero(SelectHeadTokens(n.table, n.alias)), 1) + Lift(MarksOf(n.condition), 1)
    decreases n, 0
  {
    var head := SelectHeadTokens(n.table, n.alias);
    ToksSpell(n.condition);
    HeadIsNoParens(n.table, n.alias);
    ExistsTokens(n.table, n.alias, n.condition);
    SpellsQuery(head, Toks(n.condition));
  }

  lemma NameIsNoParen(name: string)
    ensures !IsParen(NameToken(name))
  {
    NameTokenOf(name);
  }

  lemma {:induction false} FieldsAreNoParens(fields: seq<string>)
    ensures |FieldToks(fields)| == 2 * |fields| && forall t | t in FieldToks(fields) :: !IsParen(t)
  {
    if fields != [] {
      FieldsAreNoParens(fields[1..]);
      NameIsNoParen(fields[0]);
    }
  }

  lemma ColumnMarks(fields: seq<string>)
    requires fields != []
    ensures var ms := MarksOf(Column(fields));
      && Spells(Toks(Column(fields)), ms) && |ms| == 2 * |fields| - 1
      && ms[0].token == NameToken(fields[0]) && ms[1..] == AtZero(FieldToks(fields[1..]))
  {
    var more := FieldToks(fields[1..]);
    ColumnTokens(fields);
    FieldsAreNoParens(fields[1..]);
    NameIsNoParen(fields[0]);
    SpellsWords([NameToken(fields[0])] + more);
    assert AtZero([NameToken(fields[0])] + more)[1..] == AtZero(more);
  }

  lemma LiteralMarks(n: Node)
    requires n.Param? || n.NullConst? || n.BoolConst? || n.IntConst? || n.StringConst?
    ensures Spells(Toks(n), MarksOf(n)) && |MarksOf(n)| == 1
  {
    match n
    case Param(k) => OneToken(Placeholder(k)); SpellsOne(ParamTok(k));
    case NullConst => OneToken(Word(KNull)); SpellsOne(Kw(KNull));
    case BoolConst(b) => OneToken(Word(if b then KTrue else KFalse)); SpellsOne(Kw(if b then KTrue else KFalse));
    case IntConst(k) => OneToken(Number(k)); SpellsOne(IntTok(k));
    case StringConst(s) => OneToken(Literal(s)); SpellsOne(StrTok(s));
  }

  lemma {:induction false} ItemsSpell(ns: seq<Node>)
    requires ns != [] && forall n | n in ns :: WellSorted(n)
    ensures var c := JoinTokens(AllToks(ns), [Comma]);
      Spells(c, Marks(c, 0)) && |Marks(c, 0)| == WidthAll(FlatAll(ns))
    ensures |ns| > 1 ==>
      Marks(JoinTokens(AllToks(ns), [Comma]), 0)
      == MarksOf(ns[0]) + AtZero([Comma]) + Marks(JoinTokens(AllToks(ns[1..]), [Comma]), 0)
    decreases ns, 0
  {
    ToksSpell(ns[0]);
    if |ns| > 1 {
      ItemsSpell(ns[1..]);
      assert AllToks(ns)[1..] == AllToks(ns[1..]) && FlatAll(ns)[1..] == FlatAll(ns[1..]);
      SpellsAround(Toks(ns[0]), [Comma], JoinTokens(AllToks(ns[1..]), [Comma]));
    }
  }

  function Separator(op: BoolOp): Token { Kw(if op == AndExpr then KAnd else KOr) }

  function ListToks(op: BoolOp, ns: seq<Node>): seq<Token> { JoinTokens(AllArgToks(op, ns), [Separator(op)]) }

  lemma {:induction false} ArgsSpell(op: BoolOp, ns: seq<Node>)
    requires ns != [] && forall n | n in ns :: WellSorted(n)
    ensures var c := ListToks(op, ns);
      Spells(c, Marks(c, 0)) && |Marks(c, 0)| == WidthAll(FlatAll(ns))
    ensures |ns| > 1 ==>
      Marks(ListToks(op, ns), 0)
      == ArgMarks(op, ns[0]) + AtZero([Separator(op)]) + Marks(ListToks(op, ns[1..]), 0)
    decreases ns, 0
  {
    ArgSpells(op, ns[0]);
    if |ns| > 1 {
      ArgsSpell(op, ns[1..]);
      assert AllArgToks(op, ns)[1..] == AllArgToks(op, ns[1..]) && FlatAll(ns)[1..] == FlatAll(ns[1..]);
      SpellsAround(ArgToks(op, ns[0]), [Separator(op)], ListToks(op, ns[1..]));
    }
  }

  lemma {:induction false} SpreadWidth(op: BoolOp, xs: seq<Node>)
    requires op != NotExpr && xs != [] && forall x | x in xs :: x.Is(op) ==> x.args != []
    ensures Spread(op, xs) != [] && WidthAll(Spread(op, xs)) == WidthAll(xs)
  {
    var head := if xs[0].Is(op) then xs[0].args else [xs[0]];
    assert xs[0] in xs;
    if |xs| == 1 {
      assert xs[1..] == [] && head + [] == head;
    } else {
      SpreadWidth(op, xs[1..]);
      WidthOfBoth(head, Spread(op, xs[1..]));
    }
  }

  /** Flattened lists are not empty. */
  lemma {:induction false} FlatListIsNotEmpty(n: Node)
    requires WellSorted(n) && Flat(n).BoolExpr?
    ensures Flat(n).args != []
    decreases n
  {
    if n.BoolExpr? && n.boolop != NotExpr {
      if |n.args| == 1 {
        LoneTokens(n);
        FlatListIsNotEmpty(n.args[0]);
      } else {
        FlatListsAreNotEmpty(n.args);
        SpreadWidth(n.boolop, FlatAll(n.args));
      }
    }
  }

  lemma {:induction false} FlatListsAreNotEmpty(ns: seq<Node>)
    requires forall n | n in ns :: WellSorted(n)
    ensures forall x | x in FlatAll(ns) :: x.BoolExpr? ==> x.args != []
    decreases ns
  {
    if ns != [] {
      assert ns[0] in ns;
      if Flat(ns[0]).BoolExpr? { FlatListIsNotEmpty(ns[0]); }
      FlatListsAreNotEmpty(ns[1..]);
    }
  }

  lemma {:induction false} ListSpells(n: Node)
    requires WellSorted(n) && n.BoolExpr? && n.boolop != NotExpr
    ensures Spells(Toks(n), MarksOf(n)) && |MarksOf(n)| == Width(Flat(n))
    ensures MarksOf(n) == Marks(ListToks(n.boolop, n.args), 0)
    decreases n, 0
  {
    ArgsSpell(n.boolop, n.args);
    JoinedArgTokens(n.boolop, n.args);
    FlatListsAreNotEmpty(n.args);
    SpreadWidth(n.boolop, FlatAll(n.args));
  }

  /** A tree prints balanced, with as many tokens as its flattened form has. */
  lemma {:induction false} ToksSpell(n: Node)
    requires WellSorted(n)
    ensures Spells(Toks(n), MarksOf(n)) && |MarksOf(n)| == Width(Flat(n))
    decreases n, 1
  {
    match n
    case Column(fields) => ColumnMarks(fields);
    case Binary(_, _, _) => BinaryMarks(n);
    case DistinctFrom(_, _) => DistinctMarks(n);
    case Between(_, _, _, _) => BetweenMarks(n);
    case InList(_, _, _) => InListMarks(n);
    case Quantified(_, _, _, _) => QuantifiedMarks(n);
    case NullTest(_, _) => NullTestMarks(n);
    case BoolExpr(op, args) =>
      if op == NotExpr {
        NotMarks(n);
        ToksSpell(args[0]);
        assert args == [args[0]] && FlatAll(args) == [Flat(args[0])];
      } else {
        ListSpells(n);
      }
    case Exists(_, _, _) => ExistsMarks(n);
    case _ => LiteralMarks(n);
  }

  // --- what the marks of a printed tree tell of the tree -------------------------------------------

  /** Some token stands outside all parentheses. */
  ghost predicate Bare(ms: seq<Mark>) { exists i :: 0 <= i < |ms| && ms[i].depth == 0 }

  lemma BareAround(a: seq<Mark>, ws: seq<Token>, b: seq<Mark>)
    requires ws != []
    ensures Bare(a + AtZero(ws) + b)
  {
    assert (a + AtZero(ws) + b)[|a|] == AtZero(ws)[0];
  }

  /** A printed tree of a level below the tightest shows its operator outside all parentheses. */
  lemma {:induction false} LevelShows(n: Node)
    requires WellSorted(n) && Level(n) < PRIMARY
    ensures Rank(Flat(n)) == Level(n) && Bare(MarksOf(n))
    decreases n
  {
    match n
    case Binary(op, l, r) =>
      BinaryMarks(n);
      BareAround(OperandMarks(l), [OpTok(CanonicalOp(op))], OperandMarks(r));
      RoundTrip.CanonicalKeepsLevel(op);
    case DistinctFrom(l, r) =>
      DistinctMarks(n);
      BareAround(OperandMarks(l), [Kw(KIs), Kw(KDistinct), Kw(KFrom)], OperandMarks(r));
    case Between(negated, x, low, high) =>
      BetweenMarks(n);
      BareAround(MarksOf(x), NotIf(negated) + [Kw(KBetween)],
                 MarksOf(low) + AtZero([Kw(KAnd)]) + MarksOf(high));
    case InList(negated, x, items) =>
      InListMarks(n);
      BareAround(MarksOf(x), NotIf(negated) + [Kw(KIn)], Lift(Marks(JoinTokens(AllToks(items), [Comma]), 0), 1));
    case Quantified(op, all, l, r) =>
      QuantifiedMarks(n);
      BareAround(MarksOf(l), [OpTok(CanonicalOp(op)), Kw(if all then KAll else KAny)], Lift(MarksOf(r), 1));
    case NullTest(x, isNull) =>
      NullTestMarks(n);
      var ws := if isNull then [Kw(KIs), Kw(KNull)] else [Kw(KIs), Kw(KNot), Kw(KNull)];
      BareAround(MarksOf(x), ws, []);
      assert MarksOf(x) + AtZero(ws) + [] == MarksOf(n);
    case BoolExpr(_, _) => ListLevelShows(n);
  }

  lemma {:induction false} ListLevelShows(n: Node)
    requires WellSorted(n) && n.BoolExpr? && Level(n) < PRIMARY
    ensures Rank(Flat(n)) == Level(n) && Bare(MarksOf(n))
    decreases n, 0
  {
    if n.boolop == NotExpr {
      NotMarks(n);
      BareAround([], [Kw(KNot)], Lift(MarksOf(n.args[0]), 1));
      assert [] + AtZero([Kw(KNot)]) == AtZero([Kw(KNot)]);
    } else if |n.args| == 1 {
      LoneTokens(n);
      LevelShows(n.args[0]);
    } else {
      JunctionLevelShows(n);
    }
  }

  lemma JunctionLevelShows(n: Node)
    requires WellSorted(n) && n.BoolExpr? && n.boolop != NotExpr && |n.args| > 1
    ensures Rank(Flat(n)) == Level(n) && Bare(MarksOf(n))
  {
    var op := n.boolop;
    ListSpells(n);
    ArgsSpell(op, n.args);
    BareAround(ArgMarks(op, n.args[0]), [Separator(op)], Marks(ListToks(op, n.args[1..]), 0));
    assert |FlatAll(n.args)| > 1;
  }

  /** An operand that fits its place once printed reaches the level of the place. */
  lemma {:induction false} OperandShown(n: Node, level: nat)
    requires WellSorted(n) && level <= PRIMARY && Side(Flat(n), OperandMarks(n), 0, level)
    ensures OperandLevel(n) >= level && Reads(Flat(n), MarksOf(n))
    decreases n
  {
    OperandSpells(n);
    if n.IsAExpr() {
      ReadsLifted(Flat(n), MarksOf(n), 1);
    } else {
      SideShown(n, level);
    }
  }

  lemma SideShown(n: Node, level: nat)
    requires WellSorted(n) && level <= PRIMARY && Side(Flat(n), MarksOf(n), 0, level)
    ensures Level(n) >= level && Reads(Flat(n), MarksOf(n))
  {
    if Level(n) < level { LevelShows(n); }
  }

  lemma {:induction false} BinaryShown(n: Node)
    requires WellSorted(n) && n.Binary? && Reads(Flat(n), MarksOf(n))
    ensures Printable(n)
    decreases n, 0
  {
    BinarySides(n);
    OperandIsPrintable(n.left, LeftLevel(n.op));
    OperandIsPrintable(n.right, RightLevel(n.op));
    BinaryIsPrintable(n.op, n.left, n.right);
  }

  lemma {:induction false} OperandIsPrintable(n: Node, level: nat)
    requires WellSorted(n) && level <= PRIMARY && Side(Flat(n), OperandMarks(n), 0, level)
    ensures OperandLevel(n) >= level && Printable(n)
    decreases n, 2
  {
    OperandShown(n, level);
    Shown(n);
  }

  lemma BinaryIsPrintable(op: string, l: Node, r: Node)
    requires IsOperator(op) && Printable(l) && Printable(r)
    requires OperandLevel(l) >= LeftLevel(op) && OperandLevel(r) >= RightLevel(op)
    ensures Printable(Binary(op, l, r))
  {
  }

  lemma BinarySides(n: Node)
    requires WellSorted(n) && n.Binary? && Reads(Flat(n), MarksOf(n))
    ensures Side(Flat(n.left), OperandMarks(n.left), 0, LeftLevel(n.op))
    ensures Side(Flat(n.right), OperandMarks(n.right), 0, RightLevel(n.op))
  {
    BinaryMarks(n);
    OperandSpells(n.left);
    OperandSpells(n.right);
    ThreeParts(OperandMarks(n.left), AtZero([OpTok(CanonicalOp(n.op))]), OperandMarks(n.right));
    RoundTrip.CanonicalKeepsLevel(n.op);
  }

  lemma {:induction false} DistinctShown(n: Node)
    requires WellSorted(n) && n.DistinctFrom? && Reads(Flat(n), MarksOf(n))
    ensures Printable(n)
    decreases n, 0
  {
    var l, r := n.left, n.right;
    DistinctMarks(n);
    OperandSpells(l);
    OperandSpells(r);
    ThreeParts(OperandMarks(l), AtZero([Kw(KIs), Kw(KDistinct), Kw(KFrom)]), OperandMarks(r));
    OperandShown(l, NULLTEST);
    OperandShown(r, COMPARISON);
    Shown(l);
    Shown(r);
  }

  lemma {:induction false} BetweenShown(n: Node)
    requires WellSorted(n) && n.Between? && Reads(Flat(n), MarksOf(n))
    ensures Printable(n)
    decreases n, 0
  {
    BetweenSides(n);
    SideShown(n.arg, TIGHT);
    SideShown(n.low, TIGHT);
    SideShown(n.high, TIGHT);
    Shown(n.arg);
    Shown(n.low);
    Shown(n.high);
  }

  lemma BetweenSides(n: Node)
    requires WellSorted(n) && n.Between? && Reads(Flat(n), MarksOf(n))
    ensures Side(Flat(n.arg), MarksOf(n.arg), 0, TIGHT) && Side(Flat(n.low), MarksOf(n.low), 0, TIGHT)
    ensures Side(Flat(n.high), MarksOf(n.high), 0, TIGHT)
  {
    BetweenMarks(n);
    ToksSpell(n.arg);
    ToksSpell(n.low);
    ToksSpell(n.high);
    ThreeParts(MarksOf(n.arg), AtZero(NotIf(n.negated) + [Kw(KBetween)]),
               MarksOf(n.low) + AtZero([Kw(KAnd)]) + MarksOf(n.high));
    ThreeParts(MarksOf(n.low), AtZero([Kw(KAnd)]), MarksOf(n.high));
  }

  lemma {:induction false} InListShown(n: Node)
    requires WellSorted(n) && n.InList? && Reads(Flat(n), MarksOf(n))
    ensures Printable(n)
    decreases n, 0
  {
    var items := Marks(JoinTokens(AllToks(n.items), [Comma]), 0);
    InListMarks(n);
    ToksSpell(n.arg);
    ItemsSpell(n.items);
    ThreeParts(MarksOf(n.arg), AtZero(NotIf(n.negated) + [Kw(KIn)]), Lift(items, 1));
    ReadsAllLifted(FlatAll(n.items), items, 1);
    SideShown(n.arg, TIGHT);
    Shown(n.arg);
    ItemsShown(n.items);
  }

  lemma {:induction false} ItemsShown(ns: seq<Node>)
    requires ns != [] && (forall n | n in ns :: WellSorted(n))
    requires ReadsAll(FlatAll(ns), Marks(JoinTokens(AllToks(ns), [Comma]), 0))
    ensures forall n | n in ns :: Printable(n)
    decreases ns, 0
  {
    ToksSpell(ns[0]);
    ItemsSpell(ns);
    if |ns| > 1 {
      ThreeParts(MarksOf(ns[0]), AtZero([Comma]), Marks(JoinTokens(AllToks(ns[1..]), [Comma]), 0));
      assert FlatAll(ns)[1..] == FlatAll(ns[1..]);
      ItemsShown(ns[1..]);
    }
    Shown(ns[0]);
  }

  lemma {:induction false} QuantifiedShown(n: Node)
    requires WellSorted(n) && n.Quantified? && Reads(Flat(n), MarksOf(n))
    ensures Printable(n)
    decreases n, 0
  {
    QuantifiedMarks(n);
    ToksSpell(n.left);
    ToksSpell(n.right);
    ThreeParts(MarksOf(n.left), AtZero([OpTok(CanonicalOp(n.op)), Kw(if n.all then KAll else KAny)]),
               Lift(MarksOf(n.right), 1));
    ReadsLifted(Flat(n.right), MarksOf(n.right), 1);
    SideShown(n.left, RANGE);
    Shown(n.left);
    Shown(n.right);
  }

  lemma {:induction false} NullTestShown(n: Node)
    requires WellSorted(n) && n.NullTest? && Reads(Flat(n), MarksOf(n))
    ensures Printable(n)
    decreases n, 0
  {
    var ws := if n.isNull then [Kw(KIs), Kw(KNull)] else [Kw(KIs), Kw(KNot), Kw(KNull)];
    NullTestMarks(n);
    ToksSpell(n.arg);
    ThreeParts(MarksOf(n.arg), AtZero(ws), []);
    assert MarksOf(n.arg) + AtZero(ws) + [] == MarksOf(n);
    SideShown(n.arg, NULLTEST);
    Shown(n.arg);
  }

  /** Flattened or not, the arguments of a list read from their own tokens. */
  lemma {:induction false} ArgsShown(op: BoolOp, ns: seq<Node>)
    requires op != NotExpr && ns != [] && (forall n | n in ns :: WellSorted(n))
    requires ReadsAll(Spread(op, FlatAll(ns)), Marks(ListToks(op, ns), 0))
    ensures forall n | n in ns :: Printable(n)
    decreases ns, 0
  {
    FirstArgReads(op, ns);
    if |ns| > 1 { ArgsShown(op, ns[1..]); }
    ArgSpells(op, ns[0]);
    ReadsLifted(Flat(ns[0]), MarksOf(ns[0]), 1);
    Shown(ns[0]);
  }

  lemma FirstArgReads(op: BoolOp, ns: seq<Node>)
    requires op != NotExpr && ns != [] && (forall n | n in ns :: WellSorted(n))
    requires ReadsAll(Spread(op, FlatAll(ns)), Marks(ListToks(op, ns), 0))
    ensures Reads(Flat(ns[0]), ArgMarks(op, ns[0]))
    ensures |ns| > 1 ==> ReadsAll(Spread(op, FlatAll(ns[1..])), Marks(ListToks(op, ns[1..]), 0))
  {
    var xs := FlatAll(ns);
    ArgSpells(op, ns[0]);
    if xs[0].BoolExpr? { FlatListIsNotEmpty(ns[0]); }
    if |ns| == 1 {
      HeadReads(op, xs[0], ArgMarks(op, ns[0]));
      assert xs[1..] == [] && Head(op, xs[0]) + [] == Head(op, xs[0]);
      assert Spread(op, xs) == Head(op, xs[0]) && ListToks(op, ns) == ArgToks(op, ns[0]);
    } else {
      FirstOfManyReads(op, ns);
    }
  }

  lemma FirstOfManyReads(op: BoolOp, ns: seq<Node>)
    requires op != NotExpr && |ns| > 1 && (forall n | n in ns :: WellSorted(n))
    requires ReadsAll(Spread(op, FlatAll(ns)), Marks(ListToks(op, ns), 0))
    requires |ArgMarks(op, ns[0])| == Width(Flat(ns[0]))
    requires Flat(ns[0]).Is(op) ==> Flat(ns[0]).args != []
    ensures Reads(Flat(ns[0]), ArgMarks(op, ns[0]))
    ensures ReadsAll(Spread(op, FlatAll(ns[1..])), Marks(ListToks(op, ns[1..]), 0))
  {
    ArgsSpell(op, ns);
    FlatListsAreNotEmpty(ns[1..]);
    SpreadWidth(op, FlatAll(ns[1..]));
    assert FlatAll(ns)[1..] == FlatAll(ns[1..]);
    assert AtZero([Separator(op)]) == [Mark(Separator(op), 0)];
    SpreadSplits(op, FlatAll(ns), ArgMarks(op, ns[0]), Mark(Separator(op), 0), Marks(ListToks(op, ns[1..]), 0));
  }

  lemma {:induction false} BoolShown(n: Node)
    requires WellSorted(n) && n.BoolExpr? && Reads(Flat(n), MarksOf(n))
    ensures Printable(n)
    decreases n, 0
  {
    if n.boolop == NotExpr {
      var x := n.args[0];
      assert n.args == [x] && FlatAll(n.args) == [Flat(x)];
      NotMarks(n);
      assert (AtZero([Kw(KNot)]) + Lift(MarksOf(x), 1))[1..] == Lift(MarksOf(x), 1);
      ReadsLifted(Flat(x), MarksOf(x), 1);
      Shown(x);
    } else {
      ListSpells(n);
      FlatListsAreNotEmpty(n.args);
      if |n.args| == 1 { SpreadOfOne(n.boolop, FlatAll(n.args)[0], MarksOf(n)); }
      assert |n.args| == 1 ==> FlatAll(n.args) == [FlatAll(n.args)[0]];
      ArgsShown(n.boolop, n.args);
    }
  }

  lemma SpreadOfOne(op: BoolOp, x: Node, ms: seq<Mark>)
    requires op != NotExpr && Reads(x, ms)
    ensures ReadsAll(Spread(op, [x]), ms)
  {
    assert ReadsAll([x], ms);
    SpreadReads(op, [x], ms);
  }

  lemma {:induction false} ExistsShown(n: Node)
    requires WellSorted(n) && n.Exists? && Reads(Flat(n), MarksOf(n))
    ensures Printable(n)
    decreases n, 0
  {
    var head := Lift(AtZero(SelectHeadTokens(n.table, n.alias)), 1);
    var body := Lift(MarksOf(n.condition), 1);
    ExistsMarks(n);
    QueryParts(AtZero([Kw(KExists)]), head, body);
    RoundTrip.ColIdOfName(n.table);
    RoundTrip.ColIdOfName(n.alias);
    ReadsLifted(Flat(n.condition), MarksOf(n.condition), 1);
    Shown(n.condition);
  }

  lemma QueryParts(word: seq<Mark>, head: seq<Mark>, body: seq<Mark>)
    requires |word| == 1 && |head| == 7
    ensures var ms := word + head + body; ms[8..] == body && ms[4] == head[3] && ms[6] == head[5]
  {
  }

  lemma ColumnShown(n: Node)
    requires WellSorted(n) && n.Column? && Reads(n, MarksOf(n))
    ensures Printable(n)
  {
    var fields := n.fields;
    assert n == Column(fields) && fields[0] in fields;
    ColumnMarks(fields);
    assert ReadsLabels(fields[1..], MarksOf(n)[1..]);
    LabelsShown(fields[1..]);
    FirstNameShown(fields[0]);
    assert fields == [fields[0]] + fields[1..];
  }

  lemma FirstNameShown(name: string)
    requires name != [] && ColId(NameToken(name)) == Some(name)
    ensures Legible(name)
  {
    RoundTrip.ColIdOfName(name);
  }

  lemma {:induction false} LabelsShown(labels: seq<string>)
    requires ReadsLabels(labels, AtZero(FieldToks(labels)))
    ensures forall f | f in labels :: Fits(f)
  {
    if labels != [] {
      RoundTrip.LabelOfName(labels[0]);
      assert FieldToks(labels) == [Dot, NameToken(labels[0])] + FieldToks(labels[1..]);
      assert AtZero(FieldToks(labels))[2..] == AtZero(FieldToks(labels[1..]));
      LabelsShown(labels[1..]);
    }
  }

  /** A tree that reads from its own printed tokens has all the parentheses and names it needs. */
  lemma {:induction false} Shown(n: Node)
    requires WellSorted(n) && Reads(Flat(n), MarksOf(n))
    ensures Printable(n)
    decreases n, 1
  {
    match n
    case Column(_) => ColumnShown(n);
    case Binary(_, _, _) => BinaryShown(n);
    case DistinctFrom(_, _) => DistinctShown(n);
    case Between(_, _, _, _) => BetweenShown(n);
    case InList(_, _, _) => InListShown(n);
    case Quantified(_, _, _, _) => QuantifiedShown(n);
    case NullTest(_, _) => NullTestShown(n);
    case BoolExpr(_, _) => BoolShown(n);
    case Exists(_, _, _) => ExistsShown(n);
    case _ =>
  }

  /** The printed tokens of a tree parse to its flattened form exactly if the tree is printable. */
  lemma TokensParseExactly(n: Node)
    requires WellSorted(n)
    ensures ParseExpr(Toks(n)) == Some((Flat(n), [])) <==> Printable(n)
  {
    if Printable(n) {
      RoundTrip.TokensParse(n);
    } else if ParseExpr(Toks(n)) == Some((Flat(n), [])) {
      var c := ExprStands(Toks(n));
      assert c == Toks(n);
      Shown(n);
    }
  }

  /**
   The round trip: for every tree that PostgreSQL has a syntax for, parsing the printed SQL gives the
   tree back, flattened, if and only if it is printable.
   */
  lemma ParseDeparse(n: Node)
    requires WellSorted(n)
    ensures Parse(Deparse(n)) == Some(Flat(n)) <==> Printable(n)
  {
    RoundTrip.WellSortedIsLexable(n);
    LexDeparse(n);
    TokensParseExactly(n);
  }

  // --- columns, and trees that do not read back ------------------------------------------------------

  /** A printed column reads back exactly when its first name is not one of the four reserved words
      the printer leaves unquoted and the server cuts none of its names. */
  lemma ColumnRoundTrip(fields: seq<string>)
    requires fields != [] && forall f | f in fields :: f != []
    ensures Parse(Deparse(Column(fields))) == Some(Column(fields)) <==>
            !MisreadName(fields[0]) && forall f | f in fields :: Fits(f)
  {
    ParseDeparse(Column(fields));
    assert fields[0] in fields;
  }

  /** A column called `binary` prints as a word that is no expression. */
  lemma ReservedColumnExample()
    ensures Deparse(Column(["binary"])) == "binary" && Parse("binary") == None
  {
    var fields := ["binary"];
    UnlistedArePlain("binary");
    assert QuoteAll(fields) == ["binary"];
    LexDeparse(Column(fields));
    ColumnTokens(fields);
    ReservedNeverParses(Toks(Column(fields)), "binary");
  }

  lemma ReservedNeverParses(ts: seq<Token>, word: string)
    requires Starts(ts, Kw(Reserved(word)))
    ensures ParseExpr(ts) == None
  {
    assert ParsePrimary(ts) == None;
    assert ParseTight(ts, 2) == None;
    assert ParseRange(ts) == None;
    assert ParseComparison(ts) == None;
    assert ParseNot(ts) == None;
    assert ParseAndList(ts) == None;
  }

  lemma TwoArgs(a: Node, b: Node)
    ensures Deparse(BoolExpr(OrExpr, [a, b])) == Deparse(a) + " OR " + Deparse(b)
  {
    assert [a, b][1..] == [b] && [b][1..] == [];
    assert DeparseArgs(OrExpr, [a, b]) == [Deparse(a)] + DeparseArgs(OrExpr, [b]);
    assert DeparseArgs(OrExpr, [b]) == [Deparse(b)];
    assert ([Deparse(a)] + [Deparse(b)])[1..] == [Deparse(b)];
    assert Join([Deparse(a)] + [Deparse(b)], " OR ") == Deparse(a) + " OR " + Join([Deparse(b)], " OR ");
  }

  /** An OR under IS NULL prints without parentheses and reads back as a different tree. */
  lemma UnparenthesizedOperandExample()
    ensures var n := NullTest(BoolExpr(OrExpr, [Param(1), Param(2)]), true);
      Parse(Deparse(n)) == Some(BoolExpr(OrExpr, [Param(1), NullTest(Param(2), true)])) != Some(Flat(n))
  {
    UnparenthesizedOperand(1, 2);
  }

  lemma UnparenthesizedOperand(a: nat, b: nat)
    ensures Parse(Deparse(NullTest(BoolExpr(OrExpr, [Param(a), Param(b)]), true)))
            == Some(BoolExpr(OrExpr, [Param(a), NullTest(Param(b), true)]))
  {
    PrintAlike(Param(a), Param(b));
    NullTestInListIsPrintable(a, b);
    ParseDeparse(BoolExpr(OrExpr, [Param(a), NullTest(Param(b), true)]));
  }

  lemma PrintAlike(a: Node, b: Node)
    requires !a.IsAExpr() && !b.IsAExpr() && !a.BoolExpr? && !b.BoolExpr?
    ensures Deparse(NullTest(BoolExpr(OrExpr, [a, b]), true)) == Deparse(BoolExpr(OrExpr, [a, NullTest(b, true)]))
  {
    TwoArgs(a, b);
    TwoArgs(a, NullTest(b, true));
  }

  lemma NullTestInListIsPrintable(a: nat, b: nat)
    ensures var m := BoolExpr(OrExpr, [Param(a), NullTest(Param(b), true)]); Printable(m) && Flat(m) == m
  {
    var x, y := Param(a), NullTest(Param(b), true);
    assert Printable(x) && Flat(x) == x;
    NullTestIsPrintable(Param(b));
    TwoFlat(x, y);
    PlainPair(x, y);
    assert forall n | n in [x, y] :: n == x || n == y;
  }

  lemma NullTestIsPrintable(x: Node)
    requires x.Param?
    ensures var n := NullTest(x, true); Printable(n) && Flat(n) == n
  {
    assert Level(x) == PRIMARY && Printable(x) && Flat(x) == x;
  }

  lemma PlainPair(a: Node, b: Node)
    requires !a.Is(OrExpr) && !b.Is(OrExpr)
    ensures MakeBool(OrExpr, [a, b]) == BoolExpr(OrExpr, [a, b])
  {
    assert [a, b][1..] == [b] && [b][1..] == [];
    assert Spread(OrExpr, [b]) == [b];
  }

  lemma TwoFlat(a: Node, b: Node)
    ensures FlatAll([a, b]) == [Flat(a), Flat(b)]
  {
    assert [a, b][1..] == [b] && [b][1..] == [];
    assert [Flat(a)] + [Flat(b)] == [Flat(a), Flat(b)];
  }

  /** A null check on the left of IS DISTINCT FROM prints without parentheses and reads back. */
  lemma UnneededParenthesesExample(a: nat, b: nat)
    ensures var n := DistinctFrom(NullTest(Param(a), true), Param(b)); Parse(Deparse(n)) == Some(n)
  {
    var n := DistinctFrom(NullTest(Param(a), true), Param(b));
    assert Level(n.left.arg) == Level(n.right) == PRIMARY && Level(n.left) == NULLTEST;
    assert Printable(n.left) && Printable(n.right);
    assert Flat(n.left) == n.left;
    assert Printable(n) && Flat(n) == n;
    RoundTrip.PrintableIsWellSorted(n);
    ParseDeparse(n);
  }
}
