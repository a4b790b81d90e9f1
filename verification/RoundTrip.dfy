/**
 Parsing what the printer printed gives the tree back, up to flattening nested AND and OR
 lists, unwrapping lists of one and reading `!=` as `<>`. One lemma for each level of the
 grammar: the printed tokens of a node of that level, followed by anything the level stops
 at, parse to the flattened node and leave what followed.
 */
module RoundTrip {
  import opened Common
  import opened Ast
  import opened Lexer
  import opened Deparser
  import opened Printed
  import opened Parser
  import opened PrintedTokens

  // --- where each level stops --------------------------------------------------------

  predicate EndsExpr(ts: seq<Token>) { ts == [] || ts[0] == RParen || ts[0] == Comma }

  predicate EndsOr(ts: seq<Token>) { EndsExpr(ts) || ts[0] == Kw(KOr) }

  predicate EndsAnd(ts: seq<Token>) { EndsOr(ts) || ts[0] == Kw(KAnd) }

  predicate EndsIs(ts: seq<Token>) { EndsAnd(ts) || ts[0] == Kw(KIs) }

  predicate EndsRange(ts: seq<Token>) { EndsIs(ts) || (ts[0].OpTok? && IsComparison(ts[0].op)) }

  predicate EndsTight(ts: seq<Token>) {
    EndsRange(ts) || ts[0] == Kw(KBetween) || ts[0] == Kw(KNot) || ts[0] == Kw(KIn)
  }

  predicate EndsPrimary(ts: seq<Token>) { ts == [] || ts[0] != Dot }

  // --- first tokens --------------------------------------------------------------------

  /** No operand starts with a word that would change how its context is read. */
  predicate StartsOperand(t: Token) {
    t != Kw(KNot) && t != Kw(KAny) && t != Kw(KAll)
  }

  lemma FirstOfColumn(fields: seq<string>)
    requires Printable(Column(fields))
    ensures Toks(Column(fields)) != [] && StartsOperand(Toks(Column(fields))[0])
  {
    ColumnTokens(fields);
    NameTokenOf(fields[0]);
  }

  lemma {:induction false} FirstToken(n: Node)
    requires Printable(n) && Level(n) > NEGATION
    ensures Toks(n) != [] && StartsOperand(Toks(n)[0])
    decreases n, 0
  {
    match n
    case Column(fields) => FirstOfColumn(fields);
    case Binary(op, l, r) => FirstOfInfix(n);
    case DistinctFrom(l, r) => FirstOfInfix(n);
    case Between(_, _, _, _) => FirstOfTest(n);
    case InList(_, _, _) => FirstOfTest(n);
    case Quantified(_, _, _, _) => FirstOfTest(n);
    case NullTest(_, _) => FirstOfTest(n);
    case BoolExpr(op, args) =>
      LoneTokens(n);
      if Level(n) == Level(args[0]) { FirstToken(args[0]); }
    case Exists(table, alias, condition) => ExistsTokens(table, alias, condition);
    case _ => FirstOfLiteral(n);
  }

  lemma {:induction false} FirstOfInfix(n: Node)
    requires (n.Binary? || n.DistinctFrom?) && Printable(n)
    ensures Toks(n) != [] && StartsOperand(Toks(n)[0])
    decreases n, 0, 0
  {
    FirstOperandToken(n.left);
    if n.Binary? {
      BinaryTokens(n.op, n.left, n.right);
    } else {
      DistinctTokens(n.left, n.right);
    }
  }

  lemma {:induction false} FirstOfTest(n: Node)
    requires (n.Between? || n.InList? || n.Quantified? || n.NullTest?) && Printable(n)
    ensures Toks(n) != [] && StartsOperand(Toks(n)[0])
    decreases n, 0, 0
  {
    match n
    case Between(negated, x, low, high) => BetweenTokens(negated, x, low, high); FirstToken(x);
    case InList(negated, x, items) => InListTokens(negated, x, items); FirstToken(x);
    case Quantified(op, all, l, r) => QuantifiedTokens(op, all, l, r); FirstToken(l);
    case NullTest(x, isNull) => NullTestTokens(x, isNull); FirstToken(x);
  }

  lemma FirstOfLiteral(n: Node)
    requires n.Param? || n.NullConst? || n.BoolConst? || n.IntConst? || n.StringConst?
    ensures Toks(n) != [] && StartsOperand(Toks(n)[0])
  {
    match n
    case Param(k) => OneToken(Placeholder(k));
    case NullConst => OneToken(Word(KNull));
    case BoolConst(b) => OneToken(Word(if b then KTrue else KFalse));
    case IntConst(k) => OneToken(Number(k));
    case StringConst(s) => OneToken(Literal(s));
  }

  lemma {:induction false} FirstOperandToken(n: Node)
    requires Printable(n) && OperandLevel(n) > NEGATION
    ensures OperandToks(n) != [] && StartsOperand(OperandToks(n)[0])
    decreases n, 1
  {
    if !n.IsAExpr() { FirstToken(n); }
  }

  // --- names ---------------------------------------------------------------------------

  lemma {:induction false} FieldsParse(fields: seq<string>, rest: seq<Token>)
    requires EndsPrimary(rest) && forall f | f in fields :: Fits(f)
    ensures ParseFields(FieldToks(fields) + rest) == (fields, rest)
  {
    if fields == [] {
      assert FieldToks(fields) + rest == rest;
    } else {
      var ts := FieldToks(fields) + rest;
      FieldsParse(fields[1..], rest);
      LabelOfName(fields[0]);
      assert ts == [Dot, NameToken(fields[0])] + (FieldToks(fields[1..]) + rest);
      assert ts[2..] == FieldToks(fields[1..]) + rest;
      assert ts[0] == Dot && ts[1] == NameToken(fields[0]);
      assert [fields[0]] + fields[1..] == fields;
    }
  }

  lemma LabelOfName(name: string)
    ensures ColLabel(NameToken(name)) == Some(Keep(name))
    ensures ColLabel(NameToken(name)) == Some(name) <==> Fits(name)
  {
    NameTokenOf(name);
    LabelOfToken(NameToken(name), name);
    KeepsWhatFits(name);
    if MisreadName(name) || name == "between" { WordFits(name); }
  }

  lemma LabelOfToken(t: Token, name: string)
    requires t == Kw(Reserved(name)) || (t == Kw(KBetween) && name == "between") || t == Ident(Keep(name))
    ensures ColLabel(t) == Some(if t.Kw? then name else Keep(name))
  {
    if t == Kw(KBetween) { LowerKeyword(KBetween); }
  }

  lemma ColIdOfName(name: string)
    ensures ColId(NameToken(name)) == if MisreadName(name) then None else Some(Keep(name))
    ensures ColId(NameToken(name)) == Some(name) <==> !MisreadName(name) && Fits(name)
  {
    NameTokenOf(name);
    KeepsWhatFits(name);
    if name == "between" { WordFits(name); }
  }

  // --- the levels ------------------------------------------------------------------------

  lemma ColumnParses(fields: seq<string>, rest: seq<Token>)
    requires Printable(Column(fields)) && EndsPrimary(rest)
    ensures ParsePrimary(Toks(Column(fields)) + rest) == Some((Column(fields), rest))
  {
    var more := FieldToks(fields[1..]) + rest;
    ColumnTokens(fields);
    FieldsParse(fields[1..], rest);
    Associative([NameToken(fields[0])], FieldToks(fields[1..]), rest);
    FirstFieldParses(fields[0], more);
    assert [fields[0]] + fields[1..] == fields;
  }

  lemma FirstFieldParses(name: string, more: seq<Token>)
    requires Legible(name)
    ensures var (fields, rest) := ParseFields(more);
      ParsePrimary([NameToken(name)] + more) == Some((Column([name] + fields), rest))
  {
    LegibleToken(name);
    var ts := [NameToken(name)] + more;
    assert ts[0] == NameToken(name) && ts[1..] == more;
  }

  lemma LegibleToken(name: string)
    requires Legible(name)
    ensures NameToken(name) == if name == "between" then Kw(KBetween) else Ident(name)
  {
    NameTokenOf(name);
    KeepsWhatFits(name);
  }

  lemma {:induction false} PrimaryParses(n: Node, rest: seq<Token>)
    requires Printable(n) && Level(n) == PRIMARY && EndsPrimary(rest)
    ensures ParsePrimary(Toks(n) + rest) == Some((Flat(n), rest))
    decreases n, 1
  {
    match n
    case Column(fields) => ColumnParses(fields, rest);
    case Exists(_, _, _) => ExistsParses(n, rest);
    case BoolExpr(_, _) => LoneParses(n, rest);
    case _ => LiteralParses(n, rest);
  }

  lemma LiteralParses(n: Node, rest: seq<Token>)
    requires n.Param? || n.NullConst? || n.BoolConst? || n.IntConst? || n.StringConst?
    ensures ParsePrimary(Toks(n) + rest) == Some((n, rest))
  {
    match n
    case Param(k) => OneToken(Placeholder(k)); assert ([ParamTok(k)] + rest)[1..] == rest;
    case NullConst => OneToken(Word(KNull)); assert ([Kw(KNull)] + rest)[1..] == rest;
    case BoolConst(b) =>
      OneToken(Word(if b then KTrue else KFalse));
      assert ([Kw(if b then KTrue else KFalse)] + rest)[1..] == rest;
    case IntConst(k) => OneToken(Number(k)); assert ([IntTok(k)] + rest)[1..] == rest;
    case StringConst(s) => OneToken(Literal(s)); assert ([StrTok(s)] + rest)[1..] == rest;
  }

  lemma {:induction false} LoneParses(n: Node, rest: seq<Token>)
    requires Printable(n) && Lone(n) && Level(n) == PRIMARY && EndsPrimary(rest)
    ensures ParsePrimary(Toks(n) + rest) == Some((Flat(n), rest))
    decreases n, 0
  {
    var x := n.args[0];
    LoneTokens(n);
    if n.boolop == AndExpr && x.Is(OrExpr) {
      ExprParses(x, [RParen] + rest);
      ReadsBetweenParens(Toks(x), Flat(x), rest);
    } else {
      PrimaryParses(x, rest);
    }
  }

  lemma {:induction false} ExistsParses(n: Node, rest: seq<Token>)
    requires Printable(n) && n.Exists?
    ensures ParsePrimary(Toks(n) + rest) == Some((Flat(n), rest))
    decreases n, 0
  {
    var head := SelectHeadTokens(n.table, n.alias);
    var body := Toks(n.condition) + ([RParen] + rest);
    ExistsTokens(n.table, n.alias, n.condition);
    RegroupExists(head, Toks(n.condition), rest);
    ExistsWord([LParen] + head + body);
    ExprParses(n.condition, [RParen] + rest);
    ColIdOfName(n.table);
    ColIdOfName(n.alias);
    ExistsHeadParses(n.table, n.alias, body, Flat(n.condition), rest);
  }

  lemma ExistsWord(ts: seq<Token>)
    ensures ParsePrimary([Kw(KExists)] + ts) == ParseExists(ts)
  {
    assert ([Kw(KExists)] + ts)[1..] == ts;
  }

  lemma RegroupExists(head: seq<Token>, body: seq<Token>, rest: seq<Token>)
    ensures [Kw(KExists)] + ([LParen] + (head + body) + [RParen]) + rest
            == [Kw(KExists)] + ([LParen] + head + (body + ([RParen] + rest)))
  {
  }

  lemma ExistsHeadParses(table: string, alias: string, body: seq<Token>, condition: Node, rest: seq<Token>)
    requires ColId(NameToken(table)) == Some(table) && ColId(NameToken(alias)) == Some(alias)
    requires ParseExpr(body) == Some((condition, [RParen] + rest))
    ensures ParseExists([LParen] + SelectHeadTokens(table, alias) + body) ==
            Some((Exists(table, alias, condition), rest))
  {
    var ts := [LParen] + SelectHeadTokens(table, alias) + body;
    assert ts[8..] == body;
    assert ([RParen] + rest)[1..] == rest;
  }

  lemma ReadsBetweenParens(ts: seq<Token>, x: Node, rest: seq<Token>)
    requires ParseExpr(ts + ([RParen] + rest)) == Some((x, [RParen] + rest))
    ensures ParsePrimary([LParen] + ts + [RParen] + rest) == Some((x, rest))
  {
    var inner := ts + ([RParen] + rest);
    assert [LParen] + ts + [RParen] + rest == [LParen] + inner;
    assert ([LParen] + inner)[1..] == inner && ([RParen] + rest)[1..] == rest;
  }

  // What a tighter level parsed passes through every looser level that finds nothing to add.

  lemma LiftToRange(ts: seq<Token>, x: Node, rest: seq<Token>)
    requires ParseTight(ts, 2) == Some((x, rest)) && EndsRange(rest)
    ensures ParseRange(ts) == Some((x, rest))
  {
  }

  lemma LiftToComparison(ts: seq<Token>, x: Node, rest: seq<Token>)
    requires ParseRange(ts) == Some((x, rest)) && EndsIs(rest)
    ensures ParseComparison(ts) == Some((x, rest))
  {
  }

  lemma LiftToNot(ts: seq<Token>, x: Node, rest: seq<Token>)
    requires ParseComparison(ts) == Some((x, rest)) && EndsAnd(rest) && !Starts(ts, Kw(KNot))
    ensures ParseNot(ts) == Some((x, rest))
  {
    assert ParseIs(ts) == IsTail(x, rest) == Some((x, rest));
  }

  lemma PrimaryIsComparison(ts: seq<Token>, x: Node, rest: seq<Token>)
    requires ParsePrimary(ts) == Some((x, rest)) && EndsIs(rest)
    ensures ParseComparison(ts) == Some((x, rest))
  {
    assert ParseTight(ts, 2) == TightTail(x, rest, 2) == Some((x, rest));
    LiftToRange(ts, x, rest);
    LiftToComparison(ts, x, rest);
  }

  lemma CanonicalKeepsLevel(op: string)
    ensures IsComparison(CanonicalOp(op)) == IsComparison(op)
    ensures !IsComparison(op) ==> CanonicalOp(op) == op
  {
  }

  /** An operator between its left side, already read, and a right side that binds more tightly. */
  lemma TightTailTakesOne(x: Node, op: string, right: seq<Token>, y: Node, rest: seq<Token>, min: nat)
    requires !IsComparison(op) && Precedence(op) >= min
    requires ParseTight(right, Precedence(op) + 1) == Some((y, rest))
    ensures TightTail(x, [OpTok(op)] + right, min) == TightTail(Binary(op, x, y), rest, min)
  {
    assert ([OpTok(op)] + right)[1..] == right;
  }

  lemma BinaryToksThen(n: Node, rest: seq<Token>)
    requires n.Binary?
    ensures Toks(n) + rest == OperandToks(n.left) + ([OpTok(CanonicalOp(n.op))] + (OperandToks(n.right) + rest))
  {
    BinaryTokens(n.op, n.left, n.right);
    Associative(OperandToks(n.left) + [OpTok(CanonicalOp(n.op))], OperandToks(n.right), rest);
    Associative(OperandToks(n.left), [OpTok(CanonicalOp(n.op))], OperandToks(n.right) + rest);
  }

  /** An operator expression is read as far as operators of its own precedence go. */
  lemma {:induction false} TightParses(n: Node, rest: seq<Token>, min: nat)
    requires Printable(n) && 2 <= min && Level(n) >= COMPARISON + min
    requires EndsPrimary(rest) && !StartsTight(rest, Level(n) - 4)
    ensures ParseTight(Toks(n) + rest, min) == TightTail(Flat(n), rest, min)
    decreases n, 2
  {
    if Level(n) == PRIMARY {
      PrimaryParses(n, rest);
    } else if Lone(n) {
      LoneTokens(n);
      TightParses(n.args[0], rest, min);
    } else {
      var right := OperandToks(n.right) + rest;
      CanonicalKeepsLevel(n.op);
      BinaryToksThen(n, rest);
      TightOperandParses(n.left, [OpTok(n.op)] + right, min);
      TightOperandParses(n.right, rest, Precedence(n.op) + 1);
      TightTailTakesOne(Flat(n.left), n.op, right, Flat(n.right), rest, min);
    }
  }

  lemma {:induction false} TightOperandParses(n: Node, rest: seq<Token>, min: nat)
    requires Printable(n) && 2 <= min && OperandLevel(n) >= COMPARISON + min
    requires EndsPrimary(rest) && !StartsTight(rest, OperandLevel(n) - 4)
    ensures ParseTight(OperandToks(n) + rest, min) == TightTail(Flat(n), rest, min)
    decreases n, 20
  {
    if n.IsAExpr() {
      ExprParses(n, [RParen] + rest);
      ReadsBetweenParens(Toks(n), Flat(n), rest);
    } else {
      TightParses(n, rest, min);
    }
  }

  lemma StopsTight(x: Node, rest: seq<Token>, min: nat)
    requires EndsTight(rest)
    ensures EndsPrimary(rest) && !StartsTight(rest, min) && TightTail(x, rest, min) == Some((x, rest))
  {
  }

  /** What BETWEEN and IN have on their left, and BETWEEN also on its right. */
  lemma {:induction false} BoundParses(n: Node, rest: seq<Token>)
    requires Printable(n) && Level(n) >= TIGHT && EndsTight(rest)
    ensures ParseTight(Toks(n) + rest, 2) == Some((Flat(n), rest))
    decreases n, 3
  {
    StopsTight(Flat(n), rest, Level(n) - 4);
    StopsTight(Flat(n), rest, 2);
    TightParses(n, rest, 2);
  }

  lemma {:induction false} RangeParses(n: Node, rest: seq<Token>)
    requires Printable(n) && Level(n) >= RANGE && EndsRange(rest)
    ensures ParseRange(Toks(n) + rest) == Some((Flat(n), rest))
    decreases n, 4
  {
    if Level(n) >= TIGHT {
      BoundParses(n, rest);
      LiftToRange(Toks(n) + rest, Flat(n), rest);
    } else if Lone(n) {
      LoneTokens(n);
      RangeParses(n.args[0], rest);
    } else if n.Between? {
      BetweenParses(n, rest);
    } else {
      InListParses(n, rest);
    }
  }

  lemma {:induction false} RangeOperandParses(n: Node, rest: seq<Token>)
    requires Printable(n) && OperandLevel(n) >= RANGE && EndsRange(rest)
    ensures ParseRange(OperandToks(n) + rest) == Some((Flat(n), rest))
    decreases n, 21
  {
    if n.IsAExpr() {
      StopsTight(Flat(n), rest, OperandLevel(n) - 4);
      StopsTight(Flat(n), rest, 2);
      TightOperandParses(n, rest, 2);
      LiftToRange(OperandToks(n) + rest, Flat(n), rest);
    } else {
      RangeParses(n, rest);
    }
  }

  lemma RangeTailIsReached(negated: bool, x: Node, word: Keyword, tail: seq<Token>, ts: seq<Token>)
    requires word == KBetween || word == KIn
    requires ParseTight(ts, 2) == Some((x, NotIf(negated) + [Kw(word)] + tail))
    ensures ParseRange(ts) == RangeTail(negated, x, [Kw(word)] + tail)
  {
    var rest := NotIf(negated) + [Kw(word)] + tail;
    if negated {
      assert rest[1..] == [Kw(word)] + tail;
    } else {
      assert rest == [Kw(word)] + tail;
    }
  }

  lemma RangeTailIsBetween(negated: bool, x: Node, ts: seq<Token>, low: Node, high: seq<Token>,
                           y: Node, rest: seq<Token>)
    requires ParseTight(ts, 2) == Some((low, [Kw(KAnd)] + high))
    requires ParseTight(high, 2) == Some((y, rest))
    ensures RangeTail(negated, x, [Kw(KBetween)] + ts) == Some((Between(negated, x, low, y), rest))
  {
    assert ([Kw(KBetween)] + ts)[1..] == ts;
    assert ([Kw(KAnd)] + high)[1..] == high;
  }

  lemma RegroupBetween(a: seq<Token>, b: seq<Token>, c: seq<Token>, d: seq<Token>, e: seq<Token>, rest: seq<Token>)
    ensures a + b + c + d + e + rest == a + (b + (c + (d + (e + rest))))
  {
  }

  lemma {:induction false} BetweenParses(n: Node, rest: seq<Token>)
    requires Printable(n) && n.Between? && EndsRange(rest)
    ensures ParseRange(Toks(n) + rest) == Some((Flat(n), rest))
    decreases n, 0
  {
    var high := Toks(n.high) + rest;
    var tail := Toks(n.low) + ([Kw(KAnd)] + high);
    BoundParses(n.arg, NotIf(n.negated) + [Kw(KBetween)] + tail);
    BoundParses(n.low, [Kw(KAnd)] + high);
    BoundParses(n.high, rest);
    RangeTailIsBetween(n.negated, Flat(n.arg), tail, Flat(n.low), high, Flat(n.high), rest);
    BetweenTokens(n.negated, n.arg, n.low, n.high);
    RegroupBetween(Toks(n.arg), NotIf(n.negated) + [Kw(KBetween)], Toks(n.low), [Kw(KAnd)], Toks(n.high), rest);
    RangeTailIsReached(n.negated, Flat(n.arg), KBetween, tail, Toks(n) + rest);
  }

  lemma RangeTailIsInList(negated: bool, x: Node, ts: seq<Token>, items: seq<Node>, rest: seq<Token>)
    requires ParseItems(ts) == Some((items, [RParen] + rest))
    ensures RangeTail(negated, x, [Kw(KIn)] + ([LParen] + ts)) == Some((InList(negated, x, items), rest))
  {
    assert ([Kw(KIn)] + ([LParen] + ts))[1..] == [LParen] + ts;
    assert ([Kw(KIn)] + ([LParen] + ts))[2..] == ts;
    assert ([RParen] + rest)[1..] == rest;
  }

  lemma Regroup(a: seq<Token>, b: seq<Token>, c: seq<Token>, rest: seq<Token>)
    ensures a + b + ([LParen] + c + [RParen]) + rest == a + (b + ([LParen] + (c + ([RParen] + rest))))
  {
  }

  lemma {:induction false} InListParses(n: Node, rest: seq<Token>)
    requires Printable(n) && n.InList? && EndsRange(rest)
    ensures ParseRange(Toks(n) + rest) == Some((Flat(n), rest))
    decreases n, 0
  {
    var items := JoinTokens(AllToks(n.items), [Comma]) + ([RParen] + rest);
    BoundParses(n.arg, NotIf(n.negated) + [Kw(KIn)] + ([LParen] + items));
    ItemsParse(n.items, [RParen] + rest);
    RangeTailIsInList(n.negated, Flat(n.arg), items, FlatAll(n.items), rest);
    InListTokens(n.negated, n.arg, n.items);
    Regroup(Toks(n.arg), NotIf(n.negated) + [Kw(KIn)], JoinTokens(AllToks(n.items), [Comma]), rest);
    RangeTailIsReached(n.negated, Flat(n.arg), KIn, [LParen] + items, Toks(n) + rest);
  }

  /** The first of several list items, and the rest after the comma. */
  lemma JoinedItems(items: seq<Node>, rest: seq<Token>)
    requires |items| > 1
    ensures JoinTokens(AllToks(items), [Comma]) + rest
            == Toks(items[0]) + ([Comma] + (JoinTokens(AllToks(items[1..]), [Comma]) + rest))
  {
    var parts, joined := AllToks(items), JoinTokens(AllToks(items[1..]), [Comma]);
    assert parts[1..] == AllToks(items[1..]) && parts[0] == Toks(items[0]);
    Associative(parts[0] + [Comma], joined, rest);
    Associative(parts[0], [Comma], joined + rest);
  }

  lemma {:induction false} ItemsParse(items: seq<Node>, rest: seq<Token>)
    requires items != [] && (forall i | i in items :: Printable(i)) && Starts(rest, RParen)
    ensures ParseItems(JoinTokens(AllToks(items), [Comma]) + rest) == Some((FlatAll(items), rest))
    decreases items, 0
  {
    var first := items[0];
    if |items| == 1 {
      ExprParses(first, rest);
      assert items[1..] == [] && [Flat(first)] + [] == [Flat(first)];
    } else {
      var more := JoinTokens(AllToks(items[1..]), [Comma]) + rest;
      JoinedItems(items, rest);
      ExprParses(first, [Comma] + more);
      ItemsParse(items[1..], rest);
      assert ([Comma] + more)[1..] == more;
    }
  }

  lemma {:induction false} ComparisonParses(n: Node, rest: seq<Token>)
    requires Printable(n) && Level(n) >= COMPARISON && EndsIs(rest)
    ensures ParseComparison(Toks(n) + rest) == Some((Flat(n), rest))
    decreases n, 5
  {
    if Level(n) >= RANGE {
      RangeParses(n, rest);
      LiftToComparison(Toks(n) + rest, Flat(n), rest);
    } else if Lone(n) {
      LoneTokens(n);
      ComparisonParses(n.args[0], rest);
    } else if n.Binary? {
      BinaryComparisonParses(n, rest);
    } else {
      QuantifiedParses(n, rest);
    }
  }

  lemma {:induction false} ComparisonOperandParses(n: Node, rest: seq<Token>)
    requires Printable(n) && OperandLevel(n) >= COMPARISON && EndsIs(rest)
    ensures ParseComparison(OperandToks(n) + rest) == Some((Flat(n), rest))
    decreases n, 22
  {
    if n.IsAExpr() {
      RangeOperandParses(n, rest);
      LiftToComparison(OperandToks(n) + rest, Flat(n), rest);
    } else {
      ComparisonParses(n, rest);
    }
  }

  lemma {:induction false} BinaryComparisonParses(n: Node, rest: seq<Token>)
    requires Printable(n) && n.Binary? && IsComparison(n.op) && EndsIs(rest)
    ensures ParseComparison(Toks(n) + rest) == Some((Flat(n), rest))
    decreases n, 0
  {
    var op := CanonicalOp(n.op);
    var right := OperandToks(n.right) + rest;
    CanonicalKeepsLevel(n.op);
    RangeOperandParses(n.left, [OpTok(op)] + right);
    RangeOperandParses(n.right, rest);
    FirstOperandToken(n.right);
    BinaryToksThen(n, rest);
    ComparisonTailIsBinary(op, Flat(n.left), right, Flat(n.right), rest);
  }

  lemma ComparisonTailIsBinary(op: string, x: Node, right: seq<Token>, y: Node, rest: seq<Token>)
    requires IsComparison(op) && right != [] && StartsOperand(right[0])
    requires ParseRange(right) == Some((y, rest))
    ensures ComparisonTail(x, [OpTok(op)] + right) == Some((Binary(op, x, y), rest))
  {
    assert ([OpTok(op)] + right)[1..] == right;
    assert ([OpTok(op)] + right)[1] == right[0];
  }

  lemma {:induction false} QuantifiedParses(n: Node, rest: seq<Token>)
    requires Printable(n) && n.Quantified? && EndsIs(rest)
    ensures ParseComparison(Toks(n) + rest) == Some((Flat(n), rest))
    decreases n, 0
  {
    var op := CanonicalOp(n.op);
    var word := Kw(if n.all then KAll else KAny);
    var body := Toks(n.right) + ([RParen] + rest);
    var tail := [OpTok(op), word, LParen] + body;
    CanonicalKeepsLevel(n.op);
    RangeParses(n.left, tail);
    ExprParses(n.right, [RParen] + rest);
    QuantifiedRegroups(n, rest);
    ComparisonTailIsQuantified(op, n.all, Flat(n.left), body, Flat(n.right), rest);
  }

  lemma QuantifiedRegroups(n: Node, rest: seq<Token>)
    requires n.Quantified?
    ensures Toks(n) + rest ==
            Toks(n.left) + ([OpTok(CanonicalOp(n.op)), Kw(if n.all then KAll else KAny), LParen]
                            + (Toks(n.right) + ([RParen] + rest)))
  {
    var op, word := [OpTok(CanonicalOp(n.op))], [Kw(if n.all then KAll else KAny)];
    QuantifiedTokens(n.op, n.all, n.left, n.right);
    Associative(Toks(n.left), op, word);
    Regroup(Toks(n.left), op + word, Toks(n.right), rest);
  }

  lemma ComparisonTailIsQuantified(op: string, all: bool, x: Node, body: seq<Token>, y: Node, rest: seq<Token>)
    requires IsComparison(op)
    requires ParseExpr(body) == Some((y, [RParen] + rest))
    ensures ComparisonTail(x, [OpTok(op), Kw(if all then KAll else KAny), LParen] + body) ==
            Some((Quantified(op, all, x, y), rest))
  {
    var ts := [OpTok(op), Kw(if all then KAll else KAny), LParen] + body;
    assert ts[3..] == body;
    assert ([RParen] + rest)[1..] == rest;
  }

  lemma {:induction false} IsParses(n: Node, rest: seq<Token>)
    requires Printable(n) && Level(n) >= NULLTEST && EndsIs(rest)
    ensures ParseIs(Toks(n) + rest) == IsTail(Flat(n), rest)
    decreases n, 6
  {
    if Level(n) >= COMPARISON {
      ComparisonParses(n, rest);
    } else if Lone(n) {
      LoneTokens(n);
      IsParses(n.args[0], rest);
    } else {
      NullTestParses(n, rest);
    }
  }

  lemma {:induction false} NullTestParses(n: Node, rest: seq<Token>)
    requires Printable(n) && n.NullTest? && EndsIs(rest)
    ensures ParseIs(Toks(n) + rest) == IsTail(Flat(n), rest)
    decreases n, 0
  {
    var words := if n.isNull then [Kw(KIs), Kw(KNull)] else [Kw(KIs), Kw(KNot), Kw(KNull)];
    NullTestTokens(n.arg, n.isNull);
    Associative(Toks(n.arg), words, rest);
    IsParses(n.arg, words + rest);
    IsTailTakesNull(Flat(n.arg), n.isNull, rest);
  }

  lemma IsTailTakesNull(x: Node, isNull: bool, rest: seq<Token>)
    ensures IsTail(x, (if isNull then [Kw(KIs), Kw(KNull)] else [Kw(KIs), Kw(KNot), Kw(KNull)]) + rest)
            == IsTail(NullTest(x, isNull), rest)
  {
    if isNull {
      assert ([Kw(KIs), Kw(KNull)] + rest)[2..] == rest;
    } else {
      assert ([Kw(KIs), Kw(KNot), Kw(KNull)] + rest)[3..] == rest;
    }
  }

  lemma {:induction false} IsOperandParses(n: Node, rest: seq<Token>)
    requires Printable(n) && OperandLevel(n) >= NULLTEST && EndsIs(rest)
    ensures ParseIs(OperandToks(n) + rest) == IsTail(Flat(n), rest)
    decreases n, 23
  {
    if n.IsAExpr() {
      ComparisonOperandParses(n, rest);
    } else {
      IsParses(n, rest);
    }
  }

  lemma {:induction false} DistinctParses(n: Node, rest: seq<Token>)
    requires Printable(n) && n.DistinctFrom? && EndsAnd(rest)
    ensures ParseIs(Toks(n) + rest) == Some((Flat(n), rest))
    decreases n, 0
  {
    var right := OperandToks(n.right) + rest;
    var infix := [Kw(KIs), Kw(KDistinct), Kw(KFrom)];
    IsOperandParses(n.left, infix + right);
    ComparisonOperandParses(n.right, rest);
    DistinctRegroups(n, rest);
    assert (infix + right)[3..] == right;
  }

  lemma DistinctRegroups(n: Node, rest: seq<Token>)
    requires n.DistinctFrom?
    ensures Toks(n) + rest
            == OperandToks(n.left) + ([Kw(KIs), Kw(KDistinct), Kw(KFrom)] + (OperandToks(n.right) + rest))
  {
    var infix := [Kw(KIs), Kw(KDistinct), Kw(KFrom)];
    DistinctTokens(n.left, n.right);
    Associative(OperandToks(n.left) + infix, OperandToks(n.right), rest);
    Associative(OperandToks(n.left), infix, OperandToks(n.right) + rest);
  }

  lemma {:induction false} NotParses(n: Node, rest: seq<Token>)
    requires Printable(n) && !n.Is(AndExpr) && !n.Is(OrExpr) && EndsAnd(rest)
    ensures ParseNot(Toks(n) + rest) == Some((Flat(n), rest))
    decreases n, 7
  {
    if n.BoolExpr? {
      NegationParses(n, rest);
    } else {
      FirstToken(n);
      assert (Toks(n) + rest)[0] == Toks(n)[0];
      if n.DistinctFrom? {
        DistinctParses(n, rest);
      } else {
        IsParses(n, rest);
      }
    }
  }

  lemma {:induction false} NegationParses(n: Node, rest: seq<Token>)
    requires Printable(n) && n.Is(NotExpr) && EndsAnd(rest)
    ensures ParseNot(Toks(n) + rest) == Some((Flat(n), rest))
    decreases n, 0
  {
    var x := n.args[0];
    assert n.args == [x] && FlatAll(n.args) == [Flat(x)];
    NotTokens(x);
    NotRegroups(Toks(x), rest);
    ParenthesizedParses(x, rest);
    NotTakes([LParen] + (Toks(x) + ([RParen] + rest)), Flat(x), rest);
  }

  lemma NotRegroups(c: seq<Token>, rest: seq<Token>)
    ensures [Kw(KNot)] + ([LParen] + c + [RParen]) + rest == [Kw(KNot)] + ([LParen] + (c + ([RParen] + rest)))
  {
  }

  lemma NotTakes(ts: seq<Token>, x: Node, rest: seq<Token>)
    requires ParseNot(ts) == Some((x, rest))
    ensures ParseNot([Kw(KNot)] + ts) == Some((BoolExpr(NotExpr, [x]), rest))
  {
    assert ([Kw(KNot)] + ts)[1..] == ts;
  }

  /** A parenthesized expression read where NOT or AND expects its operand. */
  lemma {:induction false} ParenthesizedParses(n: Node, rest: seq<Token>)
    requires Printable(n) && EndsAnd(rest)
    ensures ParseNot([LParen] + (Toks(n) + ([RParen] + rest))) == Some((Flat(n), rest))
    decreases n, 21
  {
    var ts := [LParen] + (Toks(n) + ([RParen] + rest));
    ExprParses(n, [RParen] + rest);
    assert ts[1..] == Toks(n) + ([RParen] + rest);
    assert ([RParen] + rest)[1..] == rest;
    PrimaryIsComparison(ts, Flat(n), rest);
    LiftToNot(ts, Flat(n), rest);
  }

  lemma {:induction false} AndArgParses(n: Node, rest: seq<Token>)
    requires Printable(n) && EndsAnd(rest) && AndTail(rest).Some?
    ensures ParseAndList(ArgToks(AndExpr, n) + rest) == Prepend(Items(AndExpr, n), AndTail(rest))
    decreases n, 22
  {
    if n.Is(OrExpr) {
      assert ArgToks(AndExpr, n) + rest == [LParen] + (Toks(n) + ([RParen] + rest));
      ParenthesizedParses(n, rest);
    } else {
      AndListParses(n, rest);
    }
  }

  lemma {:induction false} AndListParses(n: Node, rest: seq<Token>)
    requires Printable(n) && !n.Is(OrExpr) && EndsAnd(rest) && AndTail(rest).Some?
    ensures ParseAndList(Toks(n) + rest) == Prepend(Items(AndExpr, n), AndTail(rest))
    decreases n, 8
  {
    if n.Is(AndExpr) {
      JoinedArgTokens(AndExpr, n.args);
      AndArgsParse(n.args, rest);
    } else {
      NotParses(n, rest);
    }
  }

  /** The first of several joined arguments, and the rest after the separator. */
  lemma JoinedArgs(op: BoolOp, args: seq<Node>, sep: Token, rest: seq<Token>)
    requires |args| > 1
    ensures JoinTokens(AllArgToks(op, args), [sep]) + rest
            == ArgToks(op, args[0]) + ([sep] + (JoinTokens(AllArgToks(op, args[1..]), [sep]) + rest))
  {
    var parts := AllArgToks(op, args);
    var joined := JoinTokens(AllArgToks(op, args[1..]), [sep]);
    assert parts[1..] == AllArgToks(op, args[1..]) && parts[0] == ArgToks(op, args[0]);
    Associative(parts[0] + [sep], joined, rest);
    Associative(parts[0], [sep], joined + rest);
  }

  lemma {:induction false} AndArgsParse(args: seq<Node>, rest: seq<Token>)
    requires args != [] && (forall a | a in args :: Printable(a)) && EndsAnd(rest) && AndTail(rest).Some?
    ensures ParseAndList(JoinTokens(AllArgToks(AndExpr, args), [Kw(KAnd)]) + rest) ==
            Prepend(ItemsOfAll(AndExpr, args), AndTail(rest))
    decreases args, 0
  {
    var first := args[0];
    if |args| == 1 {
      AndArgParses(first, rest);
      assert ItemsOfAll(AndExpr, args) == Items(AndExpr, first) by { assert args[1..] == []; }
    } else {
      var more := JoinTokens(AllArgToks(AndExpr, args[1..]), [Kw(KAnd)]) + rest;
      JoinedArgs(AndExpr, args, Kw(KAnd), rest);
      AndArgsParse(args[1..], rest);
      assert ([Kw(KAnd)] + more)[1..] == more;
      AndArgParses(first, [Kw(KAnd)] + more);
      PrependTwice(Items(AndExpr, first), ItemsOfAll(AndExpr, args[1..]), AndTail(rest));
    }
  }

  lemma PrependTwice(a: seq<Node>, b: seq<Node>, r: ParsedList)
    ensures Prepend(a, Prepend(b, r)) == Prepend(a + b, r)
  {
    if r.Some? {
      assert a + (b + r.value.0) == a + b + r.value.0;
    }
  }

  lemma {:induction false} OrListParses(n: Node, rest: seq<Token>)
    requires Printable(n) && EndsOr(rest) && OrTail(rest).Some?
    ensures ParseOrList(Toks(n) + rest) == Prepend(Items(OrExpr, n), OrTail(rest))
    decreases n, 9
  {
    if n.Is(OrExpr) {
      JoinedArgTokens(OrExpr, n.args);
      OrArgsParse(n.args, rest);
    } else {
      AndListParses(n, rest);
      ItemsMakeFlat(AndExpr, n);
      assert Items(AndExpr, n) + [] == Items(AndExpr, n);
    }
  }

  lemma {:induction false} OrArgsParse(args: seq<Node>, rest: seq<Token>)
    requires args != [] && (forall a | a in args :: Printable(a)) && EndsOr(rest) && OrTail(rest).Some?
    ensures ParseOrList(JoinTokens(AllArgToks(OrExpr, args), [Kw(KOr)]) + rest) ==
            Prepend(ItemsOfAll(OrExpr, args), OrTail(rest))
    decreases args, 0
  {
    var first := args[0];
    if |args| == 1 {
      OrListParses(first, rest);
      assert ItemsOfAll(OrExpr, args) == Items(OrExpr, first) by { assert args[1..] == []; }
    } else {
      var more := JoinTokens(AllArgToks(OrExpr, args[1..]), [Kw(KOr)]) + rest;
      JoinedArgs(OrExpr, args, Kw(KOr), rest);
      OrArgsParse(args[1..], rest);
      assert ([Kw(KOr)] + more)[1..] == more;
      OrListParses(first, [Kw(KOr)] + more);
      PrependTwice(Items(OrExpr, first), ItemsOfAll(OrExpr, args[1..]), OrTail(rest));
    }
  }

  lemma {:induction false} ExprParses(n: Node, rest: seq<Token>)
    requires Printable(n) && EndsExpr(rest)
    ensures ParseExpr(Toks(n) + rest) == Some((Flat(n), rest))
    decreases n, 10
  {
    OrListParses(n, rest);
    ItemsMakeFlat(OrExpr, n);
    assert Items(OrExpr, n) + [] == Items(OrExpr, n);
  }

  // --- the whole text --------------------------------------------------------------------

  lemma {:induction false} PrintableIsWellSorted(n: Node)
    requires Printable(n)
    ensures WellSorted(n)
  {
    match n
    case Binary(_, l, r) => PrintableIsWellSorted(l); PrintableIsWellSorted(r);
    case DistinctFrom(l, r) => PrintableIsWellSorted(l); PrintableIsWellSorted(r);
    case Between(_, x, low, high) =>
      PrintableIsWellSorted(x);
      PrintableIsWellSorted(low);
      PrintableIsWellSorted(high);
    case InList(_, x, items) =>
      PrintableIsWellSorted(x);
      forall i | i in items ensures WellSorted(i) { PrintableIsWellSorted(i); }
    case Quantified(_, _, l, r) => PrintableIsWellSorted(l); PrintableIsWellSorted(r);
    case NullTest(x, _) => PrintableIsWellSorted(x);
    case BoolExpr(_, args) => forall a | a in args ensures WellSorted(a) { PrintableIsWellSorted(a); }
    case Exists(_, _, condition) => PrintableIsWellSorted(condition);
    case _ =>
  }

  lemma {:induction false} WellSortedIsLexable(n: Node)
    requires WellSorted(n)
    ensures Lexable(n)
  {
    match n
    case Binary(_, l, r) => WellSortedIsLexable(l); WellSortedIsLexable(r);
    case DistinctFrom(l, r) => WellSortedIsLexable(l); WellSortedIsLexable(r);
    case Between(_, x, low, high) =>
      WellSortedIsLexable(x);
      WellSortedIsLexable(low);
      WellSortedIsLexable(high);
    case InList(_, x, items) =>
      WellSortedIsLexable(x);
      forall i | i in items ensures Lexable(i) { WellSortedIsLexable(i); }
    case Quantified(_, _, l, r) => WellSortedIsLexable(l); WellSortedIsLexable(r);
    case NullTest(x, _) => WellSortedIsLexable(x);
    case BoolExpr(_, args) => forall a | a in args ensures Lexable(a) { WellSortedIsLexable(a); }
    case Exists(_, _, condition) => WellSortedIsLexable(condition);
    case _ =>
  }

  /** The tokens of a printable tree parse to the tree, flattened. */
  lemma TokensParse(n: Node)
    requires Printable(n)
    ensures ParseExpr(Toks(n)) == Some((Flat(n), []))
  {
    ExprParses(n, []);
    assert Toks(n) + [] == Toks(n);
  }
}
