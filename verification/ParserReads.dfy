/**
 Whatever the reference parser returns, the tokens it took read as the tree it returned, at the
 level of the grammar it was returned from. One lemma for each parsing function; each yields
 the tokens that were taken.
 */
module ParserReads {
  import opened Common
  import opened Ast
  import opened Lexer
  import opened Parser
  import opened PrintedTokens
  import opened ParsedTrees
  import RoundTrip

  /** These tokens are a tree that fits a place of this level. */
  ghost predicate Stands(c: seq<Token>, x: Node, level: nat) {
    Spells(c, Marks(c, 0)) && Side(x, Marks(c, 0), 0, level)
  }

  /** These tokens are trees with a token between any two; a single one fits the level. */
  ghost predicate StandsAll(c: seq<Token>, xs: seq<Node>, level: nat) {
    Spells(c, Marks(c, 0)) && xs != [] && ReadsAll(xs, Marks(c, 0)) &&
    (|xs| == 1 ==> Fit(xs[0], Marks(c, 0), 0, level))
  }

  // --- constructs ------------------------------------------------------------------------------

  function AtZero(ws: seq<Token>): (r: seq<Mark>)
    ensures |r| == |ws| && forall i :: 0 <= i < |ws| ==> r[i] == Mark(ws[i], 0)
  {
    seq(|ws|, i requires 0 <= i < |ws| => Mark(ws[i], 0))
  }

  lemma {:induction false} SpellsWords(ws: seq<Token>)
    requires forall w | w in ws :: !IsParen(w)
    ensures Spells(ws, AtZero(ws))
  {
    if ws != [] {
      assert ws[0] in ws;
      SpellsWords(ws[1..]);
      assert AtZero(ws) == [Mark(ws[0], 0)] + AtZero(ws[1..]);
    }
  }

  lemma SpellsAround(a: seq<Token>, ws: seq<Token>, b: seq<Token>)
    requires Spells(a, Marks(a, 0)) && Spells(b, Marks(b, 0)) && forall w | w in ws :: !IsParen(w)
    ensures Spells(a + ws + b, Marks(a, 0) + AtZero(ws) + Marks(b, 0))
    ensures Marks(a + ws + b, 0) == Marks(a, 0) + AtZero(ws) + Marks(b, 0)
  {
    SpellsWords(ws);
    SpellsBoth(a, Marks(a, 0), ws, AtZero(ws));
    SpellsBoth(a + ws, Marks(a, 0) + AtZero(ws), b, Marks(b, 0));
  }

  lemma SpellsAfter(a: seq<Token>, ws: seq<Token>)
    requires Spells(a, Marks(a, 0)) && forall w | w in ws :: !IsParen(w)
    ensures Spells(a + ws, Marks(a, 0) + AtZero(ws)) && Marks(a + ws, 0) == Marks(a, 0) + AtZero(ws)
  {
    SpellsWords(ws);
    SpellsBoth(a, Marks(a, 0), ws, AtZero(ws));
  }

  lemma SpellsBefore(ws: seq<Token>, b: seq<Token>)
    requires Spells(b, Marks(b, 0)) && forall w | w in ws :: !IsParen(w)
    ensures Spells(ws + b, AtZero(ws) + Marks(b, 0)) && Marks(ws + b, 0) == AtZero(ws) + Marks(b, 0)
  {
    SpellsWords(ws);
    SpellsBoth(ws, AtZero(ws), b, Marks(b, 0));
  }

  lemma ParensStand(c: seq<Token>, x: Node)
    requires Stands(c, x, 0)
    ensures Stands([LParen] + c + [RParen], x, PRIMARY)
  {
    SpellsInParens(c, Marks(c, 0));
    ReadsLifted(x, Marks(c, 0), 1);
  }

  lemma BinaryStands(op: string, a: seq<Token>, l: Node, b: seq<Token>, r: Node)
    requires Stands(a, l, LeftLevel(op)) && Stands(b, r, RightLevel(op))
    ensures Stands(a + [OpTok(op)] + b, Binary(op, l, r), OperatorLevel(op))
  {
    var ms := Marks(a, 0) + AtZero([OpTok(op)]) + Marks(b, 0);
    SpellsAround(a, [OpTok(op)], b);
    assert ms[..Width(l)] == Marks(a, 0) && ms[Width(l) + 1..] == Marks(b, 0);
  }

  lemma DistinctStands(a: seq<Token>, l: Node, b: seq<Token>, r: Node)
    requires Stands(a, l, NULLTEST) && Stands(b, r, COMPARISON)
    ensures Stands(a + [Kw(KIs), Kw(KDistinct), Kw(KFrom)] + b, DistinctFrom(l, r), DISTINCTION)
  {
    var ws := [Kw(KIs), Kw(KDistinct), Kw(KFrom)];
    var ms := Marks(a, 0) + AtZero(ws) + Marks(b, 0);
    SpellsAround(a, ws, b);
    assert ms[..Width(l)] == Marks(a, 0) && ms[Width(l) + 3..] == Marks(b, 0);
  }

  lemma NullTestStands(a: seq<Token>, x: Node, isNull: bool)
    requires Stands(a, x, NULLTEST)
    ensures Stands(a + if isNull then [Kw(KIs), Kw(KNull)] else [Kw(KIs), Kw(KNot), Kw(KNull)],
                   NullTest(x, isNull), NULLTEST)
  {
    var ws := if isNull then [Kw(KIs), Kw(KNull)] else [Kw(KIs), Kw(KNot), Kw(KNull)];
    SpellsAfter(a, ws);
    NullTestReads(x, isNull, Marks(a, 0), AtZero(ws));
  }

  lemma NullTestReads(x: Node, isNull: bool, a: seq<Mark>, ws: seq<Mark>)
    requires |ws| == (if isNull then 2 else 3) && ws[0].depth == 0 && Side(x, a, 0, NULLTEST)
    ensures Reads(NullTest(x, isNull), a + ws)
  {
    assert (a + ws)[..|a|] == a && (a + ws)[|a|] == ws[0];
  }

  lemma BetweenStands(negated: bool, a: seq<Token>, x: Node, b: seq<Token>, low: Node, c: seq<Token>, high: Node)
    requires Stands(a, x, TIGHT) && Stands(b, low, TIGHT) && Stands(c, high, TIGHT)
    ensures Stands(a + (NotIf(negated) + [Kw(KBetween)]) + (b + [Kw(KAnd)] + c), Between(negated, x, low, high), RANGE)
  {
    var ws := NotIf(negated) + [Kw(KBetween)];
    SpellsAround(b, [Kw(KAnd)], c);
    SpellsAround(a, ws, b + [Kw(KAnd)] + c);
    BetweenReads(negated, x, Marks(a, 0), AtZero(ws), low, Marks(b, 0), AtZero([Kw(KAnd)]), high, Marks(c, 0));
  }

  lemma BetweenReads(negated: bool, x: Node, a: seq<Mark>, ws: seq<Mark>, low: Node, b: seq<Mark>,
                     and: seq<Mark>, high: Node, c: seq<Mark>)
    requires |ws| == WordsOf(negated) && |and| == 1 && ws[0].depth == 0
    requires Side(x, a, 0, TIGHT) && Side(low, b, 0, TIGHT) && Side(high, c, 0, TIGHT)
    ensures Reads(Between(negated, x, low, high), a + ws + (b + and + c))
  {
    ThreeParts(a, ws, b + and + c);
    ThreeParts(b, and, c);
  }

  lemma InListStands(negated: bool, a: seq<Token>, x: Node, b: seq<Token>, items: seq<Node>)
    requires Stands(a, x, TIGHT) && StandsAll(b, items, 0)
    ensures Stands(a + (NotIf(negated) + [Kw(KIn)]) + ([LParen] + b + [RParen]), InList(negated, x, items), RANGE)
  {
    var ws := NotIf(negated) + [Kw(KIn)];
    var list := [LParen] + b + [RParen];
    SpellsInParens(b, Marks(b, 0));
    ReadsAllLifted(items, Marks(b, 0), 1);
    SpellsAround(a, ws, list);
    InListReads(negated, x, Marks(a, 0), AtZero(ws), items, Marks(list, 0));
  }

  lemma InListReads(negated: bool, x: Node, a: seq<Mark>, ws: seq<Mark>, items: seq<Node>, b: seq<Mark>)
    requires |ws| == WordsOf(negated) && ws[0].depth == 0
    requires Side(x, a, 0, TIGHT) && ReadsAll(items, b)
    ensures Reads(InList(negated, x, items), a + ws + b)
  {
    ThreeParts(a, ws, b);
  }

  lemma ThreeParts(a: seq<Mark>, ws: seq<Mark>, b: seq<Mark>)
    requires ws != []
    ensures var ms := a + ws + b; ms[..|a|] == a && ms[|a|] == ws[0] && ms[|a| + |ws|..] == b
  {
  }

  lemma QuantifiedStands(op: string, all: bool, a: seq<Token>, x: Node, b: seq<Token>, y: Node)
    requires Stands(a, x, RANGE) && Stands(b, y, 0)
    ensures Stands(a + [OpTok(op), Kw(if all then KAll else KAny)] + ([LParen] + b + [RParen]),
                   Quantified(op, all, x, y), COMPARISON)
  {
    var ws := [OpTok(op), Kw(if all then KAll else KAny)];
    var body := [LParen] + b + [RParen];
    var ms := Marks(a, 0) + AtZero(ws) + Marks(body, 0);
    ParensStand(b, y);
    SpellsAround(a, ws, body);
    assert ms[..Width(x)] == Marks(a, 0) && ms[Width(x) + 2..] == Marks(body, 0);
  }

  lemma NotStands(a: seq<Token>, x: Node)
    requires Stands(a, x, 0)
    ensures Stands([Kw(KNot)] + a, BoolExpr(NotExpr, [x]), NEGATION)
  {
    SpellsBefore([Kw(KNot)], a);
    assert ReadsAll([x], Marks(a, 0));
    assert (AtZero([Kw(KNot)]) + Marks(a, 0))[1..] == Marks(a, 0);
  }

  lemma ExistsStands(ws: seq<Token>, table: string, alias: string, b: seq<Token>, x: Node)
    requires |ws| == 7 && (forall w | w in ws :: !IsParen(w)) && Stands(b, x, 0)
    requires ColId(ws[3]) == Some(table) && ColId(ws[5]) == Some(alias)
    ensures Stands([Kw(KExists)] + ([LParen] + (ws + b) + [RParen]), Exists(table, alias, x), PRIMARY)
  {
    SpellsQuery(ws, b);
    ReadsLifted(x, Marks(b, 0), 1);
    ExistsReads(table, alias, AtZero([Kw(KExists)]), Lift(AtZero(ws), 1), x, Lift(Marks(b, 0), 1));
  }

  lemma SpellsQuery(ws: seq<Token>, b: seq<Token>)
    requires Spells(b, Marks(b, 0)) && forall w | w in ws :: !IsParen(w)
    ensures var c := [Kw(KExists)] + ([LParen] + (ws + b) + [RParen]);
      Spells(c, Marks(c, 0)) &&
      Marks(c, 0) == AtZero([Kw(KExists)]) + Lift(AtZero(ws), 1) + Lift(Marks(b, 0), 1)
  {
    var body := ws + b;
    SpellsBefore(ws, b);
    SpellsInParens(body, Marks(body, 0));
    SpellsBefore([Kw(KExists)], [LParen] + body + [RParen]);
    LiftBoth(AtZero(ws), Marks(b, 0), 1);
  }

  lemma LiftBoth(a: seq<Mark>, b: seq<Mark>, k: int)
    ensures Lift(a + b, k) == Lift(a, k) + Lift(b, k)
  {
  }

  lemma ExistsReads(table: string, alias: string, word: seq<Mark>, ws: seq<Mark>, x: Node, b: seq<Mark>)
    requires |word| == 1 && |ws| == 7 && Reads(x, b)
    requires ColId(ws[3].token) == Some(table) && ColId(ws[5].token) == Some(alias)
    ensures Reads(Exists(table, alias, x), word + ws + b)
  {
    var ms := word + ws + b;
    assert ms[8..] == b && ms[4] == ws[3] && ms[6] == ws[5];
  }

  /** What one item adds to a flattened list. */
  function Head(op: BoolOp, x: Node): seq<Node> { if x.Is(op) then x.args else [x] }

  lemma HeadReads(op: BoolOp, x: Node, ms: seq<Mark>)
    requires op != NotExpr && (x.Is(op) ==> x.args != [])
    ensures Head(op, x) != [] && WidthAll(Head(op, x)) == Width(x)
    ensures ReadsAll(Head(op, x), ms) == Reads(x, ms)
  {
    if !x.Is(op) { assert |[x]| == 1; }
  }

  lemma {:induction false} SpreadReads(op: BoolOp, xs: seq<Node>, ms: seq<Mark>)
    requires op != NotExpr && xs != [] && ReadsAll(xs, ms)
    ensures Spread(op, xs) != [] && ReadsAll(Spread(op, xs), ms)
  {
    var w := Width(xs[0]);
    var head := Head(op, xs[0]);
    if |xs| == 1 {
      HeadReads(op, xs[0], ms);
      assert xs[1..] == [] && head + [] == head;
    } else {
      HeadReads(op, xs[0], ms[..w]);
      SpreadReads(op, xs[1..], ms[w + 1..]);
      ReadsBoth(head, ms[..w], ms[w], Spread(op, xs[1..]), ms[w + 1..]);
      SplitAt(ms, w);
    }
  }

  /** The other way round: the first item of a flattened list and the rest of it. */
  lemma SpreadSplits(op: BoolOp, xs: seq<Node>, a: seq<Mark>, sep: Mark, b: seq<Mark>)
    requires op != NotExpr && |xs| > 1 && |a| == Width(xs[0]) && (xs[0].Is(op) ==> xs[0].args != [])
    requires Spread(op, xs[1..]) != [] && ReadsAll(Spread(op, xs), a + [sep] + b)
    ensures Reads(xs[0], a) && ReadsAll(Spread(op, xs[1..]), b)
  {
    HeadReads(op, xs[0], a);
    assert Spread(op, xs) == Head(op, xs[0]) + Spread(op, xs[1..]);
    ReadsBoth(Head(op, xs[0]), a, sep, Spread(op, xs[1..]), b);
  }

  lemma MakeBoolStands(op: BoolOp, c: seq<Token>, xs: seq<Node>, level: nat)
    requires op != NotExpr && StandsAll(c, xs, level) && level >= Rank(BoolExpr(op, xs))
    ensures Stands(c, MakeBool(op, xs), Rank(BoolExpr(op, xs)))
  {
    if |xs| > 1 { SpreadReads(op, xs, Marks(c, 0)); }
  }

  lemma PrependStands(a: seq<Token>, x: Node, t: Token, b: seq<Token>, xs: seq<Node>, level: nat)
    requires Stands(a, x, level) && StandsAll(b, xs, level) && !IsParen(t)
    ensures StandsAll(a + [t] + b, [x] + xs, level)
  {
    SpellsAround(a, [t], b);
    ReadsBoth([x], Marks(a, 0), Mark(t, 0), xs, Marks(b, 0));
    assert AtZero([t]) == [Mark(t, 0)];
  }

  // --- the parsing functions ---------------------------------------------------------------------

  lemma {:induction false} ExprStands(ts: seq<Token>) returns (c: seq<Token>)
    requires ParseExpr(ts).Some?
    ensures ts == c + ParseExpr(ts).value.1 && Stands(c, ParseExpr(ts).value.0, 0)
    decreases |ts|, 12
  {
    c := OrListStands(ts);
    MakeBoolStands(OrExpr, c, ParseOrList(ts).value.0, LIST);
  }

  lemma {:induction false} OrListStands(ts: seq<Token>) returns (c: seq<Token>)
    requires ParseOrList(ts).Some?
    ensures ts == c + ParseOrList(ts).value.1 && StandsAll(c, ParseOrList(ts).value.0, LIST)
    decreases |ts|, 11
  {
    var (xs, rest) := ParseAndList(ts).value;
    var a := AndListStands(ts);
    MakeBoolStands(AndExpr, a, xs, NEGATION);
    var x := MakeBool(AndExpr, xs);
    if Starts(rest, Kw(KOr)) {
      var b := OrListStands(rest[1..]);
      PrependStands(a, x, rest[0], b, ParseOrList(rest[1..]).value.0, LIST);
      SplitTwice(ts, a, rest, b, ParseOrList(rest[1..]).value.1);
      c := a + [rest[0]] + b;
    } else {
      c := a;
      assert [x] + [] == [x];
    }
  }

  lemma {:induction false} AndListStands(ts: seq<Token>) returns (c: seq<Token>)
    requires ParseAndList(ts).Some?
    ensures ts == c + ParseAndList(ts).value.1 && StandsAll(c, ParseAndList(ts).value.0, NEGATION)
    decreases |ts|, 10
  {
    var (x, rest) := ParseNot(ts).value;
    var a := NegationStands(ts);
    if Starts(rest, Kw(KAnd)) {
      var b := AndListStands(rest[1..]);
      PrependStands(a, x, rest[0], b, ParseAndList(rest[1..]).value.0, NEGATION);
      SplitTwice(ts, a, rest, b, ParseAndList(rest[1..]).value.1);
      c := a + [rest[0]] + b;
    } else {
      c := a;
      assert [x] + [] == [x];
    }
  }

  lemma {:induction false} NegationStands(ts: seq<Token>) returns (c: seq<Token>)
    requires ParseNot(ts).Some?
    ensures ts == c + ParseNot(ts).value.1 && Stands(c, ParseNot(ts).value.0, NEGATION)
    decreases |ts|, 9
  {
    if Starts(ts, Kw(KNot)) {
      var a := NegationStands(ts[1..]);
      NotStands(a, ParseNot(ts[1..]).value.0);
      c := [Kw(KNot)] + a;
    } else {
      c := IsStands(ts);
    }
  }

  lemma {:induction false} IsStands(ts: seq<Token>) returns (c: seq<Token>)
    requires ParseIs(ts).Some?
    ensures ts == c + ParseIs(ts).value.1 && Stands(c, ParseIs(ts).value.0, DISTINCTION)
    decreases |ts|, 8
  {
    var (x, rest) := ParseComparison(ts).value;
    var a := ComparisonStands(ts);
    c := IsTailStands(x, rest, a);
  }

  lemma {:induction false} IsTailStands(x: Node, ts: seq<Token>, a: seq<Token>) returns (c: seq<Token>)
    requires Stands(a, x, NULLTEST) && IsTail(x, ts).Some?
    ensures a + ts == c + IsTail(x, ts).value.1 && Stands(c, IsTail(x, ts).value.0, DISTINCTION)
    decreases |ts|, 7
  {
    if !Starts(ts, Kw(KIs)) {
      c := a;
    } else if ts[1] == Kw(KNull) {
      var ws := [Kw(KIs), Kw(KNull)];
      NullTestStands(a, x, true);
      c := IsTailStands(NullTest(x, true), ts[2..], a + ws);
      assert ts == ws + ts[2..];
      Associative(a, ws, ts[2..]);
    } else if ts[1] == Kw(KNot) {
      var ws := [Kw(KIs), Kw(KNot), Kw(KNull)];
      NullTestStands(a, x, false);
      c := IsTailStands(NullTest(x, false), ts[3..], a + ws);
      assert ts == ws + ts[3..];
      Associative(a, ws, ts[3..]);
    } else {
      c := DistinctTailStands(x, ts, a);
    }
  }

  lemma {:induction false} DistinctTailStands(x: Node, ts: seq<Token>, a: seq<Token>) returns (c: seq<Token>)
    requires Stands(a, x, NULLTEST) && |ts| > 2 && ts[..3] == [Kw(KIs), Kw(KDistinct), Kw(KFrom)]
    requires IsTail(x, ts).Some?
    ensures a + ts == c + IsTail(x, ts).value.1 && Stands(c, IsTail(x, ts).value.0, DISTINCTION)
    decreases |ts|, 0
  {
    var ws := [Kw(KIs), Kw(KDistinct), Kw(KFrom)];
    var (y, rest) := ParseComparison(ts[3..]).value;
    var b := ComparisonStands(ts[3..]);
    DistinctStands(a, x, b, y);
    c := a + ws + b;
    assert ts == ws + ts[3..];
    Associative(a, ws, b + rest);
    Associative(a + ws, b, rest);
  }

  lemma {:induction false} ComparisonStands(ts: seq<Token>) returns (c: seq<Token>)
    requires ParseComparison(ts).Some?
    ensures ts == c + ParseComparison(ts).value.1 && Stands(c, ParseComparison(ts).value.0, COMPARISON)
    decreases |ts|, 7
  {
    var (x, rest) := ParseRange(ts).value;
    var a := RangeStands(ts);
    if !(rest != [] && rest[0].OpTok? && IsComparison(rest[0].op)) {
      c := a;
    } else {
      c := ComparisonTailStands(x, rest, a);
    }
  }

  lemma {:induction false} ComparisonTailStands(x: Node, ts: seq<Token>, a: seq<Token>) returns (c: seq<Token>)
    requires Stands(a, x, RANGE) && ts != [] && ts[0].OpTok? && IsComparison(ts[0].op)
    requires ComparisonTail(x, ts).Some?
    ensures a + ts == c + ComparisonTail(x, ts).value.1 && Stands(c, ComparisonTail(x, ts).value.0, COMPARISON)
    decreases |ts|, 6
  {
    if |ts| > 2 && (ts[1] == Kw(KAny) || ts[1] == Kw(KAll)) && ts[2] == LParen {
      c := QuantifierStands(x, ts, a);
    } else {
      var (y, rest) := ParseRange(ts[1..]).value;
      var b := RangeStands(ts[1..]);
      BinaryStands(ts[0].op, a, x, b, y);
      c := a + [ts[0]] + b;
      assert ts == [ts[0]] + ts[1..];
      Associative(a, [ts[0]], b + rest);
      Associative(a + [ts[0]], b, rest);
    }
  }

  lemma {:induction false} QuantifierStands(x: Node, ts: seq<Token>, a: seq<Token>) returns (c: seq<Token>)
    requires Stands(a, x, RANGE) && |ts| > 2 && ts[0].OpTok? && IsComparison(ts[0].op)
    requires (ts[1] == Kw(KAny) || ts[1] == Kw(KAll)) && ts[2] == LParen && ComparisonTail(x, ts).Some?
    ensures a + ts == c + ComparisonTail(x, ts).value.1 && Stands(c, ComparisonTail(x, ts).value.0, COMPARISON)
    decreases |ts|, 0
  {
    var ws := [ts[0], ts[1]];
    var (y, rest) := ParseExpr(ts[3..]).value;
    var b := ExprStands(ts[3..]);
    QuantifiedStands(ts[0].op, ts[1] == Kw(KAll), a, x, b, y);
    c := a + ws + ([LParen] + b + [RParen]);
    RoundTrip.Regroup(a, ws, b, rest[1..]);
    assert rest == [RParen] + rest[1..] && ts == ws + ([LParen] + ts[3..]);
  }

  lemma {:induction false} RangeStands(ts: seq<Token>) returns (c: seq<Token>)
    requires ParseRange(ts).Some?
    ensures ts == c + ParseRange(ts).value.1 && Stands(c, ParseRange(ts).value.0, RANGE)
    decreases |ts|, 6
  {
    var (x, rest) := ParseTight(ts, 2).value;
    var a := TightStands(ts, 2);
    if Starts(rest, Kw(KNot)) {
      var b := RangeTailStands(true, x, rest[1..], a);
      c := b;
      assert rest == [Kw(KNot)] + rest[1..];
    } else if Starts(rest, Kw(KBetween)) || Starts(rest, Kw(KIn)) {
      c := RangeTailStands(false, x, rest, a);
      assert NotIf(false) + rest == rest;
    } else {
      c := a;
    }
  }

  lemma {:induction false} RangeTailStands(negated: bool, x: Node, ts: seq<Token>, a: seq<Token>)
    returns (c: seq<Token>)
    requires Stands(a, x, TIGHT) && RangeTail(negated, x, ts).Some?
    ensures a + (NotIf(negated) + ts) == c + RangeTail(negated, x, ts).value.1
    ensures Stands(c, RangeTail(negated, x, ts).value.0, RANGE)
    decreases |ts|, 6
  {
    if Starts(ts, Kw(KBetween)) {
      c := BetweenTailStands(negated, x, ts, a);
    } else {
      c := InTailStands(negated, x, ts, a);
    }
  }

  lemma {:induction false} BetweenTailStands(negated: bool, x: Node, ts: seq<Token>, a: seq<Token>)
    returns (c: seq<Token>)
    requires Stands(a, x, TIGHT) && Starts(ts, Kw(KBetween)) && RangeTail(negated, x, ts).Some?
    ensures a + (NotIf(negated) + ts) == c + RangeTail(negated, x, ts).value.1
    ensures Stands(c, RangeTail(negated, x, ts).value.0, RANGE)
    decreases |ts|, 0
  {
    var ws := NotIf(negated) + [Kw(KBetween)];
    var (low, rest) := ParseTight(ts[1..], 2).value;
    var (high, end) := ParseTight(rest[1..], 2).value;
    var b := TightStands(ts[1..], 2);
    var d := TightStands(rest[1..], 2);
    BetweenStands(negated, a, x, b, low, d, high);
    c := a + ws + (b + [Kw(KAnd)] + d);
    RegroupBetween(a, ws, b, [Kw(KAnd)], d, end);
    assert rest == [Kw(KAnd)] + rest[1..] && ts == [Kw(KBetween)] + ts[1..];
    Associative(NotIf(negated), [Kw(KBetween)], ts[1..]);
  }

  lemma RegroupBetween(a: seq<Token>, b: seq<Token>, c: seq<Token>, d: seq<Token>, e: seq<Token>, rest: seq<Token>)
    ensures a + b + (c + d + e) + rest == a + (b + (c + (d + (e + rest))))
  {
  }

  lemma {:induction false} InTailStands(negated: bool, x: Node, ts: seq<Token>, a: seq<Token>)
    returns (c: seq<Token>)
    requires Stands(a, x, TIGHT) && !Starts(ts, Kw(KBetween)) && RangeTail(negated, x, ts).Some?
    ensures a + (NotIf(negated) + ts) == c + RangeTail(negated, x, ts).value.1
    ensures Stands(c, RangeTail(negated, x, ts).value.0, RANGE)
    decreases |ts|, 0
  {
    var ws := NotIf(negated) + [Kw(KIn)];
    var (items, rest) := ParseItems(ts[2..]).value;
    var b := ItemsStand(ts[2..]);
    InListStands(negated, a, x, b, items);
    c := a + ws + ([LParen] + b + [RParen]);
    RoundTrip.Regroup(a, ws, b, rest[1..]);
    assert rest == [RParen] + rest[1..] && ts == [Kw(KIn)] + ([LParen] + ts[2..]);
    Associative(NotIf(negated), [Kw(KIn)], [LParen] + ts[2..]);
  }

  lemma {:induction false} ItemsStand(ts: seq<Token>) returns (c: seq<Token>)
    requires ParseItems(ts).Some?
    ensures ts == c + ParseItems(ts).value.1 && StandsAll(c, ParseItems(ts).value.0, 0)
    decreases |ts|, 13
  {
    var (x, rest) := ParseExpr(ts).value;
    var a := ExprStands(ts);
    if Starts(rest, Comma) {
      var b := ItemsStand(rest[1..]);
      PrependStands(a, x, rest[0], b, ParseItems(rest[1..]).value.0, 0);
      SplitTwice(ts, a, rest, b, ParseItems(rest[1..]).value.1);
      c := a + [rest[0]] + b;
    } else {
      c := a;
      assert [x] + [] == [x];
    }
  }

  /** Reading operators stops only where none of the asked precedence follows. */
  lemma {:induction false} TightTailStops(x: Node, ts: seq<Token>, min: nat)
    requires TightTail(x, ts, min).Some?
    ensures !StartsTight(TightTail(x, ts, min).value.1, min)
    decreases |ts|
  {
    if StartsTight(ts, min) {
      var (y, rest) := ParseTight(ts[1..], Precedence(ts[0].op) + 1).value;
      TightTailStops(Binary(ts[0].op, x, y), rest, min);
    }
  }

  lemma {:induction false} TightStands(ts: seq<Token>, min: nat) returns (c: seq<Token>)
    requires 2 <= min <= 6 && ParseTight(ts, min).Some?
    ensures ts == c + ParseTight(ts, min).value.1 && Stands(c, ParseTight(ts, min).value.0, COMPARISON + min)
    decreases |ts|, 5
  {
    var (x, rest) := ParsePrimary(ts).value;
    var a := PrimaryStands(ts);
    c := TightTailStands(x, rest, min, a);
  }

  lemma {:induction false} TightTailStands(x: Node, ts: seq<Token>, min: nat, a: seq<Token>) returns (c: seq<Token>)
    requires 2 <= min <= 6 && Stands(a, x, COMPARISON + min) && TightTail(x, ts, min).Some?
    requires StartsTight(ts, min) ==> Stands(a, x, OperatorLevel(ts[0].op))
    ensures a + ts == c + TightTail(x, ts, min).value.1
    ensures Stands(c, TightTail(x, ts, min).value.0, COMPARISON + min)
    decreases |ts|, 4
  {
    if !StartsTight(ts, min) {
      c := a;
    } else {
      var op := ts[0].op;
      var (y, rest) := ParseTight(ts[1..], Precedence(op) + 1).value;
      var b := TightStands(ts[1..], Precedence(op) + 1);
      var (z, _) := ParsePrimary(ts[1..]).value;
      TightTailStops(z, ParsePrimary(ts[1..]).value.1, Precedence(op) + 1);
      BinaryStands(op, a, x, b, y);
      SplitTwice(a + ts, a, ts, b, rest);
      c := TightTailStands(Binary(op, x, y), rest, min, a + [ts[0]] + b);
    }
  }

  lemma OneTokenStands(t: Token, x: Node)
    requires !IsParen(t) && (x.Param? || x.IntConst? || x.StringConst? || x.NullConst? || x.BoolConst?)
    ensures Stands([t], x, PRIMARY)
  {
    SpellsOne(t);
  }

  lemma {:induction false} PrimaryStands(ts: seq<Token>) returns (c: seq<Token>)
    requires ParsePrimary(ts).Some?
    ensures ts == c + ParsePrimary(ts).value.1 && Stands(c, ParsePrimary(ts).value.0, PRIMARY)
    decreases |ts|, 4
  {
    var x := ParsePrimary(ts).value.0;
    assert ts == [ts[0]] + ts[1..];
    if ts[0] == LParen {
      var rest := ParseExpr(ts[1..]).value.1;
      var a := ExprStands(ts[1..]);
      ParensStand(a, x);
      c := [LParen] + a + [RParen];
      assert rest == [RParen] + rest[1..];
    } else if ts[0] == Kw(KExists) {
      c := ParenthesizedQueryStands(ts[1..]);
    } else if ColId(ts[0]).Some? {
      c := ColumnStands(ts, ColId(ts[0]).value);
    } else {
      c := [ts[0]];
      OneTokenStands(ts[0], x);
    }
  }

  lemma {:induction false} ParenthesizedQueryStands(ts: seq<Token>) returns (c: seq<Token>)
    requires ParseExists(ts).Some?
    ensures [Kw(KExists)] + ts == c + ParseExists(ts).value.1
    ensures Stands(c, ParseExists(ts).value.0, PRIMARY)
    decreases |ts|, 3
  {
    var (x, rest) := ParseExpr(ts[8..]).value;
    var b := ExprStands(ts[8..]);
    var ws := ts[1..8];
    assert ws[3] == ts[4] && ws[5] == ts[6];
    ExistsStands(ws, ColId(ts[4]).value, ColId(ts[6]).value, b, x);
    c := [Kw(KExists)] + ([LParen] + (ws + b) + [RParen]);
    assert ts == [LParen] + ws + ts[8..];
    assert rest == [RParen] + rest[1..];
  }

  lemma {:induction false} FieldsStand(ts: seq<Token>) returns (c: seq<Token>)
    ensures ts == c + ParseFields(ts).1 && (forall w | w in c :: !IsParen(w))
    ensures ReadsLabels(ParseFields(ts).0, AtZero(c))
    decreases |ts|
  {
    if Starts(ts, Dot) && |ts| > 1 && ColLabel(ts[1]).Some? {
      var d := FieldsStand(ts[2..]);
      c := [ts[0], ts[1]] + d;
      assert ts == [ts[0], ts[1]] + ts[2..];
      LabelReads(ts[0], ts[1], ParseFields(ts[2..]).0, d);
    } else {
      c := [];
    }
  }

  lemma LabelReads(dot: Token, t: Token, labels: seq<string>, d: seq<Token>)
    requires ReadsLabels(labels, AtZero(d)) && ColLabel(t).Some? && !IsParen(dot) && forall w | w in d :: !IsParen(w)
    ensures ReadsLabels([ColLabel(t).value] + labels, AtZero([dot, t] + d))
    ensures forall w | w in [dot, t] + d :: !IsParen(w)
  {
    assert AtZero([dot, t] + d)[2..] == AtZero(d);
    assert ([ColLabel(t).value] + labels)[1..] == labels;
  }

  lemma ColumnStands(ts: seq<Token>, name: string) returns (c: seq<Token>)
    requires ts != [] && ColId(ts[0]) == Some(name)
    ensures ts == c + ParseColumn(name, ts[1..]).1 && Stands(c, ParseColumn(name, ts[1..]).0, PRIMARY)
  {
    var d := FieldsStand(ts[1..]);
    c := [ts[0]] + d;
    SpellsWords(c);
    assert AtZero(c)[1..] == AtZero(d);
  }
}
