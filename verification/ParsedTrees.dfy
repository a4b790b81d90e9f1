/**
 What the reference parser can return at all. A tree that was read from some tokens has, wherever
 an operand binds too loosely for its place, parentheses around the tokens of that operand. So
 the trees that read back are exactly those for which the printer writes enough of them.
 */
module ParsedTrees {
  import opened Common
  import opened Ast
  import opened Lexer
  import opened Deparser
  import opened Printed
  import opened Parser
  import opened PrintedTokens
  import RoundTrip

  // --- tokens and how deep in parentheses they stand ------------------------------------------

  datatype Mark = Mark(token: Token, depth: int)

  predicate IsParen(t: Token) { t == LParen || t == RParen }

  /** How many more parentheses are opened than closed. */
  function Net(c: seq<Token>): int {
    if c == [] then 0 else (if c[0] == LParen then 1 else if c[0] == RParen then -1 else 0) + Net(c[1..])
  }

  /** The tokens that are not parentheses, each with its depth. */
  function Marks(c: seq<Token>, depth: int): seq<Mark> {
    if c == [] then []
    else if c[0] == LParen then Marks(c[1..], depth + 1)
    else if c[0] == RParen then Marks(c[1..], depth - 1)
    else [Mark(c[0], depth)] + Marks(c[1..], depth)
  }

  function Lift(ms: seq<Mark>, k: int): (r: seq<Mark>)
    ensures |r| == |ms| && forall i :: 0 <= i < |ms| ==> r[i] == Mark(ms[i].token, ms[i].depth + k)
  {
    seq(|ms|, i requires 0 <= i < |ms| => Mark(ms[i].token, ms[i].depth + k))
  }

  lemma {:induction false} MarksConcat(a: seq<Token>, b: seq<Token>, depth: int)
    ensures Net(a + b) == Net(a) + Net(b)
    ensures Marks(a + b, depth) == Marks(a, depth) + Marks(b, depth + Net(a))
  {
    if a == [] {
      assert a + b == b;
    } else {
      assert (a + b)[1..] == a[1..] + b;
      MarksConcat(a[1..], b, if a[0] == LParen then depth + 1 else if a[0] == RParen then depth - 1 else depth);
    }
  }

  lemma {:induction false} MarksLift(c: seq<Token>, depth: int, k: int)
    ensures Marks(c, depth + k) == Lift(Marks(c, depth), k)
  {
    if c != [] {
      if c[0] == LParen {
        MarksLift(c[1..], depth + 1, k);
      } else if c[0] == RParen {
        MarksLift(c[1..], depth - 1, k);
      } else {
        MarksLift(c[1..], depth, k);
        LiftHead(Mark(c[0], depth), Marks(c[1..], depth), k);
      }
    }
  }

  lemma LiftHead(m: Mark, ms: seq<Mark>, k: int)
    ensures Lift([m] + ms, k) == [Mark(m.token, m.depth + k)] + Lift(ms, k)
  {
  }

  /** Balanced tokens with these marks. */
  ghost predicate Spells(c: seq<Token>, ms: seq<Mark>) {
    Net(c) == 0 && Marks(c, 0) == ms && forall i :: 0 <= i < |ms| ==> ms[i].depth >= 0
  }

  lemma SpellsBoth(a: seq<Token>, ma: seq<Mark>, b: seq<Token>, mb: seq<Mark>)
    requires Spells(a, ma) && Spells(b, mb)
    ensures Spells(a + b, ma + mb)
  {
    MarksConcat(a, b, 0);
  }

  lemma SpellsOne(t: Token)
    requires !IsParen(t)
    ensures Spells([t], [Mark(t, 0)])
  {
    assert [t][1..] == [];
  }

  lemma SpellsInParens(c: seq<Token>, ms: seq<Mark>)
    requires Spells(c, ms)
    ensures Spells([LParen] + c + [RParen], Lift(ms, 1))
  {
    MarksConcat([LParen] + c, [RParen], 0);
    MarksConcat([LParen], c, 0);
    assert [LParen][1..] == [] && [RParen][1..] == [];
    MarksLift(c, 0, 1);
  }

  // --- trees read from marks ---------------------------------------------------------------------

  /** How many tokens other than parentheses a tree is written with. */
  function Width(x: Node): nat
    decreases x, 1
  {
    match x
    case Column(fields) => if fields == [] then 0 else 2 * |fields| - 1
    case Binary(_, l, r) => Width(l) + 1 + Width(r)
    case DistinctFrom(l, r) => Width(l) + 3 + Width(r)
    case Between(negated, arg, low, high) => Width(arg) + WordsOf(negated) + Width(low) + 1 + Width(high)
    case InList(negated, arg, items) => Width(arg) + WordsOf(negated) + WidthAll(items)
    case Quantified(_, _, l, r) => Width(l) + 2 + Width(r)
    case NullTest(arg, isNull) => Width(arg) + if isNull then 2 else 3
    case BoolExpr(op, args) => (if op == NotExpr then 1 else 0) + WidthAll(args)
    case Exists(_, _, condition) => 8 + Width(condition)
    case _ => 1
  }

  function WordsOf(negated: bool): nat { if negated then 2 else 1 }

  /** Trees with one token between any two. */
  function WidthAll(xs: seq<Node>): nat
    decreases xs, 0
  {
    if xs == [] then 0 else if |xs| == 1 then Width(xs[0]) else Width(xs[0]) + 1 + WidthAll(xs[1..])
  }

  /** An operand reaches the level of its place or stands in parentheses there. */
  ghost predicate Fit(x: Node, ms: seq<Mark>, at: int, level: nat) {
    Rank(x) >= level || forall i :: 0 <= i < |ms| ==> ms[i].depth > at
  }

  /** Labels, each after a dot. */
  ghost predicate ReadsLabels(labels: seq<string>, ms: seq<Mark>) {
    |ms| == 2 * |labels| &&
    (labels != [] ==> ColLabel(ms[1].token) == Some(labels[0]) && ReadsLabels(labels[1..], ms[2..]))
  }

  /** The marks carry the names of the tree, and every operand fits its place. */
  ghost predicate Reads(x: Node, ms: seq<Mark>)
    ensures Reads(x, ms) ==> |ms| == Width(x)
    decreases x, 1
  {
    |ms| == Width(x) &&
    match x
    case Column(fields) =>
      fields != [] && ColId(ms[0].token) == Some(fields[0]) && ReadsLabels(fields[1..], ms[1..])
    case Binary(op, l, r) =>
      var k := Width(l);
      Side(l, ms[..k], ms[k].depth, LeftLevel(op)) &&
      Side(r, ms[k + 1..], ms[k].depth, RightLevel(op))
    case DistinctFrom(l, r) =>
      var k := Width(l);
      Side(l, ms[..k], ms[k].depth, NULLTEST) &&
      Side(r, ms[k + 3..], ms[k].depth, COMPARISON)
    case Between(negated, arg, low, high) =>
      var k := Width(arg);
      var bounds := ms[k + WordsOf(negated)..];
      Side(arg, ms[..k], ms[k].depth, TIGHT) &&
      Side(low, bounds[..Width(low)], ms[k].depth, TIGHT) &&
      Side(high, bounds[Width(low) + 1..], ms[k].depth, TIGHT)
    case InList(negated, arg, items) =>
      var k := Width(arg);
      Side(arg, ms[..k], ms[k].depth, TIGHT) && ReadsAll(items, ms[k + WordsOf(negated)..])
    case Quantified(_, _, l, r) =>
      var k := Width(l);
      Side(l, ms[..k], ms[k].depth, RANGE) && Reads(r, ms[k + 2..])
    case NullTest(arg, _) =>
      var k := Width(arg);
      Side(arg, ms[..k], ms[k].depth, NULLTEST)
    case BoolExpr(op, args) => args != [] && ReadsAll(args, if op == NotExpr then ms[1..] else ms)
    case Exists(table, alias, condition) =>
      ColId(ms[4].token) == Some(table) && ColId(ms[6].token) == Some(alias) && Reads(condition, ms[8..])
    case _ => true
  }

  ghost predicate Side(x: Node, ms: seq<Mark>, at: int, level: nat)
    ensures Side(x, ms, at, level) ==> |ms| == Width(x)
    decreases x, 2
  {
    Reads(x, ms) && Fit(x, ms, at, level)
  }

  ghost predicate ReadsAll(xs: seq<Node>, ms: seq<Mark>)
    ensures ReadsAll(xs, ms) ==> |ms| == WidthAll(xs)
    decreases xs, 0
  {
    |ms| == WidthAll(xs) &&
    (|xs| == 1 ==> Reads(xs[0], ms)) &&
    (|xs| > 1 ==> Reads(xs[0], ms[..Width(xs[0])]) && ReadsAll(xs[1..], ms[Width(xs[0]) + 1..]))
  }

  lemma FitLifted(x: Node, ms: seq<Mark>, at: int, level: nat, k: int)
    ensures Fit(x, Lift(ms, k), at + k, level) == Fit(x, ms, at, level)
  {
    forall i | 0 <= i < |ms| ensures Lift(ms, k)[i].depth > at + k <==> ms[i].depth > at {
    }
    if forall i :: 0 <= i < |ms| ==> Lift(ms, k)[i].depth > at + k {
      forall i | 0 <= i < |ms| ensures ms[i].depth > at {
        assert Lift(ms, k)[i].depth > at + k;
      }
    }
  }

  /** Only differences of depth matter. */
  lemma {:induction false} ReadsLifted(x: Node, ms: seq<Mark>, k: int)
    ensures Reads(x, Lift(ms, k)) == Reads(x, ms)
    decreases x, 1
  {
    if |ms| == Width(x) {
      match x
      case Column(fields) =>
        if fields != [] {
          LabelsLifted(fields[1..], ms[1..], k);
          WholeSlices(ms, 0, 1, k);
        }
      case Binary(op, l, r) => PairLifted(x, ms, k);
      case DistinctFrom(l, r) => PairLifted(x, ms, k);
      case Between(_, _, _, _) => BetweenLifted(x, ms, k);
      case InList(_, _, _) => ListLifted(x, ms, k);
      case Quantified(_, _, _, _) => ListLifted(x, ms, k);
      case NullTest(arg, _) =>
        var w := Width(arg);
        PartLifted(arg, ms, 0, w, w, NULLTEST, k);
        WholeSlices(ms, w, w, k);
      case BoolExpr(op, args) =>
        var i := if op == NotExpr then 1 else 0;
        ReadsAllLifted(args, ms[i..], k);
        WholeSlices(ms, 0, i, k);
      case Exists(_, _, condition) =>
        ReadsLifted(condition, ms[8..], k);
        WholeSlices(ms, 0, 8, k);
      case _ =>
    }
  }

  lemma {:induction false} LabelsLifted(labels: seq<string>, ms: seq<Mark>, k: int)
    ensures ReadsLabels(labels, Lift(ms, k)) == ReadsLabels(labels, ms)
  {
    if labels != [] && |ms| == 2 * |labels| {
      LabelsLifted(labels[1..], ms[2..], k);
      WholeSlices(ms, 0, 2, k);
    }
  }

  lemma {:induction false} PairLifted(x: Node, ms: seq<Mark>, k: int)
    requires (x.Binary? || x.DistinctFrom?) && |ms| == Width(x)
    ensures Reads(x, Lift(ms, k)) == Reads(x, ms)
    decreases x, 0
  {
    var w := Width(x.left);
    if x.Binary? {
      PartLifted(x.left, ms, 0, w, w, LeftLevel(x.op), k);
      PartLifted(x.right, ms, w + 1, |ms|, w, RightLevel(x.op), k);
      WholeSlices(ms, w, w + 1, k);
    } else {
      PartLifted(x.left, ms, 0, w, w, NULLTEST, k);
      PartLifted(x.right, ms, w + 3, |ms|, w, COMPARISON, k);
      WholeSlices(ms, w, w + 3, k);
    }
  }

  lemma {:induction false} BetweenLifted(x: Node, ms: seq<Mark>, k: int)
    requires x.Between? && |ms| == Width(x)
    ensures Reads(x, Lift(ms, k)) == Reads(x, ms)
    decreases x, 0
  {
    var w, v := Width(x.arg), Width(x.low);
    var i := w + WordsOf(x.negated);
    var bounds := ms[i..];
    var at := ms[w].depth;
    PartLifted(x.arg, ms, 0, w, w, TIGHT, k);
    WholeSlices(ms, w, i, k);
    SideLifted(x.low, bounds[..v], at, TIGHT, k);
    SideLifted(x.high, bounds[v + 1..], at, TIGHT, k);
    WholeSlices(bounds, v, v + 1, k);
  }

  lemma {:induction false} SideLifted(x: Node, ms: seq<Mark>, at: int, level: nat, k: int)
    ensures Side(x, Lift(ms, k), at + k, level) == Side(x, ms, at, level)
    decreases x, 2
  {
    ReadsLifted(x, ms, k);
    FitLifted(x, ms, at, level, k);
  }

  lemma {:induction false} ListLifted(x: Node, ms: seq<Mark>, k: int)
    requires (x.InList? || x.Quantified?) && |ms| == Width(x)
    ensures Reads(x, Lift(ms, k)) == Reads(x, ms)
    decreases x, 0
  {
    if x.InList? {
      var w := Width(x.arg);
      var i := w + WordsOf(x.negated);
      PartLifted(x.arg, ms, 0, w, w, TIGHT, k);
      ReadsAllLifted(x.items, ms[i..], k);
      WholeSlices(ms, w, i, k);
    } else {
      var w := Width(x.left);
      PartLifted(x.left, ms, 0, w, w, RANGE, k);
      ReadsLifted(x.right, ms[w + 2..], k);
      WholeSlices(ms, w, w + 2, k);
    }
  }

  lemma WholeSlices(ms: seq<Mark>, i: nat, j: nat, k: int)
    requires i <= |ms| && j <= |ms|
    ensures Lift(ms, k)[..i] == Lift(ms[..i], k) && Lift(ms, k)[j..] == Lift(ms[j..], k)
    ensures ms[0..i] == ms[..i] && ms[j..|ms|] == ms[j..] && ms[0..] == ms
  {
  }

  lemma {:induction false} PartLifted(x: Node, ms: seq<Mark>, i: nat, j: nat, at: nat, level: nat, k: int)
    requires i <= j <= |ms| && at < |ms|
    ensures Lift(ms, k)[i..j] == Lift(ms[i..j], k) && Lift(ms, k)[at].depth == ms[at].depth + k
    ensures Side(x, Lift(ms[i..j], k), ms[at].depth + k, level) == Side(x, ms[i..j], ms[at].depth, level)
    decreases x, 3
  {
    SideLifted(x, ms[i..j], ms[at].depth, level, k);
  }

  lemma {:induction false} ReadsAllLifted(xs: seq<Node>, ms: seq<Mark>, k: int)
    ensures ReadsAll(xs, Lift(ms, k)) == ReadsAll(xs, ms)
    decreases xs, 0
  {
    if |ms| == WidthAll(xs) && xs != [] {
      if |xs| == 1 {
        ReadsLifted(xs[0], ms, k);
      } else {
        var w := Width(xs[0]);
        ReadsLifted(xs[0], ms[..w], k);
        ReadsAllLifted(xs[1..], ms[w + 1..], k);
        WholeSlices(ms, w, w + 1, k);
      }
    }
  }

  lemma {:induction false} WidthOfBoth(a: seq<Node>, b: seq<Node>)
    requires a != [] && b != []
    ensures WidthAll(a + b) == WidthAll(a) + 1 + WidthAll(b)
  {
    assert (a + b)[1..] == a[1..] + b;
    if |a| > 1 { WidthOfBoth(a[1..], b); }
  }

  /** Two lists with a token between them are read as one list exactly when each is read. */
  lemma {:induction false} ReadsBoth(a: seq<Node>, ma: seq<Mark>, sep: Mark, b: seq<Node>, mb: seq<Mark>)
    requires a != [] && b != [] && |ma| == WidthAll(a)
    ensures ReadsAll(a + b, ma + [sep] + mb) <==> ReadsAll(a, ma) && ReadsAll(b, mb)
    decreases |a|
  {
    var ms := ma + [sep] + mb;
    var w := Width(a[0]);
    WidthOfBoth(a, b);
    assert (a + b)[0] == a[0];
    if |a| == 1 {
      assert (a + b)[1..] == b;
      assert ms[..w] == ma && ms[w + 1..] == mb;
    } else {
      assert (a + b)[1..] == a[1..] + b;
      ReadsBoth(a[1..], ma[w + 1..], sep, b, mb);
      assert ms[..w] == ma[..w] && ms[w + 1..] == ma[w + 1..] + [sep] + mb;
    }
  }
}
