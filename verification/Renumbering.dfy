/**
 Shifting placeholders on the tree, as `renumberParamRefsInAst` does, and why shifting them
 in the printed text instead gives the same SQL.
 */
module Renumbering {
  import opened Common
  import opened Ast
  import opened Deparser
  import opened Lexer
  import opened Printed
  import opened Decimal
  import opened Placeholders

  // --- on quoted text ------------------------------------------------------------

  lemma {:induction false} RefsOfDouble(s: string, q: char)
    requires q != '$' && !IsDigit(q)
    ensures Refs(Double(s, q)) == Refs(s)
    ensures NoDigitFirst(s) == NoDigitFirst(Double(s, q))
    decreases |s|
  {
    if s == [] {
    } else if StartsPlaceholder(s) {
      var digits, rest := SplitPlaceholder(s);
      RefsOfDouble(rest, q);
      DoubleOfPlain("$" + digits, rest, q);
      RefsConcat("$" + digits, Double(rest, q));
      RefsConcat("$" + digits, rest);
    } else {
      RefsOfDouble(s[1..], q);
      RefsOfDoubledChar(s[0], s[1..], q);
      assert s == [s[0]] + s[1..];
      ScanChar(s[0], s[1..]);
      RefsOfConcat([Ch(s[0])], Scan(s[1..]));
    }
  }

  lemma RefsOfDoubledChar(c: char, rest: string, q: char)
    requires q != '$' && !IsDigit(q)
    requires !StartsPlaceholder([c] + rest)
    requires NoDigitFirst(rest) == NoDigitFirst(Double(rest, q))
    ensures Refs(Double([c] + rest, q)) == Refs(Double(rest, q))
  {
    var t := Double(rest, q);
    DoubleHead(c, rest, q);
    if c == q {
      Associative([q], [q], t);
      ScanFence(q, t);
      ScanFence(q, [q] + t);
    } else {
      RefsAfterChar(c, t);
    }
  }

  lemma DoubleHead(c: char, rest: string, q: char)
    ensures Double([c] + rest, q) == (if c == q then [q] + [q] else [c]) + Double(rest, q)
  {
    assert ([c] + rest)[1..] == rest;
  }

  lemma RefsAfterChar(c: char, t: string)
    requires !StartsPlaceholder([c] + t)
    ensures Refs([c] + t) == Refs(t)
  {
    ScanChar(c, t);
    RefsOfConcat([Ch(c)], Scan(t));
  }

  lemma {:induction false} DoubleOfPlain(a: string, b: string, q: char)
    requires q !in a
    ensures Double(a + b, q) == a + Double(b, q)
  {
    if a == [] {
      assert a + b == b;
    } else {
      assert (a + b)[1..] == a[1..] + b;
      DoubleOfPlain(a[1..], b, q);
    }
  }

  lemma RefsOfQuote(s: string, q: char)
    requires q != '$' && !IsDigit(q)
    ensures Refs(Quote(s, q)) == Refs(s)
  {
    RefsOfDouble(s, q);
    assert Quote(s, q) == [q] + (Double(s, q) + [q]);
    ScanFence(q, Double(s, q) + [q]);
    RefsConcat(Double(s, q), [q]);
    ScanFence(q, []);
    assert [q] + [] == [q];
  }

  // --- on the tree -------------------------------------------------------------

  /** `renumberParamRefsInAst`: the same tree with k added to every placeholder number. */
  function Renumber(n: Node, k: nat): (r: Node)
    ensures r.IsAExpr() == n.IsAExpr() && forall op :: r.Is(op) == n.Is(op)
    decreases n, 1
  {
    match n
    case Param(m) => Param(m + k)
    case Binary(op, l, r) => Binary(op, Renumber(l, k), Renumber(r, k))
    case DistinctFrom(l, r) => DistinctFrom(Renumber(l, k), Renumber(r, k))
    case Between(negated, x, low, high) =>
      Between(negated, Renumber(x, k), Renumber(low, k), Renumber(high, k))
    case InList(negated, x, items) => InList(negated, Renumber(x, k), RenumberAll(items, k))
    case Quantified(op, all, l, r) => Quantified(op, all, Renumber(l, k), Renumber(r, k))
    case NullTest(x, isNull) => NullTest(Renumber(x, k), isNull)
    case BoolExpr(op, args) => BoolExpr(op, RenumberAll(args, k))
    case Exists(table, alias, condition) => Exists(table, alias, Renumber(condition, k))
    case _ => n
  }

  function RenumberAll(ns: seq<Node>, k: nat): (r: seq<Node>)
    ensures |r| == |ns|
    decreases ns, 0
  {
    if ns == [] then [] else [Renumber(ns[0], k)] + RenumberAll(ns[1..], k)
  }

  function ShiftPiece(p: Piece, k: nat): Piece {
    if p.Placeholder? then Placeholder(p.n + k) else p
  }

  function ShiftPieces(ps: seq<Piece>, k: nat): (r: seq<Piece>)
    ensures |r| == |ps| && forall i :: 0 <= i < |ps| ==> r[i] == ShiftPiece(ps[i], k)
  {
    seq(|ps|, i requires 0 <= i < |ps| => ShiftPiece(ps[i], k))
  }

  lemma ShiftTwo(a: seq<Piece>, b: seq<Piece>, c: seq<Piece>, k: nat)
    ensures ShiftPieces(a + b + c, k) == ShiftPieces(a, k) + ShiftPieces(b, k) + ShiftPieces(c, k)
  {
  }

  lemma ShiftWrapped(ps: seq<Piece>, k: nat)
    ensures ShiftPieces(Wrapped(ps), k) == Wrapped(ShiftPieces(ps, k))
  {
    ShiftTwo(OPEN, ps, CLOSE, k);
  }

  lemma ShiftFixed(ps: seq<Piece>, k: nat)
    requires forall i :: 0 <= i < |ps| ==> !ps[i].Placeholder?
    ensures ShiftPieces(ps, k) == ps
  {
  }

  function ShiftParts(parts: seq<seq<Piece>>, k: nat): (r: seq<seq<Piece>>)
    ensures |r| == |parts|
  {
    if parts == [] then [] else [ShiftPieces(parts[0], k)] + ShiftParts(parts[1..], k)
  }

  lemma {:induction false} ShiftJoin(parts: seq<seq<Piece>>, sep: seq<Piece>, k: nat)
    requires ShiftPieces(sep, k) == sep
    ensures ShiftPieces(JoinPieces(parts, sep), k) == JoinPieces(ShiftParts(parts, k), sep)
  {
    if |parts| > 1 {
      ShiftTwo(parts[0], sep, JoinPieces(parts[1..], sep), k);
      ShiftJoin(parts[1..], sep, k);
      assert ShiftParts(parts, k)[1..] == ShiftParts(parts[1..], k);
    }
  }

  lemma {:induction false} NoPlaceholderInNames(names: seq<string>)
    ensures forall i :: 0 <= i < |JoinPieces(NamePieces(names), DOT)| ==>
      !JoinPieces(NamePieces(names), DOT)[i].Placeholder?
  {
    if |names| > 1 {
      NoPlaceholderInNames(names[1..]);
      assert NamePieces(names)[1..] == NamePieces(names[1..]);
    }
  }

  lemma {:induction false} PiecesOfAll(ns: seq<Node>, k: nat)
    ensures AllPieces(RenumberAll(ns, k)) == ShiftParts(AllPieces(ns), k)
    decreases ns, 0
  {
    if ns != [] {
      PiecesOfRenumber(ns[0], k);
      PiecesOfAll(ns[1..], k);
      assert RenumberAll(ns, k)[1..] == RenumberAll(ns[1..], k);
      assert AllPieces(ns)[1..] == AllPieces(ns[1..]);
    }
  }

  lemma {:induction false} PiecesOfArgs(op: BoolOp, ns: seq<Node>, k: nat)
    ensures ArgPieces(op, RenumberAll(ns, k)) == ShiftParts(ArgPieces(op, ns), k)
    decreases ns, 0
  {
    if ns != [] {
      PiecesOfRenumber(ns[0], k);
      ShiftWrapped(Pieces(ns[0]), k);
      PiecesOfArgs(op, ns[1..], k);
      assert RenumberAll(ns, k)[1..] == RenumberAll(ns[1..], k);
      assert ArgPieces(op, ns)[1..] == ArgPieces(op, ns[1..]);
    }
  }

  lemma {:induction false} PiecesOfOperand(n: Node, k: nat)
    ensures OperandPieces(Renumber(n, k)) == ShiftPieces(OperandPieces(n), k)
    decreases n, 2
  {
    PiecesOfRenumber(n, k);
    ShiftWrapped(Pieces(n), k);
  }

  lemma {:induction false} PiecesOfRange(n: Node, k: nat)
    requires n.Between? || n.InList? || n.Quantified?
    ensures Pieces(Renumber(n, k)) == ShiftPieces(Pieces(n), k)
    decreases n, 0
  {
    if n.Between? {
      PiecesOfRenumber(n.arg, k);
      PiecesOfRenumber(n.low, k);
      PiecesOfRenumber(n.high, k);
      PiecesOfBetween(n, k);
    } else if n.InList? {
      PiecesOfRenumber(n.arg, k);
      PiecesOfAll(n.items, k);
      PiecesOfList(n, k);
    } else {
      PiecesOfRenumber(n.left, k);
      PiecesOfRenumber(n.right, k);
      PiecesOfQuantified(n, k);
    }
  }

  lemma PiecesOfBetween(n: Node, k: nat)
    requires n.Between?
    requires Pieces(Renumber(n.arg, k)) == ShiftPieces(Pieces(n.arg), k)
    requires Pieces(Renumber(n.low, k)) == ShiftPieces(Pieces(n.low), k)
    requires Pieces(Renumber(n.high, k)) == ShiftPieces(Pieces(n.high), k)
    ensures Pieces(Renumber(n, k)) == ShiftPieces(Pieces(n), k)
  {
    var sep := if n.negated then NOT_BETWEEN else BETWEEN;
    ShiftTwo(Pieces(n.arg) + sep + Pieces(n.low), AND, Pieces(n.high), k);
    ShiftTwo(Pieces(n.arg), sep, Pieces(n.low), k);
    ShiftFixed(sep, k);
    ShiftFixed(AND, k);
  }

  lemma PiecesOfList(n: Node, k: nat)
    requires n.InList?
    requires Pieces(Renumber(n.arg, k)) == ShiftPieces(Pieces(n.arg), k)
    requires AllPieces(RenumberAll(n.items, k)) == ShiftParts(AllPieces(n.items), k)
    ensures Pieces(Renumber(n, k)) == ShiftPieces(Pieces(n), k)
  {
    var sep := if n.negated then NOT_IN else IN;
    var list := JoinPieces(AllPieces(n.items), COMMA);
    ShiftFixed(COMMA, k);
    ShiftJoin(AllPieces(n.items), COMMA, k);
    ShiftWrapped(list, k);
    ShiftTwo(Pieces(n.arg), sep, Wrapped(list), k);
    ShiftFixed(sep, k);
  }

  lemma PiecesOfQuantified(n: Node, k: nat)
    requires n.Quantified?
    requires Pieces(Renumber(n.left, k)) == ShiftPieces(Pieces(n.left), k)
    requires Pieces(Renumber(n.right, k)) == ShiftPieces(Pieces(n.right), k)
    ensures Pieces(Renumber(n, k)) == ShiftPieces(Pieces(n), k)
  {
    var sep := if n.all then ALL else ANY;
    ShiftWrapped(Pieces(n.right), k);
    var infix := [Space, Operator(n.op)];
    ShiftTwo(Pieces(n.left) + infix, sep, Wrapped(Pieces(n.right)), k);
    ShiftPair(Pieces(n.left), infix, k);
    ShiftFixed(infix, k);
    ShiftFixed(sep, k);
  }

  lemma ShiftPair(a: seq<Piece>, b: seq<Piece>, k: nat)
    ensures ShiftPieces(a + b, k) == ShiftPieces(a, k) + ShiftPieces(b, k)
  {
  }

  lemma {:induction false} PiecesOfExists(n: Node, k: nat)
    requires n.Exists?
    ensures Pieces(Renumber(n, k)) == ShiftPieces(Pieces(n), k)
    decreases n, 0
  {
    var head := SELECT_1_FROM + [Name(n.table)] + AS + [Name(n.alias)] + WHERE;
    var body := Pieces(n.condition);
    PiecesOfRenumber(n.condition, k);
    assert ShiftPieces(head + body, k) == head + ShiftPieces(body, k) by {
      ShiftFixed(head, k);
      ShiftTwo([], head, body, k);
      assert [] + head + body == head + body;
    }
    ShiftWrapped(head + body, k);
    ShiftFixed(EXISTS, k);
    ShiftTwo([], EXISTS, Wrapped(head + body), k);
    assert [] + EXISTS + Wrapped(head + body) == EXISTS + Wrapped(head + body);
  }

  lemma ShiftBetween(a: seq<Piece>, fixed: seq<Piece>, b: seq<Piece>, k: nat)
    requires forall p | p in fixed :: !p.Placeholder?
    ensures ShiftPieces(a + fixed + b, k) == ShiftPieces(a, k) + fixed + ShiftPieces(b, k)
  {
    ShiftTwo(a, fixed, b, k);
    ShiftFixed(fixed, k);
  }

  /** Renumbering the tree changes its printed pieces only at the placeholders. */
  lemma {:induction false} PiecesOfRenumber(n: Node, k: nat)
    ensures Pieces(Renumber(n, k)) == ShiftPieces(Pieces(n), k)
    decreases n, 1
  {
    match n
    case Column(fields) =>
      NoPlaceholderInNames(fields);
      ShiftFixed(Pieces(n), k);
    case Binary(op, l, r) =>
      PiecesOfOperand(l, k);
      PiecesOfOperand(r, k);
      ShiftBetween(OperandPieces(l), Infix(op), OperandPieces(r), k);
    case DistinctFrom(l, r) =>
      PiecesOfOperand(l, k);
      PiecesOfOperand(r, k);
      ShiftBetween(OperandPieces(l), IS_DISTINCT_FROM, OperandPieces(r), k);
    case Between(_, _, _, _) => PiecesOfRange(n, k);
    case InList(_, _, _) => PiecesOfRange(n, k);
    case Quantified(_, _, _, _) => PiecesOfRange(n, k);
    case NullTest(x, isNull) =>
      PiecesOfRenumber(x, k);
      ShiftTwo([], Pieces(x), if isNull then IS_NULL else IS_NOT_NULL, k);
      ShiftFixed(if isNull then IS_NULL else IS_NOT_NULL, k);
    case BoolExpr(op, args) => PiecesOfBool(n, k);
    case Exists(_, _, _) => PiecesOfExists(n, k);
    case _ =>
  }

  lemma {:induction false} PiecesOfBool(n: Node, k: nat)
    requires n.BoolExpr?
    ensures Pieces(Renumber(n, k)) == ShiftPieces(Pieces(n), k)
    decreases n, 0
  {
    if n.boolop == NotExpr {
      if n.args != [] { PiecesOfRenumber(n.args[0], k); }
      var inner := if n.args == [] then [] else Pieces(n.args[0]);
      ShiftWrapped(inner, k);
      ShiftTwo([], NOT, Wrapped(inner), k);
      assert [] + NOT + Wrapped(inner) == NOT + Wrapped(inner);
      ShiftFixed(NOT, k);
    } else {
      var sep := if n.boolop == AndExpr then AND else OR;
      ShiftFixed(sep, k);
      PiecesOfArgs(n.boolop, n.args, k);
      ShiftJoin(ArgPieces(n.boolop, n.args), sep, k);
    }
  }

  // --- the two agree -----------------------------------------------------------

  /** The text of an identifier or a string constant. */
  function QuotedText(p: Piece): string {
    match p
    case Name(name) => name
    case Literal(s) => s
    case _ => []
  }

  /** No identifier and no string constant contains a dollar sign directly before a digit. */
  predicate NoForeignPlaceholder(ps: seq<Piece>) {
    forall i | 0 <= i < |ps| :: Refs(QuotedText(ps[i])) == []
  }

  function Sum(ns: seq<nat>): nat { if ns == [] then 0 else ns[0] + Sum(ns[1..]) }

  lemma PieceRefs(p: Piece)
    requires PieceOk(p)
    ensures Refs(PieceText(p)) == if p.Placeholder? then [p.n] else Refs(QuotedText(p))
  {
    match p
    case Name(name) => RefsOfQuote(name, '"');
    case Literal(s) => RefsOfQuote(s, '\'');
    case Placeholder(n) => PlaceholderRefs(n);
    case Word(k) =>
      KeywordIsWord(k);
      NoDollarNoRefs(PieceText(p));
    case Number(n) => NoDollarNoRefs(Print(n));
    case Operator(op) => NoDollarNoRefs(op);
    case _ => NoDollarNoRefs(PieceText(p));
  }

  lemma PlaceholderRefs(n: nat)
    ensures Scan("$" + Print(n)) == [Chunk.Ref(n)] && Refs("$" + Print(n)) == [n]
  {
    ScanPrinted(n, []);
    assert "$" + Print(n) + [] == "$" + Print(n);
    assert RefsOf([Chunk.Ref(n)]) == [n];
  }

  lemma SpacedTail(ps: seq<Piece>)
    requires Spaced(ps) && ps != []
    ensures Spaced(ps[1..])
    ensures NoDigitFirst(TextOf(ps[1..])) || Separates(ps[0])
  {
    forall i | 0 <= i < |ps[1..]| - 1 ensures Separates(ps[1..][i]) || Separates(ps[1..][i + 1]) {
      assert ps[1..][i] == ps[i + 1] && ps[1..][i + 1] == ps[i + 2];
    }
    if |ps| > 1 && !Separates(ps[0]) {
      assert Separates(ps[1]);
      SeparatorBounds(ps[1..]);
    }
  }

  /** The text of a piece and of what follows it are scanned separately. */
  lemma ScanPieces(ps: seq<Piece>)
    requires Spaced(ps) && ps != []
    ensures Scan(TextOf(ps)) == Scan(PieceText(ps[0])) + Scan(TextOf(ps[1..]))
    ensures Refs(TextOf(ps)) == Refs(PieceText(ps[0])) + Refs(TextOf(ps[1..]))
  {
    var head, rest := PieceText(ps[0]), TextOf(ps[1..]);
    SpacedTail(ps);
    if Separates(ps[0]) {
      SeparatorIsFence(ps[0]);
      ScanAfterFence(head, rest);
    } else {
      ScanConcat(head, rest);
    }
    RefsOfConcat(Scan(head), Scan(rest));
  }

  lemma SeparatorIsFence(p: Piece)
    requires Separates(p)
    ensures |PieceText(p)| == 1 && PieceText(p)[0] != '$'
  {
  }

  lemma ScanAfterFence(head: string, rest: string)
    requires |head| == 1 && head[0] != '$'
    ensures Scan(head + rest) == Scan(head) + Scan(rest)
  {
    var c := head[0];
    assert head == [c];
    ScanFence(c, rest);
    ScanFence(c, []);
    assert [c] + [] == [c] && [Ch(c)] + [] == [Ch(c)];
  }

  lemma SpacedShift(ps: seq<Piece>, k: nat)
    requires Spaced(ps)
    ensures Spaced(ShiftPieces(ps, k))
  {
    var qs := ShiftPieces(ps, k);
    forall i | 0 <= i < |qs| - 1 ensures Separates(qs[i]) || Separates(qs[i + 1]) {
      assert Separates(ps[i]) || Separates(ps[i + 1]);
    }
  }

  /** Shifting the text moves at least as much as shifting the tree, and more if a name contains
      a placeholder. */
  lemma {:induction false} TextShiftsMore(ps: seq<Piece>, k: nat)
    requires Spaced(ps) && k > 0
    ensures Sum(Plus(Refs(TextOf(ps)), k)) >= Sum(Refs(TextOf(ShiftPieces(ps, k))))
    ensures !NoForeignPlaceholder(ps) ==>
      Sum(Plus(Refs(TextOf(ps)), k)) > Sum(Refs(TextOf(ShiftPieces(ps, k))))
  {
    if ps != [] {
      SpacedTail(ps);
      TextShiftsMore(ps[1..], k);
      SumsSplit(ps, k);
      PieceShiftsMore(ps[0], k);
      ForeignHeadOrTail(ps);
    }
  }

  lemma SumsSplit(ps: seq<Piece>, k: nat)
    requires Spaced(ps) && ps != []
    ensures Sum(Plus(Refs(TextOf(ps)), k)) ==
            Sum(Plus(Refs(PieceText(ps[0])), k)) + Sum(Plus(Refs(TextOf(ps[1..])), k))
    ensures Sum(Refs(TextOf(ShiftPieces(ps, k)))) ==
            Sum(Refs(PieceText(ShiftPiece(ps[0], k)))) + Sum(Refs(TextOf(ShiftPieces(ps[1..], k))))
  {
    ScanPieces(ps);
    SumPlusConcat(Refs(PieceText(ps[0])), Refs(TextOf(ps[1..])), k);
    ShiftedSumSplits(ps, k);
  }

  lemma ShiftedSumSplits(ps: seq<Piece>, k: nat)
    requires Spaced(ps) && ps != []
    ensures Sum(Refs(TextOf(ShiftPieces(ps, k)))) ==
            Sum(Refs(PieceText(ShiftPiece(ps[0], k)))) + Sum(Refs(TextOf(ShiftPieces(ps[1..], k))))
  {
    SpacedShift(ps, k);
    assert ShiftPieces(ps, k)[1..] == ShiftPieces(ps[1..], k);
    SumOfHead(ShiftPieces(ps, k));
  }

  lemma SumOfHead(ps: seq<Piece>)
    requires Spaced(ps) && ps != []
    ensures Sum(Refs(TextOf(ps))) == Sum(Refs(PieceText(ps[0]))) + Sum(Refs(TextOf(ps[1..])))
  {
    ScanPieces(ps);
    SumConcat(Refs(PieceText(ps[0])), Refs(TextOf(ps[1..])));
  }

  lemma SumPlusConcat(a: seq<nat>, b: seq<nat>, k: nat)
    ensures Sum(Plus(a + b, k)) == Sum(Plus(a, k)) + Sum(Plus(b, k))
  {
    assert Plus(a + b, k) == Plus(a, k) + Plus(b, k);
    SumConcat(Plus(a, k), Plus(b, k));
  }

  lemma ForeignHeadOrTail(ps: seq<Piece>)
    requires ps != []
    ensures NoForeignPlaceholder(ps) <==> Refs(QuotedText(ps[0])) == [] && NoForeignPlaceholder(ps[1..])
  {
    if NoForeignPlaceholder(ps) {
      forall i | 0 <= i < |ps[1..]| ensures Refs(QuotedText(ps[1..][i])) == [] {
        assert ps[1..][i] == ps[i + 1];
      }
    }
    if Refs(QuotedText(ps[0])) == [] && NoForeignPlaceholder(ps[1..]) {
      forall i | 0 <= i < |ps| ensures Refs(QuotedText(ps[i])) == [] {
        assert i > 0 ==> ps[i] == ps[1..][i - 1];
      }
    }
  }

  lemma PieceShiftsMore(p: Piece, k: nat)
    requires PieceOk(p) && k > 0
    ensures Sum(Plus(Refs(PieceText(p)), k)) >= Sum(Refs(PieceText(ShiftPiece(p, k))))
    ensures Refs(QuotedText(p)) != [] ==>
      Sum(Plus(Refs(PieceText(p)), k)) > Sum(Refs(PieceText(ShiftPiece(p, k))))
  {
    PieceRefs(p);
    PieceRefs(ShiftPiece(p, k));
    if p.Placeholder? {
      assert Plus([p.n], k) == [p.n + k];
    } else {
      SumGrows(Refs(QuotedText(p)), k);
    }
  }

  lemma {:induction false} SumGrows(ns: seq<nat>, k: nat)
    requires k > 0
    ensures Sum(Plus(ns, k)) >= Sum(ns) && (ns != [] ==> Sum(Plus(ns, k)) > Sum(ns))
  {
    if ns != [] {
      assert Plus(ns, k)[1..] == Plus(ns[1..], k);
      SumGrows(ns[1..], k);
    }
  }

  lemma {:induction false} SumConcat(a: seq<nat>, b: seq<nat>)
    ensures Sum(a + b) == Sum(a) + Sum(b)
  {
    if a == [] {
      assert a + b == b;
    } else {
      assert (a + b)[1..] == a[1..] + b;
      SumConcat(a[1..], b);
    }
  }

  lemma {:induction false} ShiftTextOfPieces(ps: seq<Piece>, k: nat)
    requires Spaced(ps) && NoForeignPlaceholder(ps)
    ensures ShiftText(TextOf(ps), k) == TextOf(ShiftPieces(ps, k))
  {
    if ps != [] {
      SpacedTail(ps);
      ForeignHeadOrTail(ps);
      ShiftTextOfPieces(ps[1..], k);
      assert ShiftPieces(ps, k)[1..] == ShiftPieces(ps[1..], k);
      ScanPieces(ps);
      ShiftScanned(TextOf(ps), PieceText(ps[0]), TextOf(ps[1..]), k);
      ShiftOnePiece(ps[0], k);
    }
  }

  lemma ShiftScanned(whole: string, a: string, b: string, k: nat)
    requires Scan(whole) == Scan(a) + Scan(b)
    ensures ShiftText(whole, k) == ShiftText(a, k) + ShiftText(b, k)
  {
    assert ShiftChunks(Scan(a) + Scan(b), k) == ShiftChunks(Scan(a), k) + ShiftChunks(Scan(b), k);
    RenderConcat(ShiftChunks(Scan(a), k), ShiftChunks(Scan(b), k));
  }

  lemma ShiftOnePiece(p: Piece, k: nat)
    requires PieceOk(p) && Refs(QuotedText(p)) == []
    ensures ShiftText(PieceText(p), k) == PieceText(ShiftPiece(p, k))
  {
    PieceRefs(p);
    if p.Placeholder? {
      PlaceholderRefs(p.n);
      assert ShiftChunks([Chunk.Ref(p.n)], k) == [Chunk.Ref(p.n + k)] + [];
      RenderHead(Chunk.Ref(p.n + k), []);
    } else {
      ShiftNothing(PieceText(p), k);
    }
  }

  /**
   Renumbering the printed text is the same as printing the renumbered tree exactly when
   nothing is shifted or no identifier and no string constant contains `$` before a digit.
   */
  lemma TextRenumberingAgrees(n: Node, k: nat)
    requires Lexable(n)
    ensures RenumberSqlParams(Deparse(n), k) == Deparse(Renumber(n, k)) <==>
            k == 0 || NoForeignPlaceholder(Pieces(n))
  {
    var ps := Pieces(n);
    var qs := ShiftPieces(ps, k);
    SpacedPieces(n);
    PiecesText(n);
    PiecesText(Renumber(n, k));
    PiecesOfRenumber(n, k);
    if k == 0 {
      assert qs == ps;
    } else if NoForeignPlaceholder(ps) {
      ShiftTextOfPieces(ps, k);
    } else if ShiftText(TextOf(ps), k) == TextOf(qs) {
      RefsOfShift(TextOf(ps), k);
      TextShiftsMore(ps, k);
      assert false;
    }
  }

  /** A column called `a$1` is printed in quotes and its name is shifted with the placeholders. */
  lemma ForeignPlaceholderExample()
    ensures RenumberSqlParams(Deparse(Column(["a$1"])), 4) != Deparse(Renumber(Column(["a$1"]), 4))
  {
    var n := Column(["a$1"]);
    assert Pieces(n) == [Name("a$1")];
    assert Refs("a$1") != [] by {
      assert "a$1" == ['a'] + ("$" + "1" + []);
      ScanFence('a', "$" + "1" + []);
      ScanPlaceholder("1", []);
    }
    assert Refs(QuotedText(Pieces(n)[0])) != [];
    TextRenumberingAgrees(n, 4);
  }

  /** Shifts add up. */
  lemma {:induction false} RenumberTwice(n: Node, a: nat, b: nat)
    ensures Renumber(Renumber(n, a), b) == Renumber(n, a + b)
    decreases n, 1
  {
    match n
    case Binary(_, l, r) => RenumberTwice(l, a, b); RenumberTwice(r, a, b);
    case DistinctFrom(l, r) => RenumberTwice(l, a, b); RenumberTwice(r, a, b);
    case Between(_, _, _, _) => RenumberRangeTwice(n, a, b);
    case InList(_, _, _) => RenumberRangeTwice(n, a, b);
    case Quantified(_, _, _, _) => RenumberTestTwice(n, a, b);
    case NullTest(_, _) => RenumberTestTwice(n, a, b);
    case BoolExpr(_, args) => RenumberAllTwice(args, a, b);
    case Exists(_, _, condition) => RenumberTwice(condition, a, b);
    case _ =>
  }

  lemma {:induction false} RenumberTestTwice(n: Node, a: nat, b: nat)
    requires n.Quantified? || n.NullTest?
    ensures Renumber(Renumber(n, a), b) == Renumber(n, a + b)
    decreases n, 0
  {
    if n.Quantified? {
      RenumberTwice(n.left, a, b);
      RenumberTwice(n.right, a, b);
    } else {
      RenumberTwice(n.arg, a, b);
    }
  }

  lemma {:induction false} RenumberRangeTwice(n: Node, a: nat, b: nat)
    requires n.Between? || n.InList?
    ensures Renumber(Renumber(n, a), b) == Renumber(n, a + b)
    decreases n, 0
  {
    RenumberTwice(n.arg, a, b);
    if n.Between? {
      RenumberTwice(n.low, a, b);
      RenumberTwice(n.high, a, b);
    } else {
      RenumberAllTwice(n.items, a, b);
    }
  }

  lemma {:induction false} RenumberAllTwice(ns: seq<Node>, a: nat, b: nat)
    ensures RenumberAll(RenumberAll(ns, a), b) == RenumberAll(ns, a + b)
    decreases ns, 0
  {
    if ns != [] {
      RenumberTwice(ns[0], a, b);
      RenumberAllTwice(ns[1..], a, b);
      assert RenumberAll(ns, a)[1..] == RenumberAll(ns[1..], a);
    }
  }

  /** Shifting by nothing changes nothing. */
  lemma {:induction false} RenumberByZero(n: Node)
    ensures Renumber(n, 0) == n
    decreases n, 1
  {
    match n
    case Binary(_, l, r) => RenumberByZero(l); RenumberByZero(r);
    case DistinctFrom(l, r) => RenumberByZero(l); RenumberByZero(r);
    case Between(_, x, low, high) => RenumberByZero(x); RenumberByZero(low); RenumberByZero(high);
    case InList(_, x, items) => RenumberByZero(x); RenumberAllByZero(items);
    case Quantified(_, _, l, r) => RenumberByZero(l); RenumberByZero(r);
    case NullTest(x, _) => RenumberByZero(x);
    case BoolExpr(_, args) => RenumberAllByZero(args);
    case Exists(_, _, condition) => RenumberByZero(condition);
    case _ =>
  }

  lemma {:induction false} RenumberAllByZero(ns: seq<Node>)
    ensures RenumberAll(ns, 0) == ns
    decreases ns, 0
  {
    if ns != [] {
      RenumberByZero(ns[0]);
      RenumberAllByZero(ns[1..]);
    }
  }
}
