/** What the server reads when some of the printed names are longer than the 63 bytes it keeps. */
module CutNames {
  import opened Ast
  import opened Lexer
  import opened Deparser
  import opened Printed
  import opened Parser
  import opened PrintedTokens
  import opened ExactPrinting
  import opened Common
  import Names
  import RoundTrip

  function KeepAll(names: seq<string>): (r: seq<string>)
    ensures |r| == |names|
  {
    if names == [] then [] else [Keep(names[0])] + KeepAll(names[1..])
  }

  /** The tree with every name as the server keeps it. */
  function Cut(n: Node): (r: Node)
    ensures r.IsAExpr() == n.IsAExpr() && (forall op :: r.Is(op) == n.Is(op))
    decreases n, 1
  {
    match n
    case Column(fields) => Column(KeepAll(fields))
    case Binary(op, l, r) => Binary(op, Cut(l), Cut(r))
    case DistinctFrom(l, r) => DistinctFrom(Cut(l), Cut(r))
    case Between(negated, x, low, high) => Between(negated, Cut(x), Cut(low), Cut(high))
    case InList(negated, x, items) => InList(negated, Cut(x), CutAll(items))
    case Quantified(op, all, l, r) => Quantified(op, all, Cut(l), Cut(r))
    case NullTest(x, isNull) => NullTest(Cut(x), isNull)
    case BoolExpr(op, args) => BoolExpr(op, CutAll(args))
    case Exists(table, alias, condition) => Exists(Keep(table), Keep(alias), Cut(condition))
    case _ => n
  }

  function CutAll(ns: seq<Node>): (r: seq<Node>)
    ensures |r| == |ns|
    decreases ns, 0
  {
    if ns == [] then [] else [Cut(ns[0])] + CutAll(ns[1..])
  }

  lemma KeepsSomething(name: string)
    requires name != []
    ensures Keep(name) != [] && Fits(Keep(name))
  {
    Names.TruncateIsLongestPrefix(name, 63);
  }

  /** The server reads a name as it reads what it keeps of the name. */
  lemma TokenOfKept(name: string)
    ensures NameToken(Keep(name)) == NameToken(name)
  {
    NameTokenOf(name);
    NameTokenOf(Keep(name));
    KeepsWhatFits(name);
    if !Fits(name) {
      LongStaysLong(name);
      Names.TruncateTwice(name, 63);
      if MisreadName(Keep(name)) || Keep(name) == "between" { ShortWords(Keep(name)); }
      if MisreadName(name) || name == "between" { WordFits(name); }
    }
  }

  lemma ShortWords(name: string)
    requires MisreadName(name) || name == "between"
    ensures Names.Bytes(name) < 60
  {
    if MisreadName(name) { UnlistedArePlain(name); } else { BetweenIsPlain(); }
    Names.AsciiBytes(name);
  }

  lemma LongStaysLong(name: string)
    requires !Fits(name)
    ensures Names.Bytes(Keep(name)) >= 60
  {
    var t := Keep(name);
    Names.TruncateIsLongestPrefix(name, 63);
    KeepsWhatFits(name);
    assert t == name[..|t|] && t != name;
    assert name[..|t| + 1] == t + [name[|t|]];
    Names.BytesConcat(t, [name[|t|]]);
    assert Names.Bytes([name[|t|]]) == Names.CharBytes(name[|t|]) + Names.Bytes([]);
  }

  lemma {:induction false} FieldToksOfKept(fields: seq<string>)
    ensures FieldToks(KeepAll(fields)) == FieldToks(fields)
  {
    if fields != [] {
      TokenOfKept(fields[0]);
      FieldToksOfKept(fields[1..]);
      assert KeepAll(fields)[1..] == KeepAll(fields[1..]);
    }
  }

  lemma {:induction false} CutOperandToks(n: Node)
    requires WellSorted(n)
    ensures OperandToks(Cut(n)) == OperandToks(n)
    decreases n, 2
  {
    CutToks(n);
  }

  lemma {:induction false} CutItemToks(ns: seq<Node>)
    requires forall n | n in ns :: WellSorted(n)
    ensures AllToks(CutAll(ns)) == AllToks(ns)
    decreases ns, 0
  {
    if ns != [] {
      CutToks(ns[0]);
      CutItemToks(ns[1..]);
      assert forall i :: 0 < i < |ns| ==> AllToks(ns)[i] == AllToks(ns[1..])[i - 1];
      assert forall i :: 0 < i < |ns| ==> AllToks(CutAll(ns))[i] == AllToks(CutAll(ns[1..]))[i - 1];
    }
  }

  lemma {:induction false} CutArgToks(op: BoolOp, ns: seq<Node>)
    requires forall n | n in ns :: WellSorted(n)
    ensures AllArgToks(op, CutAll(ns)) == AllArgToks(op, ns)
    decreases ns, 0
  {
    if ns != [] {
      CutToks(ns[0]);
      CutArgToks(op, ns[1..]);
      AllArgToksHead(op, ns);
      AllArgToksHead(op, CutAll(ns));
      assert CutAll(ns)[1..] == CutAll(ns[1..]);
      assert ArgToks(op, Cut(ns[0])) == ArgToks(op, ns[0]);
    }
  }

  lemma AllArgToksHead(op: BoolOp, ns: seq<Node>)
    requires ns != []
    ensures AllArgToks(op, ns) == [ArgToks(op, ns[0])] + AllArgToks(op, ns[1..])
  {
    var more := AllArgToks(op, ns[1..]);
    forall i | 0 < i < |ns| ensures AllArgToks(op, ns)[i] == more[i - 1] {
      assert ns[1..][i - 1] == ns[i];
    }
  }

  lemma CutColumnToks(fields: seq<string>)
    requires fields != []
    ensures Toks(Column(KeepAll(fields))) == Toks(Column(fields))
  {
    ColumnTokens(fields);
    ColumnTokens(KeepAll(fields));
    TokenOfKept(fields[0]);
    FieldToksOfKept(fields[1..]);
    assert KeepAll(fields)[1..] == KeepAll(fields[1..]);
  }

  lemma {:induction false} CutBoolToks(n: Node)
    requires WellSorted(n) && n.BoolExpr?
    ensures Toks(Cut(n)) == Toks(n)
    decreases n, 0
  {
    if n.boolop == NotExpr {
      var x := n.args[0];
      CutToks(x);
      assert n.args == [x] && CutAll(n.args) == [Cut(x)];
      NotTokens(x);
      NotTokens(Cut(x));
    } else {
      JoinedArgTokens(n.boolop, n.args);
      JoinedArgTokens(n.boolop, CutAll(n.args));
      CutArgToks(n.boolop, n.args);
    }
  }

  lemma {:induction false} CutExistsToks(n: Node)
    requires WellSorted(n) && n.Exists?
    ensures Toks(Cut(n)) == Toks(n)
    decreases n, 0
  {
    CutToks(n.condition);
    ExistsTokens(n.table, n.alias, n.condition);
    ExistsTokens(Keep(n.table), Keep(n.alias), Cut(n.condition));
    TokenOfKept(n.table);
    TokenOfKept(n.alias);
  }

  /** Cutting the names changes no token. */
  lemma {:induction false} CutToks(n: Node)
    requires WellSorted(n)
    ensures Toks(Cut(n)) == Toks(n)
    decreases n, 1
  {
    match n
    case Column(fields) => CutColumnToks(fields);
    case Binary(op, l, r) =>
      CutOperandToks(l);
      CutOperandToks(r);
      BinaryTokens(op, l, r);
      BinaryTokens(op, Cut(l), Cut(r));
    case DistinctFrom(l, r) =>
      CutOperandToks(l);
      CutOperandToks(r);
      DistinctTokens(l, r);
      DistinctTokens(Cut(l), Cut(r));
    case Between(negated, x, low, high) =>
      CutToks(x);
      CutToks(low);
      CutToks(high);
      BetweenTokens(negated, x, low, high);
      BetweenTokens(negated, Cut(x), Cut(low), Cut(high));
    case InList(negated, x, items) =>
      CutToks(x);
      CutItemToks(items);
      InListTokens(negated, x, items);
      InListTokens(negated, Cut(x), CutAll(items));
    case Quantified(op, all, l, r) =>
      CutToks(l);
      CutToks(r);
      QuantifiedTokens(op, all, l, r);
      QuantifiedTokens(op, all, Cut(l), Cut(r));
    case NullTest(x, isNull) =>
      CutToks(x);
      NullTestTokens(x, isNull);
      NullTestTokens(Cut(x), isNull);
    case BoolExpr(_, _) => CutBoolToks(n);
    case Exists(_, _, _) => CutExistsToks(n);
    case _ =>
  }

  lemma {:induction false} CutIsWellSorted(n: Node)
    requires WellSorted(n)
    ensures WellSorted(Cut(n))
    decreases n, 1
  {
    match n
    case Column(fields) => KeptNames(fields);
    case Binary(_, l, r) => CutIsWellSorted(l); CutIsWellSorted(r);
    case DistinctFrom(l, r) => CutIsWellSorted(l); CutIsWellSorted(r);
    case Between(_, x, low, high) => CutIsWellSorted(x); CutIsWellSorted(low); CutIsWellSorted(high);
    case InList(_, x, items) => CutIsWellSorted(x); CutsAreWellSorted(items);
    case Quantified(_, _, l, r) => CutIsWellSorted(l); CutIsWellSorted(r);
    case NullTest(x, _) => CutIsWellSorted(x);
    case BoolExpr(_, args) => CutsAreWellSorted(args);
    case Exists(table, alias, condition) =>
      KeepsSomething(table);
      KeepsSomething(alias);
      CutIsWellSorted(condition);
    case _ =>
  }

  lemma {:induction false} KeptNames(names: seq<string>)
    requires forall f | f in names :: f != []
    ensures forall f | f in KeepAll(names) :: f != []
  {
    if names != [] {
      assert names[0] in names;
      KeepsSomething(names[0]);
      assert forall f | f in names[1..] :: f in names;
      KeptNames(names[1..]);
    }
  }

  lemma {:induction false} CutsAreWellSorted(ns: seq<Node>)
    requires forall n | n in ns :: WellSorted(n)
    ensures forall n | n in CutAll(ns) :: WellSorted(n)
    decreases ns, 0
  {
    if ns != [] {
      CutIsWellSorted(ns[0]);
      CutsAreWellSorted(ns[1..]);
    }
  }

  /** Whatever its names, the server reads a printed tree as the tree with its names cut, if and only if
      that tree is printable. */
  lemma ServerReads(n: Node)
    requires WellSorted(n)
    ensures Parse(Deparse(n)) == Some(Flat(Cut(n))) <==> Printable(Cut(n))
  {
    RoundTrip.WellSortedIsLexable(n);
    LexDeparse(n);
    CutToks(n);
    CutIsWellSorted(n);
    TokensParseExactly(Cut(n));
  }
}
