/**
 A reference parser for conditions, after the operator table of section 4.1.6 of the
 PostgreSQL manual, tightest first: `^`, then `* / %`, then `+ -`, then any other operator,
 then BETWEEN and IN, then the comparisons, then IS, then NOT, AND, OR. BETWEEN, IN, the
 comparisons and IS DISTINCT FROM do not associate. AND and OR lists are flattened on sight.
 */
module Parser {
  import opened Common
  import opened Ast
  import opened Lexer
  import opened Deparser

  type Parsed = Option<(Node, seq<Token>)>
  type ParsedList = Option<(seq<Node>, seq<Token>)>

  predicate Shorter<T>(r: Option<(T, seq<Token>)>, ts: seq<Token>) {
    r.Some? ==> |r.value.1| < |ts|
  }

  predicate NoLonger<T>(r: Option<(T, seq<Token>)>, ts: seq<Token>) {
    r.Some? ==> |r.value.1| <= |ts|
  }

  predicate Starts(ts: seq<Token>, t: Token) { ts != [] && ts[0] == t }

  /** Arguments of nested lists under the same operator. */
  function Spread(op: BoolOp, items: seq<Node>): seq<Node> {
    if items == [] then []
    else (if items[0].Is(op) then items[0].args else [items[0]]) + Spread(op, items[1..])
  }

  function MakeBool(op: BoolOp, items: seq<Node>): Node {
    if |items| == 1 then items[0] else BoolExpr(op, Spread(op, items))
  }

  function Precedence(op: string): nat {
    if op == "^" then 5
    else if op == "*" || op == "/" || op == "%" then 4
    else if op == "+" || op == "-" then 3
    else 2
  }

  /** What a token names where a column or table name is expected. */
  function ColId(t: Token): Option<string> {
    match t
    case Ident(name) => Some(name)
    case Kw(KBetween) => Some("between")
    case _ => None
  }

  /** After a dot any word is a label. */
  function ColLabel(t: Token): Option<string> {
    match t
    case Ident(name) => Some(name)
    case Kw(Reserved(w)) => Some(w)
    case Kw(k) => Some(Lower(KeywordText(k)))
    case _ => None
  }

  function ParseFields(ts: seq<Token>): (r: (seq<string>, seq<Token>))
    ensures |r.1| <= |ts|
    decreases |ts|
  {
    if Starts(ts, Dot) && |ts| > 1 && ColLabel(ts[1]).Some? then
      var (fields, rest) := ParseFields(ts[2..]);
      ([ColLabel(ts[1]).value] + fields, rest)
    else ([], ts)
  }

  function ParseExpr(ts: seq<Token>): (r: Parsed)
    ensures Shorter(r, ts)
    decreases |ts|, 12
  {
    match ParseOrList(ts)
    case Some((items, rest)) => Some((MakeBool(OrExpr, items), rest))
    case None => None
  }

  function ParseOrList(ts: seq<Token>): (r: ParsedList)
    ensures Shorter(r, ts)
    decreases |ts|, 11
  {
    match ParseAndList(ts)
    case None => None
    case Some((items, rest)) => Prepend([MakeBool(AndExpr, items)], OrTail(rest))
  }

  function OrTail(ts: seq<Token>): (r: ParsedList)
    ensures NoLonger(r, ts)
    decreases |ts|, 12
  {
    if Starts(ts, Kw(KOr)) then ParseOrList(ts[1..]) else Some(([], ts))
  }

  function ParseAndList(ts: seq<Token>): (r: ParsedList)
    ensures Shorter(r, ts)
    decreases |ts|, 10
  {
    match ParseNot(ts)
    case None => None
    case Some((x, rest)) => Prepend([x], AndTail(rest))
  }

  function AndTail(ts: seq<Token>): (r: ParsedList)
    ensures NoLonger(r, ts)
    decreases |ts|, 11
  {
    if Starts(ts, Kw(KAnd)) then ParseAndList(ts[1..]) else Some(([], ts))
  }

  function Prepend(items: seq<Node>, r: ParsedList): ParsedList {
    match r
    case None => None
    case Some((more, rest)) => Some((items + more, rest))
  }

  function ParseNot(ts: seq<Token>): (r: Parsed)
    ensures Shorter(r, ts)
    decreases |ts|, 9
  {
    if Starts(ts, Kw(KNot)) then
      match ParseNot(ts[1..])
      case None => None
      case Some((x, rest)) => Some((BoolExpr(NotExpr, [x]), rest))
    else ParseIs(ts)
  }

  function ParseIs(ts: seq<Token>): (r: Parsed)
    ensures Shorter(r, ts)
    decreases |ts|, 8
  {
    match ParseComparison(ts)
    case None => None
    case Some((x, rest)) => IsTail(x, rest)
  }

  function IsTail(x: Node, ts: seq<Token>): (r: Parsed)
    ensures NoLonger(r, ts)
    decreases |ts|, 7
  {
    if !Starts(ts, Kw(KIs)) then Some((x, ts))
    else if |ts| > 1 && ts[1] == Kw(KNull) then IsTail(NullTest(x, true), ts[2..])
    else if |ts| > 2 && ts[1] == Kw(KNot) && ts[2] == Kw(KNull) then IsTail(NullTest(x, false), ts[3..])
    else if |ts| > 2 && ts[1] == Kw(KDistinct) && ts[2] == Kw(KFrom) then
      match ParseComparison(ts[3..])
      case None => None
      case Some((y, rest)) => Some((DistinctFrom(x, y), rest))
    else None
  }

  function ParseComparison(ts: seq<Token>): (r: Parsed)
    ensures Shorter(r, ts)
    decreases |ts|, 7
  {
    match ParseRange(ts)
    case None => None
    case Some((x, rest)) => ComparisonTail(x, rest)
  }

  function ComparisonTail(x: Node, ts: seq<Token>): (r: Parsed)
    ensures NoLonger(r, ts)
    decreases |ts|, 6
  {
    if !(ts != [] && ts[0].OpTok? && IsComparison(ts[0].op)) then Some((x, ts))
    else if |ts| > 2 && (ts[1] == Kw(KAny) || ts[1] == Kw(KAll)) && ts[2] == LParen then
      match ParseExpr(ts[3..])
      case None => None
      case Some((y, rest)) =>
        if Starts(rest, RParen) then Some((Quantified(ts[0].op, ts[1] == Kw(KAll), x, y), rest[1..])) else None
    else
      match ParseRange(ts[1..])
      case None => None
      case Some((y, rest)) => Some((Binary(ts[0].op, x, y), rest))
  }

  function ParseRange(ts: seq<Token>): (r: Parsed)
    ensures Shorter(r, ts)
    decreases |ts|, 6
  {
    match ParseTight(ts, 2)
    case None => None
    case Some((x, rest)) =>
      if Starts(rest, Kw(KNot)) then RangeTail(true, x, rest[1..])
      else if Starts(rest, Kw(KBetween)) || Starts(rest, Kw(KIn)) then RangeTail(false, x, rest)
      else Some((x, rest))
  }

  function RangeTail(negated: bool, x: Node, ts: seq<Token>): (r: Parsed)
    ensures Shorter(r, ts)
    decreases |ts|, 6
  {
    if Starts(ts, Kw(KBetween)) then
      match ParseTight(ts[1..], 2)
      case None => None
      case Some((low, rest)) =>
        if !Starts(rest, Kw(KAnd)) then None
        else
          match ParseTight(rest[1..], 2)
          case None => None
          case Some((high, rest')) => Some((Between(negated, x, low, high), rest'))
    else if Starts(ts, Kw(KIn)) && Starts(ts[1..], LParen) then
      match ParseItems(ts[2..])
      case None => None
      case Some((items, rest)) =>
        if Starts(rest, RParen) then Some((InList(negated, x, items), rest[1..])) else None
    else None
  }

  function ParseItems(ts: seq<Token>): (r: ParsedList)
    ensures Shorter(r, ts)
    decreases |ts|, 13
  {
    match ParseExpr(ts)
    case None => None
    case Some((x, rest)) => Prepend([x], ItemsTail(rest))
  }

  function ItemsTail(ts: seq<Token>): (r: ParsedList)
    ensures NoLonger(r, ts)
    decreases |ts|, 14
  {
    if Starts(ts, Comma) then ParseItems(ts[1..]) else Some(([], ts))
  }

  function ParseTight(ts: seq<Token>, min: nat): (r: Parsed)
    ensures Shorter(r, ts)
    decreases |ts|, 5
  {
    match ParsePrimary(ts)
    case None => None
    case Some((x, rest)) => TightTail(x, rest, min)
  }

  predicate StartsTight(ts: seq<Token>, min: nat) {
    ts != [] && ts[0].OpTok? && !IsComparison(ts[0].op) && Precedence(ts[0].op) >= min
  }

  function TightTail(x: Node, ts: seq<Token>, min: nat): (r: Parsed)
    ensures NoLonger(r, ts)
    decreases |ts|, 4
  {
    if !StartsTight(ts, min) then Some((x, ts))
    else
      match ParseTight(ts[1..], Precedence(ts[0].op) + 1)
      case None => None
      case Some((y, rest)) => TightTail(Binary(ts[0].op, x, y), rest, min)
  }

  function ParsePrimary(ts: seq<Token>): (r: Parsed)
    ensures Shorter(r, ts)
    decreases |ts|, 4
  {
    if ts == [] then None
    else
      match ts[0]
      case ParamTok(k) => Some((Param(k), ts[1..]))
      case IntTok(k) => Some((IntConst(k), ts[1..]))
      case StrTok(s) => Some((StringConst(s), ts[1..]))
      case Kw(KNull) => Some((NullConst, ts[1..]))
      case Kw(KTrue) => Some((BoolConst(true), ts[1..]))
      case Kw(KFalse) => Some((BoolConst(false), ts[1..]))
      case LParen =>
        (match ParseExpr(ts[1..])
         case None => None
         case Some((x, rest)) => if Starts(rest, RParen) then Some((x, rest[1..])) else None)
      case Kw(KExists) => ParseExists(ts[1..])
      case Ident(name) => Some(ParseColumn(name, ts[1..]))
      case Kw(KBetween) => Some(ParseColumn("between", ts[1..]))
      case _ => None
  }

  function ParseColumn(name: string, ts: seq<Token>): (r: (Node, seq<Token>))
    ensures |r.1| <= |ts|
  {
    var (fields, rest) := ParseFields(ts);
    (Column([name] + fields), rest)
  }

  /** ( SELECT 1 FROM table AS alias WHERE condition ) */
  function ParseExists(ts: seq<Token>): (r: Parsed)
    ensures Shorter(r, ts)
    decreases |ts|, 3
  {
    if |ts| > 8 && ts[0] == LParen && ts[1] == Kw(KSelect) && ts[2] == IntTok(1) && ts[3] == Kw(KFrom)
       && ColId(ts[4]).Some? && ts[5] == Kw(KAs) && ColId(ts[6]).Some? && ts[7] == Kw(KWhere) then
      match ParseExpr(ts[8..])
      case None => None
      case Some((x, rest)) =>
        if Starts(rest, RParen) then Some((Exists(ColId(ts[4]).value, ColId(ts[6]).value, x), rest[1..])) else None
    else None
  }

  /** Parses a whole text: nothing may be left over. */
  function Parse(sql: string): Option<Node> {
    match ParseExpr(Lex(sql))
    case Some((n, rest)) => if rest == [] then Some(n) else None
    case None => None
  }
}
