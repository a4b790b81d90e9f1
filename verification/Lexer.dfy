/**
 A reference lexer for the printed SQL, after chapter 4.1 of the PostgreSQL manual:
 case-folded words, quoted identifiers with doubled quotes, string constants, unsigned
 integers, positional parameters, operators and punctuation. Identifiers are cut to 63 bytes.
 */
module Lexer {
  import opened Common
  import opened Ast
  import opened Deparser
  import Decimal
  import Names

  datatype Keyword =
    | KAnd | KOr | KNot | KIs | KNull | KTrue | KFalse | KDistinct | KFrom | KBetween | KIn
    | KAny | KAll | KExists | KSelect | KAs | KWhere
    | Reserved(word: string)

  datatype Token =
    | Kw(keyword: Keyword)
    | Ident(name: string)
    | OpTok(op: string)
    | ParamTok(number: nat)
    | IntTok(value: nat)
    | StrTok(text: string)
    | LParen | RParen | Comma | Dot
    | Bad

  /** Words PostgreSQL does not accept as an unquoted table or column name that the printer's
      own list omits (manual, Appendix C). */
  const UNLISTED_RESERVED: set<string> := {"authorization", "binary", "collation", "concurrently"}

  /** The three listed words PostgreSQL does accept as column names. */
  const ACCEPTED_LISTED: set<string> := {"coalesce", "exists", "timestamp"}

  predicate IsWordStart(c: char) { IsLower(c) || IsUpper(c) || c == '_' || c as int >= 128 }

  predicate IsWordChar(c: char) { IsWordStart(c) || Decimal.IsDigit(c) || c == '$' }

  predicate IsSpace(c: char) { c == ' ' || c == '\t' || c == '\n' || c == '\r' }

  function LowerChar(c: char): char {
    if IsUpper(c) then c - 'A' + 'a' else c
  }

  function Lower(s: string): string { seq(|s|, i requires 0 <= i < |s| => LowerChar(s[i])) }

  /** What the server keeps of an identifier: 63 bytes, in whole characters (manual, section 4.1.1). */
  function Keep(name: string): string { Names.Truncate(name, 63) }

  predicate Fits(name: string) { Names.Bytes(name) <= 63 }

  function WordToken(w: string): Token {
    if w == "and" then Kw(KAnd)
    else if w == "or" then Kw(KOr)
    else if w == "not" then Kw(KNot)
    else if w == "is" then Kw(KIs)
    else if w == "null" then Kw(KNull)
    else if w == "true" then Kw(KTrue)
    else if w == "false" then Kw(KFalse)
    else if w == "distinct" then Kw(KDistinct)
    else if w == "from" then Kw(KFrom)
    else if w == "between" then Kw(KBetween)
    else if w == "in" then Kw(KIn)
    else if w == "any" then Kw(KAny)
    else if w == "all" then Kw(KAll)
    else if w == "exists" then Kw(KExists)
    else if w == "select" then Kw(KSelect)
    else if w == "as" then Kw(KAs)
    else if w == "where" then Kw(KWhere)
    else if (IsListed(w) && w !in ACCEPTED_LISTED) || w in UNLISTED_RESERVED then Kw(Reserved(w))
    else Ident(Keep(w))
  }

  /** How many leading characters satisfy p. */
  function Span(s: string, p: char -> bool): (k: nat)
    ensures k <= |s|
    ensures forall i :: 0 <= i < k ==> p(s[i])
    ensures k < |s| ==> !p(s[k])
  {
    if s == [] || !p(s[0]) then 0 else 1 + Span(s[1..], p)
  }

  lemma {:induction false} SpanPrefix(w: string, rest: string, p: char -> bool)
    requires forall i :: 0 <= i < |w| ==> p(w[i])
    requires rest == [] || !p(rest[0])
    ensures Span(w + rest, p) == |w|
  {
    if w == [] {
      assert w + rest == rest;
    } else {
      assert (w + rest)[1..] == w[1..] + rest;
      SpanPrefix(w[1..], rest, p);
    }
  }

  datatype Quoted = Closed(text: string, length: nat) | Unterminated

  /** Reads up to the closing quote; a doubled quote stands for one. */
  function ReadQuoted(s: string, q: char): (r: Quoted)
    ensures r.Closed? ==> 1 <= r.length <= |s|
  {
    if s == [] then Unterminated
    else if s[0] == q then
      if |s| > 1 && s[1] == q then
        match ReadQuoted(s[2..], q)
        case Closed(t, k) => Closed([q] + t, k + 2)
        case Unterminated => Unterminated
      else Closed([], 1)
    else
      match ReadQuoted(s[1..], q)
      case Closed(t, k) => Closed([s[0]] + t, k + 1)
      case Unterminated => Unterminated
  }

  /** Reading back a doubled text gives the text. */
  lemma {:induction false} ReadQuotedDouble(text: string, q: char, rest: string)
    requires rest == [] || rest[0] != q
    ensures ReadQuoted(Double(text, q) + [q] + rest, q) == Closed(text, |Double(text, q)| + 1)
  {
    if text != [] {
      var tail := Double(text[1..], q) + [q] + rest;
      var head := if text[0] == q then [q, q] else [text[0]];
      ReadQuotedDouble(text[1..], q, rest);
      Associative(head, Double(text[1..], q), [q]);
      Associative(head, Double(text[1..], q) + [q], rest);
      assert (head + tail)[|head|..] == tail;
      assert [text[0]] + text[1..] == text;
    }
  }

  /** The first token of a text that starts with no space, and its length. */
  function NextToken(s: string): (r: (Token, nat))
    requires s != [] && !IsSpace(s[0])
    ensures 1 <= r.1 <= |s|
  {
    var c := s[0];
    if IsWordStart(c) then
      var k := Span(s, IsWordChar);
      (WordToken(Lower(s[..k])), k)
    else if c == '"' then
      match ReadQuoted(s[1..], c)
      case Closed(t, k) => (if t == [] then Bad else Ident(Keep(t)), k + 1)
      case Unterminated => (Bad, |s|)
    else if c == '\'' then
      match ReadQuoted(s[1..], c)
      case Closed(t, k) => (StrTok(t), k + 1)
      case Unterminated => (Bad, |s|)
    else if Decimal.IsDigit(c) then
      var k := Span(s, Decimal.IsDigit);
      (IntTok(Decimal.Read(s[..k])), k)
    else if c == '$' then
      var k := Span(s[1..], Decimal.IsDigit);
      (if k == 0 then Bad else ParamTok(Decimal.Read(s[1..][..k])), k + 1)
    else if IsOpChar(c) then
      var k := Span(s, IsOpChar);
      (if IsOperator(s[..k]) then OpTok(CanonicalOp(s[..k])) else Bad, k)
    else
      (if c == '(' then LParen else if c == ')' then RParen
       else if c == ',' then Comma else if c == '.' then Dot else Bad, 1)
  }

  function Lex(s: string): seq<Token>
    decreases |s|
  {
    if s == [] then []
    else if IsSpace(s[0]) then Lex(s[1..])
    else
      var (t, k) := NextToken(s);
      [t] + Lex(s[k..])
  }

  // --- what the printer emits, piece by piece ------------------------------------

  datatype Piece =
    | Space
    | Word(k: Keyword)
    | Name(name: string)
    | Number(n: nat)
    | Placeholder(n: nat)
    | Literal(s: string)
    | Operator(op: string)
    | Punct(t: Token)

  function KeywordText(k: Keyword): string {
    match k
    case KAnd => "AND" case KOr => "OR" case KNot => "NOT" case KIs => "IS" case KNull => "NULL"
    case KTrue => "true" case KFalse => "false" case KDistinct => "DISTINCT" case KFrom => "FROM"
    case KBetween => "BETWEEN" case KIn => "IN" case KAny => "ANY" case KAll => "ALL"
    case KExists => "EXISTS" case KSelect => "SELECT" case KAs => "AS" case KWhere => "WHERE"
    case Reserved(w) => w
  }

  function PunctText(t: Token): string {
    match t
    case LParen => "(" case RParen => ")" case Comma => "," case Dot => "." case _ => "?"
  }

  function PieceText(p: Piece): string {
    match p
    case Space => " "
    case Word(k) => KeywordText(k)
    case Name(name) => QuoteIdent(name)
    case Number(n) => Decimal.Print(n)
    case Placeholder(n) => "$" + Decimal.Print(n)
    case Literal(s) => QuoteString(s)
    case Operator(op) => op
    case Punct(t) => PunctText(t)
  }

  /** What an identifier lexes to. Unquoted, a reserved word the printer does not know stays one. */
  function NameToken(name: string): Token {
    if NeedsNoQuotes(name) then WordToken(name) else Ident(Keep(name))
  }

  function PieceTokens(p: Piece): seq<Token> {
    match p
    case Space => []
    case Word(k) => [Kw(k)]
    case Name(name) => [NameToken(name)]
    case Number(n) => [IntTok(n)]
    case Placeholder(n) => [ParamTok(n)]
    case Literal(s) => [StrTok(s)]
    case Operator(op) => [OpTok(CanonicalOp(op))]
    case Punct(t) => [t]
  }

  predicate PieceOk(p: Piece) {
    match p
    case Word(k) => !k.Reserved?
    case Name(name) => name != []
    case Operator(op) => IsOperator(op)
    case Punct(t) => t == LParen || t == RParen || t == Comma || t == Dot
    case _ => true
  }

  predicate Separates(p: Piece) { p.Space? || p.Punct? }

  /** Two tokens never touch: between them stands a space or punctuation. */
  ghost predicate Spaced(ps: seq<Piece>) {
    (forall i :: 0 <= i < |ps| ==> PieceOk(ps[i])) &&
    (forall i :: 0 <= i < |ps| - 1 ==> Separates(ps[i]) || Separates(ps[i + 1]))
  }

  function TextOf(ps: seq<Piece>): string {
    if ps == [] then [] else PieceText(ps[0]) + TextOf(ps[1..])
  }

  function TokensOf(ps: seq<Piece>): seq<Token> {
    if ps == [] then [] else PieceTokens(ps[0]) + TokensOf(ps[1..])
  }

  predicate Boundary(rest: string) {
    rest == [] || rest[0] == ' ' || rest[0] == '(' || rest[0] == ')' || rest[0] == ',' || rest[0] == '.'
  }

  lemma KeywordLexes(k: Keyword)
    requires !k.Reserved?
    ensures WordToken(Lower(KeywordText(k))) == Kw(k)
  {
    LowerKeyword(k);
    match k
    case KAnd => case KOr => case KNot => case KIs => case KNull => case KTrue => case KFalse =>
    case KDistinct => case KFrom => case KBetween => case KIn => case KAny => case KAll =>
    case KExists => case KSelect => case KAs => case KWhere =>
  }

  function LowerText(k: Keyword): string {
    match k
    case KAnd => "and" case KOr => "or" case KNot => "not" case KIs => "is" case KNull => "null"
    case KTrue => "true" case KFalse => "false" case KDistinct => "distinct" case KFrom => "from"
    case KBetween => "between" case KIn => "in" case KAny => "any" case KAll => "all"
    case KExists => "exists" case KSelect => "select" case KAs => "as" case KWhere => "where"
    case Reserved(w) => Lower(w)
  }

  lemma LowerKeyword(k: Keyword)
    ensures Lower(KeywordText(k)) == LowerText(k)
  {
    match k
    case KAnd => assert Lower("AND") == "and";
    case KOr => assert Lower("OR") == "or";
    case KNot => assert Lower("NOT") == "not";
    case KIs => assert Lower("IS") == "is";
    case KNull => assert Lower("NULL") == "null";
    case KTrue => assert Lower("true") == "true";
    case KFalse => assert Lower("false") == "false";
    case KDistinct => assert Lower("DISTINCT") == "distinct";
    case KFrom => assert Lower("FROM") == "from";
    case KBetween => assert Lower("BETWEEN") == "between";
    case KIn => assert Lower("IN") == "in";
    case KAny => assert Lower("ANY") == "any";
    case KAll => assert Lower("ALL") == "all";
    case KExists => assert Lower("EXISTS") == "exists";
    case KSelect => assert Lower("SELECT") == "select";
    case KAs => assert Lower("AS") == "as";
    case KWhere => assert Lower("WHERE") == "where";
    case Reserved(_) =>
  }

  lemma KeywordIsWord(k: Keyword)
    requires !k.Reserved?
    ensures var w := KeywordText(k); w != [] && forall i :: 0 <= i < |w| ==> IsWordStart(w[i])
  {
    match k
    case KAnd => case KOr => case KNot => case KIs => case KNull => case KTrue => case KFalse =>
    case KDistinct => case KFrom => case KBetween => case KIn => case KAny => case KAll =>
    case KExists => case KSelect => case KAs => case KWhere =>
  }

  lemma LexWord(w: string, rest: string)
    requires w != [] && IsWordStart(w[0]) && forall i :: 0 <= i < |w| ==> IsWordChar(w[i])
    requires Boundary(rest)
    ensures Lex(w + rest) == [WordToken(Lower(w))] + Lex(rest)
  {
    SpanPrefix(w, rest, IsWordChar);
    assert (w + rest)[..|w|] == w && (w + rest)[|w|..] == rest;
  }

  lemma LexPlainName(name: string, rest: string)
    requires IsPlain(name) && Boundary(rest)
    ensures Lex(name + rest) == [WordToken(name)] + Lex(rest)
  {
    assert Lower(name) == name;
    LexWord(name, rest);
  }

  lemma LexQuotedName(name: string, rest: string)
    requires name != [] && Boundary(rest)
    ensures Lex(Quote(name, '"') + rest) == [Ident(Keep(name))] + Lex(rest)
  {
    var s := Quote(name, '"') + rest;
    assert s == ['"'] + (Double(name, '"') + ['"'] + rest);
    ReadQuotedDouble(name, '"', rest);
    assert s[|Double(name, '"')| + 2..] == rest;
  }

  lemma LexName(name: string, rest: string)
    requires name != [] && Boundary(rest)
    ensures Lex(QuoteIdent(name) + rest) == [NameToken(name)] + Lex(rest)
  {
    if NeedsNoQuotes(name) {
      LexPlainName(name, rest);
    } else {
      LexQuotedName(name, rest);
    }
  }

  lemma LexLiteral(text: string, rest: string)
    requires Boundary(rest)
    ensures Lex(QuoteString(text) + rest) == [StrTok(text)] + Lex(rest)
  {
    var s := QuoteString(text) + rest;
    assert s == ['\''] + (Double(text, '\'') + ['\''] + rest);
    ReadQuotedDouble(text, '\'', rest);
    assert s[|Double(text, '\'')| + 2..] == rest;
  }

  lemma LexNumber(n: nat, rest: string)
    requires Boundary(rest)
    ensures Lex(Decimal.Print(n) + rest) == [IntTok(n)] + Lex(rest)
  {
    var d := Decimal.Print(n);
    Decimal.ReadPrint(n);
    SpanPrefix(d, rest, Decimal.IsDigit);
    assert (d + rest)[..|d|] == d;
    LexFront(d, rest, IntTok(n));
  }

  /** Lexing takes the first token off and goes on behind it. */
  lemma LexFront(front: string, rest: string, t: Token)
    requires front != [] && !IsSpace(front[0]) && NextToken(front + rest) == (t, |front|)
    ensures Lex(front + rest) == [t] + Lex(rest)
  {
    assert (front + rest)[|front|..] == rest;
  }

  lemma LexPlaceholder(n: nat, rest: string)
    requires Boundary(rest)
    ensures Lex("$" + Decimal.Print(n) + rest) == [ParamTok(n)] + Lex(rest)
  {
    var d := Decimal.Print(n);
    var s := "$" + d + rest;
    Decimal.ReadPrint(n);
    SpanPrefix(d, rest, Decimal.IsDigit);
    assert s[1..] == d + rest && s[1..][..|d|] == d;
    LexFront("$" + d, rest, ParamTok(n));
  }

  lemma LexOperator(op: string, rest: string)
    requires IsOperator(op) && Boundary(rest)
    ensures Lex(op + rest) == [OpTok(CanonicalOp(op))] + Lex(rest)
  {
    SpanPrefix(op, rest, IsOpChar);
    NextIsOperator(op, rest);
    LexFront(op, rest, OpTok(CanonicalOp(op)));
  }

  lemma NextIsOperator(op: string, rest: string)
    requires IsOperator(op) && Span(op + rest, IsOpChar) == |op|
    ensures !IsSpace(op[0]) && NextToken(op + rest) == (OpTok(CanonicalOp(op)), |op|)
  {
    assert IsOpChar(op[0]) && (op + rest)[0] == op[0];
    assert (op + rest)[..|op|] == op;
  }

  lemma LexSpace(rest: string)
    ensures Lex(" " + rest) == Lex(rest)
  {
    assert (" " + rest)[1..] == rest;
  }

  lemma LexPunct(t: Token, rest: string)
    requires PieceOk(Punct(t))
    ensures Lex(PunctText(t) + rest) == [t] + Lex(rest)
  {
    var s := PunctText(t) + rest;
    assert s[1..] == rest;
    assert NextToken(s) == (t, 1);
  }

  lemma LexPiece(p: Piece, rest: string)
    requires PieceOk(p) && (Separates(p) || Boundary(rest))
    ensures Lex(PieceText(p) + rest) == PieceTokens(p) + Lex(rest)
  {
    match p
      case Space => LexSpace(rest);
      case Punct(t) => LexPunct(t, rest);
      case Word(k) =>
        KeywordLexes(k);
        KeywordIsWord(k);
        LexWord(KeywordText(k), rest);
      case Name(name) => LexName(name, rest);
      case Number(n) => LexNumber(n, rest);
      case Placeholder(n) => LexPlaceholder(n, rest);
      case Literal(s) => LexLiteral(s, rest);
      case Operator(op) => LexOperator(op, rest);
  }

  lemma SeparatorBounds(ps: seq<Piece>)
    requires ps == [] || (Separates(ps[0]) && PieceOk(ps[0]))
    ensures Boundary(TextOf(ps))
  {
  }

  /** Lexing a well-spaced text gives back exactly the tokens it was printed from. */
  lemma {:induction false} LexText(ps: seq<Piece>)
    requires Spaced(ps)
    ensures Lex(TextOf(ps)) == TokensOf(ps)
  {
    if ps != [] {
      assert Spaced(ps[1..]) by {
        forall i | 0 <= i < |ps[1..]| - 1 ensures Separates(ps[1..][i]) || Separates(ps[1..][i + 1]) {
          assert ps[1..][i] == ps[i + 1] && ps[1..][i + 1] == ps[i + 2];
        }
      }
      LexText(ps[1..]);
      if !Separates(ps[0]) && |ps| > 1 {
        assert Separates(ps[1]);
        SeparatorBounds(ps[1..]);
      }
      LexPiece(ps[0], TextOf(ps[1..]));
    }
  }

  // --- concatenation -----------------------------------------------------------

  lemma {:induction false} TextConcat(a: seq<Piece>, b: seq<Piece>)
    ensures TextOf(a + b) == TextOf(a) + TextOf(b)
  {
    if a == [] {
      assert a + b == b;
    } else {
      assert (a + b)[1..] == a[1..] + b;
      TextConcat(a[1..], b);
      Associative(PieceText(a[0]), TextOf(a[1..]), TextOf(b));
    }
  }

  lemma {:induction false} TokensConcat(a: seq<Piece>, b: seq<Piece>)
    ensures TokensOf(a + b) == TokensOf(a) + TokensOf(b)
  {
    if a == [] {
      assert a + b == b;
    } else {
      assert (a + b)[1..] == a[1..] + b;
      TokensConcat(a[1..], b);
      Associative(PieceTokens(a[0]), TokensOf(a[1..]), TokensOf(b));
    }
  }

  // --- names -------------------------------------------------------------------

  /** The printer's reserved list misses this name. */
  predicate MisreadName(name: string) { name in UNLISTED_RESERVED }

  /** A printed identifier lexes to one token, which carries what the server keeps of the name, unless
      it is one of the four reserved words the printer does not quote. */
  lemma NameTokenOf(name: string)
    ensures NameToken(name) ==
      if MisreadName(name) then Kw(Reserved(name))
      else if name == "between" then Kw(KBetween)
      else Ident(Keep(name))
  {
    if name in UNLISTED_RESERVED {
      UnlistedArePlain(name);
    } else if NeedsNoQuotes(name) {
      assert name != "and" && name != "or" && name != "not" && name != "is" && name != "null";
      assert name != "true" && name != "false" && name != "distinct" && name != "from" && name != "in";
      assert name != "any" && name != "all" && name != "exists" && name != "select" && name != "as" && name != "where";
    } else if name == "between" {
      BetweenIsPlain();
      assert false;
    }
  }

  lemma UnlistedArePlain(name: string)
    requires name in UNLISTED_RESERVED
    ensures NeedsNoQuotes(name) && WordToken(name) == Kw(Reserved(name))
  {
    UnlistedAreUnlisted(name);
    assert IsPlain("authorization") && IsPlain("binary") && IsPlain("collation") && IsPlain("concurrently");
    assert |name| >= 6 && name != "select" && name != "exists";
    assert name != "between" && name != "distinct";
  }

  lemma UnlistedAreUnlisted(name: string)
    requires name in UNLISTED_RESERVED
    ensures !IsListed(name)
  {
    if name == "authorization" || name == "binary" {
      UnlistedAB();
    } else {
      UnlistedC();
    }
  }

  lemma UnlistedAB()
    ensures !IsListed("authorization") && !IsListed("binary")
  {
  }

  lemma UnlistedC()
    ensures !IsListed("collation") && !IsListed("concurrently")
  {
  }

  lemma BetweenIsPlain()
    ensures NeedsNoQuotes("between")
  {
    assert IsPlain("between");
  }

  /** The name a token carries where PostgreSQL expects a column label. */
  function TokenName(t: Token): string {
    match t
    case Ident(name) => name
    case Kw(Reserved(w)) => w
    case Kw(KBetween) => "between"
    case _ => ""
  }

  lemma KeepsWhatFits(name: string)
    ensures Keep(name) == name <==> Fits(name)
  {
    if Fits(name) {
      Names.TruncateFits(name, 63);
    } else {
      Names.TruncateIsLongestPrefix(name, 63);
    }
  }

  lemma ShortNamesFit(name: string)
    requires IsPlain(name) && |name| <= 63
    ensures Fits(name)
  {
    Names.AsciiBytes(name);
  }

  /** A printed name reads back as what the server keeps of it: as itself exactly if it fits in 63 bytes. */
  lemma PrintedNameReadsBack(name: string)
    requires name != []
    ensures Lex(QuoteIdent(name)) == [NameToken(name)] && TokenName(NameToken(name)) == Keep(name)
    ensures TokenName(NameToken(name)) == name <==> Fits(name)
  {
    LexOnlyName(name);
    TokenCarriesName(name);
    KeepsWhatFits(name);
  }

  lemma LexOnlyName(name: string)
    requires name != []
    ensures Lex(QuoteIdent(name)) == [NameToken(name)]
  {
    LexName(name, []);
    assert QuoteIdent(name) + [] == QuoteIdent(name);
    assert [NameToken(name)] + [] == [NameToken(name)];
  }

  lemma TokenCarriesName(name: string)
    ensures TokenName(NameToken(name)) == Keep(name)
  {
    NameTokenOf(name);
    NamedByToken(NameToken(name), name);
    if MisreadName(name) || name == "between" {
      WordFits(name);
      KeepsWhatFits(name);
    }
  }

  lemma NamedByToken(t: Token, name: string)
    requires t == Kw(Reserved(name)) || (t == Kw(KBetween) && name == "between") || t == Ident(Keep(name))
    ensures TokenName(t) == if t.Kw? then name else Keep(name)
  {
  }

  lemma WordFits(name: string)
    requires MisreadName(name) || name == "between"
    ensures Fits(name)
  {
    if MisreadName(name) { UnlistedFit(name); } else { BetweenFits(); }
  }

  lemma BetweenFits()
    ensures Fits("between")
  {
    BetweenIsPlain();
    ShortNamesFit("between");
  }

  lemma UnlistedFit(name: string)
    requires name in UNLISTED_RESERVED
    ensures Fits(name)
  {
    UnlistedArePlain(name);
    assert |name| <= 13;
    ShortNamesFit(name);
  }

  /** Printing is injective on names. */
  lemma QuoteIdentInjective(a: string, b: string)
    requires QuoteIdent(a) == QuoteIdent(b)
    ensures a == b
  {
    assert QuoteIdent(a)[0] == QuoteIdent(b)[0];
    if !NeedsNoQuotes(a) && !NeedsNoQuotes(b) { QuoteInjective(a, b, '"'); }
  }

  lemma QuoteInjective(a: string, b: string, q: char)
    requires Quote(a, q) == Quote(b, q)
    ensures a == b
  {
    ReadQuotedDouble(a, q, []);
    ReadQuotedDouble(b, q, []);
    assert Quote(a, q)[1..] == Double(a, q) + [q] + [] && Quote(b, q)[1..] == Double(b, q) + [q] + [];
  }

  /** Printing is injective on string constants. */
  lemma QuoteStringInjective(a: string, b: string)
    requires QuoteString(a) == QuoteString(b)
    ensures a == b
  {
    QuoteInjective(a, b, '\'');
  }
}
