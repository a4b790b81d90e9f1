/**
 The printer of packages/adapter-pgsql/src/pgsql-deparser.ts: nodes to SQL text, with
 the parentheses that file inserts and no others.
 */
module Deparser {
  import opened Ast
  import Decimal

  // --- identifiers and literals ----------------------------------------------

  predicate IsLower(c: char) { 'a' <= c <= 'z' }

  predicate IsUpper(c: char) { 'A' <= c <= 'Z' }

  /** The pattern an unquoted identifier must match: ^[a-z_][a-z0-9_]*$ */
  predicate IsPlain(name: string) {
    name != [] &&
    (IsLower(name[0]) || name[0] == '_') &&
    forall i | 0 <= i < |name| :: IsLower(name[i]) || Decimal.IsDigit(name[i]) || name[i] == '_'
  }

  // The printer's reserved words, one set for each range of initials.
  const RESERVED_AB: set<string> := {
    "all", "analyse", "analyze", "and", "any", "array", "as", "asc", "asymmetric", "both"
  }
  const RESERVED_C: set<string> := {
    "case", "cast", "check", "collate", "column", "constraint", "create", "cross", "current_catalog",
    "current_date", "current_role", "current_schema", "current_time", "current_timestamp", "current_user",
    "coalesce"
  }
  const RESERVED_D_TO_F: set<string> := {
    "default", "deferrable", "desc", "distinct", "do", "else", "end", "except", "false", "fetch", "for",
    "foreign", "freeze", "from", "full", "exists"
  }
  const RESERVED_G_TO_I: set<string> := {
    "grant", "group", "having", "ilike", "in", "initially", "inner", "intersect", "into", "is", "isnull"
  }
  const RESERVED_J_TO_L: set<string> := {
    "join", "lateral", "leading", "left", "like", "limit", "localtime", "localtimestamp"
  }
  const RESERVED_M_TO_O: set<string> := {
    "natural", "not", "notnull", "null", "offset", "on", "only", "or", "order", "outer", "overlaps"
  }
  const RESERVED_P_TO_S: set<string> := {
    "placing", "primary", "references", "returning", "right", "select", "session_user", "similar", "some",
    "symmetric", "system_user"
  }
  const RESERVED_T_TO_W: set<string> := {
    "table", "timestamp", "tablesample", "then", "to", "trailing", "true", "union", "unique", "user",
    "using", "variadic", "verbose", "when", "where", "window", "with"
  }

  predicate IsListed(w: string) {
    || w in RESERVED_AB
    || w in RESERVED_C
    || w in RESERVED_D_TO_F
    || w in RESERVED_G_TO_I
    || w in RESERVED_J_TO_L
    || w in RESERVED_M_TO_O
    || w in RESERVED_P_TO_S
    || w in RESERVED_T_TO_W
  }

  /** `text.replace(/q/g, qq)`. */
  function Double(text: string, q: char): string {
    if text == [] then [] else (if text[0] == q then [q, q] else [text[0]]) + Double(text[1..], q)
  }

  function Quote(text: string, q: char): string { [q] + Double(text, q) + [q] }

  predicate NeedsNoQuotes(name: string) { IsPlain(name) && !IsListed(name) }

  function QuoteIdent(name: string): string {
    if NeedsNoQuotes(name) then name else Quote(name, '"')
  }

  function QuoteString(value: string): string { Quote(value, '\'') }

  // --- nodes -------------------------------------------------------------------

  function Join(parts: seq<string>, sep: string): string {
    if parts == [] then []
    else if |parts| == 1 then parts[0]
    else parts[0] + sep + Join(parts[1..], sep)
  }

  function QuoteAll(names: seq<string>): (r: seq<string>)
    ensures |r| == |names|
  {
    if names == [] then [] else [QuoteIdent(names[0])] + QuoteAll(names[1..])
  }

  function Parens(s: string): string { "(" + s + ")" }

  function Deparse(n: Node): string
    decreases n, 1
  {
    match n
    case Column(fields) => Join(QuoteAll(fields), ".")
    case Param(k) => "$" + Decimal.Print(k)
    case NullConst => "NULL"
    case BoolConst(b) => if b then "true" else "false"
    case IntConst(k) => Decimal.Print(k)
    case StringConst(s) => QuoteString(s)
    case Binary(op, l, r) => DeparseOperand(l) + " " + op + " " + DeparseOperand(r)
    case DistinctFrom(l, r) => DeparseOperand(l) + " IS DISTINCT FROM " + DeparseOperand(r)
    case Between(negated, x, low, high) =>
      Deparse(x) + (if negated then " NOT BETWEEN " else " BETWEEN ") + Deparse(low) + " AND " + Deparse(high)
    case InList(negated, x, items) =>
      Deparse(x) + (if negated then " NOT IN " else " IN ") + Parens(Join(DeparseAll(items), ", "))
    case Quantified(op, all, l, r) =>
      Deparse(l) + " " + op + (if all then " ALL " else " ANY ") + Parens(Deparse(r))
    case NullTest(x, isNull) => Deparse(x) + (if isNull then " IS NULL" else " IS NOT NULL")
    case BoolExpr(op, args) =>
      if op == NotExpr then "NOT " + Parens(if args == [] then [] else Deparse(args[0]))
      else Join(DeparseArgs(op, args), if op == AndExpr then " AND " else " OR ")
    case Exists(table, alias, condition) =>
      "EXISTS " + Parens("SELECT 1 FROM " + QuoteIdent(table) + " AS " + QuoteIdent(alias) +
                         " WHERE " + Deparse(condition))
  }

  /** Operands of operators are wrapped only when they are operator expressions themselves. */
  function DeparseOperand(n: Node): string
    decreases n, 2
  {
    if n.IsAExpr() then Parens(Deparse(n)) else Deparse(n)
  }

  function DeparseAll(ns: seq<Node>): (r: seq<string>)
    ensures |r| == |ns|
    decreases ns, 0
  {
    if ns == [] then [] else [Deparse(ns[0])] + DeparseAll(ns[1..])
  }

  /** Inside AND, an OR argument is wrapped; nothing else is. */
  function DeparseArgs(op: BoolOp, ns: seq<Node>): (r: seq<string>)
    ensures |r| == |ns|
    decreases ns, 0
  {
    if ns == [] then []
    else [if op == AndExpr && ns[0].Is(OrExpr) then Parens(Deparse(ns[0])) else Deparse(ns[0])]
         + DeparseArgs(op, ns[1..])
  }
}
