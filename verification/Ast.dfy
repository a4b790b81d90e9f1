/** The PostgreSQL AST nodes that conditions compile to, as `@pgsql/types` shapes them. */
module Ast {

  /** A value bound to a placeholder or stored in a row. */
  datatype Datum = Null | BoolVal(b: bool) | NumVal(n: int) | TextVal(s: string) | ArrayVal(items: seq<Datum>)

  datatype BoolOp = AndExpr | OrExpr | NotExpr

  datatype Node =
    | Column(fields: seq<string>)
    | Param(number: nat)
    | NullConst
    | BoolConst(b: bool)
    | IntConst(n: nat)
    | StringConst(s: string)
    | Binary(op: string, left: Node, right: Node)                       // AEXPR_OP
    | DistinctFrom(left: Node, right: Node)                             // AEXPR_DISTINCT
    | Between(negated: bool, arg: Node, low: Node, high: Node)          // AEXPR_[NOT_]BETWEEN
    | InList(negated: bool, arg: Node, items: seq<Node>)                // AEXPR_IN
    | Quantified(op: string, all: bool, left: Node, right: Node)        // AEXPR_OP_ANY / _ALL
    | NullTest(arg: Node, isNull: bool)
    | BoolExpr(boolop: BoolOp, args: seq<Node>)
    | Exists(table: string, alias: string, condition: Node)             // EXISTS (SELECT 1 FROM .. WHERE ..)
  {
    /** The wrapper key is `A_Expr`, whatever its kind. */
    predicate IsAExpr() {
      Binary? || DistinctFrom? || Between? || InList? || Quantified?
    }

    predicate Is(op: BoolOp) { BoolExpr? && boolop == op }
  }

  /** `!=` and `<>` name one operator. */
  function CanonicalOp(op: string): string {
    if op == "!=" then "<>" else op
  }

  /** Two spellings name one operator exactly when they are the same or the two of inequality. */
  lemma SpelledAlike(a: string, b: string)
    ensures CanonicalOp(a) == CanonicalOp(b) <==> a == b || (a in {"<>", "!="} && b in {"<>", "!="})
  {
    assert "<>"[0] != "!="[0];
  }

  predicate IsComparison(op: string) {
    op == "=" || op == "<>" || op == "!=" || op == "<" || op == "<=" || op == ">" || op == ">="
  }

  predicate IsOpChar(c: char) {
    c == '+' || c == '-' || c == '*' || c == '/' || c == '<' || c == '>' || c == '=' || c == '~' ||
    c == '!' || c == '@' || c == '#' || c == '%' || c == '^' || c == '&' || c == '|' || c == '`' || c == '?'
  }

  /** Operators PostgreSQL reads back as one token (manual section 4.1.3); `=>` names arguments. */
  predicate IsOperator(op: string) {
    op != [] && op != "=>" &&
    (forall i | 0 <= i < |op| :: IsOpChar(op[i])) &&
    (forall i | 0 <= i < |op| - 1 :: !(op[i] == '-' && op[i + 1] == '-') && !(op[i] == '/' && op[i + 1] == '*')) &&
    (|op| > 1 ==> op[|op| - 1] != '+' && op[|op| - 1] != '-')
  }
}
