/**
 Assembling WITH statements from fragments compiled apart:
 packages/adapter-pgsql/src/adapter-compiler-recursive.ts:780-1164 and `prependSourceCte` in
 adapter-compiler-mutations.ts:217-233.
 */
module Ctes {
  import opened Common
  import opened Ast
  import opened Placeholders
  import Decimal
  import Deparser

  /** A compiled query: its text and the values of its placeholders. */
  datatype Query = Query(sql: string, params: seq<Datum>)

  datatype Column = Column(name: string, baseType: string, values: Datum)

  datatype Cte =
    | Unnest(name: string, columns: seq<Column>, indexColumn: Option<string>)
    | Raw(name: string, base: Query, step: Query, unionAll: bool, maxDepth: Option<Datum>, depthColumn: string)
    | Simple(name: string, query: Query)

  // --- the text of one CTE ---------------------------------------------------------------------------

  function Alias(c: Column): string { Deparser.QuoteIdent(c.name) }

  function Target(c: Column): string { "t." + Alias(c) + " AS " + Alias(c) }

  function Targets(cs: seq<Column>): seq<string> {
    if cs == [] then [] else Targets(cs[..|cs| - 1]) + [Target(cs[|cs| - 1])]
  }

  function Aliases(cs: seq<Column>): seq<string> {
    if cs == [] then [] else Aliases(cs[..|cs| - 1]) + [Alias(cs[|cs| - 1])]
  }

  function UnnestHead(name: string, cs: seq<Column>, indexColumn: Option<string>): string {
    var index := if indexColumn.None? then [] else ["t.ordinality - 1 AS " + Deparser.QuoteIdent(indexColumn.value)];
    Deparser.QuoteIdent(name) + " AS (SELECT " + Deparser.Join(Targets(cs) + index, ", ") + " FROM unnest("
  }

  function UnnestTail(cs: seq<Column>, indexColumn: Option<string>): string {
    var ordinality := if indexColumn.None? then [] else ["ordinality"];
    ")" + (if indexColumn.None? then "" else " WITH ORDINALITY") + " AS t(" +
    Deparser.Join(Aliases(cs) + ordinality, ", ") + "))"
  }

  function CastHead(first: bool): string { if first then "CAST(" else ", CAST(" }

  function CastTail(c: Column): string { " AS " + c.baseType + "[])" }

  /** The arguments of unnest, numbered from k + 1 on. */
  function Casts(cs: seq<Column>, k: nat): string {
    if cs == [] then []
    else
      var n := |cs| - 1;
      Casts(cs[..n], k) + CastHead(n == 0) + ("$" + Decimal.Print(k + |cs|) + CastTail(cs[n]))
  }

  function ColumnValues(cs: seq<Column>): (r: seq<Datum>)
    ensures |r| == |cs|
  {
    if cs == [] then [] else ColumnValues(cs[..|cs| - 1]) + [cs[|cs| - 1].values]
  }

  lemma {:induction false} ListLengths(cs: seq<Column>)
    ensures |Targets(cs)| == |cs| && |Aliases(cs)| == |cs|
  {
    if cs != [] { ListLengths(cs[..|cs| - 1]); }
  }

  /** The lists of a CTE name the columns in one order, which is also that of the arrays. */
  lemma {:induction false} ListsKeepOrder(cs: seq<Column>, i: nat)
    requires i < |cs|
    ensures |Targets(cs)| == |cs| && |Aliases(cs)| == |cs|
    ensures ColumnValues(cs)[i] == cs[i].values
    ensures Aliases(cs)[i] == Deparser.QuoteIdent(cs[i].name)
    ensures Targets(cs)[i] == "t." + Deparser.QuoteIdent(cs[i].name) + " AS " + Deparser.QuoteIdent(cs[i].name)
  {
    ListLengths(cs);
    ListLengths(cs[..|cs| - 1]);
    if i < |cs| - 1 { ListsKeepOrder(cs[..|cs| - 1], i); }
  }

  predicate IsWordChar(c: char) { 'a' <= c <= 'z' || 'A' <= c <= 'Z' || '0' <= c <= '9' || c == '_' }

  predicate SpellsWhere(s: string)
    requires |s| == 5
  {
    (s[0] == 'w' || s[0] == 'W') && (s[1] == 'h' || s[1] == 'H') && (s[2] == 'e' || s[2] == 'E') &&
    (s[3] == 'r' || s[3] == 'R') && (s[4] == 'e' || s[4] == 'E')
  }

  /** /\bWHERE\b/i */
  predicate MentionsWhere(s: string) {
    exists i | 0 <= i <= |s| - 5 :: WordAt(s, i)
  }

  predicate WordAt(s: string, i: nat)
    requires i + 5 <= |s|
  {
    SpellsWhere(s[i..i + 5]) && (i == 0 || !IsWordChar(s[i - 1])) && (i + 5 == |s| || !IsWordChar(s[i + 5]))
  }

  function DepthGuard(c: Cte, step: string): string
    requires c.Raw?
  {
    (if MentionsWhere(step) then " AND " else " WHERE ") + Deparser.Quote(c.depthColumn, '"') + " < "
  }

  /** The step after the base's parameters, and the depth limit after both. */
  function StepSql(c: Cte): string
    requires c.Raw?
  {
    var step := RenumberSqlParams(c.step.sql, |c.base.params|);
    if c.maxDepth.None? then step
    else step + DepthGuard(c, step) + ("$" + Decimal.Print(|c.base.params| + |c.step.params| + 1))
  }

  function RawHead(name: string): string { "\"" + name + "\" AS (" }

  function SetOp(unionAll: bool): string { if unionAll then " UNION ALL " else " UNION " }

  function RawSql(c: Cte): string
    requires c.Raw?
  {
    RawHead(c.name) + c.base.sql + SetOp(c.unionAll) + StepSql(c) + ")"
  }

  function Params(c: Cte): seq<Datum> {
    match c
    case Unnest(_, columns, _) => ColumnValues(columns)
    case Raw(_, base, step, _, maxDepth, _) =>
      base.params + step.params + (if maxDepth.Some? then [maxDepth.value] else [])
    case Simple(_, query) => query.params
  }

  /** The fragment of a CTE that follows k parameters. */
  function Fragment(c: Cte, k: nat): string {
    match c
    case Unnest(name, columns, indexColumn) =>
      UnnestHead(name, columns, indexColumn) + Casts(columns, k) + UnnestTail(columns, indexColumn)
    case Raw(_, _, _, _, _, _) => RenumberSqlParams(RawSql(c), k)
    case Simple(name, query) => RawHead(name) + RenumberSqlParams(query.sql, k) + ")"
  }

  // --- the statement ---------------------------------------------------------------------------------

  function AllParams(cs: seq<Cte>): seq<Datum> {
    if cs == [] then [] else AllParams(cs[..|cs| - 1]) + Params(cs[|cs| - 1])
  }

  function Fragments(cs: seq<Cte>): (r: seq<string>)
    ensures |r| == |cs|
  {
    if cs == [] then [] else Fragments(cs[..|cs| - 1]) + [Fragment(cs[|cs| - 1], |AllParams(cs[..|cs| - 1])|)]
  }

  function JoinBack(parts: seq<string>, sep: string): string {
    if parts == [] then []
    else JoinBack(parts[..|parts| - 1], sep) + (if |parts| == 1 then [] else sep) + parts[|parts| - 1]
  }

  predicate Recursive(cs: seq<Cte>) { exists c | c in cs :: c.Raw? }

  function Keyword(recursive: bool): string { if recursive then "WITH RECURSIVE " else "WITH " }

  function Statement(cs: seq<Cte>, outer: Query): Query {
    var tail := RenumberSqlParams(outer.sql, |AllParams(cs)|);
    Query(if cs == [] then tail else Keyword(Recursive(cs)) + JoinBack(Fragments(cs), ", ") + " " + tail,
          AllParams(cs) + outer.params)
  }

  /** `prependSourceCte`: one CTE in front of a finished statement. */
  function PrependSourceCte(query: Query, name: string, source: Query): Query {
    Query("WITH " + Deparser.QuoteIdent(name) + " as (" + source.sql + ") " +
          RenumberSqlParams(query.sql, |source.params|),
          source.params + query.params)
  }

  // --- names the text renumbering damages --------------------------------------------------------------------

  predicate IsNameStart(c: char) { 'a' <= c <= 'z' || 'A' <= c <= 'Z' || c == '_' }

  /** `validateIdentifier`, which accepts dollar signs. */
  predicate ValidIdentifier(name: string) {
    0 < |name| <= 63 && IsNameStart(name[0]) &&
    forall i | 0 <= i < |name| :: IsNameStart(name[i]) || Decimal.IsDigit(name[i]) || name[i] == '$'
  }

  /** No `$` directly followed by a digit. */
  predicate Clean(s: string) { Refs(s) == [] }

  /** A text survives renumbering exactly when nothing is added or it has no placeholder. */
  lemma SurvivesRenumbering(s: string, k: nat)
    ensures RenumberSqlParams(s, k) == s <==> k == 0 || Clean(s)
  {
    if Clean(s) && k > 0 { ShiftNothing(s, k); }
    if !Clean(s) && k > 0 {
      RefsOfShift(s, k);
      assert Plus(Refs(s), k)[0] == Refs(s)[0] + k;
    }
  }

  /**
   The name of a raw CTE is renumbered with the body. It survives exactly when no parameter comes
   before it or it has no `$` directly followed by a digit.
   */
  lemma RawNameSurvives(name: string, k: nat)
    requires ValidIdentifier(name)
    ensures RenumberSqlParams(RawHead(name), k) == RawHead(name) <==> k == 0 || Clean(name)
  {
    SurvivesRenumbering(RawHead(name), k);
    assert RawHead(name) == ['"'] + (name + "\" AS (");
    ScanFence('"', name + "\" AS (");
    RefsConcat(name, "\" AS (");
    NoDollarNoRefs("\" AS (");
  }

  lemma DollarName()
    ensures ValidIdentifier("a$1") && !Clean("a$1")
  {
    assert "a$1" == ['a'] + ("$" + "1" + []);
    ScanFence('a', "$" + "1" + []);
    RefsOfRun("1", []);
  }

  lemma DollarNameExample()
    ensures ValidIdentifier("a$1") && RenumberSqlParams(RawHead("a$1"), 1) != RawHead("a$1")
  {
    DollarName();
    RawNameSurvives("a$1", 1);
  }

  // --- as the assembly runs ------------------------------------------------------------------------------------

  datatype Error = InvalidIdentifier(name: string)

  /** Checks names in declaration order, then assembles. */
  function Assemble(cs: seq<Cte>, outer: Query): Result<Query, Error> {
    match FirstInvalid(cs)
    case Some(name) => Err(InvalidIdentifier(name))
    case None => Ok(Statement(cs, outer))
  }

  function FirstInvalid(cs: seq<Cte>): Option<string> {
    if cs == [] then None
    else
      var earlier := FirstInvalid(cs[..|cs| - 1]);
      if earlier.Some? then earlier
      else if ValidIdentifier(cs[|cs| - 1].name) then None
      else Some(cs[|cs| - 1].name)
  }

  /** By code point: one to 63 letters, digits, underscores and dollar signs, a letter or underscore first. */
  predicate Legal(name: string) {
    && 1 <= |name| <= 63
    && (forall i | 0 <= i < |name| ::
          var n := name[i] as int; 65 <= n <= 90 || n == 95 || 97 <= n <= 122 || n == 36 || 48 <= n <= 57)
    && name[0] != '$' && !(48 <= name[0] as int <= 57)
  }

  lemma ValidIsLegal(name: string)
    ensures ValidIdentifier(name) <==> Legal(name)
  {
  }

  /** The name complained of is the first one that is not legal, and without one there is no complaint. */
  lemma {:induction false} RefusesTheFirst(cs: seq<Cte>)
    ensures match FirstInvalid(cs)
            case None => forall c | c in cs :: Legal(c.name)
            case Some(name) =>
              exists i | 0 <= i < |cs| ::
                cs[i].name == name && !Legal(name) && forall j | 0 <= j < i :: Legal(cs[j].name)
  {
    if cs != [] {
      var front, last := cs[..|cs| - 1], |cs| - 1;
      RefusesTheFirst(front);
      ValidIsLegal(cs[last].name);
      if FirstInvalid(front).Some? {
        var i :| 0 <= i < |front| && front[i].name == FirstInvalid(front).value &&
          !Legal(front[i].name) && forall j | 0 <= j < i :: Legal(front[j].name);
        assert cs[i] == front[i] && forall j | 0 <= j < i :: cs[j] == front[j];
      } else {
        assert forall j | 0 <= j < last :: cs[j] in front;
      }
    }
  }

  lemma {:induction false} InvalidStays(cs: seq<Cte>, i: nat)
    requires i <= |cs| && FirstInvalid(cs[..i]).Some?
    ensures FirstInvalid(cs) == FirstInvalid(cs[..i])
    decreases |cs|
  {
    if i == |cs| {
      assert cs[..i] == cs;
    } else {
      assert cs[..|cs| - 1][..i] == cs[..i];
      InvalidStays(cs[..|cs| - 1], i);
    }
  }

  class CompilerState {
    var paramIndex: nat
    var parameters: seq<Datum>

    constructor ()
      ensures paramIndex == 0 && parameters == []
    {
      paramIndex, parameters := 0, [];
    }
  }

  /** `buildUnnestCte`: one array parameter for each column. */
  function ColumnCast(c: Column, first: bool, n: nat): string {
    CastHead(first) + ("$" + Decimal.Print(n) + CastTail(c))
  }

  lemma NextCast(cs: seq<Column>, i: nat, k: nat)
    requires i < |cs|
    ensures Casts(cs[..i + 1], k) == Casts(cs[..i], k) + ColumnCast(cs[i], i == 0, k + i + 1)
    ensures ColumnValues(cs[..i + 1]) == ColumnValues(cs[..i]) + [cs[i].values]
  {
    assert cs[..i + 1][..i] == cs[..i];
    Associative(Casts(cs[..i], k), CastHead(i == 0), "$" + Decimal.Print(k + i + 1) + CastTail(cs[i]));
  }

  /** Number the next placeholder, record its array and cast it. */
  method CastColumn(c: Column, first: bool, state: CompilerState) returns (text: string)
    modifies state
    ensures text == ColumnCast(c, first, state.paramIndex)
    ensures state.parameters == old(state.parameters) + [c.values] && state.paramIndex == old(state.paramIndex) + 1
  {
    state.parameters := state.parameters + [c.values];
    state.paramIndex := state.paramIndex + 1;
    text := CastHead(first) + ("$" + Decimal.Print(state.paramIndex) + CastTail(c));
  }

  method BuildUnnestCte(c: Cte, state: CompilerState) returns (sql: string)
    requires c.Unnest?
    modifies state
    ensures sql == Fragment(c, old(state.paramIndex))
    ensures state.parameters == old(state.parameters) + Params(c)
    ensures state.paramIndex == old(state.paramIndex) + |c.columns|
  {
    var cs := c.columns;
    var unnestArgs := "";
    var i := 0;
    while i < |cs|
      invariant i <= |cs|
      invariant unnestArgs == Casts(cs[..i], old(state.paramIndex))
      invariant state.parameters == old(state.parameters) + ColumnValues(cs[..i])
      invariant state.paramIndex == old(state.paramIndex) + i
    {
      NextCast(cs, i, old(state.paramIndex));
      var text := CastColumn(cs[i], i == 0, state);
      unnestArgs := unnestArgs + text;
      i := i + 1;
    }
    assert cs[..i] == cs;
    sql := UnnestHead(c.name, cs, c.indexColumn) + unnestArgs + UnnestTail(cs, c.indexColumn);
  }

  /** One CTE at its offset: an unnest numbers its own placeholders, the others are renumbered. */
  method CompileCte(c: Cte, offset: nat, state: CompilerState) returns (sql: string, params: seq<Datum>)
    modifies state
    ensures sql == Fragment(c, offset) && params == Params(c)
  {
    match c {
      case Unnest(_, _, _) =>
        var beforeUnnestParamCount := |state.parameters|;
        state.paramIndex := offset;
        sql := BuildUnnestCte(c, state);
        params := state.parameters[beforeUnnestParamCount..];
      case Raw(_, _, _, _, _, _) => sql, params := RenumberSqlParams(RawSql(c), offset), Params(c);
      case Simple(name, query) =>
        sql, params := RawHead(name) + RenumberSqlParams(query.sql, offset) + ")", query.params;
    }
  }

  /** What one more CTE adds to each accumulator. */
  lemma OneMoreCte(cs: seq<Cte>, i: nat)
    requires i < |cs|
    ensures AllParams(cs[..i + 1]) == AllParams(cs[..i]) + Params(cs[i])
    ensures Fragments(cs[..i + 1]) == Fragments(cs[..i]) + [Fragment(cs[i], |AllParams(cs[..i])|)]
    ensures Recursive(cs[..i + 1]) == (Recursive(cs[..i]) || cs[i].Raw?)
    ensures FirstInvalid(cs[..i]) == None ==>
      FirstInvalid(cs[..i + 1]) == if ValidIdentifier(cs[i].name) then None else Some(cs[i].name)
  {
    assert cs[..i + 1][..i] == cs[..i];
    assert cs[..i + 1] == cs[..i] + [cs[i]];
  }

  /** The loop over the declarations. */
  method CompileCtes(cs: seq<Cte>)
      returns (error: Option<Error>, params: seq<Datum>, fragments: seq<string>, isRecursive: bool)
    ensures match FirstInvalid(cs)
            case Some(name) => error == Some(InvalidIdentifier(name))
            case None =>
              error == None && params == AllParams(cs) && fragments == Fragments(cs) && isRecursive == Recursive(cs)
  {
    var state := new CompilerState();
    params, fragments, isRecursive := [], [], false;
    var i := 0;
    while i < |cs|
      invariant i <= |cs|
      invariant FirstInvalid(cs[..i]) == None
      invariant params == AllParams(cs[..i])
      invariant fragments == Fragments(cs[..i])
      invariant isRecursive == Recursive(cs[..i])
    {
      OneMoreCte(cs, i);
      if !ValidIdentifier(cs[i].name) {
        InvalidStays(cs, i + 1);
        return Some(InvalidIdentifier(cs[i].name)), [], [], false;
      }
      var sql, own := CompileCte(cs[i], |params|, state);
      isRecursive := isRecursive || cs[i].Raw?;
      params := params + own;
      fragments := fragments + [sql];
      i := i + 1;
    }
    assert cs[..i] == cs;
    error := None;
  }

  /** `compileCteQuery`: fragments in declaration order, then the outer query after all of them. */
  method CompileCteQuery(cs: seq<Cte>, outer: Query) returns (r: Result<Query, Error>)
    ensures r == Assemble(cs, outer)
  {
    var error, allCteParams, cteSqlFragments, isRecursive := CompileCtes(cs);
    if error.Some? { return Err(error.value); }
    var outerSql := RenumberSqlParams(outer.sql, |allCteParams|);
    var withClause := JoinBack(cteSqlFragments, ", ");
    r := Ok(Query(if cteSqlFragments == [] then outerSql else Keyword(isRecursive) + withClause + " " + outerSql,
                  allCteParams + outer.params));
  }
}
