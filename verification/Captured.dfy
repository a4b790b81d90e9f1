/**
 What becomes of a condition whose EXISTS alias the server cuts: a table of 63 bytes that is related
 to itself. The condition asks for the parent of a row and reads back as asking for a row that is
 its own parent.
 */
module Captured {
  import opened Common
  import opened Ast
  import opened Semantics
  import opened Conditions
  import opened Lexer
  import opened PrintedTokens
  import Aliases
  import CutNames
  import Deparser
  import Names
  import Parser

  function ParentOf(table: string): Schema {
    Schema(Some(map[table := [Relation("parent", BelongsTo, table, ["parent_id"], ["id"])]]), (t: string) => t, true)
  }

  function Root(table: string): Ctx { Ctx(table, table, None, {table}) }

  const START: State := State(0, [], map[])
  const CHILD: Row := map["id" := NumVal(1), "parent_id" := NumVal(2)]
  const PARENT: Row := map["id" := NumVal(2), "parent_id" := NumVal(3)]
  const HAS_PARENT: Intent := Related("parent", false, None)

  function Family(table: string): World {
    World(map[table := [CHILD, PARENT]],
          (op: string, a: Datum, b: Datum) => BoolVal(if op == "=" then a == b else a != b))
  }

  function Correlation(outer: string, inner: string): Node {
    Binary("=", Ast.Column([outer, "parent_id"]), Ast.Column([inner, "id"]))
  }

  function Alias(table: string): string { Aliases.FreshExists(table, {table}, 0) }

  function ParentHop(table: string): Hop { Hop(table, ["parent_id"], ["id"]) }

  lemma ResolvesTo(table: string)
    ensures var m := ParentOf(table).model.value;
      && Resolve(m, table, "parent") == Some(Relation("parent", BelongsTo, table, ["parent_id"], ["id"]))
      && ResolvePath(m, table, ["parent"]) == Some([ParentHop(table)])
      && WalkPath(m, table, ["parent"]) == Ends(table)
  {
    var m := ParentOf(table).model.value;
    assert ["parent"][1..] == [];
    assert ResolvePath(m, table, []) == Some([]) && [ParentHop(table)] + [] == [ParentHop(table)];
  }

  lemma CorrelatesTo(table: string)
    ensures KeyCorrelation(table, ["parent_id"], Alias(table), ["id"]) == Ok(Correlation(table, Alias(table)))
  {
  }

  lemma CompilesTo(table: string)
    requires table != []
    ensures CompileCondition(HAS_PARENT, ParentOf(table), Root(table), START).Ok?
    ensures CompileCondition(HAS_PARENT, ParentOf(table), Root(table), START).value.0 ==
            Exists(table, Alias(table), Correlation(table, Alias(table)))
  {
    ResolvesTo(table);
    HopCompilesTo(table);
    IsOneHop(table);
  }

  lemma IsOneHop(table: string)
    ensures Compile(HAS_PARENT, ParentOf(table), Root(table), START)
            == Compile(Via(ParentHop(table), false, None), ParentOf(table), Root(table), START)
  {
    ResolvesTo(table);
    assert HopOf(Relation("parent", BelongsTo, table, ["parent_id"], ["id"])) == ParentHop(table);
  }

  lemma HopCompilesTo(table: string)
    requires table != []
    ensures var r := Compile(Via(ParentHop(table), false, None), ParentOf(table), Root(table), START);
      r.Ok? && r.value.0 == Exists(table, Alias(table), Correlation(table, Alias(table)))
  {
    CorrelatesTo(table);
    FirstAlias(table);
    HopCompiles(ParentHop(table), ParentOf(table), Root(table), START, Correlation(table, Alias(table)));
  }

  lemma HopCompiles(hop: Hop, s: Schema, ctx: Ctx, st: State, correlation: Node)
    requires hop.target != []
    requires KeyCorrelation(ctx.alias, hop.source, ExistsAlias(hop, ctx, st), hop.keys) == Ok(correlation)
    ensures var r := Compile(Via(hop, false, None), s, ctx, st);
      r.Ok? && r.value.0 == Exists(hop.target, ExistsAlias(hop, ctx, st), correlation)
  {
  }

  lemma FirstAlias(table: string)
    ensures ExistsAlias(ParentHop(table), Root(table), START) == Alias(table)
  {
    NamesInUse(table);
  }

  lemma NamesInUse(table: string)
    ensures InUse(Root(table), START) == {table} && |START.aliases| == 0
  {
    var none := START.aliases;
    assert none.Keys == {} && none.Values == {};
  }

  lemma CorrelationIsCut(table: string)
    requires Names.Bytes(table) == 63
    ensures Keep(table) == Keep(Alias(table)) == table
    ensures CutNames.Cut(Correlation(table, Alias(table))) == Correlation(table, table)
  {
    Aliases.SelfRelationIsCaptured(table, 0);
    KeepsWhatFits(table);
    ShortColumns();
    EqualityIsCut(table, "parent_id", Alias(table), "id");
  }

  lemma EqualityIsCut(a: string, x: string, b: string, y: string)
    ensures CutNames.Cut(Binary("=", Ast.Column([a, x]), Ast.Column([b, y])))
            == Binary("=", Ast.Column([Keep(a), Keep(x)]), Ast.Column([Keep(b), Keep(y)]))
  {
    TwoKept(a, x);
    TwoKept(b, y);
  }

  lemma TwoKept(a: string, b: string)
    ensures CutNames.KeepAll([a, b]) == [Keep(a), Keep(b)]
  {
    assert [a, b][1..] == [b] && [b][1..] == [];
  }

  lemma QueryIsWellSorted(table: string, alias: string)
    requires table != [] && alias != []
    ensures WellSorted(Exists(table, alias, Correlation(table, alias)))
  {
    assert IsOperator("=");
    assert WellSorted(Ast.Column([table, "parent_id"])) && WellSorted(Ast.Column([alias, "id"]));
  }

  lemma ReadsAs(table: string)
    requires Names.Bytes(table) == 63
    ensures Parser.Parse(Deparser.Deparse(Exists(table, Alias(table), Correlation(table, Alias(table))))) ==
            Some(Exists(table, table, Correlation(table, table)))
  {
    var node := Exists(table, Alias(table), Correlation(table, Alias(table)));
    var read := Exists(table, table, Correlation(table, table));
    Aliases.SelfRelationIsCaptured(table, 0);
    CorrelationIsCut(table);
    assert CutNames.Cut(node) == read;
    CorrelationReads(table);
    QueryIsFlat(table, Correlation(table, table));
    QueryIsWellSorted(table, Alias(table));
    CutNames.ServerReads(node);
  }

  lemma QueryIsFlat(table: string, condition: Node)
    requires Legible(table) && Printable(condition) && Flat(condition) == condition
    ensures var n := Exists(table, table, condition); Printable(n) && Flat(n) == n
  {
  }

  lemma ShortColumns()
    ensures Fits("parent_id") && Fits("id") && Keep("parent_id") == "parent_id" && Keep("id") == "id"
  {
    Names.AsciiBytes("parent_id");
    Names.AsciiBytes("id");
    KeepsWhatFits("parent_id");
    KeepsWhatFits("id");
  }

  lemma CorrelationReads(table: string)
    requires Names.Bytes(table) == 63
    ensures Legible(table) && Printable(Correlation(table, table))
    ensures Flat(Correlation(table, table)) == Correlation(table, table)
  {
    if MisreadName(table) { CutNames.ShortWords(table); }
    ShortColumns();
    EqualityReads(table, "parent_id", "id");
  }

  lemma EqualityReads(table: string, x: string, y: string)
    requires Legible(table) && x != [] && Fits(x) && y != [] && Fits(y)
    ensures var n := Binary("=", Ast.Column([table, x]), Ast.Column([table, y])); Printable(n) && Flat(n) == n
  {
    ColumnReads(table, x);
    ColumnReads(table, y);
    assert IsOperator("=") && CanonicalOp("=") == "=";
  }

  lemma ColumnReads(table: string, column: string)
    requires Legible(table) && column != [] && Fits(column)
    ensures Printable(Ast.Column([table, column])) && OperandLevel(Ast.Column([table, column])) == PRIMARY
  {
  }

  /** With a table name of 63 bytes the server evaluates another condition than the one compiled. */
  lemma SelfRelationReadsDifferently(table: string)
    requires Names.Bytes(table) == 63
    ensures var compiled := CompileCondition(HAS_PARENT, ParentOf(table), Root(table), START);
      && compiled.Ok?
      && var read := Parser.Parse(Deparser.Deparse(compiled.value.0));
      && read.Some?
      && Holds(read.value, map[table := CHILD], [], Family(table)) == False
      && Meaning(HAS_PARENT, ParentOf(table), Family(table), Scope(table, CHILD, None, map[])) == True
  {
    CompilesTo(table);
    ReadsAs(table);
    NobodyIsTheirOwnParent(table);
    SomebodyIsTheParent(table);
  }

  lemma NobodyIsTheirOwnParent(table: string)
    ensures Holds(Exists(table, table, Correlation(table, table)), map[table := CHILD], [], Family(table)) == False
  {
    var w, env := Family(table), map[table := CHILD];
    forall row | row in Rows(w, table)
      ensures TruthOf(Eval(Correlation(table, table), env[table := row], [], w)) != True
    {
      assert Eval(Ast.Column([table, "parent_id"]), env[table := row], [], w) == Cell(row, "parent_id");
      assert Eval(Ast.Column([table, "id"]), env[table := row], [], w) == Cell(row, "id");
    }
  }

  lemma SomebodyIsTheParent(table: string)
    ensures Meaning(HAS_PARENT, ParentOf(table), Family(table), Scope(table, CHILD, None, map[])) == True
  {
    var w := Family(table);
    var p := [PARENT];
    ResolvesTo(table);
    assert PARENT in Rows(w, table) && Correlated(w, CHILD, ParentHop(table), PARENT);
    assert p[1..] == [] && [ParentHop(table)][1..] == [];
    assert Reaches(w, CHILD, [ParentHop(table)], p);
  }
}
