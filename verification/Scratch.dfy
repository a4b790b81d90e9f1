/**
 Projecting a clone of a live relation onto the desired columns:
 packages/adapter-pgsql/src/expression-canonicalizer.ts:2128-2229.
 */
module Scratch {
  import opened Common

  datatype Name = Name(text: string)

  /** A column of a schema model. */
  datatype Column = Column(name: Name, kind: string, originalDbType: Option<string>, nullable: bool,
      collation: Option<string>)

  /** A column of a relation in the database. No collation is the type's own. */
  datatype Stored = Stored(dbType: string, nullable: bool, collation: Option<string>)

  /**
   What the type module decides: how a column's type is written, whether two written types are
   equal apart from their schemas, and the schema a column's type belongs to.
   */
  datatype Types = Types(render: Column -> string, equal: (string, string) -> bool, identity: Column -> Option<string>)

  function Normalize(kind: string): string {
    if kind == "timestamp" || kind == "datetime" then "timestamptz" else kind
  }

  predicate TypeChanged(t: Types, desired: Column, database: Column) {
    if desired.originalDbType.Some? && database.originalDbType.Some? then
      !t.equal(desired.originalDbType.value, database.originalDbType.value) ||
      (t.identity(desired).Some? && t.identity(database).Some? && t.identity(desired) != t.identity(database))
    else Normalize(desired.kind) != Normalize(database.kind)
  }

  /** An empty collation is no collation. */
  function Effective(collation: Option<string>): Option<string> {
    if collation == Some("") then None else collation
  }

  predicate Unique(cs: seq<Column>) { forall i, j | 0 <= i < j < |cs| :: cs[i].name != cs[j].name }

  function Names(cs: seq<Column>): set<Name> { set c | c in cs :: c.name }

  lemma NamesGrow(cs: seq<Column>, i: nat)
    requires i < |cs|
    ensures Names(cs[..i + 1]) == Names(cs[..i]) + {cs[i].name}
  {
    assert cs[..i + 1] == cs[..i] + [cs[i]];
  }

  /** The live relation is the one the database model describes. */
  predicate Describes(database: seq<Column>, live: map<Name, Stored>) {
    live.Keys == Names(database) &&
    forall c | c in database :: live[c.name].nullable == c.nullable && live[c.name].collation == Effective(c.collation)
  }

  // --- the temporary relation --------------------------------------------------------------------------

  /** Each method is one statement; its precondition is what the server checks. */
  class TempRelation {
    var columns: map<Name, Stored>

    /** CREATE TEMP TABLE .. (LIKE ..) */
    constructor Like(live: map<Name, Stored>)
      ensures columns == live
    {
      columns := live;
    }

    method DropColumn(name: Name)
      requires name in columns
      modifies this
      ensures columns == old(columns) - {name}
    {
      columns := columns - {name};
    }

    method AddColumn(name: Name, column: Stored)
      requires name !in columns
      modifies this
      ensures columns == old(columns)[name := column]
    {
      columns := columns[name := column];
    }

    /** Without a COLLATE clause the column gets the collation of its new type. */
    method AlterType(name: Name, dbType: string, collation: Option<string>)
      requires name in columns
      modifies this
      ensures columns == old(columns)[name := old(columns)[name].(dbType := dbType, collation := collation)]
    {
      columns := columns[name := columns[name].(dbType := dbType, collation := collation)];
    }

    method SetNullable(name: Name, nullable: bool)
      requires name in columns
      modifies this
      ensures columns == old(columns)[name := old(columns)[name].(nullable := nullable)]
    {
      columns := columns[name := columns[name].(nullable := nullable)];
    }
  }

  lemma NamesLast(cs: seq<Column>)
    requires cs != []
    ensures Names(cs) == Names(cs[..|cs| - 1]) + {cs[|cs| - 1].name}
  {
    NamesGrow(cs, |cs| - 1);
    assert cs[..|cs| - 1 + 1] == cs;
  }

  function ByName(cs: seq<Column>): (m: map<Name, Column>)
    ensures m.Keys == Names(cs)
    ensures forall n | n in m :: m[n].name == n
  {
    if cs == [] then map[]
    else
      NamesLast(cs);
      ByName(cs[..|cs| - 1])[cs[|cs| - 1].name := cs[|cs| - 1]]
  }

  lemma {:induction false} ByNameIsMember(cs: seq<Column>)
    ensures forall n | n in ByName(cs) :: ByName(cs)[n] in cs
  {
    if cs != [] { ByNameIsMember(cs[..|cs| - 1]); }
  }

  // --- the projection ------------------------------------------------------------------------------------

  /** What becomes of one desired column. */
  function Projected(t: Types, desired: Column, database: map<Name, Column>, live: map<Name, Stored>): Stored
    requires database.Keys == live.Keys
  {
    if desired.name !in database then Stored(t.render(desired), desired.nullable, Effective(desired.collation))
    else
      var c := database[desired.name];
      if TypeChanged(t, desired, c) || desired.collation != c.collation
      then Stored(t.render(desired), desired.nullable, Effective(desired.collation))
      else live[desired.name].(nullable := desired.nullable)
  }

  /** The names of the zoned timestamp. */
  const ZONED := {"timestamp", "datetime", "timestamptz"}

  /**
   The two columns have the same type: by their written types when both have one, unless the schemas
   they are known to belong to differ; by their kinds otherwise, where the zoned timestamp has three names.
   */
  predicate SameType(t: Types, desired: Column, database: Column) {
    match (desired.originalDbType, database.originalDbType)
    case (Some(wanted), Some(stored)) =>
      t.equal(wanted, stored) &&
      (t.identity(desired) == None || t.identity(database) == None || t.identity(desired) == t.identity(database))
    case _ => desired.kind == database.kind || (desired.kind in ZONED && database.kind in ZONED)
  }

  lemma ChangedIsNotSame(t: Types, desired: Column, database: Column)
    ensures TypeChanged(t, desired, database) <==> !SameType(t, desired, database)
  {
    var a, b := desired.kind, database.kind;
    assert |"timestamp"| != |"datetime"| && |"timestamptz"| != |"datetime"| && |"timestamp"| != |"timestamptz"|;
    assert Normalize(a) == Normalize(b) <==> a == b || (a in ZONED && b in ZONED);
  }

  /** Neither an absent nor an empty collation is written. */
  predicate Uncollated(collation: Option<string>) { collation == None || collation == Some([]) }

  lemma FoundByName(cs: seq<Column>, c: Column)
    requires Unique(cs) && c in cs
    ensures c.name in ByName(cs) && ByName(cs)[c.name] == c
  {
    ByNameIsMember(cs);
    var other := ByName(cs)[c.name];
    var i, j :| 0 <= i < |cs| && 0 <= j < |cs| && cs[i] == c && cs[j] == other;
    assert i == j;
  }

  /** A column of the live relation. */
  lemma KeptOrAltered(t: Types, desired: Column, c: Column, database: map<Name, Column>, live: map<Name, Stored>)
    requires database.Keys == live.Keys && desired.name in database && database[desired.name] == c
    requires live[desired.name].collation == Effective(c.collation)
    ensures var r := Projected(t, desired, database, live);
      && r.nullable == desired.nullable && r.collation == Effective(desired.collation)
      && r.dbType == if SameType(t, desired, c) && desired.collation == c.collation then live[desired.name].dbType
                     else t.render(desired)
  {
    ChangedIsNotSame(t, desired, c);
  }

  lemma EffectiveIsWritten(collation: Option<string>)
    ensures Effective(collation) == if Uncollated(collation) then None else collation
  {
  }

  /**
   The column has the desired nullability and collation. A new column has the desired type, and so has a
   column of another type or with a collation written otherwise; any other keeps the live type.
   */
  lemma ProjectedIsDesired(t: Types, desired: Column, database: seq<Column>, live: map<Name, Stored>)
    requires Unique(database) && Describes(database, live)
    ensures var r := Projected(t, desired, ByName(database), live);
      && r.nullable == desired.nullable
      && r.collation == (if Uncollated(desired.collation) then None else desired.collation)
      && (desired.name !in Names(database) ==> r.dbType == t.render(desired))
      && forall c | c in database && c.name == desired.name ::
           r.dbType == if SameType(t, desired, c) && desired.collation == c.collation then live[c.name].dbType
                       else t.render(desired)
  {
    EffectiveIsWritten(desired.collation);
    if desired.name in Names(database) {
      var found :| found in database && found.name == desired.name;
      FoundByName(database, found);
      KeptOrAltered(t, desired, found, ByName(database), live);
      forall c | c in database && c.name == desired.name ensures c == found {
        FoundByName(database, c);
      }
    }
  }

  lemma CountLast(cs: seq<Column>)
    requires cs != []
    ensures var front, name := cs[..|cs| - 1], cs[|cs| - 1].name;
      |Names(cs)| == if name in Names(front) then |Names(front)| else |Names(front)| + 1
  {
    NamesLast(cs);
    var front, name := cs[..|cs| - 1], cs[|cs| - 1].name;
    if name in Names(front) { assert Names(cs) == Names(front); }
  }

  lemma UniqueLast(cs: seq<Column>)
    requires cs != []
    ensures var front := cs[..|cs| - 1];
      Unique(cs) <==> Unique(front) && cs[|cs| - 1].name !in Names(front)
  {
    var front, n := cs[..|cs| - 1], |cs| - 1;
    assert forall i | 0 <= i < n :: front[i] == cs[i];
    if cs[n].name in Names(front) {
      var i :| 0 <= i < n && front[i].name == cs[n].name;
      assert !Unique(cs);
    } else {
      assert forall i | 0 <= i < n :: front[i] in front;
    }
  }

  /** No name is repeated exactly when there are as many names as columns. */
  lemma {:induction false} UniqueIsCounted(cs: seq<Column>)
    ensures |Names(cs)| <= |cs| && (Unique(cs) <==> |Names(cs)| == |cs|)
  {
    if cs != [] {
      UniqueIsCounted(cs[..|cs| - 1]);
      UniqueLast(cs);
      CountLast(cs);
    }
  }

  method IndexByName(cs: seq<Column>) returns (m: map<Name, Column>)
    ensures m == ByName(cs)
  {
    m := map[];
    var i := 0;
    while i < |cs|
      invariant i <= |cs| && m == ByName(cs[..i])
    {
      assert cs[..i + 1][..i] == cs[..i];
      m := m[cs[i].name := cs[i]];
      i := i + 1;
    }
    assert cs[..i] == cs;
  }

  /** After dropping the columns of a prefix that nobody desires. */
  ghost predicate Pruned(columns: map<Name, Stored>, live: map<Name, Stored>, done: seq<Column>, desired: set<Name>) {
    columns == live - (Names(done) - desired)
  }

  lemma PrunedNext(columns: map<Name, Stored>, live: map<Name, Stored>, database: seq<Column>, i: nat,
                   desired: set<Name>)
    requires i < |database| && Unique(database) && live.Keys == Names(database)
    requires Pruned(columns, live, database[..i], desired)
    ensures var name := database[i].name;
      if name in desired then Pruned(columns, live, database[..i + 1], desired)
      else name in columns && Pruned(columns - {name}, live, database[..i + 1], desired)
  {
    NamesGrow(database, i);
    var name := database[i].name;
    assert database[i] in database && name in Names(database);
    assert name !in Names(database[..i]);
    if name in desired {
      assert Names(database[..i + 1]) - desired == Names(database[..i]) - desired;
    } else {
      assert Names(database[..i + 1]) - desired == (Names(database[..i]) - desired) + {name};
    }
  }

  method DropUndesired(relation: TempRelation, database: seq<Column>, desired: set<Name>)
    requires Unique(database) && relation.columns.Keys == Names(database)
    modifies relation
    ensures relation.columns == old(relation.columns) - (Names(database) - desired)
  {
    var i := 0;
    while i < |database|
      invariant i <= |database|
      invariant Pruned(relation.columns, old(relation.columns), database[..i], desired)
    {
      PrunedNext(relation.columns, old(relation.columns), database, i, desired);
      if database[i].name !in desired {
        relation.DropColumn(database[i].name);
      }
      i := i + 1;
    }
    assert database[..i] == database;
  }

  /** One desired column: added, or altered where it differs. */
  method ProjectColumn(relation: TempRelation, t: Types, desired: Column, database: map<Name, Column>,
      ghost live: map<Name, Stored>)
    requires database.Keys == live.Keys
    requires desired.name in relation.columns <==> desired.name in database
    requires desired.name in database ==> relation.columns[desired.name] == live[desired.name]
    requires desired.name in database ==> live[desired.name].nullable == database[desired.name].nullable
    modifies relation
    ensures relation.columns == old(relation.columns)[desired.name := Projected(t, desired, database, live)]
  {
    if desired.name !in database {
      relation.AddColumn(desired.name, Stored(t.render(desired), desired.nullable, Effective(desired.collation)));
      return;
    }
    var databaseColumn := database[desired.name];
    var typeChanged := TypeChanged(t, desired, databaseColumn);
    var collationChanged := desired.collation != databaseColumn.collation;
    if typeChanged || collationChanged {
      relation.AlterType(desired.name, t.render(desired), Effective(desired.collation));
    }
    if desired.nullable != databaseColumn.nullable {
      relation.SetNullable(desired.name, desired.nullable);
    }
  }

  /** While columns are projected: those done are as desired, the others as they were. */
  ghost predicate Projecting(columns: map<Name, Stored>, t: Types, desired: seq<Column>, i: nat,
                             database: map<Name, Column>, live: map<Name, Stored>)
    requires i <= |desired| && database.Keys == live.Keys
  {
    && columns.Keys == (live.Keys * Names(desired)) + Names(desired[..i])
    && (forall j | 0 <= j < i :: columns[desired[j].name] == Projected(t, desired[j], database, live))
    && (forall n | n in columns && n !in Names(desired[..i]) :: n in live && columns[n] == live[n])
  }

  lemma NextIsNew(cs: seq<Column>, i: nat)
    requires i < |cs| && Unique(cs)
    ensures cs[i].name in Names(cs) && cs[i].name !in Names(cs[..i])
  {
    assert cs[i] in cs;
  }

  lemma ProjectingNext(columns: map<Name, Stored>, t: Types, desired: seq<Column>, i: nat,
                       database: map<Name, Column>, live: map<Name, Stored>)
    requires i < |desired| && database.Keys == live.Keys && Unique(desired)
    requires Projecting(columns, t, desired, i, database, live)
    ensures desired[i].name in columns <==> desired[i].name in database
    ensures desired[i].name in database ==> columns[desired[i].name] == live[desired[i].name]
    ensures Projecting(columns[desired[i].name := Projected(t, desired[i], database, live)], t, desired, i + 1,
        database, live)
  {
    NextIsNew(desired, i);
    ProjectedKeys(columns, live, desired, i, Projected(t, desired[i], database, live));
    ProjectedSoFar(columns, t, desired, i, database, live);
    NamesGrow(desired, i);
  }

  lemma ProjectedKeys(columns: map<Name, Stored>, live: map<Name, Stored>, desired: seq<Column>, i: nat, next: Stored)
    requires i < |desired| && columns.Keys == (live.Keys * Names(desired)) + Names(desired[..i])
    ensures columns[desired[i].name := next].Keys == (live.Keys * Names(desired)) + Names(desired[..i + 1])
  {
    NamesGrow(desired, i);
  }

  lemma ProjectedSoFar(columns: map<Name, Stored>, t: Types, desired: seq<Column>, i: nat,
                       database: map<Name, Column>, live: map<Name, Stored>)
    requires i < |desired| && database.Keys == live.Keys && Unique(desired)
    requires Projecting(columns, t, desired, i, database, live)
    ensures var next := columns[desired[i].name := Projected(t, desired[i], database, live)];
      forall j | 0 <= j < i + 1 ::
        desired[j].name in next && next[desired[j].name] == Projected(t, desired[j], database, live)
  {
    forall j | 0 <= j < i ensures desired[j].name in columns {
      assert desired[j] in desired[..i];
    }
  }

  method ProjectDesired(relation: TempRelation, t: Types, desired: seq<Column>, database: map<Name, Column>,
                        ghost live: map<Name, Stored>)
    requires Unique(desired) && database.Keys == live.Keys
    requires forall n | n in database :: live[n].nullable == database[n].nullable
    requires Projecting(relation.columns, t, desired, 0, database, live)
    modifies relation
    ensures Projecting(relation.columns, t, desired, |desired|, database, live)
  {
    var i := 0;
    while i < |desired|
      invariant i <= |desired|
      invariant Projecting(relation.columns, t, desired, i, database, live)
    {
      ProjectingNext(relation.columns, t, desired, i, database, live);
      ProjectColumn(relation, t, desired[i], database, live);
      i := i + 1;
    }
  }

  /**
   The clone ends with exactly the desired columns, each as Projected says, for any two column lists
   without repeated names.
   */
  method CreateProjectedScratchRelation(t: Types, desired: seq<Column>, database: seq<Column>, live: map<Name, Stored>)
    returns (relation: TempRelation)
    requires Unique(desired) && Unique(database) && Describes(database, live)
    ensures relation.columns.Keys == Names(desired)
    ensures forall c | c in desired :: relation.columns[c.name] == Projected(t, c, ByName(database), live)
  {
    relation := new TempRelation.Like(live);
    var desiredByName := IndexByName(desired);
    var databaseByName := IndexByName(database);
    DropUndesired(relation, database, desiredByName.Keys);
    ByNameIsMember(database);
    ProjectingStarts(relation.columns, t, desired, databaseByName, live);
    ProjectDesired(relation, t, desired, databaseByName, live);
    ProjectingEnds(relation.columns, t, desired, databaseByName, live);
  }

  lemma ProjectingStarts(columns: map<Name, Stored>, t: Types, desired: seq<Column>, database: map<Name, Column>,
                         live: map<Name, Stored>)
    requires database.Keys == live.Keys && columns == live - (live.Keys - Names(desired))
    ensures Projecting(columns, t, desired, 0, database, live)
  {
    assert Names(desired[..0]) == {};
  }

  lemma ProjectingEnds(columns: map<Name, Stored>, t: Types, desired: seq<Column>, database: map<Name, Column>,
                       live: map<Name, Stored>)
    requires database.Keys == live.Keys && Projecting(columns, t, desired, |desired|, database, live)
    ensures columns.Keys == Names(desired)
    ensures forall c | c in desired :: columns[c.name] == Projected(t, c, database, live)
  {
    assert desired[..|desired|] == desired;
  }
}
