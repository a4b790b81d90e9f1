/**
 What relation predicates mean, read off the model: which side of a relation holds the foreign key, and
 which rows a path of relations reaches. From packages/adapter-pgsql/src/relation-keys.ts:10-55 and
 condition-compiler-factory.ts:85-96 and 777-828.
 */
module Relations {
  import opened Common
  import opened Semantics
  import opened Conditions
  import opened ConditionMeaning

  /** Two rows belong together: the foreign key is the source's for belongsTo, and the target's otherwise. */
  ghost predicate Linked(w: World, source: Row, r: Relation, target: Row) {
    |r.foreignKey| == |r.referencedKey| &&
    forall i | 0 <= i < |r.foreignKey| ::
      if r.kind == BelongsTo
      then Compare(w, "=", Cell(source, r.foreignKey[i]), Cell(target, r.referencedKey[i])) == True
      else Compare(w, "=", Cell(source, r.referencedKey[i]), Cell(target, r.foreignKey[i])) == True
  }

  lemma CorrelatedIsLinked(w: World, source: Row, r: Relation, target: Row)
    ensures Correlated(w, source, HopOf(r), target) <==> Linked(w, source, r, target)
  {
  }

  /** The condition has this truth; no condition at all is true. */
  ghost predicate Told(where: Option<Intent>, wanted: Truth, s: Schema, w: World, sc: Scope) {
    if where.Some? then Meaning(where.value, s, w, sc) == wanted else wanted == True
  }

  /**
   Along the path there is a row in each relation's table, linked to the one before it, and the condition
   has this truth for the last one.
   */
  ghost predicate SomeRow(m: Model, path: seq<string>, where: Option<Intent>, wanted: Truth, s: Schema, w: World,
      sc: Scope)
    decreases path
  {
    if path == [] then Told(where, wanted, s, w, sc)
    else
      match Resolve(m, sc.table, path[0])
      case None => false
      case Some(r) =>
        exists row | row in Rows(w, r.target) && Linked(w, sc.row, r, row) ::
          SomeRow(m, path[1..], where, wanted, s, w, Scope(r.target, row, Some(sc.row), sc.named))
  }

  /** The condition whose truth stands for the wanted truth of another. */
  function Wanting(where: Option<Intent>, wanted: Truth): Option<Intent>
    requires wanted == True || (wanted == False && where.Some?)
  {
    if wanted == True then where else Some(Negation(where.value))
  }

  /** One row of the first relation, from which the rest of the path reaches one. */
  ghost predicate FirstRow(m: Model, r: Relation, rest: seq<string>, where: Option<Intent>, wanted: Truth, s: Schema,
      w: World, sc: Scope)
  {
    exists row | row in Rows(w, r.target) && Linked(w, sc.row, r, row) ::
      SomeRow(m, rest, where, wanted, s, w, Scope(r.target, row, Some(sc.row), sc.named))
  }

  lemma WantedIsTold(where: Option<Intent>, wanted: Truth, s: Schema, w: World, sc: Scope)
    requires wanted == True || (wanted == False && where.Some?)
    ensures Satisfies(Wanting(where, wanted), s, w, sc) <==> Told(where, wanted, s, w, sc)
  {
    if wanted == False {
      assert Meaning(Negation(where.value), s, w, sc) == Semantics.Not(Meaning(where.value, s, w, sc));
    }
  }

  /** A path of one hop ends at a row the hop leads to. */
  ghost predicate EndRow(hop: Hop, where: Option<Intent>, s: Schema, w: World, sc: Scope) {
    exists row | row in Rows(w, hop.target) && Correlated(w, sc.row, hop, row) ::
      Satisfies(where, s, w, Step(hop, row, sc))
  }

  lemma SomeEndIsEndRow(hop: Hop, where: Option<Intent>, s: Schema, w: World, sc: Scope)
    ensures SomeEnd([hop], where, s, w, sc) <==> EndRow(hop, where, s, w, sc)
  {
    if SomeEnd([hop], where, s, w, sc) {
      var p :| Reaches(w, sc.row, [hop], p) && |p| > 0 && Satisfies(where, s, w, EndScope(sc, [hop], p));
      assert EndScope(sc, [hop], p) == Step(hop, p[0], sc);
    }
    if EndRow(hop, where, s, w, sc) {
      var row :| row in Rows(w, hop.target) && Correlated(w, sc.row, hop, row) &&
        Satisfies(where, s, w, Step(hop, row, sc));
      assert [row][1..] == [] && [hop][1..] == [];
      assert Reaches(w, sc.row, [hop], [row]);
      assert EndScope(sc, [hop], [row]) == Step(hop, row, sc);
    }
  }

  lemma OneHop(m: Model, r: Relation, where: Option<Intent>, wanted: Truth, s: Schema, w: World, sc: Scope)
    requires wanted == True || (wanted == False && where.Some?)
    ensures SomeEnd([HopOf(r)], Wanting(where, wanted), s, w, sc) <==> FirstRow(m, r, [], where, wanted, s, w, sc)
  {
    var hop, goal := HopOf(r), Wanting(where, wanted);
    SomeEndIsEndRow(hop, goal, s, w, sc);
    if EndRow(hop, goal, s, w, sc) {
      var row :| row in Rows(w, hop.target) && Correlated(w, sc.row, hop, row) &&
        Satisfies(goal, s, w, Step(hop, row, sc));
      CorrelatedIsLinked(w, sc.row, r, row);
      WantedIsTold(where, wanted, s, w, Step(hop, row, sc));
    }
    if FirstRow(m, r, [], where, wanted, s, w, sc) {
      var row :| row in Rows(w, r.target) && Linked(w, sc.row, r, row) &&
        SomeRow(m, [], where, wanted, s, w, Scope(r.target, row, Some(sc.row), sc.named));
      CorrelatedIsLinked(w, sc.row, r, row);
      WantedIsTold(where, wanted, s, w, Step(hop, row, sc));
    }
  }

  lemma MoreHops(m: Model, r: Relation, hops: seq<Hop>, rest: seq<string>, where: Option<Intent>, wanted: Truth,
      s: Schema, w: World, sc: Scope)
    requires wanted == True || (wanted == False && where.Some?)
    requires |hops| > 1 && hops[0] == HopOf(r)
    requires forall row ::
      SomeEnd(hops[1..], Wanting(where, wanted), s, w, Step(hops[0], row, sc))
      <==> SomeRow(m, rest, where, wanted, s, w, Step(hops[0], row, sc))
    ensures SomeEnd(hops, Wanting(where, wanted), s, w, sc) <==> FirstRow(m, r, rest, where, wanted, s, w, sc)
  {
    var goal := Wanting(where, wanted);
    SomeEndFirst(hops, goal, s, w, sc);
    if SomeEnd(hops, goal, s, w, sc) {
      var row :| row in Rows(w, r.target) && Correlated(w, sc.row, hops[0], row) &&
        SomeEnd(hops[1..], goal, s, w, Step(hops[0], row, sc));
      CorrelatedIsLinked(w, sc.row, r, row);
      assert Step(hops[0], row, sc) == Scope(r.target, row, Some(sc.row), sc.named);
    }
    if FirstRow(m, r, rest, where, wanted, s, w, sc) {
      var row :| row in Rows(w, r.target) && Linked(w, sc.row, r, row) &&
        SomeRow(m, rest, where, wanted, s, w, Scope(r.target, row, Some(sc.row), sc.named));
      CorrelatedIsLinked(w, sc.row, r, row);
      assert Step(hops[0], row, sc) == Scope(r.target, row, Some(sc.row), sc.named);
    }
  }

  lemma {:induction false} SomeEndIsSomeRow(m: Model, path: seq<string>, where: Option<Intent>, wanted: Truth,
      s: Schema, w: World, sc: Scope)
    requires path != [] && ResolvePath(m, sc.table, path).Some?
    requires wanted == True || (wanted == False && where.Some?)
    ensures SomeEnd(ResolvePath(m, sc.table, path).value, Wanting(where, wanted), s, w, sc)
            <==> SomeRow(m, path, where, wanted, s, w, sc)
    decreases path
  {
    var hops := ResolvePath(m, sc.table, path).value;
    var r := Resolve(m, sc.table, path[0]).value;
    assert SomeRow(m, path, where, wanted, s, w, sc) == FirstRow(m, r, path[1..], where, wanted, s, w, sc);
    if |path| == 1 {
      assert path[1..] == [] && hops == [HopOf(r)];
      OneHop(m, r, where, wanted, s, w, sc);
    } else {
      ResolvedLength(m, sc.table, path);
      assert hops[1..] == ResolvePath(m, r.target, path[1..]).value;
      forall row
        ensures SomeEnd(hops[1..], Wanting(where, wanted), s, w, Step(hops[0], row, sc))
                <==> SomeRow(m, path[1..], where, wanted, s, w, Step(hops[0], row, sc))
      {
        SomeEndIsSomeRow(m, path[1..], where, wanted, s, w, Step(hops[0], row, sc));
      }
      MoreHops(m, r, hops, path[1..], where, wanted, s, w, sc);
    }
  }

  /**
   With a model, a relation filter asks for the rows its path reaches: some asks for one that makes the
   condition true, none for no such row, and every for no row that makes it false.
   */
  lemma FilterMeansRows(path: seq<string>, mode: Mode, where: Option<Intent>, s: Schema, w: World, sc: Scope)
    requires s.model.Some? && Hops(s, sc.table, path).Some?
    ensures Meaning(RelationFilter(path, mode, where), s, w, sc) ==
            IfTrue(match mode
                   case AtLeastOne => SomeRow(s.model.value, path, where, True, s, w, sc)
                   case NoneOf => !SomeRow(s.model.value, path, where, True, s, w, sc)
                   case Every => !SomeRow(s.model.value, path, where, False, s, w, sc))
  {
    var m := s.model.value;
    if mode != Every {
      SomeIsNest(path, mode, where, s, w, sc);
      SomeEndIsSomeRow(m, path, where, True, s, w, sc);
    } else if where.Some? {
      EveryIsNest(path, where.value, s, w, sc);
      SomeEndIsSomeRow(m, path, where, False, s, w, sc);
    } else {
      NoRowIsUnwanted(m, path, s, w, sc);
      VacuousEveryIsTheChain(path, s, w, sc);
    }
  }

  /** Without a condition no row makes it false. */
  lemma {:induction false} NoRowIsUnwanted(m: Model, path: seq<string>, s: Schema, w: World, sc: Scope)
    ensures !SomeRow(m, path, None, False, s, w, sc)
    decreases path
  {
    if path != [] && Resolve(m, sc.table, path[0]).Some? {
      var r := Resolve(m, sc.table, path[0]).value;
      forall row ensures !SomeRow(m, path[1..], None, False, s, w, Scope(r.target, row, Some(sc.row), sc.named)) {
        NoRowIsUnwanted(m, path[1..], s, w, Scope(r.target, row, Some(sc.row), sc.named));
      }
    }
  }

  /** An exists predicate asks for a row of the one relation it names. */
  lemma RelatedMeansRows(relation: string, negated: bool, where: Option<Intent>, s: Schema, w: World, sc: Scope)
    requires s.model.Some? && Hops(s, sc.table, [relation]).Some?
    ensures Meaning(Related(relation, negated, where), s, w, sc)
            == IfTrue(negated != SomeRow(s.model.value, [relation], where, True, s, w, sc))
  {
    SomeEndIsSomeRow(s.model.value, [relation], where, True, s, w, sc);
    assert Meaning(Related(relation, negated, where), s, w, sc)
        == IfTrue(negated != SomeEnd(Hops(s, sc.table, [relation]).value, where, s, w, sc));
  }

  /** Without a model the rows of a relation are those whose derived key is the source's id. */
  ghost predicate ByConvention(relation: string, where: Option<Intent>, wanted: Truth, s: Schema, w: World, sc: Scope) {
    exists row | row in Rows(w, relation) &&
                 Compare(w, "=", Cell(sc.row, "id"), Cell(row, s.derive(sc.table))) == True ::
      Told(where, wanted, s, w, Scope(relation, row, Some(sc.row), sc.named))
  }

  lemma CorrelatedByConvention(relation: string, s: Schema, w: World, sc: Scope, row: Row)
    ensures Correlated(w, sc.row, Hop(relation, ["id"], [s.derive(sc.table)]), row)
            <==> Compare(w, "=", Cell(sc.row, "id"), Cell(row, s.derive(sc.table))) == True
  {
    var hop := Hop(relation, ["id"], [s.derive(sc.table)]);
    assert hop.source[0] == "id" && hop.keys[0] == s.derive(sc.table);
  }

  lemma EndRowByConvention(relation: string, where: Option<Intent>, wanted: Truth, s: Schema, w: World, sc: Scope)
    requires wanted == True || (wanted == False && where.Some?)
    ensures SomeEnd([Hop(relation, ["id"], [s.derive(sc.table)])], Wanting(where, wanted), s, w, sc)
            <==> ByConvention(relation, where, wanted, s, w, sc)
  {
    var hop, goal := Hop(relation, ["id"], [s.derive(sc.table)]), Wanting(where, wanted);
    SomeEndIsEndRow(hop, goal, s, w, sc);
    if EndRow(hop, goal, s, w, sc) {
      var row :| row in Rows(w, hop.target) && Correlated(w, sc.row, hop, row) &&
        Satisfies(goal, s, w, Step(hop, row, sc));
      CorrelatedByConvention(relation, s, w, sc, row);
      WantedIsTold(where, wanted, s, w, Step(hop, row, sc));
    }
    if ByConvention(relation, where, wanted, s, w, sc) {
      var row :| row in Rows(w, relation) &&
        Compare(w, "=", Cell(sc.row, "id"), Cell(row, s.derive(sc.table))) == True &&
        Told(where, wanted, s, w, Scope(relation, row, Some(sc.row), sc.named));
      CorrelatedByConvention(relation, s, w, sc, row);
      WantedIsTold(where, wanted, s, w, Step(hop, row, sc));
    }
  }

  /** The same without a model, where one relation can be followed by its conventional keys. */
  lemma FilterMeansConvention(relation: string, mode: Mode, where: Option<Intent>, s: Schema, w: World, sc: Scope)
    requires s.model.None?
    ensures Meaning(RelationFilter([relation], mode, where), s, w, sc) ==
            IfTrue(match mode
                   case AtLeastOne => ByConvention(relation, where, True, s, w, sc)
                   case NoneOf => !ByConvention(relation, where, True, s, w, sc)
                   case Every => !ByConvention(relation, where, False, s, w, sc))
  {
    assert Hops(s, sc.table, [relation]) == Some([Hop(relation, ["id"], [s.derive(sc.table)])]);
    if mode != Every {
      SomeIsNest([relation], mode, where, s, w, sc);
      EndRowByConvention(relation, where, True, s, w, sc);
    } else if where.Some? {
      EveryIsNest([relation], where.value, s, w, sc);
      EndRowByConvention(relation, where, False, s, w, sc);
    } else {
      VacuousEveryIsTheChain([relation], s, w, sc);
    }
  }

  // --- which relation a name stands for --------------------------------------------------------------------

  /** r is the first relation of that name; or no relation has the name, and r alone leads to a table of that name. */
  predicate StandsFor(rs: seq<Relation>, name: string, i: nat)
    requires i < |rs|
  {
    || (rs[i].name == name && forall j | 0 <= j < i :: rs[j].name != name)
    || ((forall j | 0 <= j < |rs| :: rs[j].name != name)
        && rs[i].target == name && forall j | 0 <= j < |rs| && j != i :: rs[j].target != name)
  }

  lemma {:induction false} DeclaredIsFirst(rs: seq<Relation>, name: string, i: nat)
    requires i < |rs| && rs[i].name == name && forall j | 0 <= j < i :: rs[j].name != name
    ensures Declared(rs, name) == Some(rs[i])
  {
    if i > 0 { DeclaredIsFirst(rs[1..], name, i - 1); }
  }

  lemma {:induction false} DeclaredAt(rs: seq<Relation>, name: string) returns (i: nat)
    requires Declared(rs, name).Some?
    ensures i < |rs| && Declared(rs, name) == Some(rs[i]) && rs[i].name == name
    ensures forall j | 0 <= j < i :: rs[j].name != name
  {
    if rs[0].name == name {
      i := 0;
    } else {
      i := DeclaredAt(rs[1..], name);
      i := i + 1;
    }
  }

  lemma {:induction false} UndeclaredNowhere(rs: seq<Relation>, name: string)
    requires Declared(rs, name).None?
    ensures forall j | 0 <= j < |rs| :: rs[j].name != name
  {
    if rs != [] {
      UndeclaredNowhere(rs[1..], name);
      assert forall j | 1 <= j < |rs| :: rs[j] == rs[1..][j - 1];
    }
  }

  lemma {:induction false} TargetingNone(rs: seq<Relation>, table: string)
    ensures Targeting(rs, table) == [] <==> forall j | 0 <= j < |rs| :: rs[j].target != table
  {
    if rs != [] {
      TargetingNone(rs[1..], table);
      assert forall j | 1 <= j < |rs| :: rs[j] == rs[1..][j - 1];
      assert rs[0].target != table ==> Targeting(rs, table) == Targeting(rs[1..], table);
    }
  }

  lemma {:induction false} TargetingOne(rs: seq<Relation>, table: string) returns (i: nat)
    requires |Targeting(rs, table)| == 1
    ensures i < |rs| && Targeting(rs, table) == [rs[i]] && rs[i].target == table
    ensures forall j | 0 <= j < |rs| && j != i :: rs[j].target != table
  {
    TargetingNone(rs[1..], table);
    if rs[0].target == table {
      assert Targeting(rs[1..], table) == [];
      i := 0;
      forall j | 0 <= j < |rs| && j != i ensures rs[j].target != table { assert rs[j] == rs[1..][j - 1]; }
    } else {
      var k := TargetingOne(rs[1..], table);
      i := k + 1;
      forall j | 0 <= j < |rs| && j != i ensures rs[j].target != table {
        if j > 0 { assert rs[j] == rs[1..][j - 1]; }
      }
    }
  }

  lemma {:induction false} TargetingOnly(rs: seq<Relation>, table: string, i: nat)
    requires i < |rs| && rs[i].target == table && forall j | 0 <= j < |rs| && j != i :: rs[j].target != table
    ensures Targeting(rs, table) == [rs[i]]
  {
    if i == 0 {
      TargetingNone(rs[1..], table);
    } else {
      TargetingOnly(rs[1..], table, i - 1);
    }
  }

  /** A name is resolved exactly to the relation it stands for on the source table. */
  lemma ResolvesExactly(m: Model, source: string, name: string, r: Relation)
    ensures Resolve(m, source, name) == Some(r) <==>
            source in m && exists i | 0 <= i < |m[source]| :: m[source][i] == r && StandsFor(m[source], name, i)
  {
    var rs := if source in m then m[source] else [];
    if Resolve(m, source, name) == Some(r) {
      if Declared(rs, name).Some? {
        var i := DeclaredAt(rs, name);
        assert StandsFor(rs, name, i);
      } else {
        UndeclaredNowhere(rs, name);
        var i := TargetingOne(rs, name);
        assert StandsFor(rs, name, i);
      }
    } else if source in m {
      forall i | 0 <= i < |rs| && StandsFor(rs, name, i) ensures rs[i] != r {
        if rs[i].name == name {
          DeclaredIsFirst(rs, name, i);
        } else {
          if Declared(rs, name).Some? { var k := DeclaredAt(rs, name); }
          TargetingOnly(rs, name, i);
        }
      }
    }
  }
}
