/**
 Where a condition meets a junction table: packages/adapter-pgsql/src/condition-compiler-factory.ts:141-177 finds
 it by recursion, and it is stated here by the relation predicates that are reached.
 */
module Junctions {
  import opened Common
  import opened Conditions
  import opened Acceptance

  /** The relation predicate's path, if c is one. */
  function PathOf(c: Intent): Option<seq<string>> {
    match c
    case Related(relation, _, _) => Some([relation])
    case RelationFilter(path, _, _) => Some(path)
    case _ => None
  }

  /** Every hop of the path is declared and follows a foreign key. */
  predicate AllForeign(m: Model, table: string, path: seq<string>) {
    forall i | 0 <= i < |path| :: FollowsForeignKey(RelationAt(m, table, path, i))
  }

  /** The table at the end of such a path. */
  function EndOf(m: Model, table: string, path: seq<string>): string
    requires AllForeign(m, table, path)
  {
    if path == [] then table
    else
      assert FollowsForeignKey(RelationAt(m, table, path, |path| - 1));
      RelationAt(m, table, path, |path| - 1).value.target
  }

  /** Some hop of the path is many-to-many, and those before it are declared foreign keys. */
  ghost predicate MeetsJunction(m: Model, table: string, path: seq<string>) {
    exists i | 0 <= i < |path| ::
      && RelationAt(m, table, path, i).Some?
      && RelationAt(m, table, path, i).value.kind == BelongsToMany
      && forall j | 0 <= j < i :: FollowsForeignKey(RelationAt(m, table, path, j))
  }

  /** x is a part of c, and its rows are those of t when those of c are the table's. */
  ghost predicate Visits(c: Intent, m: Model, table: string, x: Intent, t: string)
    decreases c
  {
    || (x == c && t == table)
    || match c
       case And(cs) => exists i | 0 <= i < |cs| :: Visits(cs[i], m, table, x, t)
       case Or(cs) => exists i | 0 <= i < |cs| :: Visits(cs[i], m, table, x, t)
       case Negation(y) => Visits(y, m, table, x, t)
       case Related(relation, _, where) =>
         where.Some? && AllForeign(m, table, [relation]) && Visits(where.value, m, EndOf(m, table, [relation]), x, t)
       case RelationFilter(path, _, where) =>
         where.Some? && AllForeign(m, table, path) && Visits(where.value, m, EndOf(m, table, path), x, t)
       case _ => false
  }

  ghost predicate AtJunction(m: Model, x: Intent, t: string) { PathOf(x).Some? && MeetsJunction(m, t, PathOf(x).value) }

  lemma FirstHop(m: Model, table: string, path: seq<string>)
    requires path != [] && FollowsForeignKey(Resolve(m, table, path[0]))
    ensures var next := Resolve(m, table, path[0]).value.target;
      && (AllForeign(m, table, path) <==> AllForeign(m, next, path[1..]))
      && (MeetsJunction(m, table, path) <==> MeetsJunction(m, next, path[1..]))
  {
    var next, rest := Resolve(m, table, path[0]).value.target, path[1..];
    forall i | 0 < i < |path| ensures RelationAt(m, table, path, i) == RelationAt(m, next, rest, i - 1) {
      LaterRelation(m, table, path, i);
    }
    if AllForeign(m, table, path) {
      forall i | 0 <= i < |rest| ensures FollowsForeignKey(RelationAt(m, next, rest, i)) {
        assert FollowsForeignKey(RelationAt(m, table, path, i + 1));
      }
    }
    if AllForeign(m, next, rest) {
      forall i | 0 <= i < |path| ensures FollowsForeignKey(RelationAt(m, table, path, i)) {
        if i > 0 { assert FollowsForeignKey(RelationAt(m, next, rest, i - 1)); }
      }
    }
    if MeetsJunction(m, table, path) {
      var i :| 0 <= i < |path| && RelationAt(m, table, path, i).Some? &&
        RelationAt(m, table, path, i).value.kind == BelongsToMany &&
        forall j | 0 <= j < i :: FollowsForeignKey(RelationAt(m, table, path, j));
      assert i > 0 && RelationAt(m, next, rest, i - 1).Some?;
      forall j | 0 <= j < i - 1 ensures FollowsForeignKey(RelationAt(m, next, rest, j)) {
        assert FollowsForeignKey(RelationAt(m, table, path, j + 1));
      }
    }
    if MeetsJunction(m, next, rest) {
      var i :| 0 <= i < |rest| && RelationAt(m, next, rest, i).Some? &&
        RelationAt(m, next, rest, i).value.kind == BelongsToMany &&
        forall j | 0 <= j < i :: FollowsForeignKey(RelationAt(m, next, rest, j));
      assert RelationAt(m, table, path, i + 1).Some?;
      forall j | 0 <= j < i + 1 ensures FollowsForeignKey(RelationAt(m, table, path, j)) {
        if j > 0 { assert FollowsForeignKey(RelationAt(m, next, rest, j - 1)); }
      }
    }
  }

  lemma NoFirstHop(m: Model, table: string, path: seq<string>)
    requires path != [] && !FollowsForeignKey(Resolve(m, table, path[0]))
    ensures !AllForeign(m, table, path)
    ensures MeetsJunction(m, table, path) <==> Resolve(m, table, path[0]).Some?
  {
    assert RelationAt(m, table, path, 0) == Resolve(m, table, path[0]);
    assert !FollowsForeignKey(RelationAt(m, table, path, 0));
  }

  lemma EndAfterFirst(m: Model, table: string, path: seq<string>)
    requires path != [] && AllForeign(m, table, path) && Resolve(m, table, path[0]).Some?
    requires AllForeign(m, Resolve(m, table, path[0]).value.target, path[1..])
    ensures EndOf(m, table, path) == EndOf(m, Resolve(m, table, path[0]).value.target, path[1..])
  {
    var next, n := Resolve(m, table, path[0]).value.target, |path| - 1;
    if n > 0 {
      LaterRelation(m, table, path, n);
      assert FollowsForeignKey(RelationAt(m, table, path, n));
      assert FollowsForeignKey(RelationAt(m, next, path[1..], n - 1));
    }
  }

  /** The walk ends at the last hop's target, or crosses a junction table, exactly when the path does. */
  lemma {:induction false} WalkMeets(m: Model, table: string, path: seq<string>)
    ensures WalkPath(m, table, path).CrossesJunction? <==> MeetsJunction(m, table, path)
    ensures WalkPath(m, table, path).Ends? <==> AllForeign(m, table, path)
    ensures AllForeign(m, table, path) ==> WalkPath(m, table, path) == Ends(EndOf(m, table, path))
    decreases path
  {
    if path != [] {
      var first := Resolve(m, table, path[0]);
      if FollowsForeignKey(first) {
        WalkMeets(m, first.value.target, path[1..]);
        FirstHop(m, table, path);
        if AllForeign(m, table, path) { EndAfterFirst(m, table, path); }
      } else {
        NoFirstHop(m, table, path);
      }
    }
  }

  lemma {:induction false} CrossesWhereVisited(c: Intent, m: Model, table: string, x: Intent, t: string)
    requires Visits(c, m, table, x, t) && AtJunction(m, x, t)
    ensures CrossesManyToMany(c, m, table)
    decreases c
  {
    if PathOf(c).Some? { WalkMeets(m, table, PathOf(c).value); }
    if !(x == c && t == table) {
      match c
      case And(cs) =>
        var i :| 0 <= i < |cs| && Visits(cs[i], m, table, x, t);
        CrossesWhereVisited(cs[i], m, table, x, t);
      case Or(cs) =>
        var i :| 0 <= i < |cs| && Visits(cs[i], m, table, x, t);
        CrossesWhereVisited(cs[i], m, table, x, t);
      case Negation(y) => CrossesWhereVisited(y, m, table, x, t);
      case Related(relation, _, where) =>
        CrossesWhereVisited(where.value, m, EndOf(m, table, [relation]), x, t);
      case RelationFilter(path, _, where) => CrossesWhereVisited(where.value, m, EndOf(m, table, path), x, t);
    }
  }

  lemma {:induction false} VisitedWhereCrosses(c: Intent, m: Model, table: string) returns (x: Intent, t: string)
    requires CrossesManyToMany(c, m, table)
    ensures Visits(c, m, table, x, t) && AtJunction(m, x, t)
    decreases c
  {
    x, t := c, table;
    match c {
      case And(cs) =>
        var i :| 0 <= i < |cs| && CrossesManyToMany(cs[i], m, table);
        x, t := VisitedWhereCrosses(cs[i], m, table);
      case Or(cs) =>
        var i :| 0 <= i < |cs| && CrossesManyToMany(cs[i], m, table);
        x, t := VisitedWhereCrosses(cs[i], m, table);
      case Negation(y) => x, t := VisitedWhereCrosses(y, m, table);
      case Related(relation, _, where) =>
        WalkMeets(m, table, [relation]);
        if !MeetsJunction(m, table, [relation]) {
          x, t := VisitedWhereCrosses(where.value, m, EndOf(m, table, [relation]));
        }
      case RelationFilter(path, _, where) =>
        WalkMeets(m, table, path);
        if !MeetsJunction(m, table, path) {
          x, t := VisitedWhereCrosses(where.value, m, EndOf(m, table, path));
        }
      case _ =>
    }
  }

  /** The check refuses exactly the conditions in which some visited relation predicate meets a junction table. */
  lemma CrossesExactly(c: Intent, m: Model, table: string)
    ensures CrossesManyToMany(c, m, table) <==> exists x, t :: Visits(c, m, table, x, t) && AtJunction(m, x, t)
  {
    if CrossesManyToMany(c, m, table) { var x, t := VisitedWhereCrosses(c, m, table); }
    if exists x, t :: Visits(c, m, table, x, t) && AtJunction(m, x, t) {
      var x, t :| Visits(c, m, table, x, t) && AtJunction(m, x, t);
      CrossesWhereVisited(c, m, table, x, t);
    }
  }
}
