/**
 Classifying a thrown error with everything nested in it:
 packages/adapter-pgsql/src/expression-canonicalizer.ts:220-225 and 2592-2693.
 */
module Errors {
  import opened Common

  /** A thrown value is undefined or something with an identity: an object, null or a primitive. */
  datatype Thrown = Undefined | Item(id: nat)

  /** A property of the object itself. Its value may still be undefined. */
  datatype Property = Absent | Own(value: Thrown)

  datatype Info = Info(
    code: Option<string>, cause: Thrown, originalError: Thrown, cleanupError: Property,
    errors: Option<seq<Thrown>>,  // of an AggregateError
    transactionAborted: bool, abortedCommit: bool, rawSqlTransactionControl: bool)

  /** The objects; whatever is not among them has no properties. They may refer to each other in cycles. */
  type Heap = map<nat, Info>

  function Present(t: Thrown): seq<Thrown> { if t == Undefined then [] else [t] }

  /** y is the cause of x, its original error, its own cleanup error or one of the errors it aggregates. */
  predicate HoldsError(h: Heap, x: nat, y: nat) {
    && x in h
    && (|| h[x].cause == Item(y)
        || h[x].originalError == Item(y)
        || h[x].cleanupError == Own(Item(y))
        || (h[x].errors.Some? && Item(y) in h[x].errors.value))
  }

  /** x is no object, or an object with none of the four; an aggregate of something is one even if that is undefined. */
  predicate HoldsNothing(h: Heap, x: nat) {
    x in h ==>
      && h[x].cause == h[x].originalError == Undefined
      && (h[x].cleanupError == Absent || h[x].cleanupError == Own(Undefined))
      && (h[x].errors == None || h[x].errors == Some([]))
  }

  /** `nestedErrors` */
  function Nested(h: Heap, id: nat): seq<Thrown> {
    if id !in h then []
    else
      var e := h[id];
      Present(e.cause) + Present(e.originalError) +
      (if e.cleanupError.Own? then Present(e.cleanupError.value) else []) +
      (if e.errors.Some? then e.errors.value else [])
  }

  /** What is nested in an error is what it holds. */
  lemma NestedIsHeld(h: Heap, x: nat)
    ensures forall y :: Item(y) in Nested(h, x) <==> HoldsError(h, x, y)
    ensures Nested(h, x) == [] <==> HoldsNothing(h, x)
  {
    if x in h {
      var e := h[x];
      var cleanup := if e.cleanupError.Own? then Present(e.cleanupError.value) else [];
      var errors := if e.errors.Some? then e.errors.value else [];
      assert Nested(h, x) == Present(e.cause) + Present(e.originalError) + cleanup + errors;
      assert Undefined !in Present(e.cause) + Present(e.originalError) + cleanup;
      forall y ensures Item(y) in Nested(h, x) <==> HoldsError(h, x, y) {
        assert Item(y) in Present(e.cause) <==> e.cause == Item(y);
        assert Item(y) in Present(e.originalError) <==> e.originalError == Item(y);
        assert Item(y) in cleanup <==> e.cleanupError == Own(Item(y));
      }
    }
  }

  // --- reachability -------------------------------------------------------------------------------------

  /** Each element is held by the one before it. */
  predicate IsPath(h: Heap, p: seq<nat>) {
    p != [] && forall i | 0 <= i < |p| - 1 :: HoldsError(h, p[i], p[i + 1])
  }

  ghost predicate Reaches(h: Heap, a: nat, b: nat) {
    exists p :: IsPath(h, p) && p[0] == a && p[|p| - 1] == b
  }

  lemma ReachesItself(h: Heap, a: nat)
    ensures Reaches(h, a, a)
  {
    assert IsPath(h, [a]) && [a][0] == a && [a][|[a]| - 1] == a;
  }

  lemma ReachesNested(h: Heap, a: nat, b: nat, c: nat)
    requires Reaches(h, a, b) && Item(c) in Nested(h, b)
    ensures Reaches(h, a, c)
  {
    var p :| IsPath(h, p) && p[0] == a && p[|p| - 1] == b;
    var q := p + [c];
    NestedIsHeld(h, b);
    assert IsPath(h, q) && q[0] == a && q[|q| - 1] == c;
  }

  /** A set that contains a and everything nested in its members contains all that a reaches. */
  lemma ClosedHoldsReachable(h: Heap, a: nat, s: set<nat>, b: nat)
    requires a in s && (forall x, y | x in s && Item(y) in Nested(h, x) :: y in s)
    requires Reaches(h, a, b)
    ensures b in s
  {
    var p :| IsPath(h, p) && p[0] == a && p[|p| - 1] == b;
    PathStaysInside(h, p, s);
  }

  lemma {:induction false} PathStaysInside(h: Heap, p: seq<nat>, s: set<nat>)
    requires IsPath(h, p) && p[0] in s && (forall x, y | x in s && Item(y) in Nested(h, x) :: y in s)
    ensures p[|p| - 1] in s
  {
    if |p| > 1 {
      NestedIsHeld(h, p[0]);
      assert HoldsError(h, p[0], p[1]);
      var q := p[1..];
      forall i | 0 <= i < |q| - 1 ensures HoldsError(h, q[i], q[i + 1]) {
        assert HoldsError(h, p[i + 1], p[i + 1 + 1]);
      }
      PathStaysInside(h, q, s);
    }
  }

  // --- the worklist ---------------------------------------------------------------------------------------

  /** Every identity the heap or the error mentions. */
  function Identities(ts: seq<Thrown>): set<nat> { set t | t in ts && t.Item? :: t.id }

  function Mentioned(h: Heap): set<nat> { set x, y | x in h && y in Identities(Nested(h, x)) :: y }

  predicate NoRepeats(s: seq<nat>) { forall i, j | 0 <= i < j < |s| :: s[i] != s[j] }

  /** What is nested in the items found so far is found or waiting. */
  ghost predicate Covered(h: Heap, items: seq<nat>, pending: seq<Thrown>) {
    forall x, y | x in items && Item(y) in Nested(h, x) :: y in items || Item(y) in pending
  }

  ghost predicate AllReached(h: Heap, error: Thrown, ids: set<nat>) {
    forall x | x in ids :: error.Item? && Reaches(h, error.id, x)
  }

  lemma SeenShrinks(all: set<nat>, seen: set<nat>, id: nat)
    requires id in all && id !in seen
    ensures |all - (seen + {id})| < |all - seen|
  {
    assert all - seen == (all - (seen + {id})) + {id};
  }

  /** What holds between two steps of the worklist. */
  ghost predicate Searching(h: Heap, error: Thrown, items: seq<nat>, pending: seq<Thrown>) {
    && NoRepeats(items)
    && (forall x | x in items :: error.Item? && Reaches(h, error.id, x))
    && AllReached(h, error, Identities(pending))
    && Covered(h, items, pending)
    && (error in pending || error == Undefined || error.id in items)
  }

  lemma SearchStarts(h: Heap, error: Thrown)
    ensures Searching(h, error, [], [error])
  {
    if error.Item? { ReachesItself(h, error.id); }
  }

  /** Dropping something undefined or already found. */
  lemma SearchSkips(h: Heap, error: Thrown, items: seq<nat>, pending: seq<Thrown>)
    requires pending != [] && Searching(h, error, items, pending)
    requires pending[0] == Undefined || pending[0].id in items
    ensures Searching(h, error, items, pending[1..])
  {
    assert pending == [pending[0]] + pending[1..];
    forall t | t in pending && t.Item? && t.id !in items ensures t in pending[1..] {}
    assert Identities(pending[1..]) <= Identities(pending);
  }

  /** Finding one and putting what is nested in it at the end. */
  lemma SearchVisits(h: Heap, error: Thrown, items: seq<nat>, pending: seq<Thrown>, id: nat)
    requires pending != [] && Searching(h, error, items, pending) && pending[0] == Item(id) && id !in items
    ensures Searching(h, error, items + [id], pending[1..] + Nested(h, id))
  {
    var more := pending[1..] + Nested(h, id);
    assert pending == [Item(id)] + pending[1..];
    assert id in Identities(pending);
    forall x | x in Identities(more) ensures error.Item? && Reaches(h, error.id, x) {
      if Item(x) in Nested(h, id) {
        ReachesNested(h, error.id, id, x);
      } else {
        assert Item(x) in pending;
        assert x in Identities(pending);
      }
    }
    forall x, y | x in items + [id] && Item(y) in Nested(h, x) ensures y in items + [id] || Item(y) in more {
    }
  }

  lemma SearchEnds(h: Heap, error: Thrown, items: seq<nat>, id: nat)
    requires Searching(h, error, items, []) && error.Item? && Reaches(h, error.id, id)
    ensures id in items
  {
    var found := set x | x in items;
    ClosedHoldsReachable(h, error.id, found, id);
  }

  lemma MentionsNested(h: Heap, id: nat)
    ensures Identities(Nested(h, id)) <= Mentioned(h)
  {
    if id in h {
      forall y | y in Identities(Nested(h, id)) ensures y in Mentioned(h) {}
    } else {
      assert Nested(h, id) == [];
    }
  }

  lemma IdentitiesGrow(h: Heap, pending: seq<Thrown>, id: nat, all: set<nat>)
    requires pending != [] && Identities(pending) <= all && Mentioned(h) <= all
    ensures Identities(pending[1..]) <= all && Identities(pending[1..] + Nested(h, id)) <= all
  {
    MentionsNested(h, id);
    forall x | x in Identities(pending[1..] + Nested(h, id)) ensures x in all {
      if Item(x) in Nested(h, id) {
        assert x in Identities(Nested(h, id));
      } else {
        assert Item(x) in pending;
        assert x in Identities(pending);
      }
    }
    forall x | x in Identities(pending[1..]) ensures x in all {
      assert Item(x) in pending;
      assert x in Identities(pending);
    }
  }

  /** Every error reachable from the thrown one, each exactly once, and nothing else; cycles end. */
  method ErrorChain(h: Heap, error: Thrown) returns (items: seq<nat>)
    ensures NoRepeats(items)
    ensures forall id :: id in items <==> error.Item? && Reaches(h, error.id, id)
  {
    items := [];
    var seen: set<nat> := {};
    var pending: seq<Thrown> := [error];
    ghost var all := Mentioned(h) + Identities([error]);
    SearchStarts(h, error);
    while |pending| > 0
      invariant Searching(h, error, items, pending)
      invariant forall id :: id in items <==> id in seen
      invariant Identities(pending) <= all
      decreases |all - seen|, |pending|
    {
      var item := pending[0];
      IdentitiesGrow(h, pending, if item.Item? then item.id else 0, all);
      if item == Undefined || item.id in seen {
        SearchSkips(h, error, items, pending);
        pending := pending[1..];
      } else {
        assert item.id in Identities(pending);
        SeenShrinks(all, seen, item.id);
        SearchVisits(h, error, items, pending, item.id);
        seen := seen + {item.id};
        items := items + [item.id];
        pending := pending[1..] + Nested(h, item.id);
      }
    }
    assert pending == [];
    if error.Item? {
      forall id | Reaches(h, error.id, id) ensures id in items {
        SearchEnds(h, error, items, id);
      }
    }
  }

  // --- classification -----------------------------------------------------------------------------------------

  /** No transaction, failed transaction, no such savepoint, read-only transaction. */
  const INTEGRITY_CODES: set<string> := {"25P01", "25P02", "3B001", "25006"}

  function Code(h: Heap, id: nat): Option<string> { if id in h then h[id].code else None }

  /** `isTransactionIntegrityOrCleanupFailureItem` */
  predicate IsFailureItem(h: Heap, id: nat) {
    if Code(h, id).Some? && Code(h, id).value in INTEGRITY_CODES then true
    else if id !in h then false
    else if h[id].cleanupError.Own? then true
    else h[id].transactionAborted || h[id].abortedCommit || h[id].rawSqlTransactionControl
  }

  predicate HasExpressionCode(h: Heap, id: nat) {
    match Code(h, id)
    case None => false
    case Some(code) => "22" <= code || "42" <= code
  }

  /** One of the four codes, an own cleanup error, whatever its value, or one of the three marks. */
  predicate IsIntegrityFailure(h: Heap, id: nat) {
    || Code(h, id) in {Some("25P01"), Some("25P02"), Some("3B001"), Some("25006")}
    || (id in h && (h[id].cleanupError != Absent || h[id].transactionAborted || h[id].abortedCommit ||
                    h[id].rawSqlTransactionControl))
  }

  /** SQLSTATE class 22, data exception, or 42, syntax error or access rule violation. */
  predicate IsExpressionError(h: Heap, id: nat) {
    Code(h, id).Some? && |Code(h, id).value| >= 2 &&
    (Code(h, id).value[..2] == "22" || Code(h, id).value[..2] == "42")
  }

  lemma ItemsAreJudged(h: Heap, id: nat)
    ensures IsFailureItem(h, id) <==> IsIntegrityFailure(h, id)
    ensures HasExpressionCode(h, id) <==> IsExpressionError(h, id)
  {
  }

  method Filter(chain: seq<nat>, p: nat -> bool) returns (r: seq<nat>)
    ensures forall id :: id in r <==> id in chain && p(id)
  {
    r := [];
    var i := 0;
    while i < |chain|
      invariant i <= |chain|
      invariant forall id :: id in r <==> id in chain[..i] && p(id)
    {
      assert chain[..i + 1] == chain[..i] + [chain[i]];
      if p(chain[i]) { r := r + [chain[i]]; }
      i := i + 1;
    }
    assert chain[..i] == chain;
  }

  method Any(chain: seq<nat>, p: nat -> bool) returns (b: bool)
    ensures b <==> exists id | id in chain :: p(id)
  {
    b := false;
    var i := 0;
    while i < |chain|
      invariant i <= |chain|
      invariant b <==> exists id | id in chain[..i] :: p(id)
    {
      assert chain[..i + 1] == chain[..i] + [chain[i]];
      b := b || p(chain[i]);
      i := i + 1;
    }
    assert chain[..i] == chain;
  }

  /**
   True exactly when no reachable error is a transaction failure, some reachable error is a leaf, and
   every reachable leaf carries an expression SQLSTATE.
   */
  method HasOnlyExpressionSqlStateErrors(h: Heap, error: Thrown) returns (b: bool)
    ensures b <==>
      && error.Item?
      && (forall id | Reaches(h, error.id, id) :: !IsIntegrityFailure(h, id))
      && (exists id | Reaches(h, error.id, id) :: HoldsNothing(h, id))
      && (forall id | Reaches(h, error.id, id) && HoldsNothing(h, id) :: IsExpressionError(h, id))
  {
    forall id ensures
      && (IsFailureItem(h, id) <==> IsIntegrityFailure(h, id))
      && (HasExpressionCode(h, id) <==> IsExpressionError(h, id))
      && (Nested(h, id) == [] <==> HoldsNothing(h, id))
    {
      ItemsAreJudged(h, id);
      NestedIsHeld(h, id);
    }
    var chain := ErrorChain(h, error);
    var failed := Any(chain, (id: nat) => IsFailureItem(h, id));
    if failed { return false; }
    var leaves := Filter(chain, (id: nat) => Nested(h, id) == []);
    var foreign := Any(leaves, (id: nat) => !HasExpressionCode(h, id));
    if |leaves| > 0 { assert leaves[0] in leaves; }
    b := |leaves| > 0 && !foreign;
  }
}
