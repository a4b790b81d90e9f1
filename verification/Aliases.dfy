/**
 Aliases for subqueries: packages/adapter-pgsql/src/condition-subquery.ts:120-148, the root
 alias of a nested plan in compiler.ts:1976-1985, and the aliases of EXISTS subqueries in
 handlers/where/exists.ts:105-137.
 */
module Aliases {
  import opened Common
  import opened Names
  import Decimal

  // --- candidates ------------------------------------------------------------------------

  function AliasSuffix(i: nat): string { if i == 0 then "_sq" else Suffix("_sq", i) }

  function AliasCandidate(target: string, i: nat): string { Fitted(target, AliasSuffix(i)) }

  function AliasCandidates(target: string): nat -> string { (i: nat) => AliasCandidate(target, i) }

  lemma AliasCandidatesTellApart(target: string)
    ensures Injective(AliasCandidates(target), 0)
  {
    forall i: nat, j: nat | 0 <= i < j
      ensures AliasCandidates(target)(i) != AliasCandidates(target)(j)
    {
      if AliasCandidate(target, i) == AliasCandidate(target, j) {
        if i == 0 {
          PlainIsNotNumbered(target, j);
        } else {
          FittedNumbersTellApart(target, "_sq", i, j);
        }
      }
    }
  }

  lemma PlainIsNotNumbered(target: string, j: nat)
    requires j > 0
    ensures AliasCandidate(target, 0) != AliasCandidate(target, j)
  {
    var a, b := AliasCandidate(target, 0), AliasCandidate(target, j);
    assert a[|a| - 1] == 'q';
    var d := Decimal.Print(j);
    assert b[|b| - 1] == d[|d| - 1];
  }

  /** The truncated spellings PostgreSQL would see. */
  function Reserved(names: set<string>): set<string> { set n | n in names :: Truncate(n, 63) }

  function FreshAlias(target: string, taken: set<string>): string {
    AliasCandidatesTellApart(target);
    AliasCandidate(target, FirstFree(Reserved(taken), AliasCandidates(target), 0))
  }

  lemma AliasFits(target: string, i: nat)
    requires i < Decimal.Power10(20)
    ensures Bytes(AliasCandidate(target, i)) <= 63
  {
    if i > 0 { SuffixIsShort("_sq", i); }
    FittedFits(target, AliasSuffix(i));
  }

  /** The alias fits and differs from every taken name, before and after the server truncates. */
  lemma FreshAliasIsFresh(target: string, taken: set<string>)
    requires |Reserved(taken)| < MAX_NAMES
    ensures var alias := FreshAlias(target, taken);
      Bytes(alias) <= 63 && alias !in taken && forall n :: n in taken ==> Truncate(n, 63) != Truncate(alias, 63)
  {
    var c := AliasCandidates(target);
    var used := Reserved(taken);
    AliasCandidatesTellApart(target);
    var i := FirstFree(used, c, 0);
    FirstFreeIsNear(used, c, 0);
    MaxNamesIsSmall();
    AliasFits(target, i);
    TruncateFits(c(i), 63);
    forall n | n in taken ensures Truncate(n, 63) != c(i) {
      assert Truncate(n, 63) in used;
    }
  }

  // --- one compilation -------------------------------------------------------------------

  /** The names one compilation has handed out, shared by all its subqueries. */
  class AliasRegistry {
    var issued: set<string>

    constructor ()
      ensures issued == {}
    {
      issued := {};
    }

    method Allocate(targetTable: string, enclosing: set<string>) returns (innerAlias: string)
      requires |Reserved(enclosing + issued)| < MAX_NAMES
      modifies this
      ensures innerAlias == FreshAlias(targetTable, enclosing + old(issued))
      ensures innerAlias !in enclosing + old(issued) && Bytes(innerAlias) <= 63
      ensures issued == old(issued) + {innerAlias}
    {
      FreshAliasIsFresh(targetTable, enclosing + issued);
      innerAlias := Search(targetTable, enclosing);
      issued := issued + {innerAlias};
    }

    method Search(targetTable: string, enclosing: set<string>) returns (innerAlias: string)
      ensures innerAlias == FreshAlias(targetTable, enclosing + issued)
    {
      var reserved := set n | n in enclosing + issued :: Truncate(n, 63);
      ghost var c := AliasCandidates(targetTable);
      AliasCandidatesTellApart(targetTable);
      var aliasIndex := 0;
      innerAlias := AliasCandidate(targetTable, 0);
      while innerAlias in reserved
        invariant innerAlias == AliasCandidate(targetTable, aliasIndex)
        invariant FirstFree(reserved, c, aliasIndex) == FirstFree(reserved, c, 0)
        decreases |Blocked(reserved, c, aliasIndex)|
      {
        BlockedShrinks(reserved, c, aliasIndex);
        aliasIndex := aliasIndex + 1;
        innerAlias := AliasCandidate(targetTable, aliasIndex);
      }
    }
  }

  // --- any nesting of subqueries -----------------------------------------------------------

  /** A subquery and the subqueries its own condition contains. */
  datatype Subquery = Subquery(target: string, inner: seq<Subquery>)

  function Count(q: Subquery): nat { 1 + CountAll(q.inner) }

  function CountAll(qs: seq<Subquery>): nat { if qs == [] then 0 else Count(qs[0]) + CountAll(qs[1..]) }

  datatype Error = DuplicateQualifier(name: string)

  /** Compiling one subquery: allocate its alias, bind it in the scope, compile what it contains. */
  function Compile(q: Subquery, scope: set<string>, issued: set<string>): Result<set<string>, Error>
    decreases q, 1
  {
    var alias := FreshAlias(q.target, scope + issued);
    if alias in scope then Err(DuplicateQualifier(alias))
    else CompileAll(q.inner, scope + {alias}, issued + {alias})
  }

  function CompileAll(qs: seq<Subquery>, scope: set<string>, issued: set<string>): Result<set<string>, Error>
    decreases qs, 0
  {
    if qs == [] then Ok(issued)
    else
      match Compile(qs[0], scope, issued)
      case Err(e) => Err(e)
      case Ok(more) => CompileAll(qs[1..], scope, more)
  }

  lemma ReservedIsNoLarger(names: set<string>)
    ensures |Reserved(names)| <= |names|
    decreases names
  {
    if names != {} {
      var n :| n in names;
      ReservedIsNoLarger(names - {n});
      assert Reserved(names) == Reserved(names - {n}) + {Truncate(n, 63)};
    }
  }

  lemma SizeOfUnion(a: set<string>, b: set<string>)
    ensures |a + b| <= |a| + |b|
  {
    assert |a + b| == |a| + |b| - |a * b|;
  }

  /**
   However subqueries nest, scope extension never meets a duplicate qualifier, and the
   compilation hands out one new name for each subquery.
   */
  lemma {:induction false} NoCapture(q: Subquery, scope: set<string>, issued: set<string>)
    requires |scope| + |issued| + 2 * Count(q) < MAX_NAMES
    ensures var r := Compile(q, scope, issued);
      r.Ok? && issued <= r.value && |r.value| == |issued| + Count(q)
    decreases q, 1
  {
    ReservedIsNoLarger(scope + issued);
    SizeOfUnion(scope, issued);
    FreshAliasIsFresh(q.target, scope + issued);
    var alias := FreshAlias(q.target, scope + issued);
    NoCaptureAll(q.inner, scope + {alias}, issued + {alias});
  }

  lemma {:induction false} NoCaptureAll(qs: seq<Subquery>, scope: set<string>, issued: set<string>)
    requires |scope| + |issued| + 2 * CountAll(qs) < MAX_NAMES
    ensures var r := CompileAll(qs, scope, issued);
      r.Ok? && issued <= r.value && |r.value| == |issued| + CountAll(qs)
    decreases qs, 0
  {
    if qs != [] {
      NoCapture(qs[0], scope, issued);
      NoCaptureAll(qs[1..], scope, Compile(qs[0], scope, issued).value);
    }
  }

  // --- the root alias of a nested plan --------------------------------------------------------

  /** First the table's own name, then the numbered aliases. */
  function RootCandidate(table: string, from: string, i: nat): string {
    if i == 0 then table else AliasCandidate(from, i - 1)
  }

  function RootCandidates(table: string, from: string): nat -> string {
    (i: nat) => RootCandidate(table, from, i)
  }

  lemma RootCandidatesTellApart(table: string, from: string)
    ensures Injective(RootCandidates(table, from), 1)
  {
    AliasCandidatesTellApart(from);
    forall i: nat, j: nat | 1 <= i < j
      ensures RootCandidates(table, from)(i) != RootCandidates(table, from)(j)
    {
      assert AliasCandidates(from)(i - 1) != AliasCandidates(from)(j - 1);
    }
  }

  function FreshRoot(table: string, from: string, reserved: set<string>): string {
    RootCandidatesTellApart(table, from);
    if table !in reserved then table
    else RootCandidate(table, from, FirstFree(reserved, RootCandidates(table, from), 1))
  }

  method RootAlias(table: string, from: string, reserved: set<string>) returns (rootAlias: string)
    ensures rootAlias == FreshRoot(table, from, reserved)
    ensures rootAlias !in reserved
    ensures rootAlias != table && |reserved| < MAX_NAMES ==> Bytes(rootAlias) <= 63
  {
    ghost var c := RootCandidates(table, from);
    RootCandidatesTellApart(table, from);
    rootAlias := table;
    var i := 0;
    while rootAlias in reserved
      invariant rootAlias == RootCandidate(table, from, i)
      invariant i > 0 ==> table in reserved && FirstFree(reserved, c, i) == FirstFree(reserved, c, 1)
      decreases if i == 0 then |reserved| + 1 else |Blocked(reserved, c, i)|
    {
      if i > 0 {
        BlockedShrinks(reserved, c, i);
      } else {
        assert Blocked(reserved, c, 1) <= reserved;
        Cardinality(Blocked(reserved, c, 1), reserved);
      }
      rootAlias := AliasCandidate(from, i);
      i := i + 1;
    }
    if i > 0 && |reserved| < MAX_NAMES {
      FirstFreeIsNear(reserved, c, 1);
      MaxNamesIsSmall();
      AliasFits(from, i - 1);
    }
  }

  // --- EXISTS aliases ----------------------------------------------------------------------

  function ExistsStem(table: string): string { table + "_exists_" }

  function ExistsCandidate(table: string, i: nat): string { ExistsStem(table) + Decimal.Print(i) }

  function ExistsCandidates(table: string): nat -> string { (i: nat) => ExistsCandidate(table, i) }

  lemma ExistsCandidatesTellApart(table: string)
    ensures Injective(ExistsCandidates(table), 0)
  {
    forall i: nat, j: nat | 0 <= i < j
      ensures ExistsCandidates(table)(i) != ExistsCandidates(table)(j)
    {
      if ExistsCandidate(table, i) == ExistsCandidate(table, j) {
        NumbersTellApart(ExistsStem(table), i, ExistsStem(table), j);
      }
    }
  }

  /** The first unused alias from a starting number on. */
  function FreshExists(table: string, used: set<string>, start: nat): (alias: string)
    ensures alias !in used
  {
    ExistsCandidatesTellApart(table);
    ExistsCandidates(table)(FirstFree(used, ExistsCandidates(table), start))
  }

  method ExistsAlias(table: string, used: set<string>, start: nat) returns (alias: string)
    ensures alias == FreshExists(table, used, start)
  {
    ghost var c := ExistsCandidates(table);
    ExistsCandidatesTellApart(table);
    var suffix := start;
    alias := ExistsCandidate(table, suffix);
    while alias in used
      invariant suffix >= start && alias == ExistsCandidate(table, suffix)
      invariant FirstFree(used, c, suffix) == FirstFree(used, c, start)
      decreases |Blocked(used, c, suffix)|
    {
      BlockedShrinks(used, c, suffix);
      suffix := suffix + 1;
      alias := ExistsCandidate(table, suffix);
    }
  }

  lemma {:induction false} TruncateConcat(a: string, b: string, max: int)
    ensures Truncate(a + b, max) == if Bytes(a) <= max then a + Truncate(b, max - Bytes(a)) else Truncate(a, max)
  {
    if a == [] {
      assert a + b == b;
      if max < 0 { NothingFits(b, max); }
    } else if CharBytes(a[0]) <= max {
      assert (a + b)[0] == a[0] && (a + b)[1..] == a[1..] + b;
      var rest := max - CharBytes(a[0]);
      TruncateConcat(a[1..], b, rest);
      HeadAndTail(a, Truncate(b, rest - Bytes(a[1..])));
    }
  }

  lemma HeadAndTail(a: string, b: string)
    requires a != []
    ensures [a[0]] + (a[1..] + b) == a + b
  {
    assert [a[0]] + a[1..] == a;
  }

  /**
   EXISTS aliases are not fitted to 63 bytes. Two of them stay different once the server
   truncates them exactly when their numbers differ within the bytes the stem leaves.
   */
  lemma ExistsAliasesUnderTruncation(table: string, i: nat, j: nat)
    ensures var room := 63 - Bytes(ExistsStem(table));
      Truncate(ExistsCandidate(table, i), 63) == Truncate(ExistsCandidate(table, j), 63) <==>
      Truncate(Decimal.Print(i), room) == Truncate(Decimal.Print(j), room)
  {
    CutBehind(ExistsStem(table), Decimal.Print(i), Decimal.Print(j), 63);
  }

  lemma CutBehind(stem: string, a: string, b: string, max: int)
    ensures var room := max - Bytes(stem);
      Truncate(stem + a, max) == Truncate(stem + b, max) <==> Truncate(a, room) == Truncate(b, room)
  {
    TruncateConcat(stem, a, max);
    TruncateConcat(stem, b, max);
    var room := max - Bytes(stem);
    if room >= 0 {
      PrefixCancels(stem, Truncate(a, room), Truncate(b, room));
    } else {
      NothingFits(a, room);
      NothingFits(b, room);
    }
  }

  lemma PrefixCancels(a: string, b: string, c: string)
    ensures a + b == a + c <==> b == c
  {
    assert (a + b)[|a|..] == b && (a + c)[|a|..] == c;
  }

  lemma StemBytes(table: string)
    ensures Bytes(ExistsStem(table)) == Bytes(table) + 8
  {
    BytesConcat(table, "_exists_");
    AsciiBytes("_exists_");
    assert |"_exists_"| == 8;
  }

  lemma NothingFits(s: string, max: int)
    requires max <= 0
    ensures Truncate(s, max) == []
  {
  }

  /** No name in use reads like this one once the server has cut both to 63 bytes. */
  ghost predicate FreshToServer(alias: string, used: set<string>) {
    forall n | n in used :: Truncate(n, 63) != Truncate(alias, 63)
  }

  ghost predicate AllFit(names: set<string>) { forall n | n in names :: Bytes(n) <= 63 }

  /** EXISTS aliases of the table with numbers of at most as many digits as n fit in 63 bytes. */
  predicate Roomy(table: string, n: nat) { Bytes(table) + 8 + |Decimal.Print(n)| <= 63 }

  lemma CandidateBytes(table: string, i: nat)
    ensures Bytes(ExistsCandidate(table, i)) == Bytes(table) + 8 + |Decimal.Print(i)|
  {
    StemBytes(table);
    AsciiBytes(Decimal.Print(i));
    BytesConcat(ExistsStem(table), Decimal.Print(i));
  }

  /** The number of an EXISTS alias is at most the number the search starts from plus the names in use. */
  lemma ExistsNumber(table: string, used: set<string>, start: nat) returns (i: nat)
    ensures FreshExists(table, used, start) == ExistsCandidate(table, i) && start <= i <= start + |used|
  {
    ExistsCandidatesTellApart(table);
    i := FirstFree(used, ExistsCandidates(table), start);
    FirstFreeIsNear(used, ExistsCandidates(table), start);
  }

  /** In a roomy table the alias fits, so that only a name that is itself cut can read like it. */
  lemma ShortTableAlias(table: string, used: set<string>, start: nat)
    requires Roomy(table, start + |used|)
    ensures var alias := FreshExists(table, used, start);
      && Bytes(alias) <= 63
      && (FreshToServer(alias, used) <==> forall n | n in used && Bytes(n) > 63 :: Truncate(n, 63) != alias)
  {
    var alias := FreshExists(table, used, start);
    var i := ExistsNumber(table, used, start);
    CandidateBytes(table, i);
    Decimal.PrintGrows(i, start + |used|);
    TruncateFits(alias, 63);
    forall n | n in used && Bytes(n) <= 63 ensures Truncate(n, 63) != alias {
      TruncateFits(n, 63);
    }
  }

  lemma LongStem(table: string, i: nat)
    requires Bytes(table) >= 55
    ensures Truncate(ExistsCandidate(table, i), 63) == Truncate(ExistsStem(table), 63)
  {
    var stem := ExistsStem(table);
    StemBytes(table);
    TruncateConcat(stem, Decimal.Print(i), 63);
    TruncateConcat(stem, [], 63);
    assert stem + [] == stem;
    NothingFits(Decimal.Print(i), 63 - Bytes(stem));
    NothingFits([], 63 - Bytes(stem));
  }

  /** For a table name of 55 bytes or more, all EXISTS aliases of the table truncate alike. */
  lemma LongTablesShareTheirAlias(table: string, i: nat, j: nat)
    requires Bytes(table) >= 55
    ensures Truncate(ExistsCandidate(table, i), 63) == Truncate(ExistsCandidate(table, j), 63)
  {
    LongStem(table, i);
    LongStem(table, j);
  }

  /** From 55 bytes on the number is always cut off: the alias is a fresh name exactly if no name in use
      starts with the same 63 bytes as the table's name and `_exists_`. */
  lemma LongTableAlias(table: string, used: set<string>, start: nat)
    requires Bytes(table) >= 55
    ensures FreshToServer(FreshExists(table, used, start), used) <==>
            Truncate(ExistsStem(table), 63) !in Reserved(used)
  {
    var i := ExistsNumber(table, used, start);
    LongStem(table, i);
    assert forall n :: n in used ==> Truncate(n, 63) in Reserved(used);
  }

  /** Whatever names of at most 63 bytes are in use, the server takes the EXISTS alias for a new name. */
  ghost predicate AlwaysFresh(table: string, limit: nat) {
    forall used: set<string>, start: nat | AllFit(used) && start + |used| <= limit ::
      FreshToServer(FreshExists(table, used, start), used)
  }

  /** The first aliases with as many digits as 10^r - 1. */
  ghost function Numbered(table: string, from: nat, to: nat): set<string>
    requires from <= to
  {
    if from == to then {} else Numbered(table, from, to - 1) + {ExistsCandidate(table, to - 1)}
  }

  lemma {:induction false} NumberedHas(table: string, from: nat, to: nat)
    requires from <= to
    ensures |Numbered(table, from, to)| == to - from
    ensures forall i: nat :: ExistsCandidate(table, i) in Numbered(table, from, to) <==> from <= i < to
    ensures forall n | n in Numbered(table, from, to) ::
      exists i: nat :: from <= i < to && n == ExistsCandidate(table, i)
  {
    if from < to {
      NumberedHas(table, from, to - 1);
      forall i: nat ensures ExistsCandidate(table, i) == ExistsCandidate(table, to - 1) <==> i == to - 1 {
        if ExistsCandidate(table, i) == ExistsCandidate(table, to - 1) {
          NumbersTellApart(ExistsStem(table), i, ExistsStem(table), to - 1);
        }
      }
    }
  }

  /** With all numbers of r digits taken, the next one reads like the first of them. */
  lemma OneDigitTooMany(table: string, r: nat)
    requires r >= 1 && Bytes(table) + 8 + r == 63
    ensures var low, high := Decimal.Power10(r - 1), Decimal.Power10(r);
      && low <= high && AllFit(Numbered(table, low, high)) && low + |Numbered(table, low, high)| == high
      && !FreshToServer(FreshExists(table, Numbered(table, low, high), low), Numbered(table, low, high))
  {
    var low, high := Decimal.Power10(r - 1), Decimal.Power10(r);
    var used := Numbered(table, low, high);
    PowerPrints(r - 1);
    NumberedHas(table, low, high);
    ExistsCandidatesTellApart(table);
    var i := FirstFree(used, ExistsCandidates(table), low);
    assert ExistsCandidates(table)(i) == ExistsCandidate(table, i);
    assert forall j: nat :: ExistsCandidates(table)(j) == ExistsCandidate(table, j);
    assert i == high by {
      assert i > high ==> ExistsCandidates(table)(high) in used;
    }
    forall n | n in used ensures Bytes(n) <= 63 {
      var k: nat :| low <= k < high && n == ExistsCandidate(table, k);
      CandidateBytes(table, k);
      Decimal.PrintLength(k, r);
    }
    CutNumber(table, r);
    assert ExistsCandidate(table, low) in used;
  }

  lemma CutNumber(table: string, r: nat)
    requires r >= 1 && Bytes(table) + 8 + r == 63
    ensures Truncate(ExistsCandidate(table, Decimal.Power10(r)), 63) ==
            Truncate(ExistsCandidate(table, Decimal.Power10(r - 1)), 63)
  {
    var low, high := Decimal.Power10(r - 1), Decimal.Power10(r);
    var digits := Decimal.Print(low);
    PowerPrints(r - 1);
    assert Decimal.Print(high) == digits + ['0'] by { assert high == 10 * low; }
    StemBytes(table);
    TruncateConcat(ExistsStem(table), digits, 63);
    TruncateConcat(ExistsStem(table), digits + ['0'], 63);
    OneDigitCut(digits, r);
  }

  lemma OneDigitCut(digits: string, r: nat)
    requires Decimal.AllDigits(digits) && |digits| == r
    ensures Truncate(digits + ['0'], r) == Truncate(digits, r)
  {
    AsciiBytes(digits);
    TruncateConcat(digits, ['0'], r);
    TruncateFits(digits, r);
    NothingFits(['0'], 0);
    assert digits + [] == digits;
  }

  lemma {:induction false} PowerPrints(k: nat)
    ensures Decimal.Power10(k) >= 1 && |Decimal.Print(Decimal.Power10(k))| == k + 1
  {
    if k > 0 { PowerPrints(k - 1); }
  }

  /**
   The law of EXISTS aliases: they are new names to the server in every scope of names that fit, up
   to a number of names, exactly if the table's name leaves room for `_exists_` and that number.
   */
  lemma AlwaysFreshExactly(table: string, limit: nat)
    requires limit >= 1
    ensures AlwaysFresh(table, limit) <==> Roomy(table, limit)
  {
    if Roomy(table, limit) {
      forall used: set<string>, start: nat | AllFit(used) && start + |used| <= limit
        ensures FreshToServer(FreshExists(table, used, start), used)
      {
        Decimal.PrintGrows(start + |used|, limit);
        ShortTableAlias(table, used, start);
      }
    } else if Bytes(table) >= 55 {
      var used := {Truncate(ExistsStem(table), 63)};
      TruncateIsLongestPrefix(ExistsStem(table), 63);
      TruncateTwice(ExistsStem(table), 63);
      LongTableAlias(table, used, 0);
      assert !FreshToServer(FreshExists(table, used, 0), used);
    } else {
      var r := 55 - Bytes(table);
      OneDigitTooMany(table, r);
      if limit < Decimal.Power10(r) { Decimal.PrintLength(limit, r); }
      assert !AlwaysFresh(table, limit) by {
        var used := Numbered(table, Decimal.Power10(r - 1), Decimal.Power10(r));
        assert !FreshToServer(FreshExists(table, used, Decimal.Power10(r - 1)), used);
      }
    }
  }

  /** A table of 63 bytes related to itself: the first EXISTS alias already reads like the table. */
  lemma SelfRelationIsCaptured(table: string, start: nat)
    requires Bytes(table) == 63
    ensures var alias := FreshExists(table, {table}, start);
      alias != table && Truncate(alias, 63) == table && !FreshToServer(alias, {table})
  {
    var i := ExistsNumber(table, {table}, start);
    LongStem(table, i);
    TruncateConcat(table, "_exists_", 63);
    TruncateFits(table, 63);
    NothingFits("_exists_", 0);
    assert table + [] == table;
  }

  /**
   The root alias of a table whose name fits also fits, so that only a reserved name that is itself cut
   can read like it; among names that fit it is a new name to the server.
   */
  lemma RootAliasToServer(table: string, from: string, reserved: set<string>)
    requires Bytes(table) <= 63 && |reserved| < MAX_NAMES
    ensures var alias := FreshRoot(table, from, reserved);
      && Bytes(alias) <= 63 && alias !in reserved
      && (FreshToServer(alias, reserved) <==> forall n | n in reserved && Bytes(n) > 63 :: Truncate(n, 63) != alias)
      && (AllFit(reserved) ==> FreshToServer(alias, reserved))
  {
    var alias := FreshRoot(table, from, reserved);
    if table in reserved {
      RootCandidatesTellApart(table, from);
      var c := RootCandidates(table, from);
      FirstFreeIsNear(reserved, c, 1);
      MaxNamesIsSmall();
      AliasFits(from, FirstFree(reserved, c, 1) - 1);
    }
    TruncateFits(alias, 63);
    forall n | n in reserved && Bytes(n) <= 63 ensures Truncate(n, 63) != alias {
      TruncateFits(n, 63);
    }
  }

  /** A table of 63 bytes whose own EXISTS alias is reserved keeps its name, which reads like that alias. */
  lemma RootAliasIsCaptured(table: string, from: string, start: nat)
    requires Bytes(table) == 63
    ensures var reserved := {FreshExists(table, {table}, start)};
      FreshRoot(table, from, reserved) == table && !FreshToServer(table, reserved)
  {
    var alias := FreshExists(table, {table}, start);
    SelfRelationIsCaptured(table, start);
    TruncateFits(table, 63);
    assert alias in {alias};
  }

  function LongName(n: nat): (s: string)
    ensures Bytes(s) == n
  {
    if n == 0 then [] else ['a'] + LongName(n - 1)
  }

  lemma LongTableExample()
    ensures !FreshToServer(FreshExists(LongName(63), {LongName(63)}, 0), {LongName(63)})
  {
    SelfRelationIsCaptured(LongName(63), 0);
  }
}
