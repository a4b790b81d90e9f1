/**
 Merging the includes of one relation path:
 packages/adapter-pgsql/src/compiler.ts:284-425.
 */
module Includes {
  import opened Common

  /** The identity of a relation path, as `getRelationIdentityPath` spells it. */
  datatype Path = Path(text: string)

  datatype Col = Star | Named(name: string)

  /** A row condition: an atom or a conjunction. */
  datatype Condition = Atom(id: nat) | Both(first: Condition, second: Condition)

  datatype Predicate = Predicate(currentRange: nat, outerRange: nat, condition: Condition)

  /**
   A plan decision. Only includes have a path. A missing list of conditions, aliases or children is
   an empty one; a missing list of columns is not.
   */
  datatype Decision = Decision(
    path: Option<Path>, choice: string, joinType: Option<string>, columns: Option<seq<Col>>,
    aliases: map<string, string>, conditions: seq<Condition>, rowPredicate: Option<Predicate>, children: seq<Decision>)

  datatype Error = ConflictingJoin(path: Path) | ConflictingRanges

  function Size(d: Decision): (n: nat)
    ensures n > 0
    decreases d, 1
  {
    1 + SizeAll(d.children)
  }

  function SizeAll(ds: seq<Decision>): nat
    decreases ds, 0
  {
    if ds == [] then 0 else Size(ds[0]) + SizeAll(ds[1..])
  }

  lemma {:induction false} SizeConcat(a: seq<Decision>, b: seq<Decision>)
    ensures SizeAll(a + b) == SizeAll(a) + SizeAll(b)
  {
    if a == [] {
      assert a + b == b;
    } else {
      assert (a + b)[1..] == a[1..] + b;
      SizeConcat(a[1..], b);
    }
  }

  lemma SizeUpdate(ds: seq<Decision>, k: nat, d: Decision)
    requires k < |ds|
    ensures SizeAll(ds[k := d]) == SizeAll(ds) - Size(ds[k]) + Size(d) && SizeAll(ds) >= Size(ds[k])
  {
    var before, after := ds[..k], ds[k + 1..];
    assert ds == before + ([ds[k]] + after) && ds[k := d] == before + ([d] + after);
    SizeConcat(before, [ds[k]] + after);
    SizeConcat(before, [d] + after);
    assert ([ds[k]] + after)[1..] == after && ([d] + after)[1..] == after;
  }

  lemma SizeOne(d: Decision)
    ensures SizeAll([d]) == Size(d)
  {
    assert [d][1..] == [];
  }

  // --- merging two decisions ---------------------------------------------------------------------------

  function Unseen(current: seq<Col>, next: seq<Col>): seq<Col>
    decreases next
  {
    if next == [] then []
    else if next[0] in current then Unseen(current, next[1..])
    else [next[0]] + Unseen(current + [next[0]], next[1..])
  }

  function MergeColumns(current: Option<seq<Col>>, next: Option<seq<Col>>): Option<seq<Col>> {
    if current.None? then next
    else if next.None? then current
    else if Star in current.value || Star in next.value then Some([Star])
    else Some(current.value + Unseen(current.value, next.value))
  }

  function JoinType(d: Decision): string { if d.joinType.None? then "left" else d.joinType.value }

  predicate SameRanges(a: Predicate, b: Predicate) { a.currentRange == b.currentRange && a.outerRange == b.outerRange }

  function MergePredicates(a: Option<Predicate>, b: Option<Predicate>): Option<Predicate> {
    if b.None? then a
    else if a.None? then b
    else Some(a.value.(condition := Both(a.value.condition, b.value.condition)))
  }

  /** The first decision of a path takes up a later one. */
  function Combine(e: Decision, d: Decision): (r: Result<Decision, Error>)
    requires e.path.Some?
    ensures r.Ok? ==> Size(r.value) < Size(e) + Size(d) && r.value.path == e.path && r.value.choice == e.choice
    decreases Size(e) + Size(d), 0, 0
  {
    if JoinType(e) != JoinType(d) then Err(ConflictingJoin(e.path.value))
    else if e.rowPredicate.Some? && d.rowPredicate.Some? && !SameRanges(e.rowPredicate.value, d.rowPredicate.value) then
      Err(ConflictingRanges)
    else
      var own := e.(rowPredicate := MergePredicates(e.rowPredicate, d.rowPredicate),
          columns := MergeColumns(e.columns, d.columns),
                    aliases := d.aliases + e.aliases, conditions := e.conditions + d.conditions);
      if d.children == [] then Ok(own)
      else
        SizeConcat(e.children, d.children);
        match Merge(e.children + d.children)
        case Err(x) => Err(x)
        case Ok(children) => Ok(own.(children := children))
  }

  /** Where the first decision of a path is. */
  function FirstAt(ds: seq<Decision>, p: Path): (r: Option<nat>)
    ensures r.Some? ==>
      r.value < |ds| && ds[r.value].path == Some(p) && forall i | 0 <= i < r.value :: ds[i].path != Some(p)
    ensures r.None? ==> forall i | 0 <= i < |ds| :: ds[i].path != Some(p)
  {
    if ds == [] then None
    else if ds[0].path == Some(p) then Some(0)
    else match FirstAt(ds[1..], p) case None => None case Some(k) => Some(k + 1)
  }

  /** One decision more: merged into the first of its path and choice, or appended. */
  function Absorb(acc: seq<Decision>, d: Decision): (r: Result<seq<Decision>, Error>)
    ensures r.Ok? ==> SizeAll(r.value) <= SizeAll(acc) + Size(d)
    decreases SizeAll(acc) + Size(d), 1, 0
  {
    SizeConcat(acc, [d]);
    SizeOne(d);
    if d.path.None? then Ok(acc + [d])
    else
      match FirstAt(acc, d.path.value)
      case None => Ok(acc + [d])
      case Some(k) =>
        if acc[k].choice != d.choice then Ok(acc + [d])
        else
          SizeUpdate(acc, k, acc[k]);
          match Combine(acc[k], d)
          case Err(x) => Err(x)
          case Ok(merged) =>
            SizeUpdate(acc, k, merged);
            Ok(acc[k := merged])
  }

  function MergeOnto(acc: seq<Decision>, ds: seq<Decision>): (r: Result<seq<Decision>, Error>)
    ensures r.Ok? ==> SizeAll(r.value) <= SizeAll(acc) + SizeAll(ds)
    decreases SizeAll(acc) + SizeAll(ds), 2, |ds|
  {
    if ds == [] then Ok(acc)
    else
      match Absorb(acc, ds[0])
      case Err(x) => Err(x)
      case Ok(next) => MergeOnto(next, ds[1..])
  }

  /** `mergeDuplicateJoinIncludeDecisions`. */
  function Merge(ds: seq<Decision>): (r: Result<seq<Decision>, Error>)
    ensures r.Ok? ==> SizeAll(r.value) <= SizeAll(ds)
    decreases SizeAll(ds), 3, 0
  {
    MergeOnto([], ds)
  }

  // --- one include for each path and choice ------------------------------------------------------------

  /** A later include of a path differs in choice from the first. */
  predicate Tidy(ds: seq<Decision>) {
    forall i, j | 0 <= i < j < |ds| && ds[i].path.Some? && FirstAt(ds, ds[i].path.value) == Some(i)
                  && ds[j].path == ds[i].path ::
      ds[j].choice != ds[i].choice
  }

  lemma FirstIsUnique(ds: seq<Decision>, p: Path, k: nat)
    requires k < |ds| && ds[k].path == Some(p) && forall i | 0 <= i < k :: ds[i].path != Some(p)
    ensures FirstAt(ds, p) == Some(k)
  {
  }

  lemma FirstInLonger(ds: seq<Decision>, d: Decision, p: Path)
    ensures FirstAt(ds + [d], p)
            == if FirstAt(ds, p).Some? then FirstAt(ds, p) else if d.path == Some(p) then Some(|ds|) else None
  {
    var all := ds + [d];
    if FirstAt(ds, p).Some? {
      FirstIsUnique(all, p, FirstAt(ds, p).value);
    } else if d.path == Some(p) {
      FirstIsUnique(all, p, |ds|);
    } else {
      assert forall i | 0 <= i < |all| :: all[i].path != Some(p);
    }
  }

  lemma FirstInUpdated(ds: seq<Decision>, k: nat, d: Decision, p: Path)
    requires k < |ds| && d.path == ds[k].path
    ensures FirstAt(ds[k := d], p) == FirstAt(ds, p)
  {
    var all := ds[k := d];
    assert forall i | 0 <= i < |ds| :: all[i].path == ds[i].path;
    if FirstAt(ds, p).Some? {
      FirstIsUnique(all, p, FirstAt(ds, p).value);
    } else {
      assert forall i | 0 <= i < |all| :: all[i].path != Some(p);
    }
  }

  /** d would be merged into what is there. */
  predicate Merges(acc: seq<Decision>, d: Decision) {
    d.path.Some? && FirstAt(acc, d.path.value).Some? && acc[FirstAt(acc, d.path.value).value].choice == d.choice
  }

  lemma AppendIsTidy(acc: seq<Decision>, d: Decision)
    requires Tidy(acc) && !Merges(acc, d)
    ensures Tidy(acc + [d])
  {
    var all := acc + [d];
    forall i, j | 0 <= i < j < |all| && all[i].path.Some? && FirstAt(all, all[i].path.value) == Some(i)
                  && all[j].path == all[i].path
      ensures all[j].choice != all[i].choice
    {
      FirstInLonger(acc, d, all[i].path.value);
    }
  }

  lemma UpdateIsTidy(acc: seq<Decision>, k: nat, d: Decision)
    requires Tidy(acc) && k < |acc| && d.path == acc[k].path && d.choice == acc[k].choice
    ensures Tidy(acc[k := d])
  {
    var all := acc[k := d];
    forall i, j | 0 <= i < j < |all| && all[i].path.Some? && FirstAt(all, all[i].path.value) == Some(i)
                  && all[j].path == all[i].path
      ensures all[j].choice != all[i].choice
    {
      FirstInUpdated(acc, k, d, all[i].path.value);
    }
  }

  lemma {:induction false} MergeOntoIsTidy(acc: seq<Decision>, ds: seq<Decision>)
    requires Tidy(acc) && MergeOnto(acc, ds).Ok?
    ensures Tidy(MergeOnto(acc, ds).value)
    decreases |ds|
  {
    if ds != [] {
      var d := ds[0];
      if Merges(acc, d) {
        var k := FirstAt(acc, d.path.value).value;
        UpdateIsTidy(acc, k, Combine(acc[k], d).value);
      } else {
        AppendIsTidy(acc, d);
      }
      MergeOntoIsTidy(Absorb(acc, d).value, ds[1..]);
    }
  }

  /** After merging, no path has a second include with the choice of its first. */
  lemma MergeIsTidy(ds: seq<Decision>)
    requires Merge(ds).Ok?
    ensures Tidy(Merge(ds).value)
  {
    MergeOntoIsTidy([], ds);
  }

  lemma {:induction false} TidyStays(acc: seq<Decision>, ds: seq<Decision>)
    requires Tidy(acc + ds)
    ensures MergeOnto(acc, ds) == Ok(acc + ds)
    decreases |ds|
  {
    if ds == [] {
      assert acc + ds == acc;
    } else {
      var d := ds[0];
      assert acc + ds == acc + [d] + ds[1..];
      assert (acc + ds)[|acc|] == d;
      if Merges(acc, d) {
        FirstIsUnique(acc + ds, d.path.value, FirstAt(acc, d.path.value).value);
        assert false;
      }
      TidyStays(acc + [d], ds[1..]);
    }
  }

  /** Merging a second time changes nothing. */
  lemma MergeIsIdempotent(ds: seq<Decision>)
    requires Merge(ds).Ok?
    ensures Merge(Merge(ds).value) == Merge(ds)
  {
    MergeIsTidy(ds);
    assert [] + Merge(ds).value == Merge(ds).value;
    TidyStays([], Merge(ds).value);
  }

  lemma {:induction false} MergeOntoInParts(acc: seq<Decision>, a: seq<Decision>, b: seq<Decision>)
    ensures MergeOnto(acc, a + b) == match MergeOnto(acc, a) { case Err(x) => Err(x) case Ok(mid) => MergeOnto(mid, b) }
    decreases |a|
  {
    if a == [] {
      assert a + b == b;
    } else {
      assert (a + b)[1..] == a[1..] + b;
      var next := Absorb(acc, a[0]);
      if next.Ok? { MergeOntoInParts(next.value, a[1..], b); }
    }
  }

  /** Merging what is merged with more is merging everything at once. */
  lemma MergeInSteps(a: seq<Decision>, b: seq<Decision>)
    requires Merge(a).Ok?
    ensures Merge(Merge(a).value + b) == Merge(a + b)
  {
    MergeOntoInParts([], a, b);
    MergeOntoInParts([], Merge(a).value, b);
    MergeIsIdempotent(a);
  }

  // --- what each survivor is made of -------------------------------------------------------------------

  predicate Takes(e: Decision, d: Decision) { e.path.Some? && d.path == e.path && d.choice == e.choice }

  /** The later decisions merged into e. */
  function Group(e: Decision, ds: seq<Decision>): seq<Decision> {
    if ds == [] then [] else (if Takes(e, ds[0]) then [ds[0]] else []) + Group(e, ds[1..])
  }

  function Fold(e: Decision, g: seq<Decision>): Result<Decision, Error>
    requires e.path.Some?
    decreases g
  {
    if g == [] then Ok(e)
    else match Combine(e, g[0]) case Err(x) => Err(x) case Ok(m) => Fold(m, g[1..])
  }

  predicate IsFirst(acc: seq<Decision>, d: Decision) { d.path.Some? && FirstAt(acc, d.path.value).None? }

  /** d with everything it takes from ds; unchanged if merging fails. */
  function Survivor(d: Decision, ds: seq<Decision>): Decision
    requires d.path.Some?
  {
    var r := Fold(d, Group(d, ds));
    if r.Ok? then r.value else d
  }

  /** What is appended: the decisions that do not merge, in order, the first of a path with all it takes. */
  function Kept(acc: seq<Decision>, ds: seq<Decision>): seq<Decision>
    decreases |ds|
  {
    if ds == [] then []
    else if Merges(acc, ds[0]) then Kept(acc, ds[1..])
    else [if IsFirst(acc, ds[0]) then Survivor(ds[0], ds[1..]) else ds[0]] + Kept(acc + [ds[0]], ds[1..])
  }

  predicate FirstHere(acc: seq<Decision>, i: nat)
    requires i < |acc|
  {
    acc[i].path.Some? && FirstAt(acc, acc[i].path.value) == Some(i)
  }

  /** What is there, the first of each path with all it takes. */
  function Grown(acc: seq<Decision>, ds: seq<Decision>): (r: seq<Decision>)
    ensures |r| == |acc|
  {
    seq(|acc|, i requires 0 <= i < |acc| => if FirstHere(acc, i) then Survivor(acc[i], ds) else acc[i])
  }

  predicate SameKeys(a: seq<Decision>, b: seq<Decision>) {
    |a| == |b| && forall i | 0 <= i < |a| :: a[i].path == b[i].path && a[i].choice == b[i].choice
  }

  lemma SameFirst(a: seq<Decision>, b: seq<Decision>, p: Path)
    requires SameKeys(a, b)
    ensures FirstAt(a, p) == FirstAt(b, p)
  {
    if FirstAt(a, p).Some? {
      FirstIsUnique(b, p, FirstAt(a, p).value);
    } else {
      assert forall i | 0 <= i < |b| :: b[i].path != Some(p);
    }
  }

  lemma {:induction false} SameKept(a: seq<Decision>, b: seq<Decision>, ds: seq<Decision>)
    requires SameKeys(a, b)
    ensures Kept(a, ds) == Kept(b, ds)
    decreases |ds|
  {
    if ds != [] {
      if ds[0].path.Some? { SameFirst(a, b, ds[0].path.value); }
      assert SameKeys(a + [ds[0]], b + [ds[0]]);
      SameKept(a, b, ds[1..]);
      SameKept(a + [ds[0]], b + [ds[0]], ds[1..]);
    }
  }

  lemma {:induction false} SameGroup(a: Decision, b: Decision, ds: seq<Decision>)
    requires a.path == b.path && a.choice == b.choice
    ensures Group(a, ds) == Group(b, ds)
  {
    if ds != [] { SameGroup(a, b, ds[1..]); }
  }

  lemma GroupSkips(e: Decision, ds: seq<Decision>)
    requires ds != []
    ensures Group(e, ds) == if Takes(e, ds[0]) then [ds[0]] + Group(e, ds[1..]) else Group(e, ds[1..])
  {
  }

  /** Appending d: what was there takes nothing from d. */
  lemma GrownAppend(acc: seq<Decision>, ds: seq<Decision>)
    requires ds != [] && !Merges(acc, ds[0])
    ensures Grown(acc + [ds[0]], ds[1..])
            == Grown(acc, ds) + [if IsFirst(acc, ds[0]) then Survivor(ds[0], ds[1..]) else ds[0]]
  {
    var d := ds[0];
    var all := acc + [d];
    var l, r := Grown(all, ds[1..]), Grown(acc, ds) + [if IsFirst(acc, d) then Survivor(d, ds[1..]) else d];
    forall i | 0 <= i < |acc| ensures l[i] == r[i] {
      GrownAppendAt(acc, ds, i);
    }
    if d.path.Some? { FirstInLonger(acc, d, d.path.value); }
  }

  lemma GrownAppendAt(acc: seq<Decision>, ds: seq<Decision>, i: nat)
    requires ds != [] && !Merges(acc, ds[0]) && i < |acc|
    ensures Grown(acc + [ds[0]], ds[1..])[i] == Grown(acc, ds)[i]
  {
    if acc[i].path.Some? { FirstInLonger(acc, ds[0], acc[i].path.value); }
    if FirstHere(acc, i) { SurvivorSkips(acc[i], ds); }
  }

  /** Merging d into the first of its path. */
  lemma GrownMerge(acc: seq<Decision>, ds: seq<Decision>, k: nat, m: Decision)
    requires ds != [] && Merges(acc, ds[0]) && FirstAt(acc, ds[0].path.value) == Some(k)
    requires Combine(acc[k], ds[0]) == Ok(m)
    requires Fold(m, Group(m, ds[1..])).Ok?
    ensures Grown(acc[k := m], ds[1..]) == Grown(acc, ds)
  {
    var l, r := Grown(acc[k := m], ds[1..]), Grown(acc, ds);
    forall i | 0 <= i < |acc| ensures l[i] == r[i] {
      GrownMergeAt(acc, ds, k, m, i);
    }
  }

  lemma GrownMergeAt(acc: seq<Decision>, ds: seq<Decision>, k: nat, m: Decision, i: nat)
    requires ds != [] && Merges(acc, ds[0]) && FirstAt(acc, ds[0].path.value) == Some(k) && i < |acc|
    requires Combine(acc[k], ds[0]) == Ok(m)
    requires Fold(m, Group(m, ds[1..])).Ok?
    ensures Grown(acc[k := m], ds[1..])[i] == Grown(acc, ds)[i]
  {
    if acc[i].path.Some? { FirstInUpdated(acc, k, m, acc[i].path.value); }
    if i == k {
      SurvivorMerges(acc[k], ds, m);
    } else if FirstHere(acc, i) {
      SurvivorSkips(acc[i], ds);
    }
  }

  lemma SurvivorMerges(e: Decision, ds: seq<Decision>, m: Decision)
    requires ds != [] && Takes(e, ds[0]) && Combine(e, ds[0]) == Ok(m)
    requires Fold(m, Group(m, ds[1..])).Ok?
    ensures Survivor(e, ds) == Survivor(m, ds[1..])
  {
    GroupSkips(e, ds);
    SameGroup(m, e, ds[1..]);
    var g := Group(e, ds[1..]);
    assert ([ds[0]] + g)[1..] == g;
  }

  lemma SurvivorSkips(e: Decision, ds: seq<Decision>)
    requires ds != [] && e.path.Some? && !Takes(e, ds[0])
    ensures Survivor(e, ds) == Survivor(e, ds[1..])
  {
    GroupSkips(e, ds);
  }

  /** Every first include of a path can take up all it takes. */
  predicate AllFold(acc: seq<Decision>, ds: seq<Decision>) {
    forall i | 0 <= i < |acc| && FirstHere(acc, i) :: Fold(acc[i], Group(acc[i], ds)).Ok?
  }

  predicate KeptFold(acc: seq<Decision>, ds: seq<Decision>)
    decreases |ds|
  {
    ds != [] ==>
      if Merges(acc, ds[0]) then KeptFold(acc, ds[1..])
      else
        (IsFirst(acc, ds[0]) ==> Fold(ds[0], Group(ds[0], ds[1..])).Ok?) && KeptFold(acc + [ds[0]], ds[1..])
  }

  lemma {:induction false} SameKeptFold(a: seq<Decision>, b: seq<Decision>, ds: seq<Decision>)
    requires SameKeys(a, b)
    ensures KeptFold(a, ds) == KeptFold(b, ds)
    decreases |ds|
  {
    if ds != [] {
      if ds[0].path.Some? { SameFirst(a, b, ds[0].path.value); }
      assert SameKeys(a + [ds[0]], b + [ds[0]]);
      SameKeptFold(a, b, ds[1..]);
      SameKeptFold(a + [ds[0]], b + [ds[0]], ds[1..]);
    }
  }

  lemma AllFoldAppend(acc: seq<Decision>, ds: seq<Decision>)
    requires ds != [] && !Merges(acc, ds[0]) && AllFold(acc + [ds[0]], ds[1..])
    ensures AllFold(acc, ds) && (IsFirst(acc, ds[0]) ==> Fold(ds[0], Group(ds[0], ds[1..])).Ok?)
  {
    var d := ds[0];
    var all := acc + [d];
    forall i | 0 <= i < |acc| && FirstHere(acc, i) ensures Fold(acc[i], Group(acc[i], ds)).Ok? {
      FirstInLonger(acc, d, acc[i].path.value);
      assert all[i] == acc[i] && FirstHere(all, i);
      GroupSkips(acc[i], ds);
    }
    if IsFirst(acc, d) {
      FirstInLonger(acc, d, d.path.value);
      assert all[|acc|] == d && FirstHere(all, |acc|);
    }
  }

  lemma AllFoldMerge(acc: seq<Decision>, ds: seq<Decision>, k: nat, m: Decision)
    requires ds != [] && Merges(acc, ds[0]) && FirstAt(acc, ds[0].path.value) == Some(k)
    requires Combine(acc[k], ds[0]) == Ok(m)
    requires AllFold(acc[k := m], ds[1..])
    ensures AllFold(acc, ds) && Fold(m, Group(m, ds[1..])).Ok?
  {
    var all := acc[k := m];
    SameGroup(m, acc[k], ds[1..]);
    FirstInUpdated(acc, k, m, ds[0].path.value);
    assert all[k] == m && FirstHere(all, k);
    forall i | 0 <= i < |acc| && FirstHere(acc, i) ensures Fold(acc[i], Group(acc[i], ds)).Ok? {
      FirstInUpdated(acc, k, m, acc[i].path.value);
      GroupSkips(acc[i], ds);
      if i != k { assert all[i] == acc[i] && FirstHere(all, i); }
    }
  }

  lemma ShapeAfterMerge(acc: seq<Decision>, ds: seq<Decision>, k: nat, m: Decision)
    requires ds != [] && Merges(acc, ds[0]) && FirstAt(acc, ds[0].path.value) == Some(k)
    requires Combine(acc[k], ds[0]) == Ok(m)
    requires AllFold(acc[k := m], ds[1..]) && KeptFold(acc[k := m], ds[1..])
    ensures Grown(acc[k := m], ds[1..]) == Grown(acc, ds) && Kept(acc[k := m], ds[1..]) == Kept(acc, ds)
    ensures AllFold(acc, ds) && KeptFold(acc, ds)
  {
    AllFoldMerge(acc, ds, k, m);
    GrownMerge(acc, ds, k, m);
    assert SameKeys(acc[k := m], acc);
    SameKept(acc[k := m], acc, ds[1..]);
    SameKeptFold(acc[k := m], acc, ds[1..]);
  }

  lemma ShapeAfterAppend(acc: seq<Decision>, ds: seq<Decision>)
    requires ds != [] && !Merges(acc, ds[0])
    requires AllFold(acc + [ds[0]], ds[1..]) && KeptFold(acc + [ds[0]], ds[1..])
    ensures Grown(acc + [ds[0]], ds[1..]) + Kept(acc + [ds[0]], ds[1..]) == Grown(acc, ds) + Kept(acc, ds)
    ensures AllFold(acc, ds) && KeptFold(acc, ds)
  {
    AllFoldAppend(acc, ds);
    GrownAppend(acc, ds);
    var x := if IsFirst(acc, ds[0]) then Survivor(ds[0], ds[1..]) else ds[0];
    KeptAppend(acc, ds, x);
    Regroup(Grown(acc, ds), x, Kept(acc + [ds[0]], ds[1..]));
  }

  lemma KeptAppend(acc: seq<Decision>, ds: seq<Decision>, x: Decision)
    requires ds != [] && !Merges(acc, ds[0])
    requires x == if IsFirst(acc, ds[0]) then Survivor(ds[0], ds[1..]) else ds[0]
    ensures Kept(acc, ds) == [x] + Kept(acc + [ds[0]], ds[1..])
  {
  }

  lemma Regroup(a: seq<Decision>, x: Decision, b: seq<Decision>)
    ensures a + [x] + b == a + ([x] + b)
  {
  }

  lemma {:induction false} MergeOntoShape(acc: seq<Decision>, ds: seq<Decision>)
    requires MergeOnto(acc, ds).Ok?
    ensures MergeOnto(acc, ds).value == Grown(acc, ds) + Kept(acc, ds)
    ensures AllFold(acc, ds) && KeptFold(acc, ds)
    decreases |ds|
  {
    if ds == [] {
      assert Grown(acc, ds) == acc;
    } else if Merges(acc, ds[0]) {
      var k := FirstAt(acc, ds[0].path.value).value;
      var m := Combine(acc[k], ds[0]).value;
      assert MergeOnto(acc, ds) == MergeOnto(acc[k := m], ds[1..]);
      MergeOntoShape(acc[k := m], ds[1..]);
      ShapeAfterMerge(acc, ds, k, m);
    } else {
      assert MergeOnto(acc, ds) == MergeOnto(acc + [ds[0]], ds[1..]);
      MergeOntoShape(acc + [ds[0]], ds[1..]);
      ShapeAfterAppend(acc, ds);
    }
  }

  /**
   An accepted run keeps, in order, every decision that is not an include and every include unless
   the first of its path has its choice; that first one has taken up the others, in order.
   */
  lemma MergeKeeps(ds: seq<Decision>)
    requires Merge(ds).Ok?
    ensures Merge(ds).value == Kept([], ds) && KeptFold([], ds)
  {
    MergeOntoShape([], ds);
    assert Grown([], ds) + Kept([], ds) == Kept([], ds);
  }

  // --- when merging is accepted --------------------------------------------------------------------------

  /** All row predicates of e and of what it takes are about the same two ranges. */
  predicate OneRange(e: Decision, g: seq<Decision>) {
    forall a, b | a in [e] + g && b in [e] + g && a.rowPredicate.Some? && b.rowPredicate.Some? ::
      a.rowPredicate.value.currentRange == b.rowPredicate.value.currentRange &&
      a.rowPredicate.value.outerRange == b.rowPredicate.value.outerRange
  }

  /** One join type, where none at all is a left join. */
  predicate JoinsAlike(a: Option<string>, b: Option<string>) {
    a == b || (a in {None, Some("left")} && b in {None, Some("left")})
  }

  /** Nothing in e and what it takes conflicts: one join type, one pair of ranges, children that merge. */
  predicate Compatible(e: Decision, g: seq<Decision>) {
    && (forall d | d in g :: JoinsAlike(d.joinType, e.joinType))
    && OneRange(e, g)
    && (Children(g) == [] || Merge(e.children + Children(g)).Ok?)
  }

  predicate Fitting(e: Decision, d: Decision) {
    JoinType(e) == JoinType(d) &&
    (e.rowPredicate.Some? && d.rowPredicate.Some? ==> SameRanges(e.rowPredicate.value, d.rowPredicate.value))
  }

  /** One predicate more: the merged one has the ranges of both. */
  lemma OneRangeStep(e: Decision, m: Decision, g: seq<Decision>)
    requires g != [] && m.rowPredicate == MergePredicates(e.rowPredicate, g[0].rowPredicate)
    ensures OneRange(e, g) <==>
      (e.rowPredicate.Some? && g[0].rowPredicate.Some? ==> SameRanges(e.rowPredicate.value, g[0].rowPredicate.value))
      && OneRange(m, g[1..])
  {
    var d, rest := g[0], g[1..];
    assert g == [d] + rest;
    if e.rowPredicate.Some? && d.rowPredicate.Some? ==> SameRanges(e.rowPredicate.value, d.rowPredicate.value) {
      MergedRange(e, d, m);
      assert forall x :: x in [e] + g <==> x == e || x == d || x in rest;
      assert forall x :: x in [m] + rest <==> x == m || x in rest;
      if OneRange(e, g) { MergedFits(e, d, m, rest); }
      if OneRange(m, rest) { PartsFit(e, d, m, rest); }
    } else {
      assert e in [e] + g && d in [e] + g;
    }
  }

  lemma MergedRange(e: Decision, d: Decision, m: Decision)
    requires m.rowPredicate == MergePredicates(e.rowPredicate, d.rowPredicate)
    requires e.rowPredicate.Some? && d.rowPredicate.Some? ==> SameRanges(e.rowPredicate.value, d.rowPredicate.value)
    ensures m.rowPredicate.Some? <==> e.rowPredicate.Some? || d.rowPredicate.Some?
    ensures e.rowPredicate.Some? ==> SameRanges(m.rowPredicate.value, e.rowPredicate.value)
    ensures d.rowPredicate.Some? ==> SameRanges(m.rowPredicate.value, d.rowPredicate.value)
  {
  }

  lemma MergedFits(e: Decision, d: Decision, m: Decision, rest: seq<Decision>)
    requires OneRange(e, [d] + rest) && m.rowPredicate == MergePredicates(e.rowPredicate, d.rowPredicate)
    ensures OneRange(m, rest)
  {
    assert d in [e] + ([d] + rest) && e in [e] + ([d] + rest);
    MergedRange(e, d, m);
    forall x | x in rest && x.rowPredicate.Some? && m.rowPredicate.Some?
      ensures SameRanges(x.rowPredicate.value, m.rowPredicate.value)
    {
      assert x in [e] + ([d] + rest);
    }
    assert forall x | x in rest :: x in [e] + ([d] + rest);
  }

  lemma PartsFit(e: Decision, d: Decision, m: Decision, rest: seq<Decision>)
    requires OneRange(m, rest) && m.rowPredicate == MergePredicates(e.rowPredicate, d.rowPredicate)
    requires e.rowPredicate.Some? && d.rowPredicate.Some? ==> SameRanges(e.rowPredicate.value, d.rowPredicate.value)
    ensures OneRange(e, [d] + rest)
  {
    MergedRange(e, d, m);
    assert m in [m] + rest && forall x | x in rest :: x in [m] + rest;
    forall x | x in [e] + ([d] + rest) && x.rowPredicate.Some? && m.rowPredicate.Some?
      ensures SameRanges(x.rowPredicate.value, m.rowPredicate.value)
    {
      if x != e && x != d { assert x in rest; }
    }
  }

  /** Merging a longer list fails if merging its front does. */
  lemma FrontMerges(a: seq<Decision>, b: seq<Decision>)
    requires Merge(a + b).Ok?
    ensures Merge(a).Ok?
  {
    MergeOntoInParts([], a, b);
  }

  /** e can take all of g exactly if nothing conflicts. */
  lemma {:induction false} FoldAccepts(e: Decision, g: seq<Decision>)
    requires e.path.Some?
    ensures Fold(e, g).Ok? <==> Compatible(e, g)
    decreases g
  {
    if g != [] {
      var d, rest := g[0], g[1..];
      assert g == [d] + rest;
      if Fitting(e, d) && (d.children == [] || Merge(e.children + d.children).Ok?) {
        var m := Combine(e, d).value;
        assert Combine(e, d).Ok?;
        FoldAccepts(m, rest);
        CombinedKeeps(e, d, m);
        OneRangeStep(e, m, g);
        ChildrenInSteps(e, d, rest, m);
      } else {
        NotFitting(e, d, rest);
      }
    }
  }

  lemma CombinedKeeps(e: Decision, d: Decision, m: Decision)
    requires e.path.Some? && Combine(e, d) == Ok(m)
    ensures JoinType(m) == JoinType(e) == JoinType(d)
    ensures m.rowPredicate == MergePredicates(e.rowPredicate, d.rowPredicate)
    ensures m.children == if d.children == [] then e.children else Merge(e.children + d.children).value
  {
  }

  /** The children merge step by step exactly if they merge all at once. */
  lemma ChildrenInSteps(e: Decision, d: Decision, rest: seq<Decision>, m: Decision)
    requires d.children == [] || Merge(e.children + d.children).Ok?
    requires m.children == if d.children == [] then e.children else Merge(e.children + d.children).value
    ensures Children([d] + rest) == [] || Merge(e.children + Children([d] + rest)).Ok?
            <==> Children(rest) == [] || Merge(m.children + Children(rest)).Ok?
  {
    assert ([d] + rest)[1..] == rest;
    ListsInSteps(e.children, d.children, Children(rest), m.children);
  }

  lemma ListsInSteps(a: seq<Decision>, b: seq<Decision>, c: seq<Decision>, merged: seq<Decision>)
    requires b == [] || Merge(a + b).Ok?
    requires merged == if b == [] then a else Merge(a + b).value
    ensures b + c == [] || Merge(a + (b + c)).Ok? <==> c == [] || Merge(merged + c).Ok?
  {
    if b == [] {
      assert b + c == c;
    } else {
      Associative(a, b, c);
      MergeInSteps(a + b, c);
      assert a + b + [] == a + b;
    }
  }

  lemma NotFitting(e: Decision, d: Decision, rest: seq<Decision>)
    requires e.path.Some? && !(Fitting(e, d) && (d.children == [] || Merge(e.children + d.children).Ok?))
    ensures Combine(e, d).Err? && !Compatible(e, [d] + rest)
  {
    var g := [d] + rest;
    assert d in g && e in [e] + g && d in [e] + g;
    if Compatible(e, g) {
      assert g[1..] == rest && Children(g) == d.children + Children(rest);
      assert e.children + (d.children + Children(rest)) == e.children + d.children + Children(rest);
      FrontMerges(e.children + d.children, Children(rest));
    }
  }

  /** The i-th decision is the first include of its path. */
  predicate FirstOfPath(ds: seq<Decision>, i: nat)
    requires i < |ds|
  {
    ds[i].path.Some? && forall j | 0 <= j < i :: ds[j].path != ds[i].path
  }

  lemma {:induction false} FoldableMerges(acc: seq<Decision>, ds: seq<Decision>)
    requires AllFold(acc, ds) && KeptFold(acc, ds)
    ensures MergeOnto(acc, ds).Ok?
    decreases |ds|
  {
    if ds != [] {
      var d := ds[0];
      if Merges(acc, d) {
        var k := FirstAt(acc, d.path.value).value;
        GroupSkips(acc[k], ds);
        assert FirstHere(acc, k);
        var m := Combine(acc[k], d).value;
        AllFoldAfterMerge(acc, ds, k, m);
        assert SameKeys(acc[k := m], acc);
        SameKeptFold(acc[k := m], acc, ds[1..]);
        FoldableMerges(acc[k := m], ds[1..]);
      } else {
        AllFoldAfterAppend(acc, ds);
        FoldableMerges(acc + [d], ds[1..]);
      }
    }
  }

  lemma AllFoldAfterMerge(acc: seq<Decision>, ds: seq<Decision>, k: nat, m: Decision)
    requires ds != [] && Merges(acc, ds[0]) && FirstAt(acc, ds[0].path.value) == Some(k)
    requires Combine(acc[k], ds[0]) == Ok(m)
    requires AllFold(acc, ds)
    ensures AllFold(acc[k := m], ds[1..])
  {
    var all := acc[k := m];
    forall i | 0 <= i < |all| && FirstHere(all, i) ensures Fold(all[i], Group(all[i], ds[1..])).Ok? {
      FirstInUpdated(acc, k, m, acc[i].path.value);
      assert FirstHere(acc, i);
      GroupSkips(acc[i], ds);
      if i == k { SameGroup(m, acc[k], ds[1..]); }
    }
  }

  lemma AllFoldAfterAppend(acc: seq<Decision>, ds: seq<Decision>)
    requires ds != [] && !Merges(acc, ds[0]) && AllFold(acc, ds) && KeptFold(acc, ds)
    ensures AllFold(acc + [ds[0]], ds[1..])
  {
    var all := acc + [ds[0]];
    forall i | 0 <= i < |all| && FirstHere(all, i) ensures Fold(all[i], Group(all[i], ds[1..])).Ok? {
      FirstInLonger(acc, ds[0], all[i].path.value);
      if i < |acc| {
        assert FirstHere(acc, i);
        GroupSkips(acc[i], ds);
      }
    }
  }

  /** Which kept decisions are firsts can be told from the input alone. */
  lemma {:induction false} KeptFirsts(acc: seq<Decision>, ds: seq<Decision>)
    ensures KeptFold(acc, ds) <==>
      forall i | 0 <= i < |ds| && FirstOfPath(ds, i) && IsFirst(acc, ds[i]) ::
          Fold(ds[i], Group(ds[i], ds[i + 1..])).Ok?
    decreases |ds|
  {
    if ds != [] {
      var d, rest := ds[0], ds[1..];
      var next := if Merges(acc, d) then acc else acc + [d];
      KeptFirsts(next, rest);
      forall i | 0 < i < |ds|
        ensures FirstOfPath(ds, i) && IsFirst(acc, ds[i]) <==> FirstOfPath(rest, i - 1) && IsFirst(next, rest[i - 1])
        ensures ds[i + 1..] == rest[i..]
      {
        FirstsShift(acc, ds, i);
      }
      FirstsOfBoth(acc, ds, next);
    }
  }

  lemma FirstsShift(acc: seq<Decision>, ds: seq<Decision>, i: nat)
    requires 0 < i < |ds|
    ensures var next := if Merges(acc, ds[0]) then acc else acc + [ds[0]];
      FirstOfPath(ds, i) && IsFirst(acc, ds[i]) <==> FirstOfPath(ds[1..], i - 1) && IsFirst(next, ds[i])
  {
    var d, rest := ds[0], ds[1..];
    assert forall j | 0 < j < |ds| :: ds[j] == rest[j - 1];
    assert forall j | 0 <= j < |rest| :: rest[j] == ds[j + 1];
    if ds[i].path.Some? { FirstInLonger(acc, d, ds[i].path.value); }
  }

  lemma FirstsOfBoth(acc: seq<Decision>, ds: seq<Decision>, next: seq<Decision>)
    requires ds != [] && next == if Merges(acc, ds[0]) then acc else acc + [ds[0]]
    requires forall i | 0 < i < |ds| ::
      (FirstOfPath(ds, i) && IsFirst(acc, ds[i]) <==> FirstOfPath(ds[1..], i - 1) && IsFirst(next, ds[1..][i - 1]))
      && ds[i + 1..] == ds[1..][i..]
    ensures (forall i | 0 <= i < |ds| && FirstOfPath(ds, i) && IsFirst(acc, ds[i]) ::
               Fold(ds[i], Group(ds[i], ds[i + 1..])).Ok?)
      <==> (IsFirst(acc, ds[0]) ==> Fold(ds[0], Group(ds[0], ds[1..])).Ok?) &&
           forall i | 0 <= i < |ds[1..]| && FirstOfPath(ds[1..], i) && IsFirst(next, ds[1..][i]) ::
             Fold(ds[1..][i], Group(ds[1..][i], ds[1..][i + 1..])).Ok?
  {
    var rest := ds[1..];
    if forall i | 0 <= i < |ds| && FirstOfPath(ds, i) && IsFirst(acc, ds[i]) ::
        Fold(ds[i], Group(ds[i], ds[i + 1..])).Ok? {
      assert IsFirst(acc, ds[0]) ==> FirstOfPath(ds, 0);
      forall i | 0 <= i < |rest| && FirstOfPath(rest, i) && IsFirst(next, rest[i])
        ensures Fold(rest[i], Group(rest[i], rest[i + 1..])).Ok?
      {
        assert FirstOfPath(ds, i + 1) && IsFirst(acc, ds[i + 1]);
      }
    }
    if (IsFirst(acc, ds[0]) ==> Fold(ds[0], Group(ds[0], ds[1..])).Ok?) &&
       forall i | 0 <= i < |rest| && FirstOfPath(rest, i) && IsFirst(next, rest[i]) ::
         Fold(rest[i], Group(rest[i], rest[i + 1..])).Ok? {
      forall i | 0 <= i < |ds| && FirstOfPath(ds, i) && IsFirst(acc, ds[i])
        ensures Fold(ds[i], Group(ds[i], ds[i + 1..])).Ok?
      {
        if i > 0 { assert FirstOfPath(rest, i - 1) && IsFirst(next, rest[i - 1]); }
      }
    }
  }

  /**
   Merging is accepted exactly if for every path nothing conflicts between its first include and the later
   ones of the same choice: join types and predicate ranges agree, and the children merge in turn.
   */
  lemma MergeAcceptsExactly(ds: seq<Decision>)
    ensures Merge(ds).Ok? <==>
      forall i | 0 <= i < |ds| && FirstOfPath(ds, i) :: Compatible(ds[i], Group(ds[i], ds[i + 1..]))
  {
    KeptFirsts([], ds);
    if Merge(ds).Ok? {
      MergeOntoShape([], ds);
    } else if KeptFold([], ds) {
      FoldableMerges([], ds);
    }
    forall i | 0 <= i < |ds| && FirstOfPath(ds, i)
      ensures Fold(ds[i], Group(ds[i], ds[i + 1..])).Ok? <==> Compatible(ds[i], Group(ds[i], ds[i + 1..]))
    {
      FoldAccepts(ds[i], Group(ds[i], ds[i + 1..]));
    }
  }

  // --- the survivor's contents ---------------------------------------------------------------------------

  function Conditions(ds: seq<Decision>): seq<Condition> {
    if ds == [] then [] else ds[0].conditions + Conditions(ds[1..])
  }

  function Children(ds: seq<Decision>): seq<Decision> {
    if ds == [] then [] else ds[0].children + Children(ds[1..])
  }

  function Conjuncts(c: Condition): seq<Condition> {
    match c case Atom(_) => [c] case Both(a, b) => Conjuncts(a) + Conjuncts(b)
  }

  function PredicateConjuncts(p: Option<Predicate>): seq<Condition> {
    if p.None? then [] else Conjuncts(p.value.condition)
  }

  function AllConjuncts(ds: seq<Decision>): seq<Condition> {
    if ds == [] then [] else PredicateConjuncts(ds[0].rowPredicate) + AllConjuncts(ds[1..])
  }

  /** A column list asks for a column by name or by the star. */
  predicate Asks(columns: Option<seq<Col>>, c: Col) { columns.Some? && (c in columns.value || Star in columns.value) }

  /** The value of the first decision that has the alias. */
  function AliasOf(ds: seq<Decision>, key: string): Option<string> {
    if ds == [] then None else if key in ds[0].aliases then Some(ds[0].aliases[key]) else AliasOf(ds[1..], key)
  }

  lemma {:induction false} UnseenAdds(current: seq<Col>, next: seq<Col>, c: Col)
    ensures c in current || c in Unseen(current, next) <==> c in current || c in next
    ensures c in Unseen(current, next) ==> c !in current
    decreases next
  {
    if next != [] {
      if next[0] in current {
        UnseenAdds(current, next[1..], c);
      } else {
        UnseenAdds(current + [next[0]], next[1..], c);
      }
    }
  }

  lemma ColumnsAsk(a: Option<seq<Col>>, b: Option<seq<Col>>, c: Col)
    ensures Asks(MergeColumns(a, b), c) <==> Asks(a, c) || Asks(b, c)
  {
    if a.Some? && b.Some? {
      UnseenAdds(a.value, b.value, c);
      UnseenAdds(a.value, b.value, Star);
    }
  }

  lemma ConjunctsMerge(a: Option<Predicate>, b: Option<Predicate>)
    ensures PredicateConjuncts(MergePredicates(a, b)) == PredicateConjuncts(a) + PredicateConjuncts(b)
  {
  }

  /** One step of a fold over e and what it takes. */
  lemma FoldStep(e: Decision, g: seq<Decision>)
    requires e.path.Some? && g != [] && Fold(e, g).Ok?
    ensures Combine(e, g[0]).Ok? && Fold(e, g) == Fold(Combine(e, g[0]).value, g[1..])
    ensures var m := Combine(e, g[0]).value;
      && m.path == e.path && m.choice == e.choice && m.joinType == e.joinType
      && m.conditions == e.conditions + g[0].conditions
      && m.rowPredicate == MergePredicates(e.rowPredicate, g[0].rowPredicate)
      && m.columns == MergeColumns(e.columns, g[0].columns)
      && m.aliases == g[0].aliases + e.aliases
  {
  }

  lemma {:induction false} FoldConditions(e: Decision, g: seq<Decision>)
    requires e.path.Some? && Fold(e, g).Ok?
    ensures Fold(e, g).value.conditions == e.conditions + Conditions(g)
    decreases g
  {
    if g != [] {
      FoldStep(e, g);
      FoldConditions(Combine(e, g[0]).value, g[1..]);
      Associative(e.conditions, g[0].conditions, Conditions(g[1..]));
    }
  }

  lemma {:induction false} FoldConjuncts(e: Decision, g: seq<Decision>)
    requires e.path.Some? && Fold(e, g).Ok?
    ensures PredicateConjuncts(Fold(e, g).value.rowPredicate) == PredicateConjuncts(e.rowPredicate) + AllConjuncts(g)
    decreases g
  {
    if g != [] {
      FoldStep(e, g);
      FoldConjuncts(Combine(e, g[0]).value, g[1..]);
      ConjunctsMerge(e.rowPredicate, g[0].rowPredicate);
      Associative(PredicateConjuncts(e.rowPredicate), PredicateConjuncts(g[0].rowPredicate), AllConjuncts(g[1..]));
    }
  }

  lemma {:induction false} FoldColumns(e: Decision, g: seq<Decision>, c: Col)
    requires e.path.Some? && Fold(e, g).Ok?
    ensures Asks(Fold(e, g).value.columns, c) <==> Asks(e.columns, c) || exists d | d in g :: Asks(d.columns, c)
    decreases g
  {
    if g != [] {
      FoldStep(e, g);
      FoldColumns(Combine(e, g[0]).value, g[1..], c);
      ColumnsAsk(e.columns, g[0].columns, c);
      assert forall d :: d in g <==> d == g[0] || d in g[1..];
    }
  }

  lemma {:induction false} FoldAliases(e: Decision, g: seq<Decision>, key: string)
    requires e.path.Some? && Fold(e, g).Ok?
    ensures var r := Fold(e, g).value.aliases;
      (if key in r then Some(r[key]) else None) == if key in e.aliases then Some(e.aliases[key]) else AliasOf(g, key)
    decreases g
  {
    if g != [] {
      FoldStep(e, g);
      FoldAliases(Combine(e, g[0]).value, g[1..], key);
    }
  }

  lemma {:induction false} FoldIdentity(e: Decision, g: seq<Decision>)
    requires e.path.Some? && Fold(e, g).Ok?
    ensures var r := Fold(e, g).value; r.path == e.path && r.choice == e.choice && r.joinType == e.joinType
    ensures forall d | d in g :: JoinType(d) == JoinType(e)
    decreases g
  {
    if g != [] {
      FoldStep(e, g);
      FoldIdentity(Combine(e, g[0]).value, g[1..]);
    }
  }

  lemma CombineChildren(e: Decision, d: Decision)
    requires e.path.Some? && Combine(e, d).Ok?
    ensures Combine(e, d).value.children
            == if d.children == [] then e.children else Merge(e.children + d.children).value
    ensures d.children != [] ==> Merge(e.children + d.children).Ok?
  {
  }

  /** Children are merged as if all were merged at once. */
  lemma {:induction false} FoldChildren(e: Decision, g: seq<Decision>)
    requires e.path.Some? && Fold(e, g).Ok?
    ensures Children(g) == [] ==> Fold(e, g).value.children == e.children
    ensures Children(g) != [] ==> Merge(e.children + Children(g)) == Ok(Fold(e, g).value.children)
    decreases g
  {
    if g != [] {
      var m := Combine(e, g[0]).value;
      FoldStep(e, g);
      CombineChildren(e, g[0]);
      if g[0].children == [] {
        assert Children(g) == Children(g[1..]);
        FoldChildren(m, g[1..]);
      } else {
        var both := e.children + g[0].children;
        MergeIsIdempotent(both);
        FoldChildren(m, g[1..]);
        MergeInSteps(both, Children(g[1..]));
        assert both + Children(g[1..]) == e.children + Children(g);
        assert m.children + [] == m.children && both + [] == both;
      }
    }
  }

  /** The column lists that are present. */
  function Lists(ds: seq<Decision>): seq<seq<Col>> {
    if ds == [] then [] else (if ds[0].columns.Some? then [ds[0].columns.value] else []) + Lists(ds[1..])
  }

  function Flat(ls: seq<seq<Col>>): seq<Col> { if ls == [] then [] else ls[0] + Flat(ls[1..]) }

  /** Two lists or more make the star if one has it, and otherwise the first list and what is new after it. */
  function UnionOf(ls: seq<seq<Col>>): Option<seq<Col>> {
    if ls == [] then None
    else if |ls| == 1 then Some(ls[0])
    else if Star in Flat(ls) then Some([Star])
    else Some(ls[0] + Unseen(ls[0], Flat(ls[1..])))
  }

  lemma {:induction false} UnseenInParts(current: seq<Col>, a: seq<Col>, b: seq<Col>)
    ensures Unseen(current, a + b) == Unseen(current, a) + Unseen(current + Unseen(current, a), b)
    decreases a
  {
    if a == [] {
      assert a + b == b && current + [] == current;
    } else {
      assert (a + b)[1..] == a[1..] + b;
      if a[0] in current {
        UnseenInParts(current, a[1..], b);
      } else {
        var next := current + [a[0]];
        UnseenInParts(next, a[1..], b);
        Associative(current, [a[0]], Unseen(next, a[1..]));
        Associative([a[0]], Unseen(next, a[1..]), Unseen(next + Unseen(next, a[1..]), b));
      }
    }
  }

  /** Merging the first two lists first makes the same union. */
  lemma UnionFirstTwo(a: seq<Col>, b: seq<Col>, ls: seq<seq<Col>>)
    ensures UnionOf([MergeColumns(Some(a), Some(b)).value] + ls) == UnionOf([a, b] + ls)
  {
    var ab := MergeColumns(Some(a), Some(b)).value;
    var two, all := [a, b] + ls, [ab] + ls;
    assert two[1..] == [b] + ls && two[1..][1..] == ls && all[1..] == ls;
    assert Flat(two) == a + (b + Flat(ls)) && Flat(two[1..]) == b + Flat(ls) && Flat(all) == ab + Flat(ls);
    UnseenAdds(a, b, Star);
    if Star !in Flat(two) {
      UnseenInParts(a, b, Flat(ls));
      assert a + Unseen(a, b) + Unseen(a + Unseen(a, b), Flat(ls)) == a + Unseen(a, b + Flat(ls));
      assert ls == [] ==> Flat(ls) == [] && b + [] == b;
    }
  }

  lemma {:induction false} FoldColumnLists(e: Decision, g: seq<Decision>)
    requires e.path.Some? && Fold(e, g).Ok?
    ensures Fold(e, g).value.columns == UnionOf((if e.columns.Some? then [e.columns.value] else []) + Lists(g))
    decreases g
  {
    var own := if e.columns.Some? then [e.columns.value] else [];
    if g == [] {
      assert own + [] == own;
    } else {
      var m := Combine(e, g[0]).value;
      var rest := Lists(g[1..]);
      FoldStep(e, g);
      FoldColumnLists(m, g[1..]);
      if e.columns.Some? && g[0].columns.Some? {
        UnionFirstTwo(e.columns.value, g[0].columns.value, rest);
        assert own + ([g[0].columns.value] + rest) == [e.columns.value, g[0].columns.value] + rest;
      } else if g[0].columns.Some? {
        assert own + ([g[0].columns.value] + rest) == [g[0].columns.value] + rest;
      } else {
        assert [] + rest == rest;
      }
    }
  }

  /** What the first include of a path is after taking up the others of its choice. */
  lemma SurvivorIsMadeOf(e: Decision, ds: seq<Decision>, key: string)
    requires e.path.Some? && Fold(e, Group(e, ds)).Ok?
    ensures var whole := [e] + Group(e, ds);
      var r := Survivor(e, ds);
      && r.path == e.path && r.choice == e.choice && r.joinType == e.joinType
      && r.columns == UnionOf(Lists(whole))
      && r.conditions == Conditions(whole)
      && PredicateConjuncts(r.rowPredicate) == AllConjuncts(whole)
      && (if key in r.aliases then Some(r.aliases[key]) else None) == AliasOf(whole, key)
  {
    var g := Group(e, ds);
    assert ([e] + g)[1..] == g;
    FoldIdentity(e, g);
    FoldColumnLists(e, g);
    FoldConditions(e, g);
    FoldConjuncts(e, g);
    FoldAliases(e, g, key);
  }

  // --- as the compiler runs it ---------------------------------------------------------------------------

  /** The map knows the first include of each path. */
  ghost predicate Indexes(seen: map<Path, nat>, ds: seq<Decision>) {
    (forall p :: p in seen <==> FirstAt(ds, p).Some?) && forall p | p in seen :: FirstAt(ds, p) == Some(seen[p])
  }

  lemma IndexesLonger(seen: map<Path, nat>, ds: seq<Decision>, d: Decision)
    requires Indexes(seen, ds)
    ensures Indexes(if d.path.Some? && d.path.value !in seen then seen[d.path.value := |ds|] else seen, ds + [d])
  {
    forall p { FirstInLonger(ds, d, p); }
  }

  lemma IndexesUpdated(seen: map<Path, nat>, ds: seq<Decision>, k: nat, d: Decision)
    requires Indexes(seen, ds) && k < |ds| && d.path == ds[k].path
    ensures Indexes(seen, ds[k := d])
  {
    forall p { FirstInUpdated(ds, k, d, p); }
  }

  method MergeColumnLists(current: Option<seq<Col>>, next: Option<seq<Col>>) returns (r: Option<seq<Col>>)
    ensures r == MergeColumns(current, next)
  {
    if current.None? { return next; }
    if next.None? { return current; }
    if Star in current.value || Star in next.value { return Some([Star]); }
    var merged := current.value;
    var i := 0;
    while i < |next.value|
      invariant i <= |next.value|
      invariant merged + Unseen(merged, next.value[i..]) == current.value + Unseen(current.value, next.value)
    {
      assert next.value[i..][1..] == next.value[i + 1..];
      if next.value[i] !in merged {
        var column := next.value[i];
        assert merged + ([column] + Unseen(merged + [column], next.value[i + 1..]))
            == merged + [column] + Unseen(merged + [column], next.value[i + 1..]);
        merged := merged + [column];
      }
      i := i + 1;
    }
    assert merged + [] == merged;
    r := Some(merged);
  }

  /** Where one decision is taken in, merging goes on with the next; where it is refused, so is the list. */
  lemma NextMerge(merged: seq<Decision>, decisions: seq<Decision>, i: nat)
    requires i < |decisions|
    ensures Absorb(merged, decisions[i]).Ok? ==>
      MergeOnto(merged, decisions[i..]) == MergeOnto(Absorb(merged, decisions[i]).value, decisions[i + 1..])
    ensures Absorb(merged, decisions[i]).Err? ==>
      MergeOnto(merged, decisions[i..]) == Err(Absorb(merged, decisions[i]).error)
    ensures SizeAll(decisions[i..]) == Size(decisions[i]) + SizeAll(decisions[i + 1..])
  {
    assert decisions[i..][1..] == decisions[i + 1..];
  }

  /** Merging in place, with a map from each path to its first include. */
  method MergeDuplicateJoinIncludeDecisions(decisions: seq<Decision>) returns (r: Result<seq<Decision>, Error>)
    ensures r == Merge(decisions)
    decreases SizeAll(decisions), 2
  {
    var merged: seq<Decision> := [];
    var seenByPath: map<Path, nat> := map[];
    var i := 0;
    assert decisions[0..] == decisions;
    while i < |decisions|
      invariant i <= |decisions|
      invariant MergeOnto(merged, decisions[i..]) == Merge(decisions)
      invariant SizeAll(merged) + SizeAll(decisions[i..]) <= SizeAll(decisions)
      invariant Indexes(seenByPath, merged)
    {
      NextMerge(merged, decisions, i);
      var next;
      next, seenByPath := TakeIn(merged, seenByPath, decisions[i]);
      if next.Err? { return Err(next.error); }
      merged := next.value;
      i := i + 1;
    }
    r := Ok(merged);
  }

  /** One pass of that loop. */
  method TakeIn(merged: seq<Decision>, seenByPath: map<Path, nat>, d: Decision)
    returns (r: Result<seq<Decision>, Error>, seen: map<Path, nat>)
    requires Indexes(seenByPath, merged)
    ensures r == Absorb(merged, d) && (r.Ok? ==> Indexes(seen, r.value))
    decreases SizeAll(merged) + Size(d), 1
  {
    seen := seenByPath;
    if d.path.None? || d.path.value !in seenByPath || merged[seenByPath[d.path.value]].choice != d.choice {
      IndexesLonger(seenByPath, merged, d);
      if d.path.Some? && d.path.value !in seenByPath { seen := seenByPath[d.path.value := |merged|]; }
      r := Ok(merged + [d]);
    } else {
      var k := seenByPath[d.path.value];
      SizeUpdate(merged, k, merged[k]);
      var m := CombineInPlace(merged[k], d);
      if m.Err? { return Err(m.error), seen; }
      IndexesUpdated(seenByPath, merged, k, m.value);
      r := Ok(merged[k := m.value]);
    }
  }

  method CombineInPlace(existing: Decision, d: Decision) returns (r: Result<Decision, Error>)
    requires existing.path.Some?
    ensures r == Combine(existing, d)
    decreases Size(existing) + Size(d), 0
  {
    if JoinType(existing) != JoinType(d) { return Err(ConflictingJoin(existing.path.value)); }
    if d.rowPredicate.Some? && existing.rowPredicate.Some? &&
        !SameRanges(existing.rowPredicate.value, d.rowPredicate.value) {
      return Err(ConflictingRanges);
    }
    var own := existing;
    if d.rowPredicate.Some? { own := own.(rowPredicate := MergePredicates(existing.rowPredicate, d.rowPredicate)); }
    var columns := MergeColumnLists(existing.columns, d.columns);
    own := own.(columns := columns);
    own := own.(aliases := d.aliases + existing.aliases);
    own := own.(conditions := existing.conditions + d.conditions);
    if d.children != [] {
      SizeConcat(existing.children, d.children);
      var children := MergeDuplicateJoinIncludeDecisions(existing.children + d.children);
      if children.Err? { return Err(children.error); }
      own := own.(children := children.value);
    }
    r := Ok(own);
  }
}
