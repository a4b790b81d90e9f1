/**
 Admission, naming and collision protection for named statements: the registry of
 packages/adapter-pgsql/src/prepared-statements.ts.

 JavaScript sets and maps iterate in insertion order; where the code relies on that
 (evicting the oldest entry) the model keeps a sequence without repetitions.
 SHA-256 is not modelled: `fingerprint` and `hashName` are arbitrary functions, so
 two texts may share a fingerprint and two fingerprints may share a name.
 */
module PreparedStatements {
  import opened Common

  datatype Fingerprint = Fingerprint(hex: string)
  datatype Name = Name(text: string)

  datatype Reservation = Reservation(fingerprint: Fingerprint, name: Name, generation: nat)
  datatype Admission = Admission(name: Name, reservation: Option<Reservation>)
  datatype Pending = Pending(name: Name, generations: set<nat>)

  /** The registry's fields as one value. */
  datatype State = State(
    candidates: seq<Fingerprint>,
    confirmed: map<Fingerprint, Name>,
    owners: map<Name, Fingerprint>,
    pending: map<Fingerprint, Pending>,
    rejected: seq<Fingerprint>,
    nextGeneration: nat)

  const INITIAL := State([], map[], map[], map[], [], 0)

  ghost predicate Distinct(s: seq<Fingerprint>) {
    forall i, j :: 0 <= i < j < |s| ==> s[i] != s[j]
  }

  /** Set deletion on a sequence that keeps insertion order. */
  function Without(s: seq<Fingerprint>, f: Fingerprint): (r: seq<Fingerprint>)
    ensures forall g :: g in r ==> g in s && g != f
    ensures f !in s ==> r == s
    ensures |r| <= |s|
  {
    if s == [] then [] else if s[0] == f then Without(s[1..], f) else [s[0]] + Without(s[1..], f)
  }

  lemma {:induction false} WithoutKeepsTheRest(s: seq<Fingerprint>, f: Fingerprint)
    requires Distinct(s)
    ensures var r := Without(s, f); Distinct(r) && forall g :: g in s && g != f ==> g in r
  {
    if s != [] {
      WithoutKeepsTheRest(s[1..], f);
      var r := Without(s[1..], f);
      assert s[0] !in r by { assert s[0] !in s[1..]; }
    }
  }

  /** Set insertion that first drops the oldest entry of a full set. */
  function Remember(s: seq<Fingerprint>, max: nat, f: Fingerprint): seq<Fingerprint> {
    (if |s| >= max && s != [] then s[1..] else s) + [f]
  }

  predicate AtCapacity(s: State, max: nat) {
    |s.confirmed| + |s.pending| >= max
  }

  // --- what one call does ------------------------------------------------------

  function Reserve(s: State, f: Fingerprint, p: Pending): (State, Option<Admission>) {
    var r := Reservation(f, p.name, s.nextGeneration);
    (s.(pending := s.pending[f := Pending(p.name, p.generations + {s.nextGeneration})],
        nextGeneration := s.nextGeneration + 1),
     Some(Admission(p.name, Some(r))))
  }

  /** `admit` for a text with fingerprint f whose derived name is n. */
  function Admit(s: State, max: nat, f: Fingerprint, n: Name): (State, Option<Admission>) {
    if f in s.rejected then (s, None)
    else if f in s.confirmed then (s, Some(Admission(s.confirmed[f], None)))
    else if f in s.pending then Reserve(s, f, s.pending[f])
    else if f !in s.candidates then
      if AtCapacity(s, max) then (s, None)
      else (s.(candidates := Remember(s.candidates, max, f)), None)
    else
      var s1 := s.(candidates := Without(s.candidates, f));
      if AtCapacity(s1, max) then (s1, None)
      else if n in s1.owners && s1.owners[n] != f then
        (s1.(rejected := Remember(s1.rejected, max, f)), None)
      else
        var (s2, admission) := Reserve(s1.(owners := s1.owners[n := f]), f, Pending(n, {}));
        (if AtCapacity(s2, max) then s2.(candidates := []) else s2, admission)
  }

  predicate Live(s: State, r: Reservation) {
    r.fingerprint in s.pending &&
    s.pending[r.fingerprint].name == r.name &&
    r.generation in s.pending[r.fingerprint].generations
  }

  function Confirm(s: State, r: Reservation): State {
    if !Live(s, r) then s
    else s.(pending := s.pending - {r.fingerprint},
            confirmed := s.confirmed[r.fingerprint := r.name])
  }

  function Abort(s: State, r: Reservation): State {
    if !Live(s, r) then s
    else
      var p := Pending(r.name, s.pending[r.fingerprint].generations - {r.generation});
      if p.generations != {} then s.(pending := s.pending[r.fingerprint := p])
      else
        s.(pending := s.pending - {r.fingerprint},
           owners := if r.name in s.owners && s.owners[r.name] == r.fingerprint
                     then s.owners - {r.name} else s.owners)
  }

  // --- invariant ---------------------------------------------------------------

  ghost predicate Separate(s: State) {
    && (forall f :: f in s.confirmed ==> f !in s.pending)
    && (forall f :: f in s.candidates ==> f !in s.confirmed && f !in s.pending && f !in s.rejected)
    && (forall f :: f in s.rejected ==> f !in s.confirmed && f !in s.pending)
  }

  /** `owners` is the exact inverse of the confirmed names together with the pending ones. */
  ghost predicate Inverse(confirmed: map<Fingerprint, Name>, pending: map<Fingerprint, Pending>,
                          owners: map<Name, Fingerprint>)
  {
    && (forall f :: f in confirmed ==> confirmed[f] in owners && owners[confirmed[f]] == f)
    && (forall f :: f in pending ==> pending[f].name in owners && owners[pending[f].name] == f)
    && (forall n :: n in owners ==>
          || (owners[n] in confirmed && confirmed[owners[n]] == n)
          || (owners[n] in pending && pending[owners[n]].name == n))
  }

  ghost predicate Bounded(s: State, max: nat) {
    && |s.confirmed| + |s.pending| <= max
    && |s.candidates| <= max
    && |s.rejected| <= max
    && Distinct(s.candidates)
    && Distinct(s.rejected)
    && (AtCapacity(s, max) ==> s.candidates == [])
  }

  ghost predicate Generations(pending: map<Fingerprint, Pending>, next: nat) {
    && (forall f :: f in pending ==> pending[f].generations != {})
    && (forall f, g :: f in pending && g in pending[f].generations ==> g < next)
    && (forall f, h, g | f in pending && h in pending &&
                         g in pending[f].generations && g in pending[h].generations :: f == h)
  }

  ghost predicate Inv(s: State, max: nat) {
    && Separate(s)
    && Inverse(s.confirmed, s.pending, s.owners)
    && Bounded(s, max)
    && Generations(s.pending, s.nextGeneration)
  }

  lemma SizeAfterAdding<T>(m: map<Fingerprint, T>, f: Fingerprint, v: T)
    ensures |m[f := v]| == if f in m then |m| else |m| + 1
  {
    assert m[f := v].Keys == m.Keys + {f};
  }

  lemma SizeAfterRemoving<T>(m: map<Fingerprint, T>, f: Fingerprint)
    requires f in m
    ensures |m - {f}| == |m| - 1
  {
    assert (m - {f}).Keys == m.Keys - {f};
  }

  lemma NewGeneration(pending: map<Fingerprint, Pending>, next: nat, f: Fingerprint, p: Pending)
    requires Generations(pending, next)
    requires f in pending ==> p == pending[f]
    requires f !in pending ==> p.generations == {}
    ensures Generations(pending[f := Pending(p.name, p.generations + {next})], next + 1)
  {
    assert next in pending[f := Pending(p.name, p.generations + {next})][f].generations;
  }

  lemma DropGeneration(pending: map<Fingerprint, Pending>, next: nat, f: Fingerprint, p: Pending)
    requires Generations(pending, next)
    requires f in pending && p.generations <= pending[f].generations && p.generations != {}
    ensures Generations(pending[f := p], next)
  {
  }

  lemma InverseWithSameNames(confirmed: map<Fingerprint, Name>, pending: map<Fingerprint, Pending>,
                             owners: map<Name, Fingerprint>, f: Fingerprint, p: Pending)
    requires Inverse(confirmed, pending, owners)
    requires f in pending && p.name == pending[f].name
    ensures Inverse(confirmed, pending[f := p], owners)
  {
  }

  lemma InverseWithNewName(confirmed: map<Fingerprint, Name>, pending: map<Fingerprint, Pending>,
                           owners: map<Name, Fingerprint>, f: Fingerprint, p: Pending)
    requires Inverse(confirmed, pending, owners)
    requires f !in confirmed && f !in pending && p.name !in owners
    ensures Inverse(confirmed, pending[f := p], owners[p.name := f])
  {
  }

  lemma InverseAfterConfirming(confirmed: map<Fingerprint, Name>, pending: map<Fingerprint, Pending>,
                               owners: map<Name, Fingerprint>, f: Fingerprint)
    requires Inverse(confirmed, pending, owners) && f in pending && f !in confirmed
    ensures Inverse(confirmed[f := pending[f].name], pending - {f}, owners)
  {
  }

  lemma InverseAfterReleasing(confirmed: map<Fingerprint, Name>, pending: map<Fingerprint, Pending>,
                              owners: map<Name, Fingerprint>, f: Fingerprint)
    requires Inverse(confirmed, pending, owners) && f in pending && f !in confirmed
    ensures Inverse(confirmed, pending - {f}, owners - {pending[f].name})
  {
  }

  lemma ReserveAgainKeepsInv(s: State, max: nat, f: Fingerprint)
    requires Inv(s, max) && f in s.pending
    ensures Inv(Reserve(s, f, s.pending[f]).0, max)
  {
    var p := Pending(s.pending[f].name, s.pending[f].generations + {s.nextGeneration});
    NewGeneration(s.pending, s.nextGeneration, f, s.pending[f]);
    InverseWithSameNames(s.confirmed, s.pending, s.owners, f, p);
    SamePendingKeys(s, max, f, p);
  }

  lemma SamePendingKeys(s: State, max: nat, f: Fingerprint, p: Pending)
    requires Separate(s) && Bounded(s, max) && f in s.pending
    ensures var t := s.(pending := s.pending[f := p]); Separate(t) && Bounded(t, max)
  {
    SizeAfterAdding(s.pending, f, p);
  }

  lemma RememberStaysBounded(s: seq<Fingerprint>, max: nat, f: Fingerprint)
    requires max >= 1 && |s| <= max && Distinct(s) && f !in s
    ensures var t := Remember(s, max, f); |t| <= max && Distinct(t) && forall g :: g in t ==> g == f || g in s
  {
  }

  lemma AdmitKeepsInv(s: State, max: nat, f: Fingerprint, n: Name)
    requires max >= 1 && Inv(s, max)
    ensures Inv(Admit(s, max, f, n).0, max)
  {
    if f in s.rejected || f in s.confirmed {
    } else if f in s.pending {
      ReserveAgainKeepsInv(s, max, f);
    } else if f !in s.candidates {
      RememberStaysBounded(s.candidates, max, f);
    } else {
      var s1 := s.(candidates := Without(s.candidates, f));
      SecondCapacityCheckIsDead(s, max, f);
      ForgettingKeepsInv(s, max, f);
      if n in s1.owners && s1.owners[n] != f {
        RejectingKeepsInv(s1, max, f);
      } else {
        AdmitNewNameKeepsInv(s1, max, f, n);
      }
    }
  }

  lemma ForgettingKeepsInv(s: State, max: nat, f: Fingerprint)
    requires Inv(s, max)
    ensures Inv(s.(candidates := Without(s.candidates, f)), max)
  {
    WithoutKeepsTheRest(s.candidates, f);
  }

  lemma RejectingKeepsInv(s: State, max: nat, f: Fingerprint)
    requires max >= 1 && Inv(s, max)
    requires f !in s.candidates && f !in s.rejected && f !in s.confirmed && f !in s.pending
    ensures Inv(s.(rejected := Remember(s.rejected, max, f)), max)
  {
    RememberStaysBounded(s.rejected, max, f);
  }

  lemma AdmitNewNameKeepsInv(s: State, max: nat, f: Fingerprint, n: Name)
    requires Inv(s, max) && !AtCapacity(s, max)
    requires f !in s.candidates && f !in s.rejected && f !in s.confirmed && f !in s.pending
    requires n in s.owners ==> s.owners[n] == f
    ensures var s2 := Reserve(s.(owners := s.owners[n := f]), f, Pending(n, {})).0;
      Inv(if AtCapacity(s2, max) then s2.(candidates := []) else s2, max)
  {
    assert n !in s.owners;
    NewGeneration(s.pending, s.nextGeneration, f, Pending(n, {}));
    InverseWithNewName(s.confirmed, s.pending, s.owners, f, Pending(n, {} + {s.nextGeneration}));
    NewNameIsSeparate(s, f, n);
    NewNameIsBounded(s, max, f, n);
  }

  lemma NewNameIsSeparate(s: State, f: Fingerprint, n: Name)
    requires Separate(s) && f !in s.candidates && f !in s.rejected && f !in s.confirmed
    ensures var s2 := Reserve(s.(owners := s.owners[n := f]), f, Pending(n, {})).0;
      Separate(s2) && Separate(s2.(candidates := []))
  {
  }

  lemma NewNameIsBounded(s: State, max: nat, f: Fingerprint, n: Name)
    requires Bounded(s, max) && !AtCapacity(s, max)
    ensures var s2 := Reserve(s.(owners := s.owners[n := f]), f, Pending(n, {})).0;
      Bounded(if AtCapacity(s2, max) then s2.(candidates := []) else s2, max)
  {
    SizeAfterAdding(s.pending, f, Pending(n, {} + {s.nextGeneration}));
  }

  /** A fingerprint still waiting for its second sighting implies spare capacity. */
  lemma SecondCapacityCheckIsDead(s: State, max: nat, f: Fingerprint)
    requires Inv(s, max) && f in s.candidates
    ensures !AtCapacity(s.(candidates := Without(s.candidates, f)), max)
  {
  }

  lemma ConfirmKeepsInv(s: State, max: nat, r: Reservation)
    requires Inv(s, max)
    ensures Inv(Confirm(s, r), max)
  {
    if Live(s, r) {
      InverseAfterConfirming(s.confirmed, s.pending, s.owners, r.fingerprint);
      SizeAfterAdding(s.confirmed, r.fingerprint, r.name);
      SizeAfterRemoving(s.pending, r.fingerprint);
    }
  }

  lemma AbortKeepsInv(s: State, max: nat, r: Reservation)
    requires Inv(s, max)
    ensures Inv(Abort(s, r), max)
  {
    if Live(s, r) {
      var p := Pending(r.name, s.pending[r.fingerprint].generations - {r.generation});
      if p.generations == {} {
        InverseAfterReleasing(s.confirmed, s.pending, s.owners, r.fingerprint);
        SizeAfterRemoving(s.pending, r.fingerprint);
      } else {
        AbortOneOfManyKeepsInv(s, max, r);
      }
    }
  }

  lemma AbortOneOfManyKeepsInv(s: State, max: nat, r: Reservation)
    requires Inv(s, max) && Live(s, r)
    requires s.pending[r.fingerprint].generations != {r.generation}
    ensures Inv(Abort(s, r), max)
  {
    var p := Pending(r.name, s.pending[r.fingerprint].generations - {r.generation});
    assert p.generations != {};
    DropGeneration(s.pending, s.nextGeneration, r.fingerprint, p);
    InverseWithSameNames(s.confirmed, s.pending, s.owners, r.fingerprint, p);
    SizeAfterAdding(s.pending, r.fingerprint, p);
  }

  // --- whole runs --------------------------------------------------------------

  /** Reservations passed back may be any value at all, stale or forged. */
  datatype Call = Admitting(sql: string) | Confirming(r: Reservation) | Aborting(r: Reservation)

  /** The two hash functions and the cap an executor configures. */
  datatype Config = Config(max: nat, fingerprint: string -> Fingerprint, hashName: string -> Name)

  function Step(c: Config, s: State, call: Call): State {
    match call
    case Admitting(sql) => Admit(s, c.max, c.fingerprint(sql), c.hashName(sql)).0
    case Confirming(r) => Confirm(s, r)
    case Aborting(r) => Abort(s, r)
  }

  function Run(c: Config, s: State, calls: seq<Call>): State
    decreases |calls|
  {
    if calls == [] then s else Run(c, Step(c, s, calls[0]), calls[1..])
  }

  function Returned(c: Config, s: State, sql: string): Option<Admission> {
    Admit(s, c.max, c.fingerprint(sql), c.hashName(sql)).1
  }

  lemma StepKeepsInv(c: Config, s: State, call: Call)
    requires c.max >= 1 && Inv(s, c.max)
    ensures Inv(Step(c, s, call), c.max)
  {
    match call
    case Admitting(sql) => AdmitKeepsInv(s, c.max, c.fingerprint(sql), c.hashName(sql));
    case Confirming(r) => ConfirmKeepsInv(s, c.max, r);
    case Aborting(r) => AbortKeepsInv(s, c.max, r);
  }

  /** From any consistent state, admits, confirms and aborts in any order keep the registry consistent. */
  lemma {:induction false} RunKeepsInv(c: Config, s: State, calls: seq<Call>)
    requires c.max >= 1 && Inv(s, c.max)
    ensures Inv(Run(c, s, calls), c.max)
    decreases |calls|
  {
    if calls != [] {
      StepKeepsInv(c, s, calls[0]);
      RunKeepsInv(c, Step(c, s, calls[0]), calls[1..]);
    }
  }

  lemma InitialInv(max: nat)
    requires max >= 1
    ensures Inv(INITIAL, max)
  {
  }

  /** Every state the registry can reach from its construction is consistent. */
  lemma EveryRunIsConsistent(c: Config, calls: seq<Call>)
    requires c.max >= 1
    ensures Inv(Run(c, INITIAL, calls), c.max)
  {
    InitialInv(c.max);
    RunKeepsInv(c, INITIAL, calls);
  }

  /** The fingerprint is waiting for a second sighting or has a name. */
  predicate Known(s: State, f: Fingerprint) {
    f in s.candidates || f in s.confirmed || f in s.pending
  }

  lemma StepLearnsOnlyItsText(c: Config, s: State, call: Call, f: Fingerprint)
    requires Known(Step(c, s, call), f)
    ensures Known(s, f) || (call.Admitting? && c.fingerprint(call.sql) == f)
  {
    match call
    case Admitting(sql) =>
    case Confirming(r) =>
    case Aborting(r) =>
  }

  lemma {:induction false} RunLearnsOnlyItsTexts(c: Config, s: State, calls: seq<Call>, f: Fingerprint)
    requires Known(Run(c, s, calls), f)
    ensures Known(s, f) ||
            exists i :: 0 <= i < |calls| && calls[i].Admitting? && c.fingerprint(calls[i].sql) == f
    decreases |calls|
  {
    if calls != [] {
      var s1 := Step(c, s, calls[0]);
      RunLearnsOnlyItsTexts(c, s1, calls[1..], f);
      if Known(s1, f) {
        StepLearnsOnlyItsText(c, s, calls[0], f);
      } else {
        var i :| 0 <= i < |calls| - 1 && calls[1..][i].Admitting? && c.fingerprint(calls[1..][i].sql) == f;
        assert calls[i + 1] == calls[1..][i];
      }
    }
  }

  /** No run ever names a text on its fingerprint's first sighting. */
  lemma NeverNamedAtFirstSight(c: Config, calls: seq<Call>, sql: string)
    requires Returned(c, Run(c, INITIAL, calls), sql).Some?
    ensures exists i ::
      0 <= i < |calls| && calls[i].Admitting? && c.fingerprint(calls[i].sql) == c.fingerprint(sql)
  {
    var s := Run(c, INITIAL, calls);
    assert Known(s, c.fingerprint(sql));
    RunLearnsOnlyItsTexts(c, INITIAL, calls, c.fingerprint(sql));
  }

  lemma StepKeepsConfirmed(c: Config, s: State, call: Call, f: Fingerprint)
    requires c.max >= 1 && Inv(s, c.max) && f in s.confirmed
    ensures f in Step(c, s, call).confirmed && Step(c, s, call).confirmed[f] == s.confirmed[f]
  {
    match call
    case Admitting(sql) => AdmitKeepsConfirmed(s, c.max, c.fingerprint(sql), c.hashName(sql), f);
    case Confirming(r) => ConfirmKeepsConfirmed(s, r, c.max, f);
    case Aborting(_) =>
  }

  lemma AdmitKeepsConfirmed(s: State, max: nat, g: Fingerprint, n: Name, f: Fingerprint)
    requires max >= 1 && Inv(s, max) && f in s.confirmed
    ensures f in Admit(s, max, g, n).0.confirmed && Admit(s, max, g, n).0.confirmed[f] == s.confirmed[f]
  {
  }

  lemma ConfirmKeepsConfirmed(s: State, r: Reservation, max: nat, f: Fingerprint)
    requires max >= 1 && Inv(s, max) && f in s.confirmed
    ensures f in Confirm(s, r).confirmed && Confirm(s, r).confirmed[f] == s.confirmed[f]
  {
  }

  lemma {:induction false} RunKeepsConfirmed(c: Config, s: State, calls: seq<Call>, f: Fingerprint)
    requires c.max >= 1 && Inv(s, c.max) && f in s.confirmed
    ensures f in Run(c, s, calls).confirmed && Run(c, s, calls).confirmed[f] == s.confirmed[f]
    decreases |calls|
  {
    if calls != [] {
      StepKeepsConfirmed(c, s, calls[0], f);
      StepKeepsInv(c, s, calls[0]);
      RunKeepsConfirmed(c, Step(c, s, calls[0]), calls[1..], f);
    }
  }

  /**
   Once a name is confirmed, every later admit of that fingerprint returns it without a
   reservation, and no admit of any other fingerprint ever returns it.
   */
  lemma ConfirmedNameIsPermanentAndExclusive(c: Config, s: State, f: Fingerprint, later: seq<Call>, sql: string)
    requires c.max >= 1 && Inv(s, c.max) && f in s.confirmed
    ensures var r := Returned(c, Run(c, s, later), sql);
      if c.fingerprint(sql) == f then r == Some(Admission(s.confirmed[f], None))
      else r.None? || r.value.name != s.confirmed[f]
  {
    RunKeepsConfirmed(c, s, later, f);
    RunKeepsInv(c, s, later);
    var t := Run(c, s, later);
    var g := c.fingerprint(sql);
    if g in t.confirmed || g in t.pending {
      assert t.confirmed[f] in t.owners;
    }
  }

  /** A generation given out before and held by no pending name. */
  ghost predicate Withdrawn(s: State, g: nat) {
    g < s.nextGeneration && forall f :: f in s.pending ==> g !in s.pending[f].generations
  }

  /** A reservation that can no longer change anything. */
  ghost predicate Spent(s: State, r: Reservation) { r.fingerprint in s.confirmed || Withdrawn(s, r.generation) }

  lemma StepKeepsSpent(c: Config, s: State, call: Call, r: Reservation)
    requires c.max >= 1 && Inv(s, c.max) && Spent(s, r)
    ensures Spent(Step(c, s, call), r)
  {
    if r.fingerprint in s.confirmed {
      StepKeepsConfirmed(c, s, call, r.fingerprint);
    } else {
      StepKeepsWithdrawn(c, s, call, r.generation);
    }
  }

  lemma StepKeepsWithdrawn(c: Config, s: State, call: Call, g: nat)
    requires Withdrawn(s, g)
    ensures Withdrawn(Step(c, s, call), g)
  {
    match call
    case Admitting(sql) => AdmitKeepsWithdrawn(s, c.max, c.fingerprint(sql), c.hashName(sql), g);
    case Confirming(r) => SettlingKeepsWithdrawn(s, r, g);
    case Aborting(r) => SettlingKeepsWithdrawn(s, r, g);
  }

  lemma AdmitKeepsWithdrawn(s: State, max: nat, f: Fingerprint, n: Name, g: nat)
    requires Withdrawn(s, g)
    ensures Withdrawn(Admit(s, max, f, n).0, g)
  {
    if f in s.pending {
      ReservingKeepsWithdrawn(s, f, s.pending[f], g);
    } else {
      var s1 := s.(candidates := Without(s.candidates, f), owners := s.owners[n := f]);
      ReservingKeepsWithdrawn(s1, f, Pending(n, {}), g);
    }
  }

  lemma ReservingKeepsWithdrawn(s: State, f: Fingerprint, p: Pending, g: nat)
    requires Withdrawn(s, g) && g !in p.generations
    ensures Withdrawn(Reserve(s, f, p).0, g)
  {
  }

  lemma SettlingKeepsWithdrawn(s: State, r: Reservation, g: nat)
    requires Withdrawn(s, g)
    ensures Withdrawn(Confirm(s, r), g) && Withdrawn(Abort(s, r), g)
  {
  }

  lemma {:induction false} RunKeepsSpent(c: Config, s: State, calls: seq<Call>, r: Reservation)
    requires c.max >= 1 && Inv(s, c.max) && Spent(s, r)
    ensures Spent(Run(c, s, calls), r)
    decreases |calls|
  {
    if calls != [] {
      StepKeepsSpent(c, s, calls[0], r);
      StepKeepsInv(c, s, calls[0]);
      RunKeepsSpent(c, Step(c, s, calls[0]), calls[1..], r);
    }
  }

  lemma SettlingSpends(s: State, r: Reservation)
    requires Generations(s.pending, s.nextGeneration) && Live(s, r)
    ensures Spent(Confirm(s, r), r) && Spent(Abort(s, r), r)
  {
  }

  lemma SpentIsInert(s: State, r: Reservation)
    requires Separate(s) && Spent(s, r)
    ensures Confirm(s, r) == s && Abort(s, r) == s
  {
  }

  /**
   A settled reservation is inert forever: after its abort, or once its fingerprint is
   confirmed, confirming or aborting it in any later state changes nothing.
   */
  lemma SettledReservationIsInert(c: Config, s: State, r: Reservation, confirmIt: bool, later: seq<Call>)
    requires c.max >= 1 && Inv(s, c.max) && Live(s, r)
    ensures var t := Run(c, if confirmIt then Confirm(s, r) else Abort(s, r), later);
      Confirm(t, r) == t && Abort(t, r) == t
  {
    var s1 := if confirmIt then Confirm(s, r) else Abort(s, r);
    ConfirmKeepsInv(s, c.max, r);
    AbortKeepsInv(s, c.max, r);
    SettlingSpends(s, r);
    RunKeepsSpent(c, s1, later, r);
    RunKeepsInv(c, s1, later);
    SpentIsInert(Run(c, s1, later), r);
  }

  /** A failed attempt never undoes another attempt's confirmation. */
  lemma AbortNeverTouchesConfirmed(s: State, max: nat, r: Reservation)
    requires Inv(s, max)
    ensures Abort(s, r).confirmed == s.confirmed
    ensures forall f :: f in s.confirmed ==> s.confirmed[f] in Abort(s, r).owners &&
                                             Abort(s, r).owners[s.confirmed[f]] == f
  {
    AbortKeepsInv(s, max, r);
    AbortConfirmsNothing(s, r);
    ConfirmedNamesAreOwned(Abort(s, r), max);
  }

  lemma AbortConfirmsNothing(s: State, r: Reservation)
    ensures Abort(s, r).confirmed == s.confirmed
  {
  }

  lemma ConfirmedNamesAreOwned(s: State, max: nat)
    requires Inv(s, max)
    ensures forall f :: f in s.confirmed ==> s.confirmed[f] in s.owners && s.owners[s.confirmed[f]] == f
  {
  }

  // --- the class ---------------------------------------------------------------

  class PreparedStatementRegistry {
    var candidates: seq<Fingerprint>
    var namesByFingerprint: map<Fingerprint, Name>
    var fingerprintsByName: map<Name, Fingerprint>
    var pendingByFingerprint: map<Fingerprint, Pending>
    var collisionRejectedFingerprints: seq<Fingerprint>
    var nextGeneration: nat
    const config: Config

    constructor (config: Config)
      requires config.max >= 1
      ensures this.config == config && View() == INITIAL && Inv(View(), config.max)
    {
      candidates := [];
      namesByFingerprint := map[];
      fingerprintsByName := map[];
      pendingByFingerprint := map[];
      collisionRejectedFingerprints := [];
      nextGeneration := 0;
      this.config := config;
    }

    function View(): State
      reads this
    {
      State(candidates, namesByFingerprint, fingerprintsByName, pendingByFingerprint,
            collisionRejectedFingerprints, nextGeneration)
    }

    method Admit(sql: string) returns (admission: Option<Admission>)
      modifies this
      ensures View() == Step(config, old(View()), Admitting(sql))
      ensures admission == Returned(config, old(View()), sql)
    {
      var f := config.fingerprint(sql);
      if f in collisionRejectedFingerprints {
        return None;
      }
      if f in namesByFingerprint {
        return Some(Admission(namesByFingerprint[f], None));
      }
      if f in pendingByFingerprint {
        admission := ReserveAttempt(f, pendingByFingerprint[f]);
        return;
      }
      if f !in candidates {
        if |namesByFingerprint| + |pendingByFingerprint| >= config.max {
          return None;
        }
        if |candidates| >= config.max {
          candidates := candidates[1..];
        }
        candidates := candidates + [f];
        return None;
      }
      candidates := Without(candidates, f);
      if |namesByFingerprint| + |pendingByFingerprint| >= config.max {
        return None;
      }
      var name := config.hashName(sql);
      if name in fingerprintsByName && fingerprintsByName[name] != f {
        RejectHashCollision(f);
        return None;
      }
      fingerprintsByName := fingerprintsByName[name := f];
      admission := ReserveAttempt(f, Pending(name, {}));
      if |namesByFingerprint| + |pendingByFingerprint| >= config.max {
        candidates := [];
      }
    }

    method Confirm(r: Reservation)
      modifies this
      ensures View() == Step(config, old(View()), Confirming(r))
    {
      if r.fingerprint !in pendingByFingerprint ||
         pendingByFingerprint[r.fingerprint].name != r.name ||
         r.generation !in pendingByFingerprint[r.fingerprint].generations {
        return;
      }
      pendingByFingerprint := pendingByFingerprint - {r.fingerprint};
      namesByFingerprint := namesByFingerprint[r.fingerprint := r.name];
    }

    method Abort(r: Reservation)
      modifies this
      ensures View() == Step(config, old(View()), Aborting(r))
    {
      if r.fingerprint !in pendingByFingerprint ||
         pendingByFingerprint[r.fingerprint].name != r.name ||
         r.generation !in pendingByFingerprint[r.fingerprint].generations {
        return;
      }
      var left := pendingByFingerprint[r.fingerprint].generations - {r.generation};
      if left != {} {
        pendingByFingerprint := pendingByFingerprint[r.fingerprint := Pending(r.name, left)];
        return;
      }
      pendingByFingerprint := pendingByFingerprint - {r.fingerprint};
      if r.name in fingerprintsByName && fingerprintsByName[r.name] == r.fingerprint {
        fingerprintsByName := fingerprintsByName - {r.name};
      }
    }

    method ReserveAttempt(f: Fingerprint, p: Pending) returns (admission: Option<Admission>)
      modifies this`pendingByFingerprint, this`nextGeneration
      ensures (View(), admission) == Reserve(old(View()), f, p)
    {
      var r := Reservation(f, p.name, nextGeneration);
      nextGeneration := nextGeneration + 1;
      pendingByFingerprint := pendingByFingerprint[f := Pending(p.name, p.generations + {r.generation})];
      admission := Some(Admission(p.name, Some(r)));
    }

    method RejectHashCollision(f: Fingerprint)
      requires f !in candidates && config.max >= 1
      modifies this`collisionRejectedFingerprints, this`candidates
      ensures candidates == old(candidates)
      ensures collisionRejectedFingerprints == Remember(old(collisionRejectedFingerprints), config.max, f)
    {
      if |collisionRejectedFingerprints| >= config.max {
        collisionRejectedFingerprints := collisionRejectedFingerprints[1..];
      }
      collisionRejectedFingerprints := collisionRejectedFingerprints + [f];
      candidates := Without(candidates, f);
    }
  }
}
