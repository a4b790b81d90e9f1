/**
 What the registry of packages/adapter-pgsql/src/prepared-statements.ts gives out: exactly when `admit`
 answers with a name, which one, and that a text seen twice gets a name that can be made permanent.
 */
module Admissions {
  import opened Common
  import opened PreparedStatements

  // --- one admit -------------------------------------------------------------------------------------

  /** A name is answered for a named text, and at the second sighting if nobody else has the derived name. */
  lemma AdmitNamesExactly(s: State, max: nat, f: Fingerprint, n: Name)
    requires max >= 1 && Inv(s, max)
    ensures Admit(s, max, f, n).1.Some? <==>
            f in s.confirmed || f in s.pending || (f in s.candidates && n !in s.owners)
  {
    if f in s.candidates {
      SecondCapacityCheckIsDead(s, max, f);
      NobodyOwnsForACandidate(s, max, f, n);
    }
  }

  /** A text that only waits for its second sighting owns no name. */
  lemma NobodyOwnsForACandidate(s: State, max: nat, f: Fingerprint, n: Name)
    requires Inv(s, max) && f in s.candidates
    ensures n in s.owners ==> s.owners[n] != f
  {
  }

  /** A confirmed name is answered as it is; otherwise this attempt is reserved under a new generation. */
  lemma AdmitGivesTheName(s: State, max: nat, f: Fingerprint, n: Name)
    requires max >= 1 && Inv(s, max) && Admit(s, max, f, n).1.Some?
    ensures var (t, a) := Admit(s, max, f, n);
      var name := if f in s.confirmed then s.confirmed[f] else if f in s.pending then s.pending[f].name else n;
      && a.value.name == name && name in t.owners && t.owners[name] == f
      && (f in s.confirmed ==> a.value.reservation == None && t == s)
      && (f !in s.confirmed ==>
            && a.value.reservation == Some(Reservation(f, name, s.nextGeneration))
            && Live(t, a.value.reservation.value)
            && t.nextGeneration == s.nextGeneration + 1)
  {
    AdmitNamesExactly(s, max, f, n);
    if f in s.candidates { SecondCapacityCheckIsDead(s, max, f); }
    assert f in s.confirmed ==> s.confirmed[f] in s.owners;
    assert f in s.pending ==> s.pending[f].name in s.owners;
  }

  /** From s to t nothing but the text f was touched, and of that no attempt and no name was taken away. */
  ghost predicate Touches(s: State, t: State, f: Fingerprint) {
    && t.confirmed == s.confirmed
    && (f in s.pending ==> f in t.pending && s.pending[f].generations <= t.pending[f].generations)
    && (forall g | g != f :: g in t.pending <==> g in s.pending)
    && (forall g | g != f && g in s.pending :: t.pending[g] == s.pending[g])
    && (forall m | m in s.owners :: m in t.owners && t.owners[m] == s.owners[m])
  }

  lemma ReserveTouches(s: State, t: State, f: Fingerprint, p: Pending)
    requires Touches(s, t, f) && (f in t.pending ==> t.pending[f].generations <= p.generations)
    ensures Touches(s, Reserve(t, f, p).0, f)
  {
  }

  /** Attempts of this text that wait for their outcome, and everything about other texts, stay as they were. */
  lemma AdmitDisturbsNothing(s: State, max: nat, f: Fingerprint, n: Name)
    requires max >= 1 && Inv(s, max)
    ensures Touches(s, Admit(s, max, f, n).0, f)
  {
    if f in s.pending {
      ReserveTouches(s, s, f, s.pending[f]);
    } else if f in s.candidates {
      SecondSightingTouches(s, max, f, n);
    }
  }

  lemma SecondSightingTouches(s: State, max: nat, f: Fingerprint, n: Name)
    requires max >= 1 && Inv(s, max) && f in s.candidates
    ensures Touches(s, Admit(s, max, f, n).0, f)
  {
    SecondCapacityCheckIsDead(s, max, f);
    NobodyOwnsForACandidate(s, max, f, n);
    if n !in s.owners {
      var s1 := s.(candidates := Without(s.candidates, f), owners := s.owners[n := f]);
      ReserveTouches(s, s1, f, Pending(n, {}));
      assert Touches(s, Reserve(s1, f, Pending(n, {})).0.(candidates := []), f);
    }
  }

  /** A new text is remembered as the latest candidate while there is capacity; only the oldest has to go for it. */
  lemma FirstSightingIsRemembered(s: State, max: nat, f: Fingerprint, n: Name)
    requires max >= 1 && Inv(s, max) && !Known(s, f) && f !in s.rejected
    ensures var t := Admit(s, max, f, n).0;
      if |s.confirmed| + |s.pending| >= max then t == s
      else
        && t.candidates != [] && t.candidates[|t.candidates| - 1] == f
        && t.candidates[..|t.candidates| - 1] == if |s.candidates| == max then s.candidates[1..] else s.candidates
  {
    if !AtCapacity(s, max) {
      var kept := if |s.candidates| >= max && s.candidates != [] then s.candidates[1..] else s.candidates;
      assert Remember(s.candidates, max, f) == kept + [f];
      assert (kept + [f])[..|kept|] == kept;
    }
  }

  /** A second sighting whose derived name somebody else has leaves the text among the rejected. */
  lemma CollisionIsRejected(s: State, max: nat, f: Fingerprint, n: Name)
    requires max >= 1 && Inv(s, max) && f in s.candidates && n in s.owners
    ensures var (t, a) := Admit(s, max, f, n);
      a == None && f in t.rejected && f !in t.candidates && t.owners == s.owners && t.pending == s.pending
  {
    SecondCapacityCheckIsDead(s, max, f);
    NobodyOwnsForACandidate(s, max, f, n);
    var r := Remember(s.rejected, max, f);
    assert r[|r| - 1] == f;
  }

  /** With the last name given out nothing waits for a second sighting any more; otherwise only this text stops to. */
  lemma SecondSightingIsForgotten(s: State, max: nat, f: Fingerprint, n: Name, g: Fingerprint)
    requires max >= 1 && Inv(s, max) && f in s.candidates
    ensures var t := Admit(s, max, f, n).0;
      g in t.candidates <==> g in s.candidates && g != f && |t.confirmed| + |t.pending| < max
  {
    SecondCapacityCheckIsDead(s, max, f);
    WithoutKeepsTheRest(s.candidates, f);
  }

  // --- the outcome of an attempt -------------------------------------------------------------------------

  /** Confirming a live attempt makes its name the text's own; whatever else was true stays so. */
  lemma ConfirmMakesPermanent(s: State, r: Reservation)
    requires Live(s, r)
    ensures var t := Confirm(s, r);
      && t.confirmed.Keys == s.confirmed.Keys + {r.fingerprint} && t.confirmed[r.fingerprint] == r.name
      && (forall g | g in s.confirmed && g != r.fingerprint :: t.confirmed[g] == s.confirmed[g])
      && t.pending.Keys == s.pending.Keys - {r.fingerprint}
      && t.owners == s.owners && t.candidates == s.candidates && t.rejected == s.rejected
  {
  }

  /** Aborting a live attempt takes back its generation; the name is free again exactly if it was the last one. */
  lemma AbortReleasesTheLast(s: State, max: nat, r: Reservation)
    requires Inv(s, max) && Live(s, r)
    ensures var t := Abort(s, r);
      && (r.fingerprint in t.pending <==> s.pending[r.fingerprint].generations != {r.generation})
      && (r.name in t.owners <==> s.pending[r.fingerprint].generations != {r.generation})
      && (r.fingerprint in t.pending ==>
            t.pending[r.fingerprint] == Pending(r.name, s.pending[r.fingerprint].generations - {r.generation}))
      && (forall g | g != r.fingerprint :: g in t.pending <==> g in s.pending)
      && (forall g | g != r.fingerprint && g in s.pending :: t.pending[g] == s.pending[g])
      && t.candidates == s.candidates && t.rejected == s.rejected
  {
    assert s.owners[r.name] == r.fingerprint;
    assert s.pending[r.fingerprint].generations - {r.generation} == {}
           <==> s.pending[r.fingerprint].generations == {r.generation};
  }

  // --- two sightings in a run -------------------------------------------------------------------------------

  /** How many texts were seen for the first time after f. */
  function Behind(s: seq<Fingerprint>, f: Fingerprint): nat {
    if s == [] then 0 else if s[0] == f then |s| - 1 else Behind(s[1..], f)
  }

  lemma {:induction false} BehindMore(s: seq<Fingerprint>, f: Fingerprint, g: Fingerprint)
    requires f in s
    ensures Behind(s + [g], f) == Behind(s, f) + 1
  {
    if s[0] != f {
      assert (s + [g])[1..] == s[1..] + [g];
      BehindMore(s[1..], f, g);
    }
  }

  lemma {:induction false} BehindWithout(s: seq<Fingerprint>, f: Fingerprint, g: Fingerprint)
    requires f in s && f != g
    ensures f in Without(s, g) && Behind(Without(s, g), f) <= Behind(s, f)
  {
    if s[0] == g {
      BehindWithout(s[1..], f, g);
    } else if s[0] != f {
      BehindWithout(s[1..], f, g);
      assert ([s[0]] + Without(s[1..], g))[1..] == Without(s[1..], g);
    }
  }

  /** Among fewer than max candidates behind it the text is not the one that has to go. */
  lemma RememberKeeps(s: seq<Fingerprint>, max: nat, f: Fingerprint, g: Fingerprint)
    requires f in s && Behind(s, f) + 1 < max
    ensures f in Remember(s, max, g) && Behind(Remember(s, max, g), f) <= Behind(s, f) + 1
  {
    if |s| >= max {
      assert s[0] != f;
      BehindMore(s[1..], f, g);
    } else {
      BehindMore(s, f, g);
    }
  }

  /** This call is an admit of a text with this fingerprint. */
  predicate Sights(c: Config, call: Call, f: Fingerprint) { call.Admitting? && c.fingerprint(call.sql) == f }

  lemma StepKeepsWaiting(c: Config, s: State, call: Call, f: Fingerprint)
    requires c.max >= 1 && Inv(s, c.max) && f in s.candidates && Behind(s.candidates, f) + 1 < c.max
    requires !Sights(c, call, f) && !AtCapacity(Step(c, s, call), c.max)
    ensures var t := Step(c, s, call); f in t.candidates && Behind(t.candidates, f) <= Behind(s.candidates, f) + 1
  {
    match call
    case Admitting(sql) => AdmitKeepsWaiting(s, c.max, c.fingerprint(sql), c.hashName(sql), f);
    case Confirming(_) =>
    case Aborting(_) =>
  }

  lemma AdmitKeepsWaiting(s: State, max: nat, g: Fingerprint, n: Name, f: Fingerprint)
    requires max >= 1 && Inv(s, max) && f in s.candidates && Behind(s.candidates, f) + 1 < max && f != g
    requires !AtCapacity(Admit(s, max, g, n).0, max)
    ensures var t := Admit(s, max, g, n).0; f in t.candidates && Behind(t.candidates, f) <= Behind(s.candidates, f) + 1
  {
    if g in s.candidates {
      BehindWithout(s.candidates, f, g);
    } else {
      RememberKeeps(s.candidates, max, f, g);
    }
  }

  /** Between two sightings: other texts only, and always capacity left. */
  ghost predicate Undisturbed(c: Config, s: State, between: seq<Call>, f: Fingerprint)
    decreases |between|
  {
    between != [] ==>
      && !Sights(c, between[0], f)
      && !AtCapacity(Step(c, s, between[0]), c.max)
      && Undisturbed(c, Step(c, s, between[0]), between[1..], f)
  }

  lemma {:induction false} RunKeepsWaiting(c: Config, s: State, between: seq<Call>, f: Fingerprint)
    requires c.max >= 1 && Inv(s, c.max) && f in s.candidates && Behind(s.candidates, f) + |between| < c.max
    requires Undisturbed(c, s, between, f)
    ensures f in Run(c, s, between).candidates
    decreases |between|
  {
    if between != [] {
      StepKeepsWaiting(c, s, between[0], f);
      StepKeepsInv(c, s, between[0]);
      RunKeepsWaiting(c, Step(c, s, between[0]), between[1..], f);
    }
  }

  lemma FirstSightingWaits(c: Config, s: State, sql: string)
    requires c.max >= 1 && Inv(s, c.max) && !AtCapacity(s, c.max)
    requires !Known(s, c.fingerprint(sql)) && c.fingerprint(sql) !in s.rejected
    ensures var t := Step(c, s, Admitting(sql));
      c.fingerprint(sql) in t.candidates && Behind(t.candidates, c.fingerprint(sql)) == 0
  {
    var f := c.fingerprint(sql);
    var kept := if |s.candidates| >= c.max && s.candidates != [] then s.candidates[1..] else s.candidates;
    assert Step(c, s, Admitting(sql)).candidates == kept + [f];
    assert f !in kept;
    BehindLast(kept, f);
  }

  lemma {:induction false} BehindLast(s: seq<Fingerprint>, f: Fingerprint)
    requires f !in s
    ensures Behind(s + [f], f) == 0
  {
    if s != [] {
      assert (s + [f])[1..] == s[1..] + [f];
      BehindLast(s[1..], f);
    }
  }

  /**
   In any run, a text that is not known yet and is seen twice gets its name at the second sighting, if in
   between there are fewer than max calls, always capacity left and nobody else takes the name. Confirming
   that attempt makes the name permanent.
   */
  lemma SecondSightingNames(c: Config, before: seq<Call>, sql: string, between: seq<Call>)
    requires c.max >= 1 && |between| < c.max
    requires var s := Run(c, INITIAL, before);
      && !Known(s, c.fingerprint(sql)) && c.fingerprint(sql) !in s.rejected && !AtCapacity(s, c.max)
      && Undisturbed(c, Step(c, s, Admitting(sql)), between, c.fingerprint(sql))
    requires c.hashName(sql) !in Run(c, Step(c, Run(c, INITIAL, before), Admitting(sql)), between).owners
    ensures var f, n := c.fingerprint(sql), c.hashName(sql);
      var s2 := Run(c, Step(c, Run(c, INITIAL, before), Admitting(sql)), between);
      var r := Reservation(f, n, s2.nextGeneration);
      && Returned(c, s2, sql) == Some(Admission(n, Some(r)))
      && var s3 := Confirm(Step(c, s2, Admitting(sql)), r);
         f in s3.confirmed && s3.confirmed[f] == n && Returned(c, s3, sql) == Some(Admission(n, None))
  {
    var f, n := c.fingerprint(sql), c.hashName(sql);
    var s := Run(c, INITIAL, before);
    EveryRunIsConsistent(c, before);
    FirstSightingWaits(c, s, sql);
    var s1 := Step(c, s, Admitting(sql));
    StepKeepsInv(c, s, Admitting(sql));
    RunKeepsWaiting(c, s1, between, f);
    RunKeepsInv(c, s1, between);
    SecondAnswer(c, Run(c, s1, between), sql);
  }

  lemma SecondAnswer(c: Config, s: State, sql: string)
    requires c.max >= 1 && Inv(s, c.max) && c.fingerprint(sql) in s.candidates && c.hashName(sql) !in s.owners
    ensures var f, n := c.fingerprint(sql), c.hashName(sql);
      var r := Reservation(f, n, s.nextGeneration);
      && Returned(c, s, sql) == Some(Admission(n, Some(r)))
      && var t := Confirm(Step(c, s, Admitting(sql)), r);
         f in t.confirmed && t.confirmed[f] == n && Returned(c, t, sql) == Some(Admission(n, None))
  {
    var f, n := c.fingerprint(sql), c.hashName(sql);
    AdmitGivesTheName(s, c.max, f, n);
    AdmitNamesExactly(s, c.max, f, n);
    var s1 := Step(c, s, Admitting(sql));
    var r := Reservation(f, n, s.nextGeneration);
    StepKeepsInv(c, s, Admitting(sql));
    ConfirmMakesPermanent(s1, r);
    ConfirmKeepsInv(s1, c.max, r);
    var t := Confirm(s1, r);
    AdmitGivesTheName(t, c.max, f, n);
  }
}
