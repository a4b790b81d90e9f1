/**
 Which output columns of a statement can be mapped back:
 `finalizeProjections` in packages/adapter-pgsql/src/column-metadata.ts:577-613, and the ownership
 check of payload keys in include-payload-shape.ts:35-52.
 */
module Projections {
  import opened Common
  import Names

  /** A column name, before or after the server truncates it. */
  datatype Label = Label(text: string)

  function Returned(l: Label): Label { Label(Names.Truncate(l.text, 63)) }

  datatype Candidate<+P> = Candidate(projection: Option<P>, explicitLabel: bool)

  /** A label with the candidates that produce it; labels come in declaration order. */
  datatype Item<+P> = Item(named: Label, candidates: seq<Candidate<P>>)

  datatype Entry<+P> = Entry(named: Label, candidate: Candidate<P>)

  datatype Error = CollideAfterTruncation(first: Label, second: Label, returned: Label) | ProducedTwice(named: Label)

  // --- what is asked for ---------------------------------------------------------------------------------

  function EntriesOf<P>(l: Label, cs: seq<Candidate<P>>): seq<Entry<P>> {
    if cs == [] then [] else EntriesOf(l, cs[..|cs| - 1]) + [Entry(l, cs[|cs| - 1])]
  }

  /** Everything that comes back under one name, in order. */
  function Group<P>(items: seq<Item<P>>, name: Label): seq<Entry<P>> {
    if items == [] then []
    else
      var last := items[|items| - 1];
      Group(items[..|items| - 1], name) +
          (if Returned(last.named) == name then EntriesOf(last.named, last.candidates) else [])
  }

  predicate HasExplicit<P>(es: seq<Entry<P>>) { exists i | 0 <= i < |es| :: es[i].candidate.explicitLabel }

  /** Several columns come back under one name that somebody asked for by that name. */
  predicate Clash<P>(es: seq<Entry<P>>) { |es| > 1 && HasExplicit(es) }

  /** The one projection a name can be mapped to. */
  function Sole<P>(es: seq<Entry<P>>): Option<P> {
    if |es| == 1 then es[0].candidate.projection else None
  }

  /** The names that come back, in order of first appearance. */
  function ReturnedNames<P>(items: seq<Item<P>>): seq<Label> {
    if items == [] then []
    else
      var before := ReturnedNames(items[..|items| - 1]);
      var name := Returned(items[|items| - 1].named);
      if name in before then before else before + [name]
  }

  lemma {:induction false} NamesOfGroups<P>(items: seq<Item<P>>, name: Label)
    ensures Group(items, name) != [] ==> name in ReturnedNames(items)
  {
    if items != [] { NamesOfGroups(items[..|items| - 1], name); }
  }

  // --- the first loop: group by returned name ------------------------------------------------------------

  method GroupByReturnedName<P>(items: seq<Item<P>>) returns (order: seq<Label>, byName: map<Label, seq<Entry<P>>>)
    ensures order == ReturnedNames(items)
    ensures forall n :: n in byName <==> n in order
    ensures forall n | n in byName :: byName[n] == Group(items, n)
  {
    order, byName := [], map[];
    var i := 0;
    while i < |items|
      invariant i <= |items|
      invariant order == ReturnedNames(items[..i])
      invariant forall n :: n in byName <==> n in order
      invariant forall n | n in byName :: byName[n] == Group(items[..i], n)
    {
      assert items[..i + 1][..i] == items[..i];
      var name := Returned(items[i].named);
      var before := if name in byName then byName[name] else [];
      NamesOfGroups(items[..i], name);
      var entries := PushEntries(items[i].named, items[i].candidates, before);
      if name !in order { order := order + [name]; }
      byName := byName[name := entries];
      i := i + 1;
    }
    assert items[..i] == items;
  }

  method PushEntries<P>(named: Label, candidates: seq<Candidate<P>>, before: seq<Entry<P>>)
      returns (entries: seq<Entry<P>>)
    ensures entries == before + EntriesOf(named, candidates)
  {
    entries := before;
    var i := 0;
    while i < |candidates|
      invariant i <= |candidates| && entries == before + EntriesOf(named, candidates[..i])
    {
      assert candidates[..i + 1][..i] == candidates[..i];
      entries := entries + [Entry(named, candidates[i])];
      i := i + 1;
    }
    assert candidates[..i] == candidates;
  }

  // --- the second loop: refuse or map --------------------------------------------------------------------

  /** The first two labels of a clash, if it has two. */
  function Complaint<P>(es: seq<Entry<P>>, name: Label): Error
    requires es != []
  {
    match OtherLabel(es, es[0].named)
    case Some(second) => CollideAfterTruncation(es[0].named, second, name)
    case None => ProducedTwice(es[0].named)
  }

  function OtherLabel<P>(es: seq<Entry<P>>, l: Label): Option<Label> {
    if es == [] then None else if es[0].named != l then Some(es[0].named) else OtherLabel(es[1..], l)
  }

  /** The k-th name that comes back is the first that clashes, and the error is about it. */
  ghost predicate RefusedAt<P>(items: seq<Item<P>>, k: nat, e: Error) {
    var names := ReturnedNames(items);
    && k < |names|
    && Clash(Group(items, names[k]))
    && e == Complaint(Group(items, names[k]), names[k])
    && forall j | 0 <= j < k :: !Clash(Group(items, names[j]))
  }

  function With<P>(m: map<Label, P>, name: Label, entry: Option<P>): map<Label, P> {
    if entry.Some? then m[name := entry.value] else m
  }

  /** The mapping restricted to some names. */
  ghost function Mapped<P>(items: seq<Item<P>>, names: seq<Label>): map<Label, P> {
    if names == [] then map[]
    else
      var name := names[|names| - 1];
      With(Mapped(items, names[..|names| - 1]), name, Sole(Group(items, name)))
  }

  lemma {:induction false} MappedNames<P>(items: seq<Item<P>>, names: seq<Label>)
    ensures forall n :: n in Mapped(items, names) <==> n in names && Sole(Group(items, n)).Some?
    ensures forall n | n in Mapped(items, names) :: Sole(Group(items, n)) == Some(Mapped(items, names)[n])
  {
    if names != [] { MappedNames(items, names[..|names| - 1]); }
  }

  ghost predicate NoClash<P>(items: seq<Item<P>>, names: seq<Label>) {
    forall j | 0 <= j < |names| :: !Clash(Group(items, names[j]))
  }

  lemma NoClashNext<P>(items: seq<Item<P>>, names: seq<Label>, i: nat)
    requires i < |names| && NoClash(items, names[..i]) && !Clash(Group(items, names[i]))
    ensures NoClash(items, names[..i + 1])
  {
  }

  lemma FirstRefused<P>(items: seq<Item<P>>, names: seq<Label>, i: nat)
    requires names == ReturnedNames(items) && i < |names| && NoClash(items, names[..i]) && Clash(Group(items, names[i]))
    ensures RefusedAt(items, i, Complaint(Group(items, names[i]), names[i]))
  {
    forall j | 0 <= j < i ensures !Clash(Group(items, names[j])) {
      assert names[..i][j] == names[j];
    }
  }

  method Inspect<P>(entries: seq<Entry<P>>) returns (clash: bool, entry: Option<P>)
    ensures clash <==> Clash(entries)
    ensures entry == Sole(entries)
  {
    var explicit := AnyExplicit(entries);
    clash := |entries| > 1 && explicit;
    entry := if |entries| == 1 then entries[0].candidate.projection else None;
  }

  /** The second loop: refuse the first clash, or map every name with a sole projection. */
  method MapOrRefuse<P>(items: seq<Item<P>>, order: seq<Label>, byName: map<Label, seq<Entry<P>>>)
    returns (r: Result<map<Label, P>, Error>)
    requires order == ReturnedNames(items)
    requires forall n | n in order :: n in byName && byName[n] == Group(items, n)
    ensures r.Err? ==> exists k :: RefusedAt(items, k, r.error)
    ensures r.Ok? ==> r.value == Mapped(items, order) && NoClash(items, order)
  {
    var projections: map<Label, P> := map[];
    var i := 0;
    while i < |order|
      invariant i <= |order|
      invariant NoClash(items, order[..i])
      invariant projections == Mapped(items, order[..i])
    {
      MappedNext(items, order, i);
      var name := order[i];
      assert name in order;
      var entries := byName[name];
      assert entries == Group(items, order[i]);
      var clash, entry := Inspect(entries);
      if clash {
        FirstRefused(items, order, i);
        return Err(Complaint(entries, name));
      }
      NoClashNext(items, order, i);
      projections := With(projections, name, entry);
      i := i + 1;
    }
    assert order[..i] == order;
    r := Ok(projections);
  }

  /**
   Refused exactly when two or more columns come back under one name that is an explicit label,
   naming the first such name; otherwise a name is mapped exactly when one candidate comes back
   under it and has a projection, to that projection.
   */
  method FinalizeProjections<P>(items: seq<Item<P>>) returns (r: Result<map<Label, P>, Error>)
    ensures r.Ok? ==> forall n :: !Clash(Group(items, n))
    ensures r.Err? ==> exists k :: RefusedAt(items, k, r.error)
    ensures r.Ok? ==> forall n :: n in r.value <==> Sole(Group(items, n)).Some?
    ensures r.Ok? ==> forall n | n in r.value :: Sole(Group(items, n)) == Some(r.value[n])
  {
    var order, byName := GroupByReturnedName(items);
    r := MapOrRefuse(items, order, byName);
    if r.Ok? { NothingElse(items); }
  }

  lemma MappedNext<P>(items: seq<Item<P>>, names: seq<Label>, i: nat)
    requires i < |names|
    ensures Mapped(items, names[..i + 1]) == With(Mapped(items, names[..i]), names[i], Sole(Group(items, names[i])))
  {
    assert names[..i + 1][..i] == names[..i];
  }

  /** Names that do not come back have no group. */
  lemma NothingElse<P>(items: seq<Item<P>>)
    requires NoClash(items, ReturnedNames(items))
    ensures forall n :: !Clash(Group(items, n))
    ensures forall n :: n in Mapped(items, ReturnedNames(items)) <==> Sole(Group(items, n)).Some?
    ensures forall n | n in Mapped(items, ReturnedNames(items)) ::
      Sole(Group(items, n)) == Some(Mapped(items, ReturnedNames(items))[n])
  {
    MappedNames(items, ReturnedNames(items));
    forall n ensures !Clash(Group(items, n)) && (Sole(Group(items, n)).Some? ==> n in ReturnedNames(items)) {
      NamesOfGroups(items, n);
    }
  }

  method AnyExplicit<P>(es: seq<Entry<P>>) returns (b: bool)
    ensures b == HasExplicit(es)
  {
    b := false;
    var i := 0;
    while i < |es|
      invariant i <= |es| && b == exists j | 0 <= j < i :: es[j].candidate.explicitLabel
    {
      b := b || es[i].candidate.explicitLabel;
      i := i + 1;
    }
  }

  // --- candidate by candidate ------------------------------------------------------------------------------

  /** The k-th candidate of the i-th label. */
  datatype Place = Place(item: nat, candidate: nat)

  predicate Within<P>(items: seq<Item<P>>, p: Place) {
    p.item < |items| && p.candidate < |items[p.item].candidates|
  }

  function CandidateAt<P>(items: seq<Item<P>>, p: Place): Candidate<P>
    requires Within(items, p)
  {
    items[p.item].candidates[p.candidate]
  }

  /** The server returns the candidate under this name: its label cut to 63 bytes. */
  predicate Comes<P>(items: seq<Item<P>>, p: Place, name: Label) {
    Within(items, p) && Names.Truncate(items[p.item].named.text, 63) == name.text
  }

  predicate Earlier(p: Place, q: Place) { p.item < q.item || (p.item == q.item && p.candidate < q.candidate) }

  function Places<P>(items: seq<Item<P>>, name: Label): seq<Place> {
    if items == [] then []
    else
      var n := |items| - 1;
      var m := |items[n].candidates|;
      Places(items[..n], name) +
      if Names.Truncate(items[n].named.text, 63) == name.text
      then seq(m, k requires 0 <= k < m => Place(n, k)) else []
  }

  lemma {:induction false} EntriesAt<P>(l: Label, cs: seq<Candidate<P>>)
    ensures |EntriesOf(l, cs)| == |cs|
    ensures forall k | 0 <= k < |cs| :: EntriesOf(l, cs)[k] == Entry(l, cs[k])
  {
    if cs != [] { EntriesAt(l, cs[..|cs| - 1]); }
  }

  /** A name's group is everything that comes back under it, in the order of the select list. */
  lemma {:induction false} GroupIsPlaces<P>(items: seq<Item<P>>, name: Label)
    ensures |Places(items, name)| == |Group(items, name)|
    ensures forall j | 0 <= j < |Places(items, name)| ::
      var p := Places(items, name)[j];
      Comes(items, p, name) && Group(items, name)[j] == Entry(items[p.item].named, CandidateAt(items, p))
    ensures forall j, l | 0 <= j < l < |Places(items, name)| :: Earlier(Places(items, name)[j], Places(items, name)[l])
  {
    if items != [] {
      var n := |items| - 1;
      GroupIsPlaces(items[..n], name);
      EntriesAt(items[n].named, items[n].candidates);
      var front, all := Places(items[..n], name), Places(items, name);
      forall j | 0 <= j < |front|
        ensures Comes(items, all[j], name)
        ensures Group(items, name)[j] == Entry(items[all[j].item].named, CandidateAt(items, all[j]))
      {
        assert all[j] == front[j] && Comes(items[..n], front[j], name);
      }
    }
  }

  lemma {:induction false} AllPlaces<P>(items: seq<Item<P>>, name: Label, p: Place)
    requires Comes(items, p, name)
    ensures p in Places(items, name)
  {
    var n := |items| - 1;
    if p.item < n {
      AllPlaces(items[..n], name, p);
    } else {
      var m := |items[n].candidates|;
      assert seq(m, k requires 0 <= k < m => Place(n, k))[p.candidate] == p;
    }
  }

  /** A name is mapped to a projection exactly when one candidate comes back under it, and it has that one. */
  lemma SoleExactly<P>(items: seq<Item<P>>, name: Label, projection: P)
    ensures Sole(Group(items, name)) == Some(projection) <==>
            exists p | Comes(items, p, name) ::
              CandidateAt(items, p).projection == Some(projection) && forall q | Comes(items, q, name) :: q == p
  {
    var ps := Places(items, name);
    GroupIsPlaces(items, name);
    forall p | Comes(items, p, name) ensures p in ps { AllPlaces(items, name, p); }
    if |ps| > 1 { assert Earlier(ps[0], ps[1]); }
    if |ps| > 0 { assert Comes(items, ps[0], name); }
  }

  lemma SeveralExactly<P>(items: seq<Item<P>>, name: Label)
    ensures |Group(items, name)| > 1 <==> exists p, q | Comes(items, p, name) && Comes(items, q, name) :: p != q
  {
    var ps := Places(items, name);
    GroupIsPlaces(items, name);
    if |ps| > 1 { assert Earlier(ps[0], ps[1]) && Comes(items, ps[0], name) && Comes(items, ps[1], name); }
    forall p, q | Comes(items, p, name) && Comes(items, q, name) && p != q ensures |ps| > 1 {
      AllPlaces(items, name, p);
      AllPlaces(items, name, q);
    }
  }

  lemma ExplicitExactly<P>(items: seq<Item<P>>, name: Label)
    ensures HasExplicit(Group(items, name)) <==>
            exists p | Comes(items, p, name) :: CandidateAt(items, p).explicitLabel
  {
    var ps := Places(items, name);
    GroupIsPlaces(items, name);
    if HasExplicit(Group(items, name)) {
      var i :| 0 <= i < |ps| && Group(items, name)[i].candidate.explicitLabel;
      assert Comes(items, ps[i], name) && CandidateAt(items, ps[i]).explicitLabel;
    }
    forall p | Comes(items, p, name) && CandidateAt(items, p).explicitLabel ensures HasExplicit(Group(items, name)) {
      AllPlaces(items, name, p);
      var i :| 0 <= i < |ps| && ps[i] == p;
      assert Group(items, name)[i].candidate.explicitLabel;
    }
  }

  /** A name clashes exactly when two candidates come back under it and one was asked for by an explicit label. */
  lemma ClashExactly<P>(items: seq<Item<P>>, name: Label)
    ensures Clash(Group(items, name)) <==>
            && (exists p, q | Comes(items, p, name) && Comes(items, q, name) :: p != q)
            && (exists p | Comes(items, p, name) :: CandidateAt(items, p).explicitLabel)
  {
    SeveralExactly(items, name);
    ExplicitExactly(items, name);
  }

  lemma {:induction false} OtherLabelIsFirst<P>(es: seq<Entry<P>>, l: Label)
    ensures match OtherLabel(es, l)
            case None => forall i | 0 <= i < |es| :: es[i].named == l
            case Some(o) =>
              o != l && exists i | 0 <= i < |es| :: es[i].named == o && forall j | 0 <= j < i :: es[j].named == l
  {
    if es != [] && es[0].named == l {
      OtherLabelIsFirst(es[1..], l);
      if OtherLabel(es, l).Some? {
        var o := OtherLabel(es, l).value;
        var i :| 0 <= i < |es| - 1 && es[1..][i].named == o && forall j | 0 <= j < i :: es[1..][j].named == l;
        assert es[i + 1].named == o && forall j | 1 <= j < i + 1 :: es[j] == es[1..][j - 1];
      } else {
        assert forall j | 1 <= j < |es| :: es[j] == es[1..][j - 1];
      }
    }
  }

  /** The error names the first label and the first that differs from it, or the one label there is. */
  lemma ComplaintNamesLabels<P>(es: seq<Entry<P>>, name: Label)
    requires es != []
    ensures match Complaint(es, name)
            case ProducedTwice(only) => forall i | 0 <= i < |es| :: es[i].named == only
            case CollideAfterTruncation(first, second, returned) =>
              returned == name && first == es[0].named && first != second &&
              exists i | 0 <= i < |es| :: es[i].named == second && forall j | 0 <= j < i :: es[j].named == first
  {
    OtherLabelIsFirst(es, es[0].named);
  }

  /** The items that bring a new name. */
  function Firsts<P>(items: seq<Item<P>>): seq<nat> {
    if items == [] then []
    else
      var n := |items| - 1;
      Firsts(items[..n]) +
      if forall i | 0 <= i < n :: Names.Truncate(items[i].named.text, 63) != Names.Truncate(items[n].named.text, 63)
      then [n] else []
  }

  /** The names that come back are those of the items that bring a new one. */
  predicate ByFirst<P>(items: seq<Item<P>>, fs: seq<nat>, names: seq<Label>) {
    |fs| == |names| &&
    (forall j | 0 <= j < |fs| ::
      fs[j] < |items| && names[j].text == Names.Truncate(items[fs[j]].named.text, 63)) &&
    (forall j, l | 0 <= j < l < |fs| :: fs[j] < fs[l]) &&
    (forall i | 0 <= i < |items| :: Label(Names.Truncate(items[i].named.text, 63)) in names)
  }

  lemma NameIsOld<P>(items: seq<Item<P>>, fs: seq<nat>, names: seq<Label>, name: Label)
    requires ByFirst(items, fs, names)
    ensures name in names <==> exists i | 0 <= i < |items| :: Names.Truncate(items[i].named.text, 63) == name.text
  {
    if name in names {
      var j :| 0 <= j < |names| && names[j] == name;
      assert Names.Truncate(items[fs[j]].named.text, 63) == name.text;
    }
    forall i | 0 <= i < |items| && Names.Truncate(items[i].named.text, 63) == name.text ensures name in names {
      assert Label(Names.Truncate(items[i].named.text, 63)) == name;
    }
  }

  lemma OneMoreName<P>(items: seq<Item<P>>, fs: seq<nat>, names: seq<Label>, last: Label)
    requires items != [] && ByFirst(items[..|items| - 1], fs, names)
    requires last == Label(Names.Truncate(items[|items| - 1].named.text, 63))
    ensures last !in names ==> ByFirst(items, fs + [|items| - 1], names + [last])
    ensures last in names ==> ByFirst(items, fs, names)
  {
    var n := |items| - 1;
    assert forall i | 0 <= i < n :: items[i] == items[..n][i];
  }

  /** Names come back in the order in which they first appear. */
  lemma {:induction false} NamesByFirst<P>(items: seq<Item<P>>)
    ensures ByFirst(items, Firsts(items), ReturnedNames(items))
  {
    if items != [] {
      var n := |items| - 1;
      var front, last := items[..n], Label(Names.Truncate(items[n].named.text, 63));
      NamesByFirst(front);
      NameIsOld(front, Firsts(front), ReturnedNames(front), last);
      OneMoreName(items, Firsts(front), ReturnedNames(front), last);
      FirstsLast(items, last);
    }
  }

  lemma FirstsLast<P>(items: seq<Item<P>>, last: Label)
    requires items != [] && last == Label(Names.Truncate(items[|items| - 1].named.text, 63))
    ensures var front := items[..|items| - 1];
      Firsts(items) == Firsts(front) +
        if exists i | 0 <= i < |front| :: Names.Truncate(front[i].named.text, 63) == last.text then []
        else [|items| - 1]
  {
    var n := |items| - 1;
    assert forall i | 0 <= i < n :: items[i] == items[..n][i];
  }

  // --- one owner for each payload key ----------------------------------------------------------------------

  datatype Key = Key(text: string)

  datatype Owner = Owner(identity: string, description: string)

  datatype Claim = Claim(key: Key, owner: Owner)

  /** All claims of a key so far name one identity. */
  predicate OneOwner(cs: seq<Claim>) {
    forall i, j | 0 <= i < j < |cs| && cs[i].key == cs[j].key :: cs[i].owner.identity == cs[j].owner.identity
  }

  predicate Claimed(cs: seq<Claim>, key: Key) { exists i | 0 <= i < |cs| :: cs[i].key == key }

  lemma ClaimedMore(cs: seq<Claim>, c: Claim)
    ensures forall key :: Claimed(cs + [c], key) <==> Claimed(cs, key) || key == c.key
  {
    forall key ensures Claimed(cs + [c], key) <==> Claimed(cs, key) || key == c.key {
      assert (cs + [c])[|cs|] == c;
      if Claimed(cs, key) {
        var i :| 0 <= i < |cs| && cs[i].key == key;
        assert (cs + [c])[i] == cs[i];
      }
    }
  }

  /** One more claim keeps one owner for each key exactly if it agrees with the earlier claims of its key. */
  lemma OneOwnerMore(cs: seq<Claim>, c: Claim)
    requires OneOwner(cs)
    ensures OneOwner(cs + [c]) <==>
      forall i | 0 <= i < |cs| && cs[i].key == c.key :: cs[i].owner.identity == c.owner.identity
  {
    var all := cs + [c];
    assert all[|cs|] == c && forall i | 0 <= i < |cs| :: all[i] == cs[i];
    if OneOwner(all) {
      forall i | 0 <= i < |cs| && cs[i].key == c.key ensures cs[i].owner.identity == c.owner.identity {
        assert all[i].key == all[|cs|].key;
      }
    }
  }

  class PayloadOwners {
    var owners: map<Key, Owner>
    ghost var accepted: seq<Claim>

    /** The owner of a key is the last claim of it, and no key has two identities. */
    ghost predicate Valid()
      reads this
    {
      && OneOwner(accepted)
      && (forall key :: key in owners <==> Claimed(accepted, key))
      && (forall i | 0 <= i < |accepted| :: owners[accepted[i].key].identity == accepted[i].owner.identity)
    }

    constructor ()
      ensures Valid() && accepted == []
    {
      owners, accepted := map[], [];
    }

    /** Refused exactly when the key would get a second identity; true for the first claim of a key. */
    method ClaimPayloadKey(c: Claim) returns (r: Result<bool, Owner>)
      requires Valid()
      modifies this
      ensures Valid()
      ensures r.Ok? <==> OneOwner(old(accepted) + [c])
      ensures accepted == if r.Ok? then old(accepted) + [c] else old(accepted)
      ensures r.Ok? ==> (r.value <==> !Claimed(old(accepted), c.key)) && owners == old(owners)[c.key := c.owner]
      ensures r.Err? ==> owners == old(owners) && r.error == owners[c.key]
    {
      OneOwnerMore(accepted, c);
      ClaimedMore(accepted, c);
      if c.key in owners && owners[c.key].identity != c.owner.identity {
        return Err(owners[c.key]);
      }
      r := Ok(c.key !in owners);
      owners := owners[c.key := c.owner];
      accepted := accepted + [c];
    }
  }
}
