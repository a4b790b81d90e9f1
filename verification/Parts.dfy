/**
 SQL put together from texts written apart, each with values of its own: renumbered by the number of
 parameters before it and concatenated. The result says what the texts said exactly when no text
 that was moved hides a dollar sign before a digit in quotes or words.
 */
module Parts {
  import opened Common
  import opened Placeholders
  import opened SqlText
  import Decimal
  import Deparser
  import Renumbering

  datatype Part<T> = Part(text: string, shift: nat, own: seq<T>)

  /** Text between fragments. */
  function Literal<T>(text: string): Part<T> { Part(text, 0, []) }

  /** A single placeholder for a value that stands after k others. */
  function Single<T>(k: nat, v: T): Part<T> { Part("$1", k, [v]) }

  function Rendered<T>(p: Part<T>): string { RenumberSqlParams(p.text, p.shift) }

  function Text<T>(ps: seq<Part<T>>): string {
    if ps == [] then [] else Rendered(ps[0]) + Text(ps[1..])
  }

  /** Every text with its own values, one after the other. */
  function Meant<T>(ps: seq<Part<T>>): seq<Bound<T>> {
    if ps == [] then [] else Says(ps[0].text, ps[0].own) + Meant(ps[1..])
  }

  /** Quotes are closed and every placeholder has a value of the text's own. */
  ghost predicate Complete<T>(p: Part<T>) { Whole(p.text) && Closed(p.text, |p.own|) }

  predicate Linked<T>(ps: seq<Part<T>>) {
    forall i | 0 <= i < |ps| - 1 :: Fenced(ps[i].text) || Starter(ps[i + 1].text)
  }

  /** Renumbering does the part no harm. */
  predicate Untouched<T>(p: Part<T>) { p.shift == 0 || !Hidden(p.text, Plain) }

  // --- rendering keeps the edges of a text ---------------------------------------------------------

  lemma {:induction false} ShiftKeepsEdges(s: string, k: nat)
    ensures Fenced(ShiftText(s, k)) == Fenced(s) && Starter(ShiftText(s, k)) == Starter(s)
    decreases |s|
  {
    EmptyStaysEmpty(s, k);
    if StartsPlaceholder(s) {
      var digits, rest := SplitPlaceholder(s);
      ShiftPlaceholder(digits, rest, k);
      ShiftKeepsEdges(rest, k);
      EmptyStaysEmpty(rest, k);
      RunEdges(digits, rest);
      RunEdges(Decimal.Print(Decimal.Read(digits) + k), ShiftText(rest, k));
    } else if s != [] {
      var c, rest := s[0], s[1..];
      assert s == [c] + rest;
      ShiftedChar(c, rest, k);
      ShiftKeepsEdges(rest, k);
      EmptyStaysEmpty(rest, k);
    }
  }

  lemma RunEdges(digits: string, rest: string)
    requires digits != [] && Decimal.AllDigits(digits)
    ensures var s := "$" + digits + rest; Fenced(s) == Fenced(rest) && !Starter(s)
  {
    var s := "$" + digits + rest;
    if rest == [] {
      assert s[|s| - 1] == digits[|digits| - 1];
    } else {
      assert s[|s| - 1] == rest[|rest| - 1];
    }
  }

  lemma RenderedKeeps<T>(p: Part<T>)
    ensures Whole(Rendered(p)) == Whole(p.text) && Fenced(Rendered(p)) == Fenced(p.text)
    ensures Starter(Rendered(p)) == Starter(p.text)
  {
    if p.shift > 0 {
      ShiftKeepsEdges(p.text, p.shift);
      ShiftKeepsEnd(p.text, p.shift, Plain);
    }
  }

  lemma StartsWithFirst<T>(ps: seq<Part<T>>)
    requires ps != [] && Starter(ps[0].text)
    ensures Starter(Text(ps))
  {
    RenderedKeeps(ps[0]);
  }

  lemma {:induction false} TextOfBoth<T>(a: seq<Part<T>>, b: seq<Part<T>>)
    ensures Text(a + b) == Text(a) + Text(b)
  {
    if a == [] {
      assert a + b == b;
    } else {
      assert (a + b)[1..] == a[1..] + b;
      TextOfBoth(a[1..], b);
      Associative(Rendered(a[0]), Text(a[1..]), Text(b));
    }
  }

  lemma TextOfOne<T>(p: Part<T>)
    ensures Text([p]) == Rendered(p)
  {
    assert [p][1..] == [];
  }

  lemma LinkedTail<T>(ps: seq<Part<T>>)
    requires Linked(ps) && ps != []
    ensures Linked(ps[1..])
  {
    forall i | 0 <= i < |ps[1..]| - 1 ensures Fenced(ps[1..][i].text) || Starter(ps[1..][i + 1].text) {
      assert ps[1..][i] == ps[i + 1] && ps[1..][i + 1] == ps[i + 2];
    }
  }

  lemma LinkedBoth<T>(a: seq<Part<T>>, b: seq<Part<T>>)
    requires Linked(a) && Linked(b)
    requires a != [] && b != [] ==> Fenced(a[|a| - 1].text) || Starter(b[0].text)
    ensures Linked(a + b)
  {
    forall i | 0 <= i < |a + b| - 1 ensures Fenced((a + b)[i].text) || Starter((a + b)[i + 1].text) {
      if i >= |a| {
        assert Fenced(b[i - |a|].text) || Starter(b[i - |a| + 1].text);
      }
    }
  }

  // --- the assembled text ----------------------------------------------------------------------------

  lemma RenderedSays<T>(p: Part<T>, params: seq<T>)
    requires Complete(p) && HoldsAt(params, p.shift, p.own)
    ensures Untouched(p) ==> Says(Rendered(p), params) == Says(p.text, p.own)
    ensures Closed(Rendered(p), |params|)
  {
    if p.shift == 0 {
      UnshiftedSays(p.text, params, p.own);
    } else {
      ShiftSays(p.text, p.shift, Plain, params, p.own);
    }
  }

  /** What follows a part that ends in no fence starts no digit. */
  lemma RestStartsNoDigit<T>(ps: seq<Part<T>>, params: seq<T>)
    requires ps == [] || Starter(ps[0].text)
    ensures NoDigit(Says(Text(ps), params)) && NoDigit(Meant(ps))
  {
    if ps != [] {
      StartsWithFirst(ps);
      ReadingStartsNoDigit(Text(ps), Plain, params, []);
      assert Says(Text(ps), params) + [] == Says(Text(ps), params);
      ReadingStartsNoDigit(ps[0].text, Plain, ps[0].own, Meant(ps[1..]));
    }
  }

  lemma SecondStarts<T>(p: Part<T>, rest: seq<Part<T>>)
    requires Linked([p] + rest) && !Fenced(p.text) && rest != []
    ensures Starter(rest[0].text)
  {
    var ps := [p] + rest;
    assert Fenced(ps[0].text) || Starter(ps[0 + 1].text);
  }

  lemma TouchedSaysElse<T>(p: Part<T>, rest: seq<Part<T>>, params: seq<T>)
    requires Complete(p) && HoldsAt(params, p.shift, p.own) && !Untouched(p) && Linked([p] + rest)
    ensures Says(Rendered(p), params) + Says(Text(rest), params) != Says(p.text, p.own) + Meant(rest)
  {
    if !Fenced(p.text) {
      if rest != [] { SecondStarts(p, rest); }
      RestStartsNoDigit(rest, params);
    }
    HiddenSaysElse(p.text, p.shift, Plain, params, p.own, Says(Text(rest), params), Meant(rest));
  }

  lemma FirstAndRest<T>(p: Part<T>, rest: seq<Part<T>>, params: seq<T>)
    requires Complete(p) && HoldsAt(params, p.shift, p.own) && Linked([p] + rest) && Whole(Text(rest))
    ensures Says(Rendered(p) + Text(rest), params) == Says(Rendered(p), params) + Says(Text(rest), params)
    ensures Closed(Rendered(p) + Text(rest), |params|) <==> Closed(Text(rest), |params|)
    ensures Whole(Rendered(p) + Text(rest))
  {
    RenderedKeeps(p);
    if rest != [] && !Fenced(p.text) {
      SecondStarts(p, rest);
      StartsWithFirst(rest);
    }
    SaysBoth(Rendered(p), Text(rest), params);
    ReadJoint(Rendered(p), Text(rest));
    RenderedSays(p, params);
  }

  /**
   Read under the whole array, the assembled text says what its parts say under their own values if and
   only if renumbering does none of them harm. Every placeholder has a value in any case.
   */
  lemma {:induction false} PartsSay<T>(ps: seq<Part<T>>, params: seq<T>)
    requires Linked(ps) && forall p | p in ps :: Complete(p) && HoldsAt(params, p.shift, p.own)
    ensures Says(Text(ps), params) == Meant(ps) <==> forall p | p in ps :: Untouched(p)
    ensures Closed(Text(ps), |params|) && Whole(Text(ps))
  {
    if ps != [] {
      var p, rest := ps[0], ps[1..];
      assert ps == [p] + rest;
      LinkedTail(ps);
      PartsSay(rest, params);
      FirstAndRest(p, rest, params);
      RenderedSays(p, params);
      if Untouched(p) {
        var h, a, b := Says(p.text, p.own), Says(Text(rest), params), Meant(rest);
        if h + a == h + b { HeadsCancel(h, a, h, b); }
      } else {
        TouchedSaysElse(p, rest, params);
      }
    }
  }

  // --- renumbering what is already put together --------------------------------------------------------

  function Moved<T>(ps: seq<Part<T>>, k: nat): (r: seq<Part<T>>)
    ensures |r| == |ps| && forall i :: 0 <= i < |ps| ==> r[i] == Part(ps[i].text, ps[i].shift + k, ps[i].own)
  {
    seq(|ps|, i requires 0 <= i < |ps| => Part(ps[i].text, ps[i].shift + k, ps[i].own))
  }

  lemma RenumberTwice(s: string, a: nat, b: nat)
    ensures RenumberSqlParams(RenumberSqlParams(s, a), b) == RenumberSqlParams(s, a + b)
  {
    if a > 0 && b > 0 {
      ScanShift(s, a);
      ChunksTwice(Scan(s), a, b);
    }
  }

  lemma ChunksTwice(cs: seq<Chunk>, a: nat, b: nat)
    ensures ShiftChunks(ShiftChunks(cs, a), b) == ShiftChunks(cs, a + b)
  {
  }

  lemma ShiftAfterFence(front: string, c: char, b: string, k: nat)
    requires Fence(c)
    ensures ShiftText(front + [c] + b, k) == ShiftText(front + [c], k) + ShiftText(b, k)
  {
    assert front + [c] + b == front + ([c] + b) && [c] + [] == [c];
    ShiftConcat(front, [c] + b, k);
    ShiftConcat(front, [c], k);
    ShiftChar(c, b, k);
    ShiftChar(c, [], k);
    EmptyStaysEmpty([], k);
    Associative(ShiftText(front, k), [c], ShiftText(b, k));
  }

  lemma RenumberJoint(a: string, b: string, k: nat)
    requires Joint(a, b)
    ensures RenumberSqlParams(a + b, k) == RenumberSqlParams(a, k) + RenumberSqlParams(b, k)
  {
    EmptyStaysEmpty([], k);
    if a == [] {
      assert a + b == b;
    } else if b == [] {
      assert a + b == a;
    } else if Fenced(a) {
      assert a == a[..|a| - 1] + [a[|a| - 1]];
      ShiftAfterFence(a[..|a| - 1], a[|a| - 1], b, k);
    } else {
      ShiftConcat(a, b, k);
    }
  }

  lemma FirstIsJoint<T>(p: Part<T>, rest: seq<Part<T>>)
    requires Linked([p] + rest)
    ensures Joint(Rendered(p), Text(rest))
  {
    RenderedKeeps(p);
    if rest != [] && !Fenced(p.text) {
      SecondStarts(p, rest);
      StartsWithFirst(rest);
    }
  }

  /** Renumbering the whole moves every part. */
  lemma {:induction false} RenumberText<T>(ps: seq<Part<T>>, k: nat)
    requires Linked(ps)
    ensures RenumberSqlParams(Text(ps), k) == Text(Moved(ps, k))
  {
    if ps == [] {
      EmptyStaysEmpty([], k);
    } else {
      var p, rest := ps[0], ps[1..];
      assert ps == [p] + rest;
      LinkedTail(ps);
      RenumberText(rest, k);
      RenumberFirst(p, rest, k);
    }
  }

  lemma RenumberFirst<T>(p: Part<T>, rest: seq<Part<T>>, k: nat)
    requires Linked([p] + rest) && RenumberSqlParams(Text(rest), k) == Text(Moved(rest, k))
    ensures RenumberSqlParams(Rendered(p) + Text(rest), k) == Text(Moved([p] + rest, k))
  {
    var a, b := Rendered(p), Text(rest);
    assert RenumberSqlParams(a + b, k) == RenumberSqlParams(a, k) + RenumberSqlParams(b, k) by {
      FirstIsJoint(p, rest);
      RenumberJoint(a, b, k);
    }
    assert RenumberSqlParams(a, k) == RenumberSqlParams(p.text, p.shift + k) by { RenumberTwice(p.text, p.shift, k); }
    assert Text(Moved([p] + rest, k)) == RenumberSqlParams(p.text, p.shift + k) + Text(Moved(rest, k)) by {
      MovedHead(p, rest, k);
    }
  }

  lemma MovedHead<T>(p: Part<T>, rest: seq<Part<T>>, k: nat)
    ensures Text(Moved([p] + rest, k)) == RenumberSqlParams(p.text, p.shift + k) + Text(Moved(rest, k))
  {
    assert Moved([p] + rest, k) == [Part(p.text, p.shift + k, p.own)] + Moved(rest, k);
  }

  lemma {:induction false} MeantMoved<T>(ps: seq<Part<T>>, k: nat)
    ensures Meant(Moved(ps, k)) == Meant(ps)
  {
    if ps != [] {
      MeantMoved(ps[1..], k);
      assert Moved(ps, k)[1..] == Moved(ps[1..], k);
    }
  }

  lemma {:induction false} MeantOfBoth<T>(a: seq<Part<T>>, b: seq<Part<T>>)
    ensures Meant(a + b) == Meant(a) + Meant(b)
  {
    if a == [] {
      assert a + b == b;
    } else {
      assert (a + b)[1..] == a[1..] + b;
      MeantOfBoth(a[1..], b);
      Associative(Says(a[0].text, a[0].own), Meant(a[1..]), Meant(b));
    }
  }

  lemma SingleText<T>(k: nat, v: T)
    ensures Rendered(Single(k, v)) == "$" + Decimal.Print(k + 1)
    ensures Complete(Single(k, v)) && Untouched(Single(k, v)) && Says("$1", [v]) == [Value(v)]
  {
    assert "$1" == "$" + "1" + [];
    assert Decimal.Read("1") == 1 by { assert "1"[..0] == []; }
    ReadRun("1", [], Plain);
    assert RunChunks("1", Plain) + [] == [Ref(1)];
    if k > 0 {
      ShiftPlaceholder("1", [], k);
      EmptyStaysEmpty([], k);
      assert "$" + Decimal.Print(1 + k) + [] == "$" + Decimal.Print(k + 1);
    }
  }

  // --- texts without placeholders --------------------------------------------------------------------------

  /** Quotes are closed, and outside them there is no placeholder. */
  ghost predicate Quiet(s: string) { Whole(s) && Closed(s, 0) }

  lemma QuietBoth(a: string, b: string)
    requires Quiet(a) && Quiet(b) && Joint(a, b)
    ensures Quiet(a + b) && Hidden(a + b, Plain) == (Hidden(a, Plain) || Hidden(b, Plain))
  {
    ReadJoint(a, b);
    WithinBoth(Reading(a, Plain), Reading(b, Plain), 0);
  }

  predicate NoSpecial(s: string) { forall c | c in s :: c != '$' && c != '"' && c != '\'' }

  lemma {:induction false} NoSpecialReads(s: string, m: Mode)
    requires NoSpecial(s) && !m.Quoted?
    ensures !End(s, m).Quoted? && Within(Reading(s, m), 0) && !Hidden(s, m)
  {
    if s != [] {
      var c, rest := s[0], s[1..];
      assert s == [c] + rest && c in s && forall x | x in rest :: x in s;
      NoSpecialReads(rest, Next(m, c));
      ReadChar(c, rest, m);
      WithinBoth([Ch(c)], Reading(rest, Next(m, c)), 0);
    }
  }

  lemma PlainIsQuiet(s: string)
    requires NoSpecial(s)
    ensures Quiet(s) && !Hidden(s, Plain)
  {
    NoSpecialReads(s, Plain);
  }

  /** In quotes every dollar sign before a digit is hidden, and only there. */
  lemma {:induction false} InQuotes(t: string, q: char, tail: string)
    requires q == '"' || q == '\''
    ensures var s := Deparser.Double(t, q) + [q] + tail;
      && End(s, Quoted(q)) == End(tail, Plain)
      && (Within(Reading(tail, Plain), 0) ==> Within(Reading(s, Quoted(q)), 0))
      && Hidden(s, Quoted(q)) == (Refs(t) != [] || Hidden(tail, Plain))
    decreases |t|, 1
  {
    if t == [] {
      assert Deparser.Double(t, q) + [q] + tail == [q] + tail;
      ReadChar(q, tail, Quoted(q));
      WithinBoth([Ch(q)], Reading(tail, Plain), 0);
    } else if StartsPlaceholder(t) {
      var digits, rest := SplitPlaceholder(t);
      QuotedRun(digits, rest, q, tail);
    } else {
      assert t == [t[0]] + t[1..];
      QuotedChar(t[0], t[1..], q, tail);
    }
  }

  lemma {:induction false} QuotedRun(digits: string, rest: string, q: char, tail: string)
    requires (q == '"' || q == '\'') && digits != [] && Decimal.AllDigits(digits) && NoDigitFirst(rest)
    ensures var s := Deparser.Double("$" + digits + rest, q) + [q] + tail;
      && End(s, Quoted(q)) == End(tail, Plain)
      && (Within(Reading(tail, Plain), 0) ==> Within(Reading(s, Quoted(q)), 0))
      && Hidden(s, Quoted(q)) && Refs("$" + digits + rest) != []
    decreases |rest| + 1, 0
  {
    var after := Deparser.Double(rest, q) + [q] + tail;
    InQuotes(rest, q, tail);
    Renumbering.DoubleOfPlain("$" + digits, rest, q);
    Renumbering.RefsOfDouble(rest, q);
    RunStaysRun("$" + digits, Deparser.Double(rest, q), [q], tail);
    assert NoDigitFirst(after);
    ReadRun(digits, after, Quoted(q));
    WithinBoth(RunChunks(digits, Quoted(q)), Reading(after, Quoted(q)), 0);
    RefsOfRun(digits, rest);
  }

  lemma RunStaysRun(a: string, b: string, c: string, d: string)
    ensures a + b + c + d == a + (b + c + d)
  {
  }

  lemma {:induction false} QuotedChar(c: char, rest: string, q: char, tail: string)
    requires (q == '"' || q == '\'') && !StartsPlaceholder([c] + rest)
    ensures var s := Deparser.Double([c] + rest, q) + [q] + tail;
      && End(s, Quoted(q)) == End(tail, Plain)
      && (Within(Reading(tail, Plain), 0) ==> Within(Reading(s, Quoted(q)), 0))
      && Hidden(s, Quoted(q)) == (Refs([c] + rest) != [] || Hidden(tail, Plain))
    decreases |rest| + 1, 0
  {
    var after := Deparser.Double(rest, q) + [q] + tail;
    InQuotes(rest, q, tail);
    Renumbering.RefsAfterChar(c, rest);
    if c == q {
      DoubledSpelled(rest, q, tail);
      DoubledQuote(q, after);
    } else {
      OrdinarySpelled(c, rest, q, tail);
      OrdinaryChar(c, q, after);
    }
  }

  lemma DoubledSpelled(rest: string, q: char, tail: string)
    ensures Deparser.Double([q] + rest, q) + [q] + tail == [q] + ([q] + (Deparser.Double(rest, q) + [q] + tail))
  {
    Renumbering.DoubleHead(q, rest, q);
  }

  lemma OrdinarySpelled(c: char, rest: string, q: char, tail: string)
    requires c != q && (q == '"' || q == '\'') && !StartsPlaceholder([c] + rest)
    ensures var after := Deparser.Double(rest, q) + [q] + tail;
      Deparser.Double([c] + rest, q) + [q] + tail == [c] + after && !StartsPlaceholder([c] + after)
  {
    var after := Deparser.Double(rest, q) + [q] + tail;
    Renumbering.DoubleHead(c, rest, q);
    Renumbering.RefsOfDouble(rest, q);
    assert NoDigitFirst(after) == NoDigitFirst(rest);
  }

  lemma DoubledQuote(q: char, after: string)
    requires q == '"' || q == '\''
    ensures var s := [q] + ([q] + after);
      && End(s, Quoted(q)) == End(after, Quoted(q)) && Hidden(s, Quoted(q)) == Hidden(after, Quoted(q))
      && (Within(Reading(after, Quoted(q)), 0) ==> Within(Reading(s, Quoted(q)), 0))
  {
    ReadChar(q, [q] + after, Quoted(q));
    ReadChar(q, after, Plain);
    WithinBoth([Ch(q)], Reading(after, Quoted(q)), 0);
    WithinBoth([Ch(q)], Reading([q] + after, Plain), 0);
  }

  lemma OrdinaryChar(c: char, q: char, after: string)
    requires c != q && !StartsPlaceholder([c] + after)
    ensures var s := [c] + after;
      && End(s, Quoted(q)) == End(after, Quoted(q)) && Hidden(s, Quoted(q)) == Hidden(after, Quoted(q))
      && (Within(Reading(after, Quoted(q)), 0) ==> Within(Reading(s, Quoted(q)), 0))
  {
    ReadChar(c, after, Quoted(q));
    WithinBoth([Ch(c)], Reading(after, Quoted(q)), 0);
  }

  /** A quoted name has no placeholder; a dollar sign before a digit in it is hidden. */
  lemma QuotedNameReads(name: string, tail: string)
    requires Quiet(tail)
    ensures Quiet(Deparser.Quote(name, '"') + tail)
    ensures Hidden(Deparser.Quote(name, '"') + tail, Plain) == (Refs(name) != [] || Hidden(tail, Plain))
  {
    var rest := Deparser.Double(name, '"') + ['"'] + tail;
    assert Deparser.Quote(name, '"') + tail == ['"'] + rest;
    InQuotes(name, '"', tail);
    ReadChar('"', rest, Plain);
    WithinBoth([Ch('"')], Reading(rest, Quoted('"')), 0);
  }

  lemma NameIsQuiet(name: string)
    ensures Quiet(Deparser.QuoteIdent(name)) && Deparser.QuoteIdent(name) != []
  {
    if Deparser.NeedsNoQuotes(name) {
      PlainIsQuiet(name);
    } else {
      PlainIsQuiet("");
      QuotedNameReads(name, "");
      assert Deparser.Quote(name, '"') + "" == Deparser.Quote(name, '"');
    }
  }
}
