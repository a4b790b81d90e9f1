/**
 Placeholders in SQL text, as the regular expression /\$([0-9]+)/g sees them, and what shifting
 them does to a text.
 */
module Placeholders {
  import opened Common
  import opened Decimal

  /** A text split at its placeholders. */
  datatype Chunk = Ch(c: char) | Ref(number: nat)

  /** A placeholder starts here: a dollar sign directly followed by a digit. */
  predicate StartsPlaceholder(s: string) { |s| > 1 && s[0] == '$' && IsDigit(s[1]) }

  function DigitRun(s: string): (k: nat)
    ensures k <= |s| && AllDigits(s[..k])
    ensures NoDigitFirst(s[k..])
    ensures s != [] && IsDigit(s[0]) ==> k > 0
  {
    if s == [] || !IsDigit(s[0]) then 0
    else
      var k := 1 + DigitRun(s[1..]);
      assert s[..k] == [s[0]] + s[1..][..k - 1] && s[k..] == s[1..][k - 1..];
      k
  }

  predicate NoDigitFirst(s: string) { s == [] || !IsDigit(s[0]) }

  function Scan(s: string): seq<Chunk>
    decreases |s|
  {
    if s == [] then []
    else if StartsPlaceholder(s) then
      var d := DigitRun(s[1..]);
      [Ref(Read(s[1..][..d]))] + Scan(s[1..][d..])
    else [Ch(s[0])] + Scan(s[1..])
  }

  function Render(cs: seq<Chunk>): string {
    if cs == [] then []
    else (match cs[0] case Ch(c) => [c] case Ref(n) => "$" + Print(n)) + Render(cs[1..])
  }

  function ShiftChunk(c: Chunk, k: nat): Chunk { if c.Ref? then Ref(c.number + k) else c }

  function ShiftChunks(cs: seq<Chunk>, k: nat): (r: seq<Chunk>)
    ensures |r| == |cs| && forall i :: 0 <= i < |cs| ==> r[i] == ShiftChunk(cs[i], k)
  {
    seq(|cs|, i requires 0 <= i < |cs| => ShiftChunk(cs[i], k))
  }

  /** Every placeholder replaced by the one numbered k higher. */
  function ShiftText(s: string, k: nat): string { Render(ShiftChunks(Scan(s), k)) }

  /** `renumberSqlParams` and its three inlined copies. */
  function RenumberSqlParams(sql: string, offset: nat): string {
    if offset == 0 then sql else ShiftText(sql, offset)
  }

  /** The numbers of a text's placeholders, in order. */
  function Refs(s: string): seq<nat> { RefsOf(Scan(s)) }

  function RefsOf(cs: seq<Chunk>): seq<nat> {
    if cs == [] then [] else (if cs[0].Ref? then [cs[0].number] else []) + RefsOf(cs[1..])
  }

  // --- splitting -----------------------------------------------------------------

  lemma {:induction false} DigitRunOf(digits: string, rest: string)
    requires AllDigits(digits) && NoDigitFirst(rest)
    ensures DigitRun(digits + rest) == |digits|
  {
    if digits == [] {
      assert digits + rest == rest;
    } else {
      assert (digits + rest)[1..] == digits[1..] + rest;
      DigitRunOf(digits[1..], rest);
    }
  }

  lemma ScanPlaceholder(digits: string, rest: string)
    requires digits != [] && AllDigits(digits) && NoDigitFirst(rest)
    ensures Scan("$" + digits + rest) == [Ref(Read(digits))] + Scan(rest)
  {
    var s := "$" + digits + rest;
    assert s[1..] == digits + rest;
    DigitRunOf(digits, rest);
    assert s[1..][..|digits|] == digits && s[1..][|digits|..] == rest;
  }

  lemma ScanChar(c: char, rest: string)
    requires !StartsPlaceholder([c] + rest)
    ensures Scan([c] + rest) == [Ch(c)] + Scan(rest)
  {
    assert ([c] + rest)[1..] == rest;
  }

  /** A text that starts with a placeholder is a dollar sign, its digits, and a rest. */
  lemma SplitPlaceholder(s: string) returns (digits: string, rest: string)
    requires StartsPlaceholder(s)
    ensures s == "$" + digits + rest && digits != [] && AllDigits(digits) && NoDigitFirst(rest)
    ensures |rest| < |s|
  {
    var d := DigitRun(s[1..]);
    digits, rest := s[1..][..d], s[1..][d..];
    assert s[1..] == digits + rest;
  }

  lemma {:induction false} ScanConcat(a: string, b: string)
    requires NoDigitFirst(b)
    ensures Scan(a + b) == Scan(a) + Scan(b)
    decreases |a|
  {
    if a == [] {
      assert a + b == b;
    } else if StartsPlaceholder(a) {
      var digits, rest := SplitPlaceholder(a);
      ScanConcat(rest, b);
      ScanConcatPlaceholder(digits, rest, b);
    } else {
      ScanConcat(a[1..], b);
      assert a == [a[0]] + a[1..];
      ScanConcatChar(a[0], a[1..], b);
    }
  }

  lemma ScanConcatPlaceholder(digits: string, rest: string, b: string)
    requires digits != [] && AllDigits(digits) && NoDigitFirst(rest) && NoDigitFirst(b)
    requires Scan(rest + b) == Scan(rest) + Scan(b)
    ensures Scan("$" + digits + rest + b) == Scan("$" + digits + rest) + Scan(b)
  {
    Associative("$" + digits, rest, b);
    assert NoDigitFirst(rest + b);
    ScanPlaceholder(digits, rest);
    ScanPlaceholder(digits, rest + b);
    Associative([Ref(Read(digits))], Scan(rest), Scan(b));
  }

  lemma ScanConcatChar(c: char, rest: string, b: string)
    requires !StartsPlaceholder([c] + rest) && NoDigitFirst(b)
    requires Scan(rest + b) == Scan(rest) + Scan(b)
    ensures Scan([c] + rest + b) == Scan([c] + rest) + Scan(b)
  {
    Associative([c], rest, b);
    assert !StartsPlaceholder([c] + (rest + b));
    ScanChar(c, rest);
    ScanChar(c, rest + b);
    Associative([Ch(c)], Scan(rest), Scan(b));
  }

  lemma {:induction false} RenderConcat(a: seq<Chunk>, b: seq<Chunk>)
    ensures Render(a + b) == Render(a) + Render(b)
  {
    if a == [] {
      assert a + b == b;
    } else {
      assert (a + b)[1..] == a[1..] + b;
      RenderConcat(a[1..], b);
      Associative(match a[0] case Ch(c) => [c] case Ref(n) => "$" + Print(n), Render(a[1..]), Render(b));
    }
  }

  lemma {:induction false} RefsOfConcat(a: seq<Chunk>, b: seq<Chunk>)
    ensures RefsOf(a + b) == RefsOf(a) + RefsOf(b)
  {
    if a == [] {
      assert a + b == b;
    } else {
      assert (a + b)[1..] == a[1..] + b;
      RefsOfConcat(a[1..], b);
      Associative(if a[0].Ref? then [a[0].number] else [], RefsOf(a[1..]), RefsOf(b));
    }
  }

  lemma RefsConcat(a: string, b: string)
    requires NoDigitFirst(b)
    ensures Refs(a + b) == Refs(a) + Refs(b)
  {
    ScanConcat(a, b);
    RefsOfConcat(Scan(a), Scan(b));
  }

  lemma ShiftConcat(a: string, b: string, k: nat)
    requires NoDigitFirst(b)
    ensures ShiftText(a + b, k) == ShiftText(a, k) + ShiftText(b, k)
  {
    ScanConcat(a, b);
    assert ShiftChunks(Scan(a) + Scan(b), k) == ShiftChunks(Scan(a), k) + ShiftChunks(Scan(b), k);
    RenderConcat(ShiftChunks(Scan(a), k), ShiftChunks(Scan(b), k));
  }

  lemma RenderHead(c: Chunk, cs: seq<Chunk>)
    ensures Render([c] + cs) == (match c case Ch(x) => [x] case Ref(n) => "$" + Print(n)) + Render(cs)
  {
    assert ([c] + cs)[1..] == cs;
  }

  lemma ShiftHead(c: Chunk, cs: seq<Chunk>, k: nat)
    ensures ShiftChunks([c] + cs, k) == [ShiftChunk(c, k)] + ShiftChunks(cs, k)
  {
  }

  lemma ShiftPlaceholder(digits: string, rest: string, k: nat)
    requires digits != [] && AllDigits(digits) && NoDigitFirst(rest)
    ensures ShiftText("$" + digits + rest, k) == "$" + Print(Read(digits) + k) + ShiftText(rest, k)
  {
    ScanPlaceholder(digits, rest);
    ShiftHead(Ref(Read(digits)), Scan(rest), k);
    RenderHead(Ref(Read(digits) + k), ShiftChunks(Scan(rest), k));
  }

  lemma ShiftChar(c: char, rest: string, k: nat)
    requires !StartsPlaceholder([c] + rest)
    ensures ShiftText([c] + rest, k) == [c] + ShiftText(rest, k)
  {
    ScanChar(c, rest);
    ShiftHead(Ch(c), Scan(rest), k);
    RenderHead(Ch(c), ShiftChunks(Scan(rest), k));
  }

  /** Shifting moves every placeholder by exactly k, keeps all other text and makes no new ones. */
  lemma {:induction false} ScanShift(s: string, k: nat)
    ensures Scan(ShiftText(s, k)) == ShiftChunks(Scan(s), k)
    ensures NoDigitFirst(s) == NoDigitFirst(ShiftText(s, k))
    decreases |s|
  {
    if s == [] {
      assert ShiftChunks(Scan(s), k) == [];
    } else if StartsPlaceholder(s) {
      var digits, rest := SplitPlaceholder(s);
      var n := Read(digits) + k;
      ScanShift(rest, k);
      ShiftPlaceholder(digits, rest, k);
      ReadPrint(n);
      ScanPlaceholder(Print(n), ShiftText(rest, k));
      ScanPlaceholder(digits, rest);
      ShiftHead(Ref(Read(digits)), Scan(rest), k);
    } else {
      var rest := s[1..];
      assert s == [s[0]] + rest;
      ScanShift(rest, k);
      ShiftChar(s[0], rest, k);
      ScanChar(s[0], ShiftText(rest, k));
      ScanChar(s[0], rest);
      ShiftHead(Ch(s[0]), Scan(rest), k);
    }
  }

  lemma {:induction false} ShiftNothing(s: string, k: nat)
    requires Refs(s) == []
    ensures ShiftText(s, k) == s
    decreases |s|
  {
    if s == [] {
      assert ShiftChunks(Scan(s), k) == [];
    } else if StartsPlaceholder(s) {
      var digits, rest := SplitPlaceholder(s);
      ScanPlaceholder(digits, rest);
      RefsOfConcat([Ref(Read(digits))], Scan(rest));
    } else {
      var rest := s[1..];
      assert s == [s[0]] + rest;
      ScanChar(s[0], rest);
      RefsOfConcat([Ch(s[0])], Scan(rest));
      ShiftNothing(rest, k);
      ShiftChar(s[0], rest, k);
    }
  }

  function Plus(ns: seq<nat>, k: nat): (r: seq<nat>)
    ensures |r| == |ns|
  {
    seq(|ns|, i requires 0 <= i < |ns| => ns[i] + k)
  }

  lemma {:induction false} RefsOfShift(s: string, k: nat)
    ensures Refs(ShiftText(s, k)) == Plus(Refs(s), k)
  {
    ScanShift(s, k);
    RefsOfShiftedChunks(Scan(s), k);
  }

  lemma {:induction false} RefsOfShiftedChunks(cs: seq<Chunk>, k: nat)
    ensures RefsOf(ShiftChunks(cs, k)) == Plus(RefsOf(cs), k)
  {
    if cs != [] {
      RefsOfShiftedChunks(cs[1..], k);
      assert ShiftChunks(cs, k)[1..] == ShiftChunks(cs[1..], k);
    }
  }

  lemma {:induction false} NoDollarNoRefs(s: string)
    requires '$' !in s
    ensures Refs(s) == []
  {
    if s != [] {
      assert s == [s[0]] + s[1..];
      ScanChar(s[0], s[1..]);
      RefsOfConcat([Ch(s[0])], Scan(s[1..]));
      NoDollarNoRefs(s[1..]);
    }
  }

  /** A character that is neither a dollar sign nor a digit stays out of every placeholder. */
  lemma ScanFence(c: char, rest: string)
    requires c != '$'
    ensures Scan([c] + rest) == [Ch(c)] + Scan(rest)
    ensures Refs([c] + rest) == Refs(rest)
  {
    ScanChar(c, rest);
    RefsOfConcat([Ch(c)], Scan(rest));
  }

  lemma RefsOfRun(digits: string, rest: string)
    requires digits != [] && AllDigits(digits) && NoDigitFirst(rest)
    ensures Refs("$" + digits + rest) != []
  {
    ScanPlaceholder(digits, rest);
    RefsOfConcat([Ref(Read(digits))], Scan(rest));
  }

  lemma ScanPrinted(n: nat, rest: string)
    requires NoDigitFirst(rest)
    ensures Scan("$" + Print(n) + rest) == [Ref(n)] + Scan(rest)
  {
    ReadPrint(n);
    ScanPlaceholder(Print(n), rest);
  }
}
