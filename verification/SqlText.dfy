/**
 How a server reads SQL text with placeholders: a dollar sign before a digit is a placeholder only
 outside quotes and outside words (manual, section 4.1). Renumbering by regular expression does not
 know that; here is exactly when it does no harm, for one text and for texts put together.
 */
module SqlText {
  import opened Common
  import opened Placeholders
  import Decimal
  import Deparser
  import Lexer

  // --- reading ---------------------------------------------------------------------------------

  datatype Mode = Plain | Word | Quoted(q: char)

  /** What a character does to the reader. A doubled quote leaves and enters again. */
  function Next(m: Mode, c: char): Mode {
    match m
    case Quoted(q) => if c == q then Plain else m
    case _ =>
      if c == '"' || c == '\'' then Quoted(c)
      else if Lexer.IsWordStart(c) || (m.Word? && Lexer.IsWordChar(c)) then Word
      else Plain
  }

  function Chars(s: string): (r: seq<Chunk>)
    ensures |r| == |s| && forall i :: 0 <= i < |s| ==> r[i] == Ch(s[i])
  {
    seq(|s|, i requires 0 <= i < |s| => Ch(s[i]))
  }

  /** The text with its placeholders; elsewhere a dollar sign and digits are characters. */
  function Reading(s: string, m: Mode): seq<Chunk>
    decreases |s|
  {
    if s == [] then []
    else if StartsPlaceholder(s) then
      var d := DigitRun(s[1..]);
      (if m.Plain? then [Ref(Decimal.Read(s[1..][..d]))] else Chars("$" + s[1..][..d])) + Reading(s[1..][d..], m)
    else [Ch(s[0])] + Reading(s[1..], Next(m, s[0]))
  }

  /** Where the text leaves the reader. */
  function End(s: string, m: Mode): Mode
    decreases |s|
  {
    if s == [] then m
    else if StartsPlaceholder(s) then End(s[1..][DigitRun(s[1..])..], m)
    else End(s[1..], Next(m, s[0]))
  }

  /** A dollar sign before a digit stands inside quotes or inside a word. */
  predicate Hidden(s: string, m: Mode)
    decreases |s|
  {
    if s == [] then false
    else if StartsPlaceholder(s) then !m.Plain? || Hidden(s[1..][DigitRun(s[1..])..], m)
    else Hidden(s[1..], Next(m, s[0]))
  }

  // --- splitting -------------------------------------------------------------------------------

  lemma RunOf(digits: string, rest: string)
    requires digits != [] && Decimal.AllDigits(digits) && NoDigitFirst(rest)
    ensures var s := "$" + digits + rest;
      StartsPlaceholder(s) && DigitRun(s[1..]) == |digits| && s[1..][..|digits|] == digits && s[1..][|digits|..] == rest
  {
    var s := "$" + digits + rest;
    assert s[1..] == digits + rest;
    DigitRunOf(digits, rest);
  }

  function RunChunks(digits: string, m: Mode): seq<Chunk>
    requires Decimal.AllDigits(digits)
  {
    if m.Plain? then [Ref(Decimal.Read(digits))] else Chars("$" + digits)
  }

  lemma ReadRun(digits: string, rest: string, m: Mode)
    requires digits != [] && Decimal.AllDigits(digits) && NoDigitFirst(rest)
    ensures Reading("$" + digits + rest, m) == RunChunks(digits, m) + Reading(rest, m)
    ensures End("$" + digits + rest, m) == End(rest, m)
    ensures Hidden("$" + digits + rest, m) == (!m.Plain? || Hidden(rest, m))
  {
    RunOf(digits, rest);
  }

  lemma ReadChar(c: char, rest: string, m: Mode)
    requires !StartsPlaceholder([c] + rest)
    ensures Reading([c] + rest, m) == [Ch(c)] + Reading(rest, Next(m, c))
    ensures End([c] + rest, m) == End(rest, Next(m, c)) && Hidden([c] + rest, m) == Hidden(rest, Next(m, c))
  {
    assert ([c] + rest)[1..] == rest;
  }

  lemma {:induction false} ReadConcat(a: string, b: string, m: Mode)
    requires NoDigitFirst(b)
    ensures Reading(a + b, m) == Reading(a, m) + Reading(b, End(a, m))
    ensures End(a + b, m) == End(b, End(a, m))
    ensures Hidden(a + b, m) == (Hidden(a, m) || Hidden(b, End(a, m)))
    decreases |a|
  {
    if a == [] {
      assert a + b == b;
    } else if StartsPlaceholder(a) {
      var digits, rest := SplitPlaceholder(a);
      ReadConcat(rest, b, m);
      Associative("$" + digits, rest, b);
      ReadRun(digits, rest, m);
      ReadRun(digits, rest + b, m);
      Associative(RunChunks(digits, m), Reading(rest, m), Reading(b, End(rest, m)));
    } else {
      var c, rest := a[0], a[1..];
      assert a == [c] + rest;
      ReadConcat(rest, b, Next(m, c));
      Associative([c], rest, b);
      assert !StartsPlaceholder([c] + (rest + b));
      ReadChar(c, rest, m);
      ReadChar(c, rest + b, m);
      Associative([Ch(c)], Reading(rest, Next(m, c)), Reading(b, End(rest, Next(m, c))));
    }
  }

  /** A character that no number and no word contains and no quote opens or closes. */
  predicate Fence(c: char) { !Lexer.IsWordChar(c) && c != '"' && c != '\'' }

  predicate Fenced(s: string) { s != [] && Fence(s[|s| - 1]) }

  /** The text starts no digits and no placeholder. */
  predicate Starter(s: string) { s != [] && !Decimal.IsDigit(s[0]) && s[0] != '$' }

  lemma ReadFence(c: char, b: string, m: Mode)
    requires Fence(c)
    ensures Reading([c] + b, m) == [Ch(c)] + Reading(b, Next(m, c))
    ensures End([c] + b, m) == End(b, Next(m, c)) && Hidden([c] + b, m) == Hidden(b, Next(m, c))
  {
    ReadChar(c, b, m);
  }

  lemma ReadLastFence(front: string, c: char, m: Mode)
    requires Fence(c)
    ensures Reading(front + [c], m) == Reading(front, m) + [Ch(c)]
    ensures End(front + [c], m) == Next(End(front, m), c) && Hidden(front + [c], m) == Hidden(front, m)
  {
    ReadConcat(front, [c], m);
    ReadFence(c, [], End(front, m));
    assert [c] + [] == [c] && [Ch(c)] + [] == [Ch(c)];
  }

  lemma ReadAfterFence(a: string, b: string, m: Mode)
    requires Fenced(a)
    ensures Reading(a + b, m) == Reading(a, m) + Reading(b, End(a, m))
    ensures End(a + b, m) == End(b, End(a, m))
    ensures Hidden(a + b, m) == (Hidden(a, m) || Hidden(b, End(a, m)))
    ensures !End(a, m).Quoted? ==> End(a, m) == Plain
  {
    var front, c := a[..|a| - 1], a[|a| - 1];
    var n := End(front, m);
    assert a == front + [c];
    ReadLastFence(front, c, m);
    Associative(front, [c], b);
    ReadConcat(front, [c] + b, m);
    ReadFence(c, b, n);
    Associative(Reading(front, m), [Ch(c)], Reading(b, Next(n, c)));
  }

  /** After a word, a text that starts no digits and no placeholder reads as after no word. */
  lemma StarterForgetsWords(b: string)
    requires Starter(b)
    ensures Reading(b, Word) == Reading(b, Plain) && End(b, Word) == End(b, Plain)
    ensures Hidden(b, Word) == Hidden(b, Plain)
  {
    assert Next(Word, b[0]) == Next(Plain, b[0]);
  }

  predicate Joint(a: string, b: string) { a == [] || b == [] || Fenced(a) || Starter(b) }

  /** The quotes of the text are closed. */
  predicate Whole(s: string) { !End(s, Plain).Quoted? }

  /** Two whole texts side by side read as each on its own. */
  lemma ReadJoint(a: string, b: string)
    requires Whole(a) && Joint(a, b)
    ensures Reading(a + b, Plain) == Reading(a, Plain) + Reading(b, Plain)
    ensures Hidden(a + b, Plain) == (Hidden(a, Plain) || Hidden(b, Plain))
    ensures Whole(b) ==> Whole(a + b)
  {
    if b == [] {
      assert a + b == a;
    } else if a == [] {
      assert a + b == b;
    } else if Fenced(a) {
      ReadAfterFence(a, b, Plain);
    } else {
      ReadConcat(a, b, Plain);
      StarterForgetsWords(b);
    }
  }

  // --- what a text says under an array of values -------------------------------------------------

  /** A text with its placeholders resolved: characters and bound values. */
  datatype Bound<T> = Char(c: char) | Value(v: T) | Dangling(number: nat)

  function BindChunk<T>(c: Chunk, params: seq<T>): Bound<T> {
    match c
    case Ch(x) => Char(x)
    case Ref(n) => if 1 <= n <= |params| then Value(params[n - 1]) else Dangling(n)
  }

  function BindChunks<T>(cs: seq<Chunk>, params: seq<T>): (r: seq<Bound<T>>)
    ensures |r| == |cs| && forall i :: 0 <= i < |cs| ==> r[i] == BindChunk(cs[i], params)
  {
    seq(|cs|, i requires 0 <= i < |cs| => BindChunk(cs[i], params))
  }

  /** The statement a server sees: the text with every placeholder $n read as params[n - 1]. */
  function Says<T>(sql: string, params: seq<T>): seq<Bound<T>> { BindChunks(Reading(sql, Plain), params) }

  ghost predicate Within(cs: seq<Chunk>, n: nat) {
    forall i :: 0 <= i < |cs| && cs[i].Ref? ==> 1 <= cs[i].number <= n
  }

  /** Every placeholder of the text lies in 1..n. */
  ghost predicate Closed(sql: string, n: nat) { Within(Reading(sql, Plain), n) }

  lemma BindBoth<T>(a: seq<Chunk>, b: seq<Chunk>, params: seq<T>)
    ensures BindChunks(a + b, params) == BindChunks(a, params) + BindChunks(b, params)
  {
  }

  lemma WithinBoth(a: seq<Chunk>, b: seq<Chunk>, n: nat)
    ensures Within(a + b, n) <==> Within(a, n) && Within(b, n)
  {
    if Within(a + b, n) {
      forall i | 0 <= i < |a| && a[i].Ref? ensures 1 <= a[i].number <= n { assert (a + b)[i] == a[i]; }
      forall i | 0 <= i < |b| && b[i].Ref? ensures 1 <= b[i].number <= n { assert (a + b)[|a| + i] == b[i]; }
    }
  }

  lemma SaysBoth<T>(a: string, b: string, params: seq<T>)
    requires Whole(a) && Joint(a, b)
    ensures Says(a + b, params) == Says(a, params) + Says(b, params)
    ensures Closed(a + b, |params|) <==> Closed(a, |params|) && Closed(b, |params|)
  {
    ReadJoint(a, b);
    BindBoth(Reading(a, Plain), Reading(b, Plain), params);
    WithinBoth(Reading(a, Plain), Reading(b, Plain), |params|);
  }

  // --- renumbering ---------------------------------------------------------------------------------

  lemma {:induction false} ShiftKeepsEnd(s: string, k: nat, m: Mode)
    ensures End(ShiftText(s, k), m) == End(s, m) && Hidden(ShiftText(s, k), m) == Hidden(s, m)
    decreases |s|
  {
    if s == [] {
      EmptyStaysEmpty(s, k);
    } else if StartsPlaceholder(s) {
      var digits, rest := SplitPlaceholder(s);
      ShiftKeepsEnd(rest, k, m);
      RunKeepsEnd(digits, rest, k, m);
    } else {
      var c, rest := s[0], s[1..];
      assert s == [c] + rest;
      ShiftKeepsEnd(rest, k, Next(m, c));
      ShiftedChar(c, rest, k);
      ReadChar(c, rest, m);
      ReadChar(c, ShiftText(rest, k), m);
    }
  }

  lemma RunKeepsEnd(digits: string, rest: string, k: nat, m: Mode)
    requires digits != [] && Decimal.AllDigits(digits) && NoDigitFirst(rest)
    requires End(ShiftText(rest, k), m) == End(rest, m) && Hidden(ShiftText(rest, k), m) == Hidden(rest, m)
    ensures var s := "$" + digits + rest;
      End(ShiftText(s, k), m) == End(s, m) && Hidden(ShiftText(s, k), m) == Hidden(s, m)
  {
    ScanShift(rest, k);
    ShiftPlaceholder(digits, rest, k);
    RunsEndAlike(Decimal.Print(Decimal.Read(digits) + k), ShiftText(rest, k), digits, rest, m);
  }

  /** Where a text ends does not depend on the number it starts with. */
  lemma RunsEndAlike(d: string, x: string, e: string, y: string, m: Mode)
    requires d != [] && Decimal.AllDigits(d) && NoDigitFirst(x) && e != [] && Decimal.AllDigits(e) && NoDigitFirst(y)
    requires End(x, m) == End(y, m) && Hidden(x, m) == Hidden(y, m)
    ensures End("$" + d + x, m) == End("$" + e + y, m) && Hidden("$" + d + x, m) == Hidden("$" + e + y, m)
  {
    ReadRun(d, x, m);
    ReadRun(e, y, m);
  }

  lemma ShiftedChar(c: char, rest: string, k: nat)
    requires !StartsPlaceholder([c] + rest)
    ensures ShiftText([c] + rest, k) == [c] + ShiftText(rest, k)
    ensures !StartsPlaceholder([c] + ShiftText(rest, k))
  {
    ShiftChar(c, rest, k);
    ScanShift(rest, k);
    assert rest == [] ==> ShiftChunks(Scan(rest), k) == [];
  }

  /** The array holds these values after k others. */
  predicate HoldsAt<T(==)>(params: seq<T>, k: nat, own: seq<T>) {
    k + |own| <= |params| && params[k..k + |own|] == own
  }

  /** Starts no digit. */
  predicate NoDigit<T>(bs: seq<Bound<T>>) { bs == [] || !(bs[0].Char? && Decimal.IsDigit(bs[0].c)) }

  lemma RunSays<T>(digits: string, k: nat, m: Mode, params: seq<T>, own: seq<T>)
    requires Decimal.AllDigits(digits) && HoldsAt(params, k, own) && Within(RunChunks(digits, m), |own|)
    ensures var shifted := RunChunks(Decimal.Print(Decimal.Read(digits) + k), m);
      (m.Plain? ==> BindChunks(shifted, params) == BindChunks(RunChunks(digits, m), own)) && Within(shifted, |params|)
  {
    if m.Plain? {
      var n := Decimal.Read(digits);
      Decimal.ReadPrint(n + k);
      assert RunChunks(digits, m)[0] == Ref(n);
      assert params[n + k - 1] == params[k..k + |own|][n - 1];
    }
  }

  lemma CharSays<T>(c: char, r: seq<Chunk>, params: seq<T>)
    ensures BindChunks([Ch(c)] + r, params) == [Char(c)] + BindChunks(r, params)
    ensures Within([Ch(c)] + r, |params|) <==> Within(r, |params|)
  {
    BindBoth([Ch(c)], r, params);
    WithinBoth([Ch(c)], r, |params|);
  }

  lemma RunAndRest<T>(digits: string, m: Mode, r: seq<Chunk>, params: seq<T>)
    requires Decimal.AllDigits(digits)
    ensures BindChunks(RunChunks(digits, m) + r, params)
            == BindChunks(RunChunks(digits, m), params) + BindChunks(r, params)
    ensures Within(RunChunks(digits, m) + r, |params|)
            <==> Within(RunChunks(digits, m), |params|) && Within(r, |params|)
  {
    BindBoth(RunChunks(digits, m), r, params);
    WithinBoth(RunChunks(digits, m), r, |params|);
  }

  /** A shifted text that starts with a run, and what it reads as. */
  lemma ShiftedRun(digits: string, rest: string, k: nat, m: Mode)
    requires digits != [] && Decimal.AllDigits(digits) && NoDigitFirst(rest)
    ensures var shifted := Decimal.Print(Decimal.Read(digits) + k);
      && NoDigitFirst(ShiftText(rest, k))
      && ShiftText("$" + digits + rest, k) == "$" + shifted + ShiftText(rest, k)
      && Reading(ShiftText("$" + digits + rest, k), m) == RunChunks(shifted, m) + Reading(ShiftText(rest, k), m)
  {
    ScanShift(rest, k);
    ShiftPlaceholder(digits, rest, k);
    ReadRun(Decimal.Print(Decimal.Read(digits) + k), ShiftText(rest, k), m);
  }

  lemma ShiftedCharReads(c: char, rest: string, k: nat, m: Mode)
    requires !StartsPlaceholder([c] + rest)
    ensures Reading(ShiftText([c] + rest, k), m) == [Ch(c)] + Reading(ShiftText(rest, k), Next(m, c))
  {
    ShiftedChar(c, rest, k);
    ReadChar(c, ShiftText(rest, k), m);
  }

  /** Where nothing is hidden, a renumbered text says the same. */
  lemma {:induction false} ShiftSays<T>(s: string, k: nat, m: Mode, params: seq<T>, own: seq<T>)
    requires HoldsAt(params, k, own) && Within(Reading(s, m), |own|)
    ensures !Hidden(s, m) ==> BindChunks(Reading(ShiftText(s, k), m), params) == BindChunks(Reading(s, m), own)
    ensures Within(Reading(ShiftText(s, k), m), |params|)
    decreases |s|
  {
    if s == [] {
      assert ShiftChunks(Scan(s), k) == [];
    } else if StartsPlaceholder(s) {
      var digits, rest := SplitPlaceholder(s);
      ReadRun(digits, rest, m);
      RunAndRest(digits, m, Reading(rest, m), own);
      ShiftSays(rest, k, m, params, own);
      RunShiftSays(digits, rest, k, m, params, own);
    } else {
      var c, rest := s[0], s[1..];
      assert s == [c] + rest;
      ReadChar(c, rest, m);
      CharSays(c, Reading(rest, Next(m, c)), own);
      ShiftSays(rest, k, Next(m, c), params, own);
      ShiftedCharReads(c, rest, k, m);
      CharSays(c, Reading(ShiftText(rest, k), Next(m, c)), params);
    }
  }

  lemma RunShiftSays<T>(digits: string, rest: string, k: nat, m: Mode, params: seq<T>, own: seq<T>)
    requires digits != [] && Decimal.AllDigits(digits) && NoDigitFirst(rest) && HoldsAt(params, k, own)
    requires Within(RunChunks(digits, m), |own|) && Within(Reading(ShiftText(rest, k), m), |params|)
    requires m.Plain? && !Hidden(rest, m) ==>
      BindChunks(Reading(ShiftText(rest, k), m), params) == BindChunks(Reading(rest, m), own)
    ensures var s := "$" + digits + rest;
      && (!Hidden(s, m) ==> BindChunks(Reading(ShiftText(s, k), m), params) == BindChunks(Reading(s, m), own))
      && Within(Reading(ShiftText(s, k), m), |params|)
  {
    ReadRun(digits, rest, m);
    RunReads(digits, rest, k, m, params, own);
    ShiftedRun(digits, rest, k, m);
    RunAndRest(Decimal.Print(Decimal.Read(digits) + k), m, Reading(ShiftText(rest, k), m), params);
    RunSays(digits, k, m, params, own);
  }

  /** No digits, or a digit first. */
  lemma DigitsFirst<T>(d: string, x: seq<Bound<T>>)
    requires Decimal.AllDigits(d)
    ensures d == [] ==> BindChunks<T>(Chars(d), []) + x == x
    ensures d != [] ==> !NoDigit(BindChunks<T>(Chars(d), []) + x)
    ensures d != [] ==> BindChunks<T>(Chars(d), []) + x == [Char(d[0])] + (BindChunks<T>(Chars(d[1..]), []) + x)
  {
    if d != [] {
      assert BindChunks<T>(Chars(d), []) == [Char(d[0])] + BindChunks<T>(Chars(d[1..]), []);
      assert (BindChunks<T>(Chars(d), []) + x)[0] == Char(d[0]);
    }
  }

  lemma {:induction false} RunsEqual<T>(d: string, x: seq<Bound<T>>, e: string, y: seq<Bound<T>>)
    requires Decimal.AllDigits(d) && Decimal.AllDigits(e) && NoDigit(x) && NoDigit(y)
    requires BindChunks(Chars(d), []) + x == BindChunks(Chars(e), []) + y
    ensures d == e
  {
    DigitsFirst(d, x);
    DigitsFirst(e, y);
    if d != [] && e != [] {
      var u, v := BindChunks<T>(Chars(d[1..]), []) + x, BindChunks<T>(Chars(e[1..]), []) + y;
      assert ([Bound.Char(d[0])] + u)[0] == ([Bound.Char(e[0])] + v)[0];
      assert ([Bound.Char(d[0])] + u)[1..] == u && ([Bound.Char(e[0])] + v)[1..] == v;
      RunsEqual(d[1..], x, e[1..], y);
      assert d == [d[0]] + d[1..] && e == [e[0]] + e[1..];
    }
  }

  lemma ReadingStartsNoDigit<T>(s: string, m: Mode, params: seq<T>, x: seq<Bound<T>>)
    requires NoDigitFirst(s) && (s == [] ==> NoDigit(x))
    ensures NoDigit(BindChunks(Reading(s, m), params) + x)
  {
    if s != [] {
      var r := Reading(s, m);
      if StartsPlaceholder(s) {
        assert r[0] == Ch('$') || r[0].Ref?;
      } else {
        assert r[0] == Ch(s[0]);
      }
      assert (BindChunks(r, params) + x)[0] == BindChunk(r[0], params);
    }
  }

  /** A dollar sign in front of a run cancels. */
  lemma DollarCancels<T>(d: string, x: seq<Bound<T>>, e: string, y: seq<Bound<T>>, p: seq<T>, q: seq<T>)
    requires BindChunks(Chars("$" + d), p) + x == BindChunks(Chars("$" + e), q) + y
    ensures BindChunks<T>(Chars(d), []) + x == BindChunks<T>(Chars(e), []) + y
  {
    assert BindChunks(Chars("$" + d), p) == [Char('$')] + BindChunks<T>(Chars(d), []);
    assert BindChunks(Chars("$" + e), q) == [Char('$')] + BindChunks<T>(Chars(e), []);
    var a, b := BindChunks<T>(Chars(d), []) + x, BindChunks<T>(Chars(e), []) + y;
    assert [Char('$')] + a == [Char('$')] + b by {
      Associative([Char('$')], BindChunks<T>(Chars(d), []), x);
      Associative([Char('$')], BindChunks<T>(Chars(e), []), y);
    }
    assert ([Char('$')] + a)[1..] == a && ([Char('$')] + b)[1..] == b;
  }

  lemma HeadsCancel<T>(a: seq<T>, x: seq<T>, b: seq<T>, y: seq<T>)
    requires |a| == |b| && a + x == b + y
    ensures a == b && x == y
  {
    assert (a + x)[..|a|] == a && (b + y)[..|b|] == b;
    assert (a + x)[|a|..] == x && (b + y)[|b|..] == y;
  }

  /** Where something is hidden, a text renumbered by a positive offset says something else, whatever
      follows it. */
  lemma {:induction false} HiddenSaysElse<T>(s: string, k: nat, m: Mode, params: seq<T>, own: seq<T>,
                                             x: seq<Bound<T>>, y: seq<Bound<T>>)
    requires k > 0 && Hidden(s, m) && HoldsAt(params, k, own) && Within(Reading(s, m), |own|)
    requires Fenced(s) || (NoDigit(x) && NoDigit(y))
    ensures BindChunks(Reading(ShiftText(s, k), m), params) + x != BindChunks(Reading(s, m), own) + y
    decreases |s|
  {
    if StartsPlaceholder(s) {
      var digits, rest := SplitPlaceholder(s);
      ReadRun(digits, rest, m);
      RunAndRest(digits, m, Reading(rest, m), own);
      FencedTail(digits, rest, s);
      if m.Plain? {
        HiddenSaysElse(rest, k, m, params, own, x, y);
        PlainRunSaysElse(digits, rest, k, params, own, x, y);
      } else {
        HiddenRunSaysElse(digits, rest, k, m, params, own, x, y);
      }
    } else {
      var c, rest := s[0], s[1..];
      var n := Next(m, c);
      assert s == [c] + rest;
      ReadChar(c, rest, m);
      CharSays(c, Reading(rest, n), own);
      assert rest != [] && (Fenced(s) ==> Fenced(rest));
      HiddenSaysElse(rest, k, n, params, own, x, y);
      ShiftedCharReads(c, rest, k, m);
      CharSays(c, Reading(ShiftText(rest, k), n), params);
      HeadDiffers([Char(c)], BindChunks(Reading(ShiftText(rest, k), n), params), x,
                  BindChunks(Reading(rest, n), own), y);
    }
  }

  lemma HeadDiffers<T>(h: seq<T>, a: seq<T>, x: seq<T>, b: seq<T>, y: seq<T>)
    requires a + x != b + y
    ensures h + a + x != h + b + y
  {
    Associative(h, a, x);
    Associative(h, b, y);
    if h + (a + x) == h + (b + y) { HeadsCancel(h, a + x, h, b + y); }
  }

  lemma RunReads<T>(digits: string, rest: string, k: nat, m: Mode, params: seq<T>, own: seq<T>)
    requires digits != [] && Decimal.AllDigits(digits) && NoDigitFirst(rest)
    ensures BindChunks(Reading("$" + digits + rest, m), own)
            == BindChunks(RunChunks(digits, m), own) + BindChunks(Reading(rest, m), own)
    ensures BindChunks(Reading(ShiftText("$" + digits + rest, k), m), params)
            == BindChunks(RunChunks(Decimal.Print(Decimal.Read(digits) + k), m), params)
               + BindChunks(Reading(ShiftText(rest, k), m), params)
  {
    ReadRun(digits, rest, m);
    RunAndRest(digits, m, Reading(rest, m), own);
    ShiftedRun(digits, rest, k, m);
    RunAndRest(Decimal.Print(Decimal.Read(digits) + k), m, Reading(ShiftText(rest, k), m), params);
  }

  lemma PlainRunSaysElse<T>(digits: string, rest: string, k: nat, params: seq<T>, own: seq<T>,
                            x: seq<Bound<T>>, y: seq<Bound<T>>)
    requires digits != [] && Decimal.AllDigits(digits) && NoDigitFirst(rest)
    requires HoldsAt(params, k, own) && Within(RunChunks(digits, Plain), |own|)
    requires BindChunks(Reading(ShiftText(rest, k), Plain), params) + x != BindChunks(Reading(rest, Plain), own) + y
    ensures BindChunks(Reading(ShiftText("$" + digits + rest, k), Plain), params) + x
            != BindChunks(Reading("$" + digits + rest, Plain), own) + y
  {
    var a, b := BindChunks(Reading(ShiftText(rest, k), Plain), params), BindChunks(Reading(rest, Plain), own);
    PlainRunDiffers(digits, k, a, x, b, y, params, own);
    RunReads(digits, rest, k, Plain, params, own);
  }

  lemma HiddenRunSaysElse<T>(digits: string, rest: string, k: nat, m: Mode, params: seq<T>, own: seq<T>,
                             x: seq<Bound<T>>, y: seq<Bound<T>>)
    requires digits != [] && Decimal.AllDigits(digits) && NoDigitFirst(rest) && k > 0 && !m.Plain?
    requires rest == [] ==> NoDigit(x) && NoDigit(y)
    ensures BindChunks(Reading(ShiftText("$" + digits + rest, k), m), params) + x
            != BindChunks(Reading("$" + digits + rest, m), own) + y
  {
    var a, b := BindChunks(Reading(ShiftText(rest, k), m), params), BindChunks(Reading(rest, m), own);
    RestsStartNoDigit(rest, k, m, params, own, x, y);
    HiddenRunDiffers(digits, k, m, a, x, b, y, params, own);
    RunReads(digits, rest, k, m, params, own);
  }

  lemma HiddenRunDiffers<T>(digits: string, k: nat, m: Mode, a: seq<Bound<T>>, x: seq<Bound<T>>, b: seq<Bound<T>>,
                            y: seq<Bound<T>>, p: seq<T>, q: seq<T>)
    requires k > 0 && Decimal.AllDigits(digits) && NoDigit(a + x) && NoDigit(b + y) && !m.Plain?
    ensures BindChunks(RunChunks(Decimal.Print(Decimal.Read(digits) + k), m), p) + a + x
            != BindChunks(RunChunks(digits, m), q) + b + y
  {
    RunDiffers(digits, k, a, x, b, y, p, q);
  }

  lemma RestsStartNoDigit<T>(rest: string, k: nat, m: Mode, params: seq<T>, own: seq<T>,
                             x: seq<Bound<T>>, y: seq<Bound<T>>)
    requires NoDigitFirst(rest) && (rest == [] ==> NoDigit(x) && NoDigit(y))
    ensures NoDigit(BindChunks(Reading(ShiftText(rest, k), m), params) + x)
    ensures NoDigit(BindChunks(Reading(rest, m), own) + y)
  {
    ScanShift(rest, k);
    EmptyStaysEmpty(rest, k);
    ReadingStartsNoDigit(rest, m, own, y);
    ReadingStartsNoDigit(ShiftText(rest, k), m, params, x);
  }

  lemma PlainRunDiffers<T>(digits: string, k: nat, a: seq<Bound<T>>, x: seq<Bound<T>>, b: seq<Bound<T>>,
                           y: seq<Bound<T>>, params: seq<T>, own: seq<T>)
    requires Decimal.AllDigits(digits) && HoldsAt(params, k, own) && Within(RunChunks(digits, Plain), |own|)
    requires a + x != b + y
    ensures BindChunks(RunChunks(Decimal.Print(Decimal.Read(digits) + k), Plain), params) + a + x
            != BindChunks(RunChunks(digits, Plain), own) + b + y
  {
    RunSays(digits, k, Plain, params, own);
    HeadDiffers(BindChunks(RunChunks(digits, Plain), own), a, x, b, y);
  }

  lemma RunDiffers<T>(digits: string, k: nat, a: seq<Bound<T>>, x: seq<Bound<T>>, b: seq<Bound<T>>, y: seq<Bound<T>>,
                      p: seq<T>, q: seq<T>)
    requires k > 0 && Decimal.AllDigits(digits) && NoDigit(a + x) && NoDigit(b + y)
    ensures BindChunks(Chars("$" + Decimal.Print(Decimal.Read(digits) + k)), p) + a + x
            != BindChunks(Chars("$" + digits), q) + b + y
  {
    var shifted := Decimal.Print(Decimal.Read(digits) + k);
    var e, f := BindChunks(Chars("$" + shifted), p), BindChunks(Chars("$" + digits), q);
    Associative(e, a, x);
    Associative(f, b, y);
    if e + (a + x) == f + (b + y) {
      DollarCancels(shifted, a + x, digits, b + y, p, q);
      RunsEqual(shifted, a + x, digits, b + y);
      Decimal.ReadPrint(Decimal.Read(digits) + k);
      assert false;
    }
  }

  /** Digits at the end of a text are no fence. */
  lemma FencedTail(digits: string, rest: string, s: string)
    requires s == "$" + digits + rest && digits != [] && Decimal.AllDigits(digits)
    ensures Fenced(s) ==> Fenced(rest)
  {
    if rest == [] { assert s[|s| - 1] == digits[|digits| - 1]; }
  }

  lemma EmptyStaysEmpty(s: string, k: nat)
    ensures ShiftText(s, k) == [] <==> s == []
  {
    if s == [] {
      assert ShiftChunks(Scan(s), k) == [];
    } else if StartsPlaceholder(s) {
      var digits, rest := SplitPlaceholder(s);
      ShiftPlaceholder(digits, rest, k);
    } else {
      assert s == [s[0]] + s[1..];
      ShiftChar(s[0], s[1..], k);
    }
  }

  /**
   A fragment renumbered to stand behind other parameters says what it said, if and only if it was not
   moved or none of its dollar signs before digits is hidden in quotes or words.
   */
  lemma ShiftedFragmentSays<T>(sql: string, before: seq<T>, own: seq<T>, after: seq<T>)
    requires Closed(sql, |own|)
    ensures Says(RenumberSqlParams(sql, |before|), before + own + after) == Says(sql, own) <==>
            |before| == 0 || !Hidden(sql, Plain)
    ensures Closed(RenumberSqlParams(sql, |before|), |before + own + after|)
  {
    var params, k := before + own + after, |before|;
    assert HoldsAt(params, k, own);
    if k == 0 {
      UnshiftedSays(sql, params, own);
    } else {
      ShiftSays(sql, k, Plain, params, own);
      if Hidden(sql, Plain) {
        HiddenSaysElse(sql, k, Plain, params, own, [], []);
        var a, b := Says(ShiftText(sql, k), params), Says(sql, own);
        assert a + [] == a && b + [] == b;
      }
    }
  }

  lemma UnshiftedSays<T>(sql: string, params: seq<T>, own: seq<T>)
    requires Closed(sql, |own|) && HoldsAt(params, 0, own)
    ensures Says(sql, params) == Says(sql, own) && Closed(sql, |params|)
  {
    assert params[0..|own|] == own;
    forall i | 0 <= i < |own| ensures params[i] == own[i] {
      assert params[0..|own|][i] == params[i];
    }
  }
}
