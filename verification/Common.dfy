/** Result types shared by the whole project. */
module Common {

  datatype Option<+T> = None | Some(value: T)

  /** A thrown error is an Err; callers that let it propagate return it unchanged. */
  datatype Result<+T, +E> = Ok(value: T) | Err(error: E)

  lemma Associative<T>(a: seq<T>, b: seq<T>, c: seq<T>)
    ensures (a + b) + c == a + (b + c)
  {
  }

  lemma SplitAt<T>(s: seq<T>, i: nat)
    requires i < |s|
    ensures s[..i] + [s[i]] + s[i + 1..] == s
  {
  }

  /** A sequence split once, and what follows the next element split again. */
  lemma SplitTwice<T>(s: seq<T>, a: seq<T>, rest: seq<T>, b: seq<T>, tail: seq<T>)
    requires s == a + rest && rest != [] && rest[1..] == b + tail
    ensures s == (a + [rest[0]] + b) + tail
  {
    assert rest == [rest[0]] + (b + tail);
  }
}

/** Decimal text, as `String(n)` prints it and `parseInt(s, 10)` reads it. */
module Decimal {

  predicate IsDigit(c: char) { '0' <= c <= '9' }

  predicate AllDigits(s: string) { forall i | 0 <= i < |s| :: IsDigit(s[i]) }

  function DigitChar(d: nat): (c: char)
    requires d < 10
    ensures IsDigit(c) && DigitValue(c) == d
  {
    '0' + d as char
  }

  function DigitValue(c: char): (d: nat)
    requires IsDigit(c)
    ensures d < 10
  {
    (c - '0') as nat
  }

  function Print(n: nat): (s: string)
    ensures s != [] && AllDigits(s)
  {
    if n < 10 then [DigitChar(n)] else Print(n / 10) + [DigitChar(n % 10)]
  }

  function Read(s: string): nat
    requires AllDigits(s)
  {
    if s == [] then 0 else 10 * Read(s[..|s| - 1]) + DigitValue(s[|s| - 1])
  }

  lemma {:induction false} ReadPrint(n: nat)
    ensures Read(Print(n)) == n
  {
    if n >= 10 {
      var s := Print(n);
      assert s[..|s| - 1] == Print(n / 10);
      ReadPrint(n / 10);
    } else {
      assert Print(n)[..0] == [];
    }
  }

  lemma PrintInjective(m: nat, n: nat)
    requires Print(m) == Print(n)
    ensures m == n
  {
    ReadPrint(m);
    ReadPrint(n);
  }

  /** A number below 10^k prints in at most k digits. */
  lemma {:induction false} PrintLength(n: nat, k: nat)
    requires k >= 1 && n < Power10(k)
    ensures |Print(n)| <= k
  {
    if n >= 10 {
      assert Power10(1) == 10 * Power10(0);
      PrintLength(n / 10, k - 1);
    }
  }

  /** Larger numbers print in no fewer digits. */
  lemma {:induction false} PrintGrows(m: nat, n: nat)
    requires m <= n
    ensures |Print(m)| <= |Print(n)|
  {
    if m >= 10 { PrintGrows(m / 10, n / 10); }
  }

  function Power10(k: nat): nat { if k == 0 then 1 else 10 * Power10(k - 1) }
}
