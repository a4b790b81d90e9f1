/**
 Name allocation under PostgreSQL's 63-byte identifier limit: truncation, numbered
 candidates, and the search for the first candidate nobody uses.
 */
module Names {
  import opened Common
  import Decimal

  // --- truncation: packages/adapter-pgsql/src/column-metadata.ts ---------------------

  /** The length of a character in UTF-8. */
  function CharBytes(c: char): (n: nat)
    ensures 1 <= n <= 4
  {
    if c as int < 0x80 then 1 else if c as int < 0x800 then 2 else if c as int < 0x10000 then 3 else 4
  }

  function Bytes(s: string): (n: nat)
    ensures n >= |s|
  {
    if s == [] then 0 else CharBytes(s[0]) + Bytes(s[1..])
  }

  /** Whole characters from the front while they fit. */
  function Truncate(s: string, max: int): string {
    if s == [] || CharBytes(s[0]) > max then [] else [s[0]] + Truncate(s[1..], max - CharBytes(s[0]))
  }

  lemma {:induction false} BytesConcat(a: string, b: string)
    ensures Bytes(a + b) == Bytes(a) + Bytes(b)
  {
    if a == [] {
      assert a + b == b;
    } else {
      assert (a + b)[1..] == a[1..] + b;
      BytesConcat(a[1..], b);
    }
  }

  /** Truncation yields the longest prefix, in whole characters, that fits in max bytes. */
  lemma {:induction false} TruncateIsLongestPrefix(s: string, max: int)
    ensures var t := Truncate(s, max);
      t <= s && (max >= 0 ==> Bytes(t) <= max) &&
      (|t| < |s| ==> Bytes(s[..|t| + 1]) > max)
  {
    var t := Truncate(s, max);
    if s == [] {
    } else if CharBytes(s[0]) > max {
      assert s[..1] == [s[0]] + [];
    } else {
      var u := Truncate(s[1..], max - CharBytes(s[0]));
      TruncateIsLongestPrefix(s[1..], max - CharBytes(s[0]));
      assert t == [s[0]] + u && t[1..] == u;
      assert s == [s[0]] + s[1..];
      if |t| < |s| {
        assert s[..|t| + 1] == [s[0]] + s[1..][..|u| + 1];
        assert s[..|t| + 1][1..] == s[1..][..|u| + 1];
      }
    }
  }

  lemma {:induction false} TruncateFits(s: string, max: int)
    requires Bytes(s) <= max
    ensures Truncate(s, max) == s
  {
    if s != [] { TruncateFits(s[1..], max - CharBytes(s[0])); }
  }

  lemma TruncateTwice(s: string, max: nat)
    ensures Truncate(Truncate(s, max), max) == Truncate(s, max)
  {
    TruncateIsLongestPrefix(s, max);
    TruncateFits(Truncate(s, max), max);
  }

  method TruncateIdentifier(identifier: string, maxBytes: int) returns (result: string)
    ensures result == Truncate(identifier, maxBytes)
  {
    result := "";
    var byteLength := 0;
    var i := 0;
    while i < |identifier|
      invariant 0 <= i <= |identifier|
      invariant Truncate(identifier, maxBytes) == result + Truncate(identifier[i..], maxBytes - byteLength)
    {
      var characterBytes := CharBytes(identifier[i]);
      if byteLength + characterBytes > maxBytes {
        break;
      }
      assert identifier[i..][1..] == identifier[i + 1..];
      result := result + [identifier[i]];
      byteLength := byteLength + characterBytes;
      i := i + 1;
    }
  }

  // --- numbered candidates -------------------------------------------------------------

  /** How many digits a text ends in. */
  function DigitTail(s: string): nat {
    if s == [] || !Decimal.IsDigit(s[|s| - 1]) then 0 else 1 + DigitTail(s[..|s| - 1])
  }

  lemma {:induction false} DigitTailOf(a: string, d: string)
    requires a != [] && !Decimal.IsDigit(a[|a| - 1]) && Decimal.AllDigits(d)
    ensures DigitTail(a + d) == |d|
  {
    if d == [] {
      assert a + d == a;
    } else {
      assert (a + d)[..|a + d| - 1] == a + d[..|d| - 1];
      DigitTailOf(a, d[..|d| - 1]);
    }
  }

  /** Two texts that end in a non-digit and a number are equal only if the numbers are. */
  lemma NumbersTellApart(a: string, m: nat, b: string, n: nat)
    requires a != [] && !Decimal.IsDigit(a[|a| - 1])
    requires b != [] && !Decimal.IsDigit(b[|b| - 1])
    requires a + Decimal.Print(m) == b + Decimal.Print(n)
    ensures m == n
  {
    var d, e := Decimal.Print(m), Decimal.Print(n);
    DigitTailOf(a, d);
    DigitTailOf(b, e);
    assert |a| == |b|;
    assert d == (a + d)[|a|..] && e == (b + e)[|b|..];
    Decimal.PrintInjective(m, n);
  }

  /** The text appended to a name on the i-th attempt. */
  function Suffix(stem: string, i: nat): string { stem + "_" + Decimal.Print(i) }

  /** The name cut so that it fits in 63 bytes together with its suffix. */
  function Fitted(name: string, suffix: string): string { Truncate(name, 63 - |suffix|) + suffix }

  lemma FittedNumbersTellApart(name: string, stem: string, i: nat, j: nat)
    requires Fitted(name, Suffix(stem, i)) == Fitted(name, Suffix(stem, j))
    ensures i == j
  {
    var a := Truncate(name, 63 - |Suffix(stem, i)|) + (stem + "_");
    var b := Truncate(name, 63 - |Suffix(stem, j)|) + (stem + "_");
    assert Fitted(name, Suffix(stem, i)) == a + Decimal.Print(i);
    assert Fitted(name, Suffix(stem, j)) == b + Decimal.Print(j);
    NumbersTellApart(a, i, b, j);
  }

  lemma {:induction false} AsciiBytes(s: string)
    requires forall i :: 0 <= i < |s| ==> s[i] as int < 0x80
    ensures Bytes(s) == |s|
  {
    if s != [] { AsciiBytes(s[1..]); }
  }

  lemma FittedFits(name: string, suffix: string)
    requires (forall i :: 0 <= i < |suffix| ==> suffix[i] as int < 0x80) && |suffix| <= 63
    ensures Bytes(Fitted(name, suffix)) <= 63
  {
    TruncateIsLongestPrefix(name, 63 - |suffix|);
    AsciiBytes(suffix);
    BytesConcat(Truncate(name, 63 - |suffix|), suffix);
  }

  lemma SuffixIsShort(stem: string, i: nat)
    requires |stem| <= 3 && (forall k :: 0 <= k < |stem| ==> stem[k] as int < 0x80)
    requires i < Decimal.Power10(20)
    ensures |Suffix(stem, i)| <= 24 && forall k :: 0 <= k < |Suffix(stem, i)| ==> Suffix(stem, i)[k] as int < 0x80
  {
    Decimal.PrintLength(i, 20);
  }

  // --- the first free candidate ----------------------------------------------------------

  /** From the `from`-th on, no two candidates are equal. */
  ghost predicate Injective(candidate: nat -> string, from: nat) {
    forall i: nat, j: nat :: from <= i < j ==> candidate(i) != candidate(j)
  }

  /** The used names that some candidate from the k-th on would run into. */
  ghost function Blocked(used: set<string>, candidate: nat -> string, k: nat): set<string> {
    set u | u in used && exists j: nat :: j >= k && candidate(j) == u
  }

  /** Each refused candidate leaves one name fewer in the way: the search ends. */
  lemma BlockedShrinks(used: set<string>, candidate: nat -> string, k: nat)
    requires Injective(candidate, k) && candidate(k) in used
    ensures |Blocked(used, candidate, k + 1)| < |Blocked(used, candidate, k)| <= |used|
  {
    var a, b := Blocked(used, candidate, k), Blocked(used, candidate, k + 1);
    assert candidate(k) in a;
    assert candidate(k) !in b;
    assert b <= a - {candidate(k)};
    Cardinality(b, a - {candidate(k)});
    assert a <= used;
    Cardinality(a, used);
  }

  lemma Cardinality<T>(a: set<T>, b: set<T>)
    requires a <= b
    ensures |a| <= |b|
  {
    assert b == a + (b - a);
  }

  /** The least index from k on whose candidate is unused. */
  function FirstFree(used: set<string>, candidate: nat -> string, k: nat): (r: nat)
    requires Injective(candidate, k)
    ensures k <= r && candidate(r) !in used && forall j :: k <= j < r ==> candidate(j) in used
    decreases |Blocked(used, candidate, k)|
  {
    if candidate(k) !in used then k
    else
      BlockedShrinks(used, candidate, k);
      FirstFree(used, candidate, k + 1)
  }

  /** No search is longer than the number of names in use. */
  lemma {:induction false} FirstFreeIsNear(used: set<string>, candidate: nat -> string, k: nat)
    requires Injective(candidate, k)
    ensures FirstFree(used, candidate, k) <= k + |Blocked(used, candidate, k)| <= k + |used|
    decreases |Blocked(used, candidate, k)|
  {
    Cardinality(Blocked(used, candidate, k), used);
    if candidate(k) in used {
      BlockedShrinks(used, candidate, k);
      FirstFreeIsNear(used, candidate, k + 1);
    }
  }

  // --- transport and presence labels: include-payload-shape.ts -----------------------------

  /** The emitted form of a label on the i-th attempt. */
  function LabelCandidate(text: string, i: nat): string {
    if i == 0 then Truncate(text, 63) else Fitted(text, Suffix("", i))
  }

  function LabelCandidates(text: string): nat -> string { (i: nat) => LabelCandidate(text, i) }

  lemma LabelCandidatesTellApart(text: string)
    ensures Injective(LabelCandidates(text), 1)
  {
    forall i: nat, j: nat | 1 <= i < j 
      ensures LabelCandidates(text)(i) != LabelCandidates(text)(j)
    {
      if LabelCandidate(text, i) == LabelCandidate(text, j) { FittedNumbersTellApart(text, "", i, j); }
    }
  }

  lemma LabelFits(text: string, i: nat)
    requires i < Decimal.Power10(20)
    ensures Bytes(LabelCandidate(text, i)) <= 63
  {
    if i == 0 {
      TruncateIsLongestPrefix(text, 63);
    } else {
      SuffixIsShort("", i);
      FittedFits(text, Suffix("", i));
    }
  }

  /** The label the search settles on from its k-th attempt. */
  function LabelFrom(text: string, used: set<string>, k: nat): string {
    LabelCandidatesTellApart(text);
    var c := LabelCandidates(text);
    if k > 0 then c(FirstFree(used, c, k))
    else if c(0) !in used then c(0)
    else c(FirstFree(used, c, 1))
  }

  /** The plain truncation if it is free, else the first free number. */
  function FreshLabel(text: string, used: set<string>): string { LabelFrom(text, used, 0) }

  ghost function LabelsLeft(text: string, used: set<string>, k: nat): nat {
    if k == 0 then |used| + 1 else |Blocked(used, LabelCandidates(text), k)|
  }

  /** One attempt: accept the candidate, or go on with fewer names in the way. */
  lemma LabelAttempt(text: string, used: set<string>, k: nat)
    ensures if LabelCandidate(text, k) in used
            then LabelFrom(text, used, k) == LabelFrom(text, used, k + 1) &&
                 LabelsLeft(text, used, k + 1) < LabelsLeft(text, used, k)
            else LabelFrom(text, used, k) == LabelCandidate(text, k)
  {
    var c := LabelCandidates(text);
    LabelCandidatesTellApart(text);
    assert c(k) == LabelCandidate(text, k);
    if c(k) in used {
      if k == 0 {
        assert Blocked(used, c, 1) <= used;
        Cardinality(Blocked(used, c, 1), used);
      } else {
        BlockedShrinks(used, c, k);
      }
    }
  }

  /** Labels stay within the limit as long as fewer names are in use than JavaScript can count. */
  const MAX_NAMES: nat := 0x20_0000_0000_0000

  lemma FreshLabelIsFresh(text: string, used: set<string>)
    requires |used| < MAX_NAMES
    ensures FreshLabel(text, used) !in used && Bytes(FreshLabel(text, used)) <= 63
  {
    LabelCandidatesTellApart(text);
    var c := LabelCandidates(text);
    MaxNamesIsSmall();
    LabelFits(text, 0);
    if c(0) in used {
      FirstFreeIsNear(used, c, 1);
      LabelFits(text, FirstFree(used, c, 1));
    }
  }

  lemma MaxNamesIsSmall()
    ensures MAX_NAMES + 1 < Decimal.Power10(20)
  {
    assert Decimal.Power10(4) == 10000;
    assert Decimal.Power10(8) == 10000 * Decimal.Power10(4);
    assert Decimal.Power10(12) == 10000 * Decimal.Power10(8);
    assert Decimal.Power10(16) == 10000 * Decimal.Power10(12);
    assert Decimal.Power10(20) == 10000 * Decimal.Power10(16);
  }

  class LabelAllocator {
    var transportLabels: map<string, string>
    var usedLabels: set<string>

    constructor ()
      ensures transportLabels == map[] && usedLabels == {} && Valid()
    {
      transportLabels := map[];
      usedLabels := {};
    }

    /** Emitted labels are distinct, short, and all accounted for. */
    ghost predicate Valid()
      reads this
    {
      Consistent(transportLabels, usedLabels)
    }

    method TransportLabel(text: string) returns (emitted: string)
      requires Valid() && |usedLabels| < MAX_NAMES
      modifies this
      ensures Valid()
      ensures (transportLabels, usedLabels, emitted) ==
              Transport(old(transportLabels), old(usedLabels), text)
    {
      if text in transportLabels {
        return transportLabels[text];
      }
      emitted := TruncateIdentifier(text, 63);
      var counter := 0;
      while emitted in usedLabels
        invariant emitted == LabelCandidate(text, counter)
        invariant LabelFrom(text, usedLabels, counter) == FreshLabel(text, usedLabels)
        decreases LabelsLeft(text, usedLabels, counter)
        modifies {}
      {
        LabelAttempt(text, usedLabels, counter);
        counter := counter + 1;
        var suffix := "_" + Decimal.Print(counter);
        emitted := TruncateIdentifier(text, 63 - |suffix|);
        assert suffix == Suffix("", counter);
        emitted := emitted + suffix;
      }
      LabelAttempt(text, usedLabels, counter);
      TransportKeepsConsistent(transportLabels, usedLabels, text);
      transportLabels := transportLabels[text := emitted];
      usedLabels := usedLabels + {emitted};
    }

    method UnusedLabel(prefix: string, targetLabels: set<string>) returns (presence: string)
      ensures presence == FreshLabel(prefix, usedLabels + targetLabels)
    {
      ghost var taken := usedLabels + targetLabels;
      presence := TruncateIdentifier(prefix, 63);
      var counter := 0;
      while presence in usedLabels || presence in targetLabels
        invariant presence == LabelCandidate(prefix, counter)
        invariant LabelFrom(prefix, taken, counter) == FreshLabel(prefix, taken)
        decreases LabelsLeft(prefix, taken, counter)
      {
        LabelAttempt(prefix, taken, counter);
        counter := counter + 1;
        presence := NumberedLabel(prefix, counter);
      }
      LabelAttempt(prefix, taken, counter);
    }

    static method NumberedLabel(prefix: string, counter: nat) returns (numbered: string)
      requires counter > 0
      ensures numbered == LabelCandidate(prefix, counter)
    {
      var suffix := "_" + Decimal.Print(counter);
      assert suffix == Suffix("", counter);
      numbered := TruncateIdentifier(prefix, 63 - |suffix|);
      numbered := numbered + suffix;
    }

    method PresenceLabel(prefix: string, targetLabels: set<string>) returns (presence: string)
      requires Valid() && |usedLabels + targetLabels| < MAX_NAMES
      modifies this`usedLabels
      ensures Valid()
      ensures presence == FreshLabel(prefix, old(usedLabels) + targetLabels)
      ensures presence !in old(usedLabels) + targetLabels && Bytes(presence) <= 63
      ensures usedLabels == old(usedLabels) + {presence}
    {
      presence := UnusedLabel(prefix, targetLabels);
      FreshLabelIsFresh(prefix, usedLabels + targetLabels);
      ConsistentWithMore(transportLabels, usedLabels, presence);
      usedLabels := usedLabels + {presence};
    }
  }

  ghost predicate Consistent(labels: map<string, string>, used: set<string>) {
    && (forall l :: l in labels ==> labels[l] in used && Bytes(labels[l]) <= 63)
    && (forall l, m :: l in labels && m in labels && labels[l] == labels[m] ==> l == m)
  }

  lemma ConsistentWithMore(labels: map<string, string>, used: set<string>, more: string)
    requires Consistent(labels, used)
    ensures Consistent(labels, used + {more})
  {
  }

  /** One request: the known text, or a fresh one that is then known and used. */
  function Transport(labels: map<string, string>, used: set<string>, text: string)
    : (map<string, string>, set<string>, string)
  {
    if text in labels then (labels, used, labels[text])
    else
      var emitted := FreshLabel(text, used);
      (labels[text := emitted], used + {emitted}, emitted)
  }

  lemma TransportKeepsConsistent(labels: map<string, string>, used: set<string>, text: string)
    requires Consistent(labels, used) && |used| < MAX_NAMES
    ensures var (labels', used', emitted) := Transport(labels, used, text);
      Consistent(labels', used') && emitted == labels'[text] && |used'| <= |used| + 1 &&
      forall l :: l in labels ==> l in labels' && labels'[l] == labels[l]
  {
    if text !in labels { FreshLabelIsFresh(text, used); }
  }

  /** A sequence of requests, answered in order. */
  function TransportAll(labels: map<string, string>, used: set<string>, requests: seq<string>)
    : (map<string, string>, seq<string>)
    decreases |requests|
  {
    if requests == [] then (labels, [])
    else
      var (labels1, used1, emitted) := Transport(labels, used, requests[0]);
      var (labels2, rest) := TransportAll(labels1, used1, requests[1..]);
      (labels2, [emitted] + rest)
  }

  /**
   For any sequence of requests, equal labels get equal answers, different labels get
   different answers, and every answer fits in 63 bytes.
   */
  lemma {:induction false} TransportIsInjective(labels: map<string, string>, used: set<string>, requests: seq<string>)
    requires Consistent(labels, used) && |used| + |requests| < MAX_NAMES
    ensures var (labels', answers) := TransportAll(labels, used, requests);
      |answers| == |requests| &&
      (forall l :: l in labels ==> l in labels' && labels'[l] == labels[l]) &&
      (forall l, m :: l in labels' && m in labels' && labels'[l] == labels'[m] ==> l == m) &&
      (forall i :: 0 <= i < |requests| ==>
         requests[i] in labels' && answers[i] == labels'[requests[i]] && Bytes(answers[i]) <= 63)
    decreases |requests|
  {
    if requests != [] {
      var (labels1, used1, emitted) := Transport(labels, used, requests[0]);
      TransportKeepsConsistent(labels, used, requests[0]);
      TransportIsInjective(labels1, used1, requests[1..]);
      var (labels2, rest) := TransportAll(labels1, used1, requests[1..]);
      forall i | 0 <= i < |requests|
        ensures requests[i] in labels2 && ([emitted] + rest)[i] == labels2[requests[i]] &&
                Bytes(([emitted] + rest)[i]) <= 63
      {
        if i > 0 { assert requests[i] == requests[1..][i - 1]; }
      }
    }
  }
}
