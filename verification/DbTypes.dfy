/**
 Qualified type names as text: packages/adapter-pgsql/src/db-type.ts:156-254, 424-448 and 501-511.
 A delimited identifier doubles the quotes inside it (section 5.2 of ISO/IEC 9075-2).
 */
module DbTypes {
  import opened Common
  import opened Deparser
  import Decimal

  // --- characters and trimming -----------------------------------------------------------------------------

  predicate IsLineTerminator(c: char) { c == '\n' || c == '\r' || c as int == 0x2028 || c as int == 0x2029 }

  /** What `trim` and \s take for white space. */
  predicate IsWhite(c: char) {
    var n := c as int;
    n == 0x20 || 0x09 <= n <= 0x0d || n == 0xa0 || n == 0x1680 || 0x2000 <= n <= 0x200a ||
    n == 0x2028 || n == 0x2029 || n == 0x202f || n == 0x205f || n == 0x3000 || n == 0xfeff
  }

  function TrimStart(s: string): string { if s != [] && IsWhite(s[0]) then TrimStart(s[1..]) else s }

  function TrimEnd(s: string): string
    decreases |s|
  {
    if s != [] && IsWhite(s[|s| - 1]) then TrimEnd(s[..|s| - 1]) else s
  }

  function Trim(s: string): string { TrimEnd(TrimStart(s)) }

  /** Starts and ends in something that is not white space. */
  predicate Tight(s: string) { s != [] && !IsWhite(s[0]) && !IsWhite(s[|s| - 1]) }

  /** Runs of white space become one space. */
  function Squeeze(s: string): string {
    if s == [] then []
    else if IsWhite(s[0]) then
      if |s| > 1 && IsWhite(s[1]) then Squeeze(s[1..]) else " " + Squeeze(s[1..])
    else [s[0]] + Squeeze(s[1..])
  }

  lemma {:induction false} SqueezeNothing(s: string)
    requires forall i | 0 <= i < |s| :: !IsWhite(s[i])
    ensures Squeeze(s) == s
  {
    if s != [] { SqueezeNothing(s[1..]); }
  }

  function NormalizeBase(base: string): string {
    var trimmed := Trim(base);
    if '"' in trimmed then trimmed else Squeeze(trimmed)
  }

  // --- quoting and unquoting ---------------------------------------------------------------------------------

  function QuoteTypeSchemaIdentifier(raw: string): string { Quote(raw, '"') }

  function QuoteTypeIdentifier(raw: string): string { if IsPlain(raw) then raw else Quote(raw, '"') }

  /** `replace(/""/g, '"')` */
  function Undouble(s: string): string {
    if s == [] then []
    else if |s| > 1 && s[0] == '"' && s[1] == '"' then "\"" + Undouble(s[2..])
    else [s[0]] + Undouble(s[1..])
  }

  function UnquoteIdentifier(id: string): string {
    var t := Trim(id);
    if |t| >= 2 && t[0] == '"' && t[|t| - 1] == '"' then Undouble(t[1..|t| - 1]) else t
  }

  lemma {:induction false} UndoubleDouble(s: string)
    ensures Undouble(Double(s, '"')) == s
  {
    if s != [] {
      var d := Double(s, '"');
      UndoubleDouble(s[1..]);
      if s[0] == '"' {
        assert d[2..] == Double(s[1..], '"');
        assert "\"" + s[1..] == s;
      } else {
        assert d[1..] == Double(s[1..], '"');
        assert [s[0]] + s[1..] == s;
      }
    }
  }

  /** Unquoting a quoted name gives the raw name back, whatever characters it has. */
  lemma UnquoteQuoted(raw: string)
    ensures UnquoteIdentifier(QuoteTypeSchemaIdentifier(raw)) == raw
    ensures UnquoteIdentifier(QuoteTypeIdentifier(raw)) == raw
  {
    var q := Quote(raw, '"');
    UndoubleDouble(raw);
    assert Trim(q) == q;
    assert q[1..|q| - 1] == Double(raw, '"');
    if IsPlain(raw) { assert Tight(raw) && Trim(raw) == raw; }
  }

  // --- qualified names -----------------------------------------------------------------------------------------

  predicate IsUnquoted(s: string) {
    s != [] && !Decimal.IsDigit(s[0]) &&
    forall i | 0 <= i < |s| :: IsLower(s[i]) || IsUpper(s[i]) || s[i] == '_' || Decimal.IsDigit(s[i])
  }

  /** Every quote is doubled. */
  predicate Paired(s: string) {
    s == [] || (s[0] != '"' && Paired(s[1..])) || (|s| > 1 && s[0] == '"' && s[1] == '"' && Paired(s[2..]))
  }

  predicate IsQuoted(s: string) {
    |s| > 2 && s[0] == '"' && s[|s| - 1] == '"' && Paired(s[1..|s| - 1])
  }

  predicate IsIdentifier(s: string) { IsUnquoted(s) || IsQuoted(s) }

  /** The two halves around a dot. */
  predicate SplitsAt(s: string, i: nat)
    requires i < |s|
  {
    s[i] == '.' && IsIdentifier(s[..i]) && IsIdentifier(s[i + 1..])
  }

  /** The pattern of a schema-qualified name. */
  predicate IsQualified(s: string) { exists i | 0 <= i < |s| :: SplitsAt(s, i) }

  /** The scan for the first dot outside quotes, from position i on. */
  function Scan(s: string, i: nat, inQuote: bool): Option<nat>
    requires i <= |s|
    decreases |s| - i
  {
    if i == |s| then None
    else if s[i] == '"' then
      if inQuote && i + 1 < |s| && s[i + 1] == '"' then Scan(s, i + 2, inQuote) else Scan(s, i + 1, !inQuote)
    else if s[i] == '.' && !inQuote then Some(i)
    else Scan(s, i + 1, inQuote)
  }

  lemma {:induction false} ScanQuotedPart(s: string, i: nat, end: nat)
    requires i <= end < |s| && Paired(s[i..end]) && s[end] == '"' && (end + 1 < |s| ==> s[end + 1] != '"')
    ensures Scan(s, i, true) == Scan(s, end + 1, false)
    decreases end - i
  {
    if i < end {
      var t := s[i..end];
      if t[0] != '"' {
        assert t[1..] == s[i + 1..end];
        ScanQuotedPart(s, i + 1, end);
      } else {
        assert t[2..] == s[i + 2..end];
        assert s[i + 1] == t[1] == '"';
        ScanQuotedPart(s, i + 2, end);
      }
    }
  }

  lemma {:induction false} ScanUnquotedPart(s: string, i: nat, end: nat)
    requires i <= end <= |s| && forall j | i <= j < end :: s[j] != '"' && s[j] != '.'
    ensures Scan(s, i, false) == Scan(s, end, false)
    decreases end - i
  {
    if i < end { ScanUnquotedPart(s, i + 1, end); }
  }

  /** The scan stops at the dot between two identifiers, and at no other. */
  lemma ScanFindsSplit(s: string, i: nat)
    requires i < |s| && SplitsAt(s, i)
    ensures Scan(s, 0, false) == Some(i)
  {
    var a := s[..i];
    if IsQuoted(a) {
      assert s[1..i - 1] == a[1..|a| - 1];
      assert s[i - 1] == a[i - 1] == '"' && s[0] == a[0] == '"';
      ScanQuotedPart(s, 1, i - 1);
    } else {
      forall j | 0 <= j < i ensures s[j] != '"' && s[j] != '.' { assert s[j] == a[j]; }
      ScanUnquotedPart(s, 0, i);
    }
  }

  datatype Halves = Halves(schema: string, name: string)

  /** `splitQualifiedIdentifier` */
  function SplitQualified(base: string): Option<Halves> {
    var s := NormalizeBase(base);
    if !IsQualified(s) then None
    else
      match Scan(s, 0, false)
      case None => None
      case Some(i) => if i < |s| then Some(Halves(s[..i], s[i + 1..])) else None
  }

  /** Splits exactly the qualified names, into the two identifiers around the dot. */
  lemma SplitIsExact(base: string)
    ensures SplitQualified(base).Some? <==> IsQualified(NormalizeBase(base))
    ensures SplitQualified(base).Some? ==>
      var h := SplitQualified(base).value;
      IsIdentifier(h.schema) && IsIdentifier(h.name) && h.schema + "." + h.name == NormalizeBase(base)
  {
    var s := NormalizeBase(base);
    if IsQualified(s) {
      var i :| 0 <= i < |s| && SplitsAt(s, i);
      ScanFindsSplit(s, i);
      assert s[..i] + "." + s[i + 1..] == s;
    }
  }

  lemma IdentifierIsTight(s: string)
    requires IsIdentifier(s)
    ensures Tight(s)
  {
  }

  lemma TightIsTrimmed(s: string)
    requires Tight(s)
    ensures Trim(s) == s
  {
  }

  /** Two identifiers joined by a dot are normal already. */
  lemma QualifiedIsNormal(a: string, b: string)
    requires IsIdentifier(a) && IsIdentifier(b)
    ensures var s := a + "." + b; Tight(s) && NormalizeBase(s) == s
  {
    var s := a + "." + b;
    IdentifierIsTight(a);
    IdentifierIsTight(b);
    assert s[0] == a[0] && s[|s| - 1] == b[|b| - 1];
    TightIsTrimmed(s);
    if '"' !in s {
      forall i | 0 <= i < |s| ensures !IsWhite(s[i]) {
        if i < |a| {
          assert s[i] == a[i];
          assert a[0] in s;
        } else if i > |a| {
          assert s[i] == b[i - |a| - 1];
          assert b[0] in s;
        }
        assert s[0] == a[0] && s[|a| + 1] == b[0];
      }
      SqueezeNothing(s);
    }
  }

  /** Any two identifiers joined by a dot split into the two again. */
  lemma SplitOfJoined(a: string, b: string)
    requires IsIdentifier(a) && IsIdentifier(b)
    ensures SplitQualified(a + "." + b) == Some(Halves(a, b))
  {
    var s := a + "." + b;
    QualifiedIsNormal(a, b);
    assert s[..|a|] == a && s[|a| + 1..] == b && SplitsAt(s, |a|);
    ScanFindsSplit(s, |a|);
  }

  lemma {:induction false} DoubleIsPaired(s: string)
    ensures Paired(Double(s, '"')) && (s != [] ==> Double(s, '"') != [])
  {
    if s != [] {
      var d := Double(s, '"');
      DoubleIsPaired(s[1..]);
      if s[0] == '"' { assert d[2..] == Double(s[1..], '"'); } else { assert d[1..] == Double(s[1..], '"'); }
    }
  }

  lemma QuotedIsIdentifier(raw: string)
    requires raw != []
    ensures IsQuoted(QuoteTypeSchemaIdentifier(raw)) && IsIdentifier(QuoteTypeIdentifier(raw))
  {
    var q := Quote(raw, '"');
    DoubleIsPaired(raw);
    assert q[1..|q| - 1] == Double(raw, '"');
  }

  /**
   For all non-empty schema and type names, quotes and dots included: the quoted qualified name splits
   into the two quoted halves, and they unquote to the names.
   */
  lemma QualifiedRoundTrip(schema: string, name: string)
    requires schema != [] && name != []
    ensures var h := SplitQualified(QuoteTypeSchemaIdentifier(schema) + "." + QuoteTypeIdentifier(name));
      && h == Some(Halves(QuoteTypeSchemaIdentifier(schema), QuoteTypeIdentifier(name)))
      && UnquoteIdentifier(h.value.schema) == schema
      && UnquoteIdentifier(h.value.name) == name
  {
    QuotedIsIdentifier(schema);
    QuotedIsIdentifier(name);
    SplitOfJoined(QuoteTypeSchemaIdentifier(schema), QuoteTypeIdentifier(name));
    UnquoteQuoted(schema);
    UnquoteQuoted(name);
  }

  /** One pass with a flag for being inside quotes. */
  method FirstDot(normalized: string) returns (r: Option<nat>)
    ensures r == Scan(normalized, 0, false)
  {
    var inQuote := false;
    var i := 0;
    while i < |normalized|
      invariant i <= |normalized| && Scan(normalized, i, inQuote) == Scan(normalized, 0, false)
    {
      var ch := normalized[i];
      if ch == '"' {
        if inQuote && i + 1 < |normalized| && normalized[i + 1] == '"' {
          i := i + 1;
        } else {
          inQuote := !inQuote;
        }
      } else if ch == '.' && !inQuote {
        return Some(i);
      }
      i := i + 1;
    }
    r := None;
  }

  method SplitQualifiedIdentifier(base: string) returns (r: Option<Halves>)
    ensures r == SplitQualified(base)
    ensures r.Some? <==> IsQualified(NormalizeBase(base))
    ensures r.Some? ==> IsIdentifier(r.value.schema) && IsIdentifier(r.value.name) &&
                        r.value.schema + "." + r.value.name == NormalizeBase(base)
  {
    SplitIsExact(base);
    var normalized := NormalizeBase(base);
    if !IsQualified(normalized) { return None; }
    var dot := FirstDot(normalized);
    if dot.None? || dot.value >= |normalized| { return None; }
    r := Some(Halves(normalized[..dot.value], normalized[dot.value + 1..]));
  }

  // --- types with modifiers and array suffixes ---------------------------------------------------------------

  datatype WithModifier = WithModifier(base: string, modifier: Option<string>)

  function LastOpen(s: string): (r: Option<nat>)
    ensures r.Some? ==> r.value < |s| && s[r.value] == '(' && '(' !in s[r.value + 1..]
    ensures r.None? ==> '(' !in s
  {
    if s == [] then None
    else
      match LastOpen(s[1..])
      case Some(i) => Some(i + 1)
      case None => if s[0] == '(' then Some(0) else None
  }

  predicate HasLineTerminator(s: string) { exists i | 0 <= i < |s| :: IsLineTerminator(s[i]) }

  /** The pattern /^(.*)\(([^()]*)\)$/, whose dot does not match line terminators. */
  predicate MatchesModifier(s: string) {
    s != [] && s[|s| - 1] == ')' && LastOpen(s).Some? &&
    ')' !in s[LastOpen(s).value + 1..|s| - 1] && !HasLineTerminator(s[..LastOpen(s).value])
  }

  function SplitTrailingModifier(s: string): WithModifier {
    if !MatchesModifier(s) then WithModifier(Trim(s), None)
    else
      var j := LastOpen(s).value;
      WithModifier(TrimEnd(s[..j]), Some(Trim(s[j + 1..|s| - 1])))
  }

  datatype SplitType = SplitType(base: string, modifier: Option<string>, isArray: bool)

  predicate EndsWith(s: string, suffix: string) { |s| >= |suffix| && s[|s| - |suffix|..] == suffix }

  function LowerChar(c: char): char { if IsUpper(c) then c - 'A' + 'a' else c }

  function ToLower(s: string): (r: string)
    ensures |r| == |s|
  {
    seq(|s|, i requires 0 <= i < |s| => LowerChar(s[i]))
  }

  const ZONES := [" without time zone", " with time zone"]

  /** A temporal type whose modifier stands before its time zone. */
  function Temporal(rest: string, suffix: string): Option<WithModifier> {
    if !EndsWith(ToLower(rest), suffix) then None
    else
      var temporal := SplitTrailingModifier(TrimEnd(rest[..|rest| - |suffix|]));
      var base := ToLower(NormalizeBase(temporal.base));
      if base == "timestamp" || base == "time" then
        Some(WithModifier(NormalizeBase(temporal.base + suffix), temporal.modifier))
      else None
  }

  function SplitDbType(input: string): SplitType {
    var trimmed := Trim(input);
    var isArray := EndsWith(trimmed, "[]");
    var rest := if isArray then TrimEnd(trimmed[..|trimmed| - 2]) else trimmed;
    match Temporal(rest, ZONES[0])
    case Some(t) => SplitType(t.base, t.modifier, isArray)
    case None =>
      match Temporal(rest, ZONES[1])
      case Some(t) => SplitType(t.base, t.modifier, isArray)
      case None =>
        var t := SplitTrailingModifier(rest);
        SplitType(NormalizeBase(t.base), t.modifier, isArray)
  }

  function ModifierText(modifier: Option<string>): string {
    if modifier.Some? then "(" + modifier.value + ")" else ""
  }

  function ArrayText(isArray: bool): string { if isArray then "[]" else "" }

  function StripDbTypeSchema(dbType: string): string {
    var t := SplitDbType(dbType);
    match SplitQualified(t.base)
    case None => dbType
    case Some(h) => h.name + ModifierText(t.modifier) + ArrayText(t.isArray)
  }

  /** A modifier as written between parentheses: nothing to trim and no parenthesis inside. */
  predicate IsModifier(m: string) { Trim(m) == m && '(' !in m && ')' !in m }

  function Qualified(schema: string, name: string): string {
    QuoteTypeSchemaIdentifier(schema) + "." + QuoteTypeIdentifier(name)
  }

  lemma {:induction false} LastOpenIs(s: string, j: nat)
    requires j < |s| && s[j] == '(' && '(' !in s[j + 1..]
    ensures LastOpen(s) == Some(j)
  {
    if j > 0 {
      assert s[1..][j..] == s[j + 1..];
      LastOpenIs(s[1..], j - 1);
    }
  }

  /** A modifier after a text is found exactly when the text has no line terminator. */
  lemma ModifierFound(base: string, m: string)
    requires Tight(base) && IsModifier(m)
    ensures var s := base + "(" + m + ")";
      SplitTrailingModifier(s) == if HasLineTerminator(base) then WithModifier(s, None) else WithModifier(base, Some(m))
  {
    var s := base + "(" + m + ")";
    PartsAroundOpen(base, m);
    LastOpenIs(s, |base|);
    assert s[0] == base[0] && s[|s| - 1] == ')';
    TightIsTrimmed(s);
    TightIsTrimmed(base);
    assert TrimEnd(base) == base;
  }

  lemma PartsAroundOpen(base: string, m: string)
    ensures var s := base + "(" + m + ")";
      s[|base|] == '(' && s[..|base|] == base && s[|base| + 1..|s| - 1] == m && s[|base| + 1..] == m + ")"
  {
  }

  lemma NoModifierFound(s: string)
    requires Tight(s) && s[|s| - 1] != ')'
    ensures SplitTrailingModifier(s) == WithModifier(s, None)
  {
    TightIsTrimmed(s);
  }

  /** A text ends differently from a suffix if they differ p characters from the end. */
  lemma DiffersAt(s: string, suffix: string, p: nat)
    requires 1 <= p <= |suffix| <= |s| && s[|s| - p] != suffix[|suffix| - p]
    ensures !EndsWith(s, suffix)
  {
    assert s[|s| - |suffix|..][|suffix| - p] == s[|s| - p];
  }

  lemma ZonesAreWords(suffix: string)
    requires suffix in ZONES
    ensures |suffix| >= 15 && suffix[|suffix| - 1] == 'e' && suffix[|suffix| - 5] == ' '
    ensures forall i | 0 <= i < |suffix| :: suffix[i] != '.'
  {
  }

  lemma NoZoneAfterMark(s: string, suffix: string)
    requires s != [] && (s[|s| - 1] == ')' || s[|s| - 1] == '"') && suffix in ZONES
    ensures !EndsWith(ToLower(s), suffix)
  {
    ZonesAreWords(suffix);
    if |s| >= |suffix| { DiffersAt(ToLower(s), suffix, 1); }
  }

  lemma NoZoneInPlain(front: string, name: string, suffix: string)
    requires IsPlain(name) && suffix in ZONES
    ensures !EndsWith(ToLower(front + "." + name), suffix)
  {
    var s := front + "." + name;
    ZonesAreWords(suffix);
    if |s| >= |suffix| {
      if |name| >= 5 {
        assert s[|s| - 5] == name[|name| - 5];
        DiffersAt(ToLower(s), suffix, 5);
      } else {
        assert s[|s| - (|name| + 1)] == '.';
        DiffersAt(ToLower(s), suffix, |name| + 1);
      }
    }
  }

  /** No qualified custom type is taken for a temporal one. */
  lemma NotTemporal(schema: string, name: string, modifier: Option<string>, suffix: string)
    requires name != [] && suffix in ZONES
    ensures Temporal(Qualified(schema, name) + ModifierText(modifier), suffix) == None
  {
    var s := Qualified(schema, name) + ModifierText(modifier);
    if modifier.Some? || !IsPlain(name) {
      assert s[|s| - 1] == if modifier.Some? then ')' else '"';
      NoZoneAfterMark(s, suffix);
    } else {
      NoZoneInPlain(QuoteTypeSchemaIdentifier(schema), name, suffix);
      assert s == QuoteTypeSchemaIdentifier(schema) + "." + name;
    }
  }

  /** A text that is not temporal, with or without an array suffix. */
  lemma SplitOfText(rest: string, isArray: bool)
    requires Tight(rest) && rest[|rest| - 1] != ']'
    requires Temporal(rest, ZONES[0]) == None && Temporal(rest, ZONES[1]) == None
    ensures var t := SplitTrailingModifier(rest);
      SplitDbType(rest + ArrayText(isArray)) == SplitType(NormalizeBase(t.base), t.modifier, isArray)
  {
    var input := rest + ArrayText(isArray);
    assert input[0] == rest[0];
    if isArray {
      assert input[|input| - 1] == ']' && input[|input| - 2..] == "[]" && input[..|input| - 2] == rest;
    } else {
      assert input == rest;
      if |rest| >= 2 { DiffersAt(rest, "[]", 1); }
    }
    TightIsTrimmed(input);
  }

  predicate EndsInName(s: string) {
    s != [] && !IsWhite(s[|s| - 1]) && s[|s| - 1] != ']' && s[|s| - 1] != ')'
  }

  lemma TypeEndsInName(raw: string)
    requires raw != []
    ensures EndsInName(QuoteTypeIdentifier(raw))
  {
    var n := QuoteTypeIdentifier(raw);
    assert n[|n| - 1] == if IsPlain(raw) then raw[|raw| - 1] else '"';
  }

  lemma QualifiedEnds(schema: string, name: string)
    requires schema != [] && name != []
    ensures var q := Qualified(schema, name); q[0] == '"' && EndsInName(q) && Tight(q)
  {
    var s, n := QuoteTypeSchemaIdentifier(schema), QuoteTypeIdentifier(name);
    TypeEndsInName(name);
    assert Qualified(schema, name)[0] == s[0] == '"';
    assert Qualified(schema, name)[|Qualified(schema, name)| - 1] == n[|n| - 1];
  }

  lemma RestIsTight(schema: string, name: string, modifier: Option<string>)
    requires schema != [] && name != []
    ensures var rest := Qualified(schema, name) + ModifierText(modifier);
      Tight(rest) && rest[|rest| - 1] != ']' && (modifier.None? ==> rest[|rest| - 1] != ')')
    ensures Tight(Qualified(schema, name))
  {
    var q, m := Qualified(schema, name), ModifierText(modifier);
    QualifiedEnds(schema, name);
    assert (q + m)[0] == q[0];
    if modifier.Some? {
      assert (q + m)[|q + m| - 1] == m[|m| - 1] == ')';
    } else {
      assert q + m == q;
    }
  }

  /** A text with a parenthesis at its end is no qualified name. */
  lemma NotQualified(s: string)
    requires s != [] && s[|s| - 1] == ')'
    ensures !IsQualified(s)
  {
    forall i | 0 <= i < |s| ensures !SplitsAt(s, i) {
      var b := s[i + 1..];
      if b != [] { assert b[|b| - 1] == ')'; }
    }
  }

  lemma SplitOfQualified(schema: string, name: string, modifier: Option<string>, isArray: bool)
    requires schema != [] && name != []
    ensures var rest := Qualified(schema, name) + ModifierText(modifier);
      var t := SplitTrailingModifier(rest);
      SplitDbType(rest + ArrayText(isArray)) == SplitType(NormalizeBase(t.base), t.modifier, isArray)
  {
    RestIsTight(schema, name, modifier);
    NotTemporal(schema, name, modifier, ZONES[0]);
    NotTemporal(schema, name, modifier, ZONES[1]);
    SplitOfText(Qualified(schema, name) + ModifierText(modifier), isArray);
  }

  lemma StripGiven(whole: string, t: SplitType)
    requires SplitDbType(whole) == t
    ensures StripDbTypeSchema(whole) ==
      match SplitQualified(t.base)
      case None => whole
      case Some(h) => h.name + ModifierText(t.modifier) + ArrayText(t.isArray)
  {
  }

  lemma ModifierOfQualified(schema: string, name: string, modifier: Option<string>)
    requires schema != [] && name != [] && (modifier.Some? ==> IsModifier(modifier.value))
    requires modifier.Some? ==> !HasLineTerminator(Qualified(schema, name))
    ensures SplitTrailingModifier(Qualified(schema, name) + ModifierText(modifier))
            == WithModifier(Qualified(schema, name), modifier)
  {
    if modifier.None? {
      BareIsTight(schema, name);
      NoModifierFound(Qualified(schema, name));
      assert Qualified(schema, name) + "" == Qualified(schema, name);
    } else {
      BareIsTight(schema, name);
      Regrouped(Qualified(schema, name), modifier.value);
      ModifierFound(Qualified(schema, name), modifier.value);
    }
  }

  lemma Regrouped(q: string, m: string)
    ensures q + ModifierText(Some(m)) == q + "(" + m + ")"
  {
  }

  lemma BareIsTight(schema: string, name: string)
    requires schema != [] && name != []
    ensures var q := Qualified(schema, name); Tight(q) && q[|q| - 1] != ')'
  {
    RestIsTight(schema, name, None);
    assert Qualified(schema, name) + "" == Qualified(schema, name);
  }

  /** Without a modifier, or with one that is found, the bare type is left. */
  lemma StripFound(schema: string, name: string, modifier: Option<string>, isArray: bool)
    requires schema != [] && name != [] && (modifier.Some? ==> IsModifier(modifier.value))
    requires modifier.Some? ==> !HasLineTerminator(Qualified(schema, name))
    ensures StripDbTypeSchema(Qualified(schema, name) + ModifierText(modifier) + ArrayText(isArray))
            == QuoteTypeIdentifier(name) + ModifierText(modifier) + ArrayText(isArray)
  {
    var whole := Qualified(schema, name) + ModifierText(modifier) + ArrayText(isArray);
    SplitOfQualified(schema, name, modifier, isArray);
    ModifierOfQualified(schema, name, modifier);
    NormalQualified(schema, name);
    StripGiven(whole, SplitType(Qualified(schema, name), modifier, isArray));
    QualifiedRoundTrip(schema, name);
  }

  lemma NormalQualified(schema: string, name: string)
    requires schema != [] && name != []
    ensures NormalizeBase(Qualified(schema, name)) == Qualified(schema, name)
  {
    QuotedIsIdentifier(schema);
    QuotedIsIdentifier(name);
    QualifiedIsNormal(QuoteTypeSchemaIdentifier(schema), QuoteTypeIdentifier(name));
  }

  lemma HiddenModifier(schema: string, name: string, modifier: string)
    requires schema != [] && name != [] && IsModifier(modifier) && HasLineTerminator(Qualified(schema, name))
    ensures var text := Qualified(schema, name) + ModifierText(Some(modifier));
      SplitTrailingModifier(text) == WithModifier(text, None) && SplitQualified(NormalizeBase(text)) == None
  {
    var q := Qualified(schema, name);
    var text := q + ModifierText(Some(modifier));
    RestIsTight(schema, name, Some(modifier));
    assert text == q + "(" + modifier + ")";
    ModifierFound(q, modifier);
    assert text[0] == '"' && text[|text| - 1] == ')';
    NotQualifiedText(text);
  }

  /** A modifier behind a line terminator is not found, and nothing is stripped. */
  lemma StripStuck(schema: string, name: string, modifier: string, isArray: bool)
    requires schema != [] && name != [] && IsModifier(modifier) && HasLineTerminator(Qualified(schema, name))
    ensures var whole := Qualified(schema, name) + ModifierText(Some(modifier)) + ArrayText(isArray);
      StripDbTypeSchema(whole) == whole
  {
    var text := Qualified(schema, name) + ModifierText(Some(modifier));
    SplitOfQualified(schema, name, Some(modifier), isArray);
    HiddenModifier(schema, name, modifier);
    StripGiven(text + ArrayText(isArray), SplitType(NormalizeBase(text), None, isArray));
  }

  /**
   Stripping the schema from a qualified type leaves the bare type with its modifier and array suffix,
   exactly when there is no modifier or no line terminator in the schema or the name; otherwise the
   text comes back as it was.
   */
  lemma StripKeepsBareType(schema: string, name: string, modifier: Option<string>, isArray: bool)
    requires schema != [] && name != [] && (modifier.Some? ==> IsModifier(modifier.value))
    ensures var whole := Qualified(schema, name) + ModifierText(modifier) + ArrayText(isArray);
      StripDbTypeSchema(whole) ==
        if modifier.Some? && (HasLineTerminator(schema) || HasLineTerminator(name)) then whole
        else QuoteTypeIdentifier(name) + ModifierText(modifier) + ArrayText(isArray)
  {
    LineTerminatorsOfNames(schema, name);
    if modifier.Some? && (HasLineTerminator(schema) || HasLineTerminator(name)) {
      StripStuck(schema, name, modifier.value, isArray);
    } else {
      StripFound(schema, name, modifier, isArray);
    }
  }

  /** A schema that ends in a line feed stays in front of `b(3)`. */
  lemma LineTerminatorExample()
    ensures var whole := Qualified("a\n", "b") + ModifierText(Some("3"));
      StripDbTypeSchema(whole) == whole
  {
    assert "a\n"[1] == '\n';
    assert HasLineTerminator("a\n");
    ThreeIsModifier();
    StripKeepsBareType("a\n", "b", Some("3"), false);
    assert Qualified("a\n", "b") + ModifierText(Some("3")) + ArrayText(false) ==
           Qualified("a\n", "b") + ModifierText(Some("3"));
  }

  lemma ThreeIsModifier()
    ensures IsModifier("3")
  {
  }

  lemma NotQualifiedText(s: string)
    requires Tight(s) && s[|s| - 1] == ')' && '"' in s
    ensures SplitQualified(NormalizeBase(s)) == None
  {
    TightIsTrimmed(s);
    NotQualified(s);
  }

  /** The line terminators of a qualified name are those of the raw names. */
  lemma LineTerminatorsOfNames(schema: string, name: string)
    ensures HasLineTerminator(Qualified(schema, name)) <==> HasLineTerminator(schema) || HasLineTerminator(name)
  {
    var q, n := QuoteTypeSchemaIdentifier(schema), QuoteTypeIdentifier(name);
    TerminatorsOfQuote(schema);
    TerminatorsOfQuote(name);
    TerminatorsConcat(q, ".");
    TerminatorsConcat(q + ".", n);
  }

  lemma TerminatorsConcat(a: string, b: string)
    ensures HasLineTerminator(a + b) <==> HasLineTerminator(a) || HasLineTerminator(b)
  {
    if HasLineTerminator(a) {
      var i :| 0 <= i < |a| && IsLineTerminator(a[i]);
      assert (a + b)[i] == a[i];
    }
    if HasLineTerminator(b) {
      var i :| 0 <= i < |b| && IsLineTerminator(b[i]);
      assert (a + b)[|a| + i] == b[i];
    }
  }

  lemma {:induction false} TerminatorsOfDouble(s: string)
    ensures HasLineTerminator(Double(s, '"')) <==> HasLineTerminator(s)
  {
    if s != [] {
      TerminatorsOfDouble(s[1..]);
      var head := if s[0] == '"' then ['"', '"'] else [s[0]];
      TerminatorsConcat(head, Double(s[1..], '"'));
      TerminatorsConcat([s[0]], s[1..]);
      assert [s[0]] + s[1..] == s;
      assert HasLineTerminator(head) <==> HasLineTerminator([s[0]]) by {
        assert [s[0]][0] == s[0] && head[0] == s[0];
      }
    }
  }

  lemma TerminatorsOfQuote(s: string)
    ensures HasLineTerminator(Quote(s, '"')) <==> HasLineTerminator(s)
  {
    TerminatorsOfDouble(s);
    TerminatorsConcat(['"'], Double(s, '"'));
    TerminatorsConcat(['"'] + Double(s, '"'), ['"']);
  }
}
